/** The durable Agent task tables and their transactions (utils/agent_tasks.py). */
module AgentModel {
  import opened Values

  datatype TaskState = Queued | Running | Delivering | CancelRequested | Completed | Failed | Cancelled | RecoveryRequired

  predicate Terminal(s: TaskState) {
    s.Completed? || s.Failed? || s.Cancelled? || s.RecoveryRequired?
  }

  predicate Active(s: TaskState) {
    s.Running? || s.Delivering? || s.CancelRequested?
  }

  /** A row of agent_tasks. Its uuid is modelled by its index in the table. */
  datatype Task = Task(
    owner: string,
    submissionKey: string,
    job: string,
    recoveryOnly: bool,
    state: TaskState,
    created: int,
    updated: int,
    lease: Option<nat>,
    leaseUntil: int,
    checkpoint: Option<string>,
    result: Option<string>,
    error: string)

  /** A row of agent_events. `writer` is the lease that inserted it; the table does not keep
      it, it is here so that properties can speak about who wrote what. */
  datatype Entry = Entry(task: nat, event: string, writer: nat)

  /** A row of agent_children. */
  datatype Child = Child(task: nat, key: string, fingerprint: string, promptId: string, response: Option<string>)

  /** `nextLease` supplies the fresh tokens that uuid4 supplies in the code. */
  datatype Agents = Agents(tasks: seq<Task>, events: seq<Entry>, children: seq<Child>, nextLease: nat)

  const EMPTY := Agents([], [], [], 0)

  /** The limits of the store; the constructor raises each to at least one. */
  datatype Limits = Limits(concurrency: nat, perUser: nat, pendingPerUser: nat)

  const LEASE_SECONDS := 90

  datatype AgentError = PendingLimit | LeaseLost | InvalidState | NotRecoverable | NothingSaved | NotRunning | KeyReused

  // ---- Reading -----------------------------------------------------------------------

  ghost function Leased(a: Agents): set<nat> {
    set i: nat | i < |a.tasks| && a.tasks[i].lease.Some?
  }

  ghost function LeasedBy(a: Agents, owner: string): set<nat> {
    set i: nat | i < |a.tasks| && a.tasks[i].lease.Some? && a.tasks[i].owner == owner
  }

  ghost function PendingOf(a: Agents, owner: string): set<nat> {
    set i: nat | i < |a.tasks| && a.tasks[i].owner == owner && !Terminal(a.tasks[i].state)
  }

  function FindSubmission(tasks: seq<Task>, owner: string, key: string): (r: Option<nat>)
    ensures r.Some? ==> r.value < |tasks| && tasks[r.value].owner == owner && tasks[r.value].submissionKey == key
    ensures r.None? ==> forall i :: 0 <= i < |tasks| ==> !(tasks[i].owner == owner && tasks[i].submissionKey == key)
  {
    if tasks == [] then None
    else if tasks[|tasks| - 1].owner == owner && tasks[|tasks| - 1].submissionKey == key then Some(|tasks| - 1)
    else FindSubmission(tasks[..|tasks| - 1], owner, key)
  }

  function FindChild(children: seq<Child>, task: nat, key: string): (r: Option<nat>)
    ensures r.Some? ==> r.value < |children| && children[r.value].task == task && children[r.value].key == key
    ensures r.None? ==> forall i :: 0 <= i < |children| ==> !(children[i].task == task && children[i].key == key)
  {
    if children == [] then None
    else if children[|children| - 1].task == task && children[|children| - 1].key == key then Some(|children| - 1)
    else FindChild(children[..|children| - 1], task, key)
  }

  predicate HasChild(a: Agents, task: nat) {
    exists c :: 0 <= c < |a.children| && a.children[c].task == task
  }

  ghost predicate Claimable(a: Agents, i: nat, lim: Limits)
    requires i < |a.tasks|
  {
    a.tasks[i].state == Queued && |LeasedBy(a, a.tasks[i].owner)| < lim.perUser
  }

  /** The oldest claimable row below `n`; rows created at the same instant in table order. */
  ghost function OldestBelow(a: Agents, lim: Limits, n: nat): (r: Option<nat>)
    requires n <= |a.tasks|
    ensures r.Some? ==> r.value < n && Claimable(a, r.value, lim)
                        && forall j: nat :: j < n && Claimable(a, j, lim) ==> a.tasks[r.value].created <= a.tasks[j].created
    ensures r.None? ==> forall j: nat :: j < n ==> !Claimable(a, j, lim)
  {
    if n == 0 then None
    else
      var r := OldestBelow(a, lim, n - 1);
      if Claimable(a, n - 1, lim) && (r.None? || a.tasks[n - 1].created < a.tasks[r.value].created) then Some(n - 1) else r
  }

  // ---- Transactions ------------------------------------------------------------------

  const LOST := "lease lost"

  /** A row whose lease has run out: a delivery goes back to the queue, anything else stops. */
  function ExpiredRow(t: Task, now: int): Task {
    if Active(t.state) && t.leaseUntil < now
    then t.(state := if t.state == Delivering then Queued else RecoveryRequired, lease := None, updated := now, error := LOST)
    else t
  }

  function Expire(a: Agents, now: int): (r: Agents)
    ensures |r.tasks| == |a.tasks|
  {
    a.(tasks := seq(|a.tasks|, i requires 0 <= i < |a.tasks| => ExpiredRow(a.tasks[i], now)))
  }

  /** An idempotent submission: the same owner and key give the same row. */
  ghost function CreateStep(a: Agents, lim: Limits, owner: string, key: string, job: string, now: int)
    : (r: (Agents, Result<nat, AgentError>))
  {
    var known := FindSubmission(a.tasks, owner, key);
    if known.Some? then (a, Ok(known.value))
    else if |PendingOf(a, owner)| >= lim.pendingPerUser then (a, Err(PendingLimit))
    else (a.(tasks := a.tasks + [Task(owner, key, job, false, Queued, now, now, None, 0, None, None, "")]), Ok(|a.tasks|))
  }

  function ClaimedRow(t: Task, lease: nat, now: int): Task {
    t.(state := if t.checkpoint.Some? then Delivering else Running, lease := Some(lease),
    leaseUntil := now + LEASE_SECONDS, updated := now, error := "")
  }

  ghost function ClaimStep(a: Agents, lim: Limits, now: int): (r: (Agents, Option<nat>))
    ensures |r.0.tasks| == |a.tasks|
    ensures r.1.Some? ==> r.1.value < |a.tasks|
  {
    var b := Expire(a, now);
    if |Leased(b)| >= lim.concurrency then (b, None)
    else
      var pick := OldestBelow(b, lim, |b.tasks|);
      if pick.None? then (b, None)
      else (b.(tasks := b.tasks[pick.value := ClaimedRow(b.tasks[pick.value], b.nextLease, now)],
               nextLease := b.nextLease + 1), pick)
  }

  predicate HoldsLease(a: Agents, task: nat, lease: nat, now: int) {
    task < |a.tasks| && a.tasks[task].lease == Some(lease) && a.tasks[task].leaseUntil >= now
  }

  function Entries(task: nat, lease: nat, events: seq<string>): seq<Entry> {
    seq(|events|, i requires 0 <= i < |events| => Entry(task, events[i], lease))
  }

  /** The state that an update asks for, as far as a requested cancellation allows. */
  function Target(current: TaskState, asked: Option<TaskState>): TaskState {
    var target := if asked.Some? then asked.value else current;
    if current == CancelRequested && target == Completed then Cancelled else target
  }

  function Coalesce<T>(given: Option<T>, stored: Option<T>): Option<T> {
    if given.Some? then given else stored
  }

  function UpdatedRow(t: Task, lease: nat, checkpoint: Option<string>, asked: Option<TaskState>,
                      result: Option<string>, error: string, now: int): Task
  {
    var target := Target(t.state, asked);
    t.(state := target, updated := now, leaseUntil := now + LEASE_SECONDS,
    lease := if Terminal(target) then None else Some(lease),
    checkpoint := Coalesce(checkpoint, t.checkpoint), result := Coalesce(result, t.result),
    error := error[..Min(1000, |error|)])
  }

  function UpdateStep(a: Agents, task: nat, lease: nat, events: seq<string>, checkpoint: Option<string>,
                      asked: Option<TaskState>, result: Option<string>, error: string, now: int)
    : (r: (Agents, Result<TaskState, AgentError>))
  {
    if !HoldsLease(a, task, lease, now) then (a, Err(LeaseLost))
    else if asked.Some? && !Terminal(asked.value) && asked.value != Delivering then (a, Err(InvalidState))
    else
      (a.(tasks := a.tasks[task := UpdatedRow(a.tasks[task], lease, checkpoint, asked, result, error, now)],
       events := a.events + Entries(task, lease, events)),
       Ok(Target(a.tasks[task].state, asked)))
  }

  function CancelledTask(t: Task, now: int): Task {
    t.(state := if t.state == Queued then Cancelled else CancelRequested, updated := now)
  }

  function CancelStep(a: Agents, task: nat, owner: string, now: int): Agents {
    if task < |a.tasks| && a.tasks[task].owner == owner
       && (a.tasks[task].state.Queued? || a.tasks[task].state.Running? || a.tasks[task].state.Delivering?)
    then a.(tasks := a.tasks[task := CancelledTask(a.tasks[task], now)])
    else a
  }

  /** A refused recovery rolls back, including the expiry it began with. */
  function RecoverStep(a: Agents, task: nat, owner: string, now: int): (Agents, Result<(), AgentError>) {
    var b := Expire(a, now);
    if task >= |b.tasks| || b.tasks[task].owner != owner || b.tasks[task].state != RecoveryRequired then (a, Err(NotRecoverable))
    else if b.tasks[task].checkpoint.None? && !HasChild(b, task) then (a, Err(NothingSaved))
    else
      var t := b.tasks[task];
      (b.(tasks := b.tasks[task := t.(state := Queued, lease := None, error := "", updated := now,
                                      recoveryOnly := t.recoveryOnly || t.checkpoint.None?)]), Ok(()))
  }

  /** Reserve a child submission; the answer carries the row as read and whether it is new. */
  function ReserveStep(a: Agents, task: nat, key: string, fingerprint: string, promptId: string, now: int)
    : (r: (Agents, Result<(Child, bool), AgentError>))
  {
    if task >= |a.tasks| || a.tasks[task].state != Running || a.tasks[task].leaseUntil < now then (a, Err(NotRunning))
    else
      var row := FindChild(a.children, task, key);
      if row.Some? then
        if a.children[row.value].fingerprint != fingerprint then (a, Err(KeyReused))
        else (a, Ok((a.children[row.value], false)))
      else
        var child := Child(task, key, fingerprint, promptId, None);
        (a.(children := a.children + [child]), Ok((child, true)))
  }

  function RespondStep(a: Agents, promptId: string, response: string): Agents {
    a.(children := seq(|a.children|, c requires 0 <= c < |a.children| =>
      if a.children[c].promptId == promptId then a.children[c].(response := Some(response)) else a.children[c]))
  }

  // ---- Runs --------------------------------------------------------------------------

  datatype Op =
    | Create(owner: string, key: string, job: string)
    | Claim
    | Update(task: nat, lease: nat, events: seq<string>, checkpoint: Option<string>,
             asked: Option<TaskState>, result: Option<string>, error: string)
    | Cancel(task: nat, owner: string)
    | Recover(task: nat, owner: string)
    | Reserve(task: nat, key: string, fingerprint: string, promptId: string)
    | Respond(promptId: string, response: string)

  datatype Event = Event(op: Op, now: int)

  ghost function Apply(a: Agents, lim: Limits, e: Event): Agents {
    match e.op
    case Create(owner, key, job) => CreateStep(a, lim, owner, key, job, e.now).0
    case Claim => ClaimStep(a, lim, e.now).0
    case Update(task, lease, events, checkpoint, asked, result, error) =>
      UpdateStep(a, task, lease, events, checkpoint, asked, result, error, e.now).0
    case Cancel(task, owner) => CancelStep(a, task, owner, e.now)
    case Recover(task, owner) => RecoverStep(a, task, owner, e.now).0
    case Reserve(task, key, fingerprint, promptId) => ReserveStep(a, task, key, fingerprint, promptId, e.now).0
    case Respond(promptId, response) => RespondStep(a, promptId, response)
  }

  ghost function Run(a: Agents, lim: Limits, events: seq<Event>): Agents
    decreases |events|
  {
    if events == [] then a else Run(Apply(a, lim, events[0]), lim, events[1..])
  }

  function When(e: Event): int {
    e.now
  }
}
