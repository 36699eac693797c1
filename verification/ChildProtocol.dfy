/** Child submissions of an Agent and the cancellation of its task, step by step
    (utils/agent_task_routes.py). Each request is a process that advances one committed
    transaction at a time, while every other process does what it likes in between. */
module ChildProtocol {
  import opened Values
  import A = AgentModel
  import S = SchedulerModel
  import LogLines
  import SchedulerSafety

  /** What a submission request answers. */
  datatype Answer =
    | Unauthorized
    | Conflict(error: A.AgentError)
    | Fresh(response: string)
    | Recorded(response: string)
    | SamePrompt(promptId: string)
    | OutcomeUnknown

  /** How far a submission has come. */
  datatype Stage =
    | Checked
    | Duplicate(child: A.Child)
    | Reserved(promptId: string)
    | Handled(promptId: string, response: string)
    | Saved(promptId: string, response: string)
    | Withdrawing(promptId: string, response: string)
    | Done(answer: Answer)
    | Crashed

  datatype Submission = Submission(task: nat, owner: string, key: string, fingerprint: string, stage: Stage)

  /** A cancel request: the task is marked, the children are listed, then cancelled in turn. */
  datatype CancelStage = Marked | Listed(pending: seq<string>) | Finished

  datatype CancelCall = CancelCall(task: nat, owner: string, stage: CancelStage)

  /** `handled` lists the (task, key) pairs the downstream handler has run for. */
  datatype World = World(
    agents: A.Agents,
    queue: S.Tables,
    subs: seq<Submission>,
    cancels: seq<CancelCall>,
    handled: seq<(nat, string)>)

  datatype Step =
    | Submit(task: nat, owner: string, lease: nat, key: string, fingerprint: string)
    | Reserve(sub: nat, promptId: string)
    | AnswerDuplicate(sub: nat)
    | Handle(sub: nat, accepted: bool, cfg: S.Config, exempt: bool, number: real, nodeTypes: seq<string>, response: string)
    | Save(sub: nat)
    | Look(sub: nat)
    | Withdraw(sub: nat)
    | Crash(sub: nat)
    | StartCancel(task: nat, owner: string)
    | ListChildren(call: nat)
    | CancelNext(call: nat)
    | OtherAgent(agentOp: A.Op)
    | OtherQueue(queueOp: S.Op)

  datatype Event = Event(step: Step, now: int, files: LogLines.Files)

  function At(w: World, sub: nat, stage: Stage): World
    requires sub < |w.subs|
  {
    w.(subs := w.subs[sub := w.subs[sub].(stage := stage)])
  }

  /** The gate at the head of delegated. */
  predicate Admits(w: World, task: nat, owner: string, lease: nat, now: int) {
    && A.HoldsLease(w.agents, task, lease, now)
    && w.agents.tasks[task].owner == owner
    && (w.agents.tasks[task].state.Running? || w.agents.tasks[task].state.Delivering?)
  }

  function SubmitStep(w: World, s: Step, now: int): World
    requires s.Submit?
  {
    var stage := if Admits(w, s.task, s.owner, s.lease, now) then Checked else Done(Unauthorized);
    w.(subs := w.subs + [Submission(s.task, s.owner, s.key, s.fingerprint, stage)])
  }

  function ReserveStep(w: World, k: nat, promptId: string, now: int): World
    requires k < |w.subs|
  {
    var s := w.subs[k];
    var (agents, r) := A.ReserveStep(w.agents, s.task, s.key, s.fingerprint, promptId, now);
    match r
    case Err(e) => At(w, k, Done(Conflict(e)))
    case Ok((child, isNew)) => At(w.(agents := agents), k, if isNew then Reserved(child.promptId) else Duplicate(child))
  }

  function DuplicateStep(w: World, k: nat): World
    requires k < |w.subs| && w.subs[k].stage.Duplicate?
  {
    var child := w.subs[k].stage.child;
    At(w, k, Done(
      if child.response.Some? then Recorded(child.response.value)
      else if S.Find(w.queue.jobs, child.promptId).Some? then SamePrompt(child.promptId)
      else OutcomeUnknown))
  }

  /** The downstream handler: it may enqueue the job for the task's owner, or refuse it. */
  function HandleStep(w: World, s: Step, now: int): World
    requires s.Handle? && s.sub < |w.subs| && w.subs[s.sub].stage.Reserved?
  {
    var sub := w.subs[s.sub];
    var id := sub.stage.promptId;
    var logged := w.(handled := w.handled + [(sub.task, sub.key)]);
    var r := S.EnqueueStep(w.queue, s.cfg, S.Item(s.number, id, s.nodeTypes), sub.owner, s.exempt, "", now);
    if !s.accepted then At(logged, s.sub, Handled(id, s.response))
    else if r.Ok? then At(logged.(queue := r.value), s.sub, Handled(id, s.response))
    else At(logged, s.sub, Crashed)
  }

  function SaveStep(w: World, k: nat): World
    requires k < |w.subs| && w.subs[k].stage.Handled?
  {
    var st := w.subs[k].stage;
    At(w.(agents := A.RespondStep(w.agents, st.promptId, st.response)), k, Saved(st.promptId, st.response))
  }

  predicate StillRunning(w: World, task: nat) {
    task < |w.agents.tasks| && w.agents.tasks[task].state == A.Running
  }

  function LookStep(w: World, k: nat): World
    requires k < |w.subs| && w.subs[k].stage.Saved?
  {
    var st := w.subs[k].stage;
    At(w, k, if StillRunning(w, w.subs[k].task) then Done(Fresh(st.response)) else Withdrawing(st.promptId, st.response))
  }

  function WithdrawStep(w: World, k: nat, now: int): World
    requires k < |w.subs| && w.subs[k].stage.Withdrawing?
  {
    var st := w.subs[k].stage;
    At(w.(queue := S.CancelStep(w.queue, st.promptId, w.subs[k].owner, false, now).0), k, Done(Fresh(st.response)))
  }

  predicate Owns(w: World, task: nat, owner: string) {
    task < |w.agents.tasks| && w.agents.tasks[task].owner == owner
  }

  function StartCancelStep(w: World, task: nat, owner: string, now: int): World {
    if Owns(w, task, owner)
    then w.(agents := A.CancelStep(w.agents, task, owner, now), cancels := w.cancels + [CancelCall(task, owner, Marked)])
    else w
  }

  function ChildIds(children: seq<A.Child>, task: nat): (r: seq<string>)
    ensures forall c :: 0 <= c < |children| && children[c].task == task ==> children[c].promptId in r
  {
    if children == [] then []
    else
      ChildIds(children[..|children| - 1], task)
      + if children[|children| - 1].task == task then [children[|children| - 1].promptId] else []
  }

  function SetCall(w: World, c: nat, stage: CancelStage): World
    requires c < |w.cancels|
  {
    w.(cancels := w.cancels[c := w.cancels[c].(stage := stage)])
  }

  function CancelNextStep(w: World, c: nat, now: int): World
    requires c < |w.cancels| && w.cancels[c].stage.Listed?
  {
    var pending := w.cancels[c].stage.pending;
    if pending == [] then SetCall(w, c, Finished)
    else SetCall(w.(queue := S.CancelStep(w.queue, pending[0], w.cancels[c].owner, false, now).0), c, Listed(pending[1..]))
  }

  /** One committed step; a step that does not apply changes nothing. */
  ghost function Apply(w: World, lim: A.Limits, e: Event): World {
    match e.step
    case Submit(_, _, _, _, _) => SubmitStep(w, e.step, e.now)
    case Reserve(k, promptId) => if k < |w.subs| && w.subs[k].stage.Checked? then ReserveStep(w, k, promptId, e.now) else w
    case AnswerDuplicate(k) => if k < |w.subs| && w.subs[k].stage.Duplicate? then DuplicateStep(w, k) else w
    case Handle(k, _, _, _, _, _, _) => if k < |w.subs| && w.subs[k].stage.Reserved? then HandleStep(w, e.step, e.now) else w
    case Save(k) => if k < |w.subs| && w.subs[k].stage.Handled? then SaveStep(w, k) else w
    case Look(k) => if k < |w.subs| && w.subs[k].stage.Saved? then LookStep(w, k) else w
    case Withdraw(k) => if k < |w.subs| && w.subs[k].stage.Withdrawing? then WithdrawStep(w, k, e.now) else w
    case Crash(k) => if k < |w.subs| && !w.subs[k].stage.Done? then At(w, k, Crashed) else w
    case StartCancel(task, owner) => StartCancelStep(w, task, owner, e.now)
    case ListChildren(c) =>
      if c < |w.cancels| && w.cancels[c].stage.Marked?
      then SetCall(w, c, Listed(ChildIds(w.agents.children, w.cancels[c].task))) else w
    case CancelNext(c) => if c < |w.cancels| && w.cancels[c].stage.Listed? then CancelNextStep(w, c, e.now) else w
    case OtherAgent(op) => w.(agents := A.Apply(w.agents, lim, A.Event(op, e.now)))
    case OtherQueue(op) => w.(queue := S.Apply(w.queue, S.Event(op, e.now, e.files)))
  }

  ghost predicate Taken(w: World, id: string) {
    || S.Find(w.queue.jobs, id).Some?
    || exists c :: 0 <= c < |w.agents.children| && w.agents.children[c].promptId == id
  }

  /** uuid4 gives unused prompt ids; nobody else enqueues a reserved one; and only
      submissions reserve children and record their responses. */
  ghost predicate Legal(w: World, e: Event) {
    match e.step
    case Reserve(_, promptId) => !Taken(w, promptId)
    case OtherQueue(op) => op.Enqueue? ==> forall c :: 0 <= c < |w.agents.children| ==> w.agents.children[c].promptId != op.item.promptId
    case OtherAgent(op) => !op.Reserve? && !op.Respond?
    case _ => true
  }

  ghost function Run(w: World, lim: A.Limits, events: seq<Event>): World
    decreases |events|
  {
    if events == [] then w else Run(Apply(w, lim, events[0]), lim, events[1..])
  }

  ghost predicate LegalRun(w: World, lim: A.Limits, events: seq<Event>)
    decreases |events|
  {
    events != [] ==> Legal(w, events[0]) && LegalRun(Apply(w, lim, events[0]), lim, events[1..])
  }

  // ---- The invariant -----------------------------------------------------------------

  ghost predicate ChildrenOk(w: World) {
    && (forall c :: 0 <= c < |w.agents.children| ==> ChildOk(w, w.agents.children[c]))
    && (forall c, d :: 0 <= c < d < |w.agents.children| ==> Distinct(w.agents.children[c], w.agents.children[d]))
  }

  predicate Distinct(x: A.Child, y: A.Child) {
    x.promptId != y.promptId && (x.task, x.key) != (y.task, y.key)
  }

  /** The queue row of a child, if any, belongs to the owner of the task. */
  predicate ChildOk(w: World, child: A.Child) {
    && child.task < |w.agents.tasks|
    && var row := S.Find(w.queue.jobs, child.promptId);
       row.Some? ==> w.queue.jobs[row.value].owner == w.agents.tasks[child.task].owner
  }

  function ChildRow(w: World, s: Submission): Option<A.Child> {
    var row := A.FindChild(w.agents.children, s.task, s.key);
    if row.Some? then Some(w.agents.children[row.value]) else None
  }

  predicate Working(st: Stage) {
    st.Reserved? || st.Handled? || st.Saved? || st.Withdrawing?
  }

  predicate HasRow(w: World, s: Submission, id: string, response: Option<string>) {
    var child := ChildRow(w, s);
    child.Some? && child.value.promptId == id && child.value.response == response
  }

  ghost predicate StageOk(w: World, s: Submission) {
    match s.stage
    case Checked => true
    case Duplicate(child) =>
      var row := ChildRow(w, s);
      row.Some? && row.value.promptId == child.promptId && (child.response.Some? ==> row.value.response == child.response)
    case Reserved(id) =>
      HasRow(w, s, id, None) && S.Find(w.queue.jobs, id).None? && (s.task, s.key) !in w.handled
    case Handled(id, r) => HasRow(w, s, id, None)
    case Saved(id, r) => HasRow(w, s, id, Some(r))
    case Withdrawing(id, r) => HasRow(w, s, id, Some(r))
    case Crashed => true
    case Done(answer) => AnswerOk(w, s, answer)
  }

  /** A response answer is the recorded response of the child; the same-prompt answer names
      the child's prompt id, which is in the queue. */
  ghost predicate AnswerOk(w: World, s: Submission, answer: Answer) {
    match answer
    case Fresh(r) => ChildRow(w, s).Some? && ChildRow(w, s).value.response == Some(r)
    case Recorded(r) => ChildRow(w, s).Some? && ChildRow(w, s).value.response == Some(r)
    case SamePrompt(id) => ChildRow(w, s).Some? && ChildRow(w, s).value.promptId == id && S.Find(w.queue.jobs, id).Some?
    case _ => true
  }

  ghost predicate SubOk(w: World, s: Submission) {
    && (!s.stage.Done? && !s.stage.Crashed? ==> Owns(w, s.task, s.owner))
    && StageOk(w, s)
  }

  /** No two requests work on the same child. */
  predicate Exclusive(s: Submission, u: Submission) {
    Working(s.stage) && Working(u.stage) ==> (s.task, s.key) != (u.task, u.key)
  }

  ghost predicate NoRepeats(log: seq<(nat, string)>) {
    forall i, j :: 0 <= i < j < |log| ==> log[i] != log[j]
  }

  ghost predicate WorldOk(w: World) {
    && SchedulerSafety.UniqueIds(w.queue.jobs)
    && ChildrenOk(w)
    && (forall k :: 0 <= k < |w.subs| ==> SubOk(w, w.subs[k]))
    && (forall j, k :: 0 <= j < k < |w.subs| ==> Exclusive(w.subs[j], w.subs[k]))
    && NoRepeats(w.handled)
    && (forall i :: 0 <= i < |w.handled| ==> A.FindChild(w.agents.children, w.handled[i].0, w.handled[i].1).Some?)
    && (forall c :: 0 <= c < |w.cancels| ==> Owns(w, w.cancels[c].task, w.cancels[c].owner))
  }
}
