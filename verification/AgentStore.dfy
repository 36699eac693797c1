/** The store object of utils/agent_tasks.py: each method is one transaction and is proved
    to be the step of the same name. */
module AgentStore {
  import opened Values
  import opened AgentModel

  // ---- Event replay ------------------------------------------------------------------

  datatype Numbered = Numbered(number: nat, event: string)

  /** The events of a task numbered above `after`, in order; entry k has number k + 1. */
  function After(events: seq<Entry>, task: nat, after: nat): seq<Numbered> {
    if events == [] then []
    else
      var last := events[|events| - 1];
      After(events[..|events| - 1], task, after)
      + if last.task == task && |events| > after then [Numbered(|events|, last.event)] else []
  }

  const PAGE := 200

  function Page(events: seq<Entry>, task: nat, after: nat): seq<Numbered> {
    var all := After(events, task, after);
    all[..Min(PAGE, |all|)]
  }

  lemma {:induction false} AfterIsOrdered(events: seq<Entry>, task: nat, after: nat)
    ensures forall j, k :: 0 <= j < k < |After(events, task, after)| ==>
              After(events, task, after)[j].number < After(events, task, after)[k].number
    ensures forall k :: 0 <= k < |After(events, task, after)| ==> after < After(events, task, after)[k].number <= |events|
  {
    if events != [] {
      AfterIsOrdered(events[..|events| - 1], task, after);
    }
  }

  lemma {:induction false} AfterSkips(events: seq<Entry>, task: nat, after: nat, k: nat)
    requires k < |After(events, task, after)|
    ensures After(events, task, After(events, task, after)[k].number) == After(events, task, after)[k + 1..]
  {
    var init := events[..|events| - 1];
    var mine := After(init, task, after);
    AfterIsOrdered(init, task, after);
    if k < |mine| {
      AfterSkips(init, task, after, k);
    } else {
      NothingBeyond(init, task, |events|);
    }
  }

  lemma {:induction false} NothingBeyond(events: seq<Entry>, task: nat, after: nat)
    requires after >= |events|
    ensures After(events, task, after) == []
  {
    if events != [] {
      NothingBeyond(events[..|events| - 1], task, after);
    }
  }

  /** Polling from the last number seen until a page is empty. */
  function Poll(events: seq<Entry>, task: nat, after: nat, rounds: nat): seq<Numbered>
    decreases rounds
  {
    if rounds == 0 then []
    else
      var page := Page(events, task, after);
      if page == [] then [] else page + Poll(events, task, page[|page| - 1].number, rounds - 1)
  }

  /** A client that polls from the last number it saw reads every event of the task once,
      in order, in a bounded number of rounds. */
  lemma {:induction false} PollingReadsEachEventOnce(events: seq<Entry>, task: nat, after: nat, rounds: nat)
    requires rounds * PAGE >= |After(events, task, after)|
    ensures Poll(events, task, after, rounds) == After(events, task, after)
    decreases rounds
  {
    var all := After(events, task, after);
    if rounds > 0 && all != [] {
      var page := Page(events, task, after);
      AfterSkips(events, task, after, |page| - 1);
      PollingReadsEachEventOnce(events, task, page[|page| - 1].number, rounds - 1);
      assert all == page + all[|page|..];
    }
  }

  // ---- The store ---------------------------------------------------------------------

  class AgentTaskStore {
    const lim: Limits
    var tasks: seq<Task>
    var events: seq<Entry>
    var children: seq<Child>
    var nextLease: nat

    ghost function Db(): Agents
      reads this
    {
      Agents(tasks, events, children, nextLease)
    }

    constructor (concurrency: int, perUser: int, pendingPerUser: int)
      ensures lim == Limits(Max(1, concurrency), Max(1, perUser), Max(1, pendingPerUser))
      ensures Db() == EMPTY
    {
      lim := Limits(Max(1, concurrency), Max(1, perUser), Max(1, pendingPerUser));
      tasks, events, children, nextLease := [], [], [], 0;
    }

    method FindTask(owner: string, key: string) returns (row: Option<nat>)
      ensures row == FindSubmission(tasks, owner, key)
    {
      var i := |tasks|;
      assert tasks[..i] == tasks;
      while i > 0
        invariant 0 <= i <= |tasks|
        invariant FindSubmission(tasks, owner, key) == FindSubmission(tasks[..i], owner, key)
      {
        if tasks[i - 1].owner == owner && tasks[i - 1].submissionKey == key {
          return Some(i - 1);
        }
        assert tasks[..i][..i - 1] == tasks[..i - 1];
        i := i - 1;
      }
      row := None;
    }

    method CountPending(owner: string) returns (n: nat)
      ensures n == |PendingOf(Db(), owner)|
    {
      n := 0;
      ghost var rows := PendingOf(Db(), owner);
      BelowAll(rows, |tasks|);
      for i := 0 to |tasks|
        invariant n == |Below(rows, i)|
      {
        BelowNext(rows, i);
        if tasks[i].owner == owner && !Terminal(tasks[i].state) {
          n := n + 1;
        }
      }
    }

    method CountLeased() returns (n: nat)
      ensures n == |Leased(Db())|
    {
      n := 0;
      ghost var rows := Leased(Db());
      BelowAll(rows, |tasks|);
      for i := 0 to |tasks|
        invariant n == |Below(rows, i)|
      {
        BelowNext(rows, i);
        if tasks[i].lease.Some? {
          n := n + 1;
        }
      }
    }

    method CountLeasedBy(owner: string) returns (n: nat)
      ensures n == |LeasedBy(Db(), owner)|
    {
      n := 0;
      ghost var rows := LeasedBy(Db(), owner);
      BelowAll(rows, |tasks|);
      for i := 0 to |tasks|
        invariant n == |Below(rows, i)|
      {
        BelowNext(rows, i);
        if tasks[i].lease.Some? && tasks[i].owner == owner {
          n := n + 1;
        }
      }
    }

    /** Submit a task; a repeated submission returns the row it made the first time. */
    method Create(owner: string, key: string, job: string, now: int) returns (r: Result<nat, AgentError>)
      modifies this
      ensures (Db(), r) == CreateStep(old(Db()), lim, owner, key, job, now)
      ensures r.Ok? ==> r.value < |tasks| && tasks[r.value].owner == owner && tasks[r.value].submissionKey == key
    {
      var row := FindTask(owner, key);
      if row.Some? {
        return Ok(row.value);
      }
      var pending := CountPending(owner);
      if pending >= lim.pendingPerUser {
        return Err(PendingLimit);
      }
      r := Ok(|tasks|);
      tasks := tasks + [Task(owner, key, job, false, Queued, now, now, None, 0, None, None, "")];
    }

    method ExpireLeases(now: int)
      modifies this`tasks
      ensures Db() == Expire(old(Db()), now)
    {
      ghost var before := tasks;
      for i := 0 to |tasks|
        invariant |tasks| == |before|
        invariant forall k :: 0 <= k < i ==> tasks[k] == ExpiredRow(before[k], now)
        invariant forall k :: i <= k < |tasks| ==> tasks[k] == before[k]
      {
        if Active(tasks[i].state) && tasks[i].leaseUntil < now {
          tasks := tasks[i := tasks[i].(state := if tasks[i].state == Delivering then Queued else RecoveryRequired,
                                        lease := None, updated := now, error := LOST)];
        }
      }
      assert tasks == Expire(old(Db()), now).tasks;
    }

    /** SELECT … ORDER BY created LIMIT 1 over the queued tasks of owners below their limit. */
    method OldestClaimable() returns (best: Option<nat>)
      ensures best == OldestBelow(Db(), lim, |tasks|)
    {
      best := None;
      for i := 0 to |tasks|
        invariant best == OldestBelow(Db(), lim, i)
      {
        if tasks[i].state == Queued {
          var held := CountLeasedBy(tasks[i].owner);
          if held < lim.perUser && (best.None? || tasks[i].created < tasks[best.value].created) {
            best := Some(i);
          }
        }
      }
    }

    /** Expire lost leases, then lease the oldest task that both limits allow. */
    method Claim(now: int) returns (claimed: Option<nat>)
      modifies this
      ensures (Db(), claimed) == ClaimStep(old(Db()), lim, now)
    {
      ExpireLeases(now);
      var active := CountLeased();
      if active >= lim.concurrency {
        return None;
      }
      claimed := OldestClaimable();
      if claimed.None? {
        return;
      }
      var row := tasks[claimed.value];
      tasks := tasks[claimed.value := row.(state := if row.checkpoint.Some? then Delivering else Running,
                                           lease := Some(nextLease), leaseUntil := now + LEASE_SECONDS,
                                           updated := now, error := "")];
      nextLease := nextLease + 1;
    }

    /** Report progress under a lease; a stale lease changes nothing. */
    method Update(task: nat, lease: nat, newEvents: seq<string>, checkpoint: Option<string>, asked: Option<TaskState>,
                  result: Option<string>, error: string, now: int) returns (r: Result<TaskState, AgentError>)
      modifies this
      ensures (Db(), r) == UpdateStep(old(Db()), task, lease, newEvents, checkpoint, asked, result, error, now)
    {
      if task >= |tasks| || tasks[task].lease != Some(lease) || tasks[task].leaseUntil < now {
        return Err(LeaseLost);
      }
      if asked.Some? && !Terminal(asked.value) && asked.value != Delivering {
        return Err(InvalidState);
      }
      var row := tasks[task];
      var target := if asked.Some? then asked.value else row.state;
      if row.state == CancelRequested && target == Completed {
        target := Cancelled;
      }
      ghost var before := events;
      for i := 0 to |newEvents|
        invariant events == before + Entries(task, lease, newEvents[..i])
        invariant tasks == old(tasks) && children == old(children) && nextLease == old(nextLease)
      {
        events := events + [Entry(task, newEvents[i], lease)];
        assert newEvents[..i + 1] == newEvents[..i] + [newEvents[i]];
      }
      assert newEvents[..|newEvents|] == newEvents;
      tasks := tasks[task := row.(state := target, updated := now, leaseUntil := now + LEASE_SECONDS,
                                  lease := if Terminal(target) then None else Some(lease),
                                  checkpoint := if checkpoint.Some? then checkpoint else row.checkpoint,
                                  result := if result.Some? then result else row.result,
                                  error := error[..Min(1000, |error|)])];
      r := Ok(target);
    }

    method Cancel(task: nat, owner: string, now: int)
      modifies this`tasks
      ensures Db() == CancelStep(old(Db()), task, owner, now)
    {
      if task < |tasks| && tasks[task].owner == owner
         && (tasks[task].state.Queued? || tasks[task].state.Running? || tasks[task].state.Delivering?) {
        tasks := tasks[task := tasks[task].(state := if tasks[task].state == Queued then Cancelled else CancelRequested,
                                            updated := now)];
      }
    }

    method TaskHasChild(task: nat) returns (found: bool)
      ensures found == HasChild(Db(), task)
    {
      found := false;
      for c := 0 to |children|
        invariant found == exists k :: 0 <= k < c && children[k].task == task
      {
        found := found || children[c].task == task;
      }
    }

    /** Queue an interrupted task again; a refusal rolls back even the expiry. */
    method Recover(task: nat, owner: string, now: int) returns (r: Result<(), AgentError>)
      modifies this
      ensures (Db(), r) == RecoverStep(old(Db()), task, owner, now)
    {
      var before := tasks;
      ExpireLeases(now);
      if task >= |tasks| || tasks[task].owner != owner || tasks[task].state != RecoveryRequired {
        tasks := before;
        return Err(NotRecoverable);
      }
      var row := tasks[task];
      if row.checkpoint.None? {
        var found := TaskHasChild(task);
        if !found {
          tasks := before;
          return Err(NothingSaved);
        }
        row := row.(recoveryOnly := true);
      }
      tasks := tasks[task := row.(state := Queued, lease := None, error := "", updated := now)];
      r := Ok(());
    }

    method EventsAfter(task: nat, after: nat) returns (page: seq<Numbered>)
      ensures page == Page(events, task, after)
    {
      page := [];
      ghost var all: seq<Numbered> := [];
      for i := 0 to |events|
        invariant all == After(events[..i], task, after)
        invariant page == all[..Min(PAGE, |all|)]
      {
        assert events[..i + 1][..i] == events[..i];
        if events[i].task == task && i + 1 > after {
          if |page| < PAGE {
            page := page + [Numbered(i + 1, events[i].event)];
          }
          all := all + [Numbered(i + 1, events[i].event)];
        }
      }
      assert events[..|events|] == events;
    }

    method FindChildRow(task: nat, key: string) returns (row: Option<nat>)
      ensures row == FindChild(children, task, key)
    {
      var i := |children|;
      assert children[..i] == children;
      while i > 0
        invariant 0 <= i <= |children|
        invariant FindChild(children, task, key) == FindChild(children[..i], task, key)
      {
        if children[i - 1].task == task && children[i - 1].key == key {
          return Some(i - 1);
        }
        assert children[..i][..i - 1] == children[..i - 1];
        i := i - 1;
      }
      row := None;
    }

    /** Reserve one child submission per request key of a running task. */
    method ReserveChild(task: nat, key: string, fingerprint: string, promptId: string, now: int)
      returns (r: Result<(Child, bool), AgentError>)
      modifies this`children
      ensures (Db(), r) == ReserveStep(old(Db()), task, key, fingerprint, promptId, now)
    {
      if task >= |tasks| || tasks[task].state != Running || tasks[task].leaseUntil < now {
        return Err(NotRunning);
      }
      var row := FindChildRow(task, key);
      if row.Some? {
        if children[row.value].fingerprint != fingerprint {
          return Err(KeyReused);
        }
        return Ok((children[row.value], false));
      }
      var child := Child(task, key, fingerprint, promptId, None);
      children := children + [child];
      r := Ok((child, true));
    }

    method ChildResponse(promptId: string, response: string)
      modifies this`children
      ensures Db() == RespondStep(old(Db()), promptId, response)
    {
      ghost var before := children;
      for c := 0 to |children|
        invariant |children| == |before|
        invariant forall k :: 0 <= k < c ==> children[k] == RespondStep(old(Db()), promptId, response).children[k]
        invariant forall k :: c <= k < |children| ==> children[k] == before[k]
      {
        if children[c].promptId == promptId {
          children := children[c := children[c].(response := Some(response))];
        }
      }
      assert children == RespondStep(old(Db()), promptId, response).children;
    }
  }
}
