/** What every run of the scheduler tables keeps: the job lifecycle, the concurrency
    limits, and who owns a running job. */
module SchedulerSafety {
  import opened Values
  import opened SchedulerModel

  // ---- Lifecycle ---------------------------------------------------------------------

  /** The only status changes one transaction makes to a row. */
  predicate Moves(a: Status, b: Status) {
    match a
    case Queued => b.Queued? || b.Running? || b.Cancelled?
    case Running => b.Running? || b.Completed? || b.Failed? || b.WorkerLost?
    case WorkerLost => b.WorkerLost? || b.Completed? || b.Failed?
    case _ => b == a
  }

  /** Reachable by any number of moves. */
  predicate Reaches(a: Status, b: Status) {
    Moves(a, b) || (a == Queued && b != Queued) || (a == Running && (b.Completed? || b.Failed?))
  }

  predicate SameRow(a: Job, b: Job) {
    a.item == b.item && a.owner == b.owner && a.submittedAt == b.submittedAt
  }

  ghost predicate StepEvolves(t: Tables, u: Tables) {
    && |t.jobs| <= |u.jobs|
    && (forall i :: 0 <= i < |t.jobs| ==> SameRow(t.jobs[i], u.jobs[i]) && Moves(t.jobs[i].status, u.jobs[i].status))
    && (|u.jobs| > |t.jobs| ==>
          |u.jobs| == |t.jobs| + 1 && u.jobs[|t.jobs|].status == Queued
          && Find(t.jobs, u.jobs[|t.jobs|].item.promptId).None?)
  }

  lemma WorkerStepKeepsLifecycle(t: Tables, e: Event)
    requires e.op.Register? || e.op.Heartbeat? || e.op.Claim?
    ensures StepEvolves(t, Apply(t, e))
  {
  }

  lemma UserStepKeepsLifecycle(t: Tables, e: Event)
    requires e.op.Enqueue? || e.op.Cancel? || e.op.CancelAll?
    ensures StepEvolves(t, Apply(t, e))
  {
  }

  /** One transaction loses no row and moves every status along the lifecycle;
      a row it adds is queued under a new id. */
  lemma StepKeepsLifecycle(t: Tables, e: Event)
    ensures StepEvolves(t, Apply(t, e))
  {
    if e.op.Register? || e.op.Heartbeat? || e.op.Claim? {
      WorkerStepKeepsLifecycle(t, e);
    } else if !e.op.Complete? && !e.op.Reclassify? {
      UserStepKeepsLifecycle(t, e);
    }
  }

  /** Only an enqueue adds a row, and the row is its item. */
  lemma NewRowIsEnqueued(t: Tables, e: Event)
    ensures |Apply(t, e).jobs| > |t.jobs| ==> e.op.Enqueue? && Apply(t, e).jobs[|t.jobs|].item == e.op.item
  {
    if e.op.Register? || e.op.Heartbeat? || e.op.Claim? {
      WorkerStepKeepsLifecycle(t, e);
      WorkerAddsNothing(t, e);
    }
  }

  lemma WorkerAddsNothing(t: Tables, e: Event)
    requires e.op.Register? || e.op.Heartbeat? || e.op.Claim?
    ensures |Apply(t, e).jobs| == |t.jobs|
  {
  }

  /** No row is lost over a run and no status ever comes back. */
  lemma {:induction false} RunKeepsLifecycle(t: Tables, events: seq<Event>)
    ensures |t.jobs| <= |Run(t, events).jobs|
    ensures forall i :: 0 <= i < |t.jobs| ==>
              SameRow(t.jobs[i], Run(t, events).jobs[i]) && Reaches(t.jobs[i].status, Run(t, events).jobs[i].status)
    decreases |events|
  {
    if events != [] {
      StepKeepsLifecycle(t, events[0]);
      RunKeepsLifecycle(Apply(t, events[0]), events[1..]);
    }
  }

  function Rank(s: Status): nat {
    match s
    case Queued => 3
    case Running => 2
    case WorkerLost => 1
    case _ => 0
  }

  /** The status changes the rows can still undergo. */
  function Fuel(jobs: seq<Job>): nat {
    if jobs == [] then 0 else Fuel(jobs[..|jobs| - 1]) + Rank(jobs[|jobs| - 1].status)
  }

  function Changed(a: seq<Job>, b: seq<Job>): nat
    requires |a| <= |b|
  {
    if a == [] then 0
    else Changed(a[..|a| - 1], b) + if a[|a| - 1].status != b[|a| - 1].status then 1 else 0
  }

  lemma {:induction false} FuelFalls(a: seq<Job>, b: seq<Job>)
    requires |a| <= |b|
    requires forall i :: 0 <= i < |a| ==> Moves(a[i].status, b[i].status)
    ensures Fuel(b[..|a|]) + Changed(a, b) <= Fuel(a)
  {
    if a != [] {
      var n := |a| - 1;
      assert b[..|a|][..n] == b[..n];
      FuelFalls(a[..n], b);
    }
  }

  lemma {:induction false} FuelOfQueued(jobs: seq<Job>, n: nat)
    requires n <= |jobs|
    requires forall i :: n <= i < |jobs| ==> jobs[i].status == Queued
    ensures Fuel(jobs) == Fuel(jobs[..n]) + 3 * (|jobs| - n)
  {
    if n == |jobs| {
      assert jobs[..n] == jobs;
    } else {
      assert jobs[..|jobs| - 1][..n] == jobs[..n];
      FuelOfQueued(jobs[..|jobs| - 1], n);
    }
  }

  /** Status changes made by the steps of a run, counted row by row. */
  ghost function Changes(t: Tables, events: seq<Event>): nat
    decreases |events|
  {
    if events == [] then 0
    else
      StepKeepsLifecycle(t, events[0]);
      Changed(t.jobs, Apply(t, events[0]).jobs) + Changes(Apply(t, events[0]), events[1..])
  }

  /** Moving rows along the lifecycle and adding queued ones. */
  lemma MovesBurnFuel(a: seq<Job>, b: seq<Job>)
    requires |a| <= |b|
    requires forall i :: 0 <= i < |a| ==> Moves(a[i].status, b[i].status)
    requires forall i :: |a| <= i < |b| ==> b[i].status == Queued
    ensures Changed(a, b) + Fuel(b) <= Fuel(a) + 3 * (|b| - |a|)
  {
    FuelFalls(a, b);
    FuelOfQueued(b, |a|);
  }

  lemma EvolvingBurnsFuel(t: Tables, u: Tables)
    requires StepEvolves(t, u)
    ensures Changed(t.jobs, u.jobs) + Fuel(u.jobs) <= Fuel(t.jobs) + 3 * (|u.jobs| - |t.jobs|)
  {
    MovesBurnFuel(t.jobs, u.jobs);
  }

  lemma StepBurnsFuel(t: Tables, e: Event)
    ensures |t.jobs| <= |Apply(t, e).jobs|
    ensures Changed(t.jobs, Apply(t, e).jobs) + Fuel(Apply(t, e).jobs) <= Fuel(t.jobs) + 3 * (|Apply(t, e).jobs| - |t.jobs|)
  {
    StepKeepsLifecycle(t, e);
    EvolvingBurnsFuel(t, Apply(t, e));
  }

  /** Every run, however long, makes at most three status changes per row. */
  lemma {:induction false} LifecycleTerminates(t: Tables, events: seq<Event>)
    ensures |t.jobs| <= |Run(t, events).jobs|
    ensures Changes(t, events) + Fuel(Run(t, events).jobs)
            <= Fuel(t.jobs) + 3 * (|Run(t, events).jobs| - |t.jobs|)
    decreases |events|
  {
    if events != [] {
      StepBurnsFuel(t, events[0]);
      LifecycleTerminates(Apply(t, events[0]), events[1..]);
    }
  }

  /** The rows handed out by the claims of a run, in order. */
  ghost function Claimed(t: Tables, events: seq<Event>): seq<nat>
    decreases |events|
  {
    if events == [] then []
    else
      var rest := Claimed(Apply(t, events[0]), events[1..]);
      match events[0].op
      case Claim(port, pid, resource, log) =>
        var row := ClaimStep(t, port, pid, resource, log, events[0].files, events[0].now).1;
        if row.Some? then [row.value] + rest else rest
      case _ => rest
  }

  lemma {:induction false} ClaimedWereQueued(t: Tables, events: seq<Event>)
    ensures forall k :: 0 <= k < |Claimed(t, events)| && Claimed(t, events)[k] < |t.jobs|
              ==> t.jobs[Claimed(t, events)[k]].status == Queued
    decreases |events|
  {
    if events != [] {
      StepKeepsLifecycle(t, events[0]);
      ClaimedWereQueued(Apply(t, events[0]), events[1..]);
    }
  }

  /** A job is executed at most once: no run hands the same row out twice. */
  lemma {:induction false} ClaimedAtMostOnce(t: Tables, events: seq<Event>)
    ensures forall j, k :: 0 <= j < k < |Claimed(t, events)| ==> Claimed(t, events)[j] != Claimed(t, events)[k]
    decreases |events|
  {
    if events != [] {
      ClaimedAtMostOnce(Apply(t, events[0]), events[1..]);
      ClaimedWereQueued(Apply(t, events[0]), events[1..]);
    }
  }

  // ---- Concurrency limits ------------------------------------------------------------

  /** The running rows of one owner and class that carry a limit in 1..cap. */
  ghost function Capped(jobs: seq<Job>, owner: string, resource: string, cap: nat): set<nat> {
    set i: nat | i < |jobs| && jobs[i].status == Running && jobs[i].owner == owner
                 && jobs[i].resource == resource && 1 <= jobs[i].limit <= cap
  }

  ghost predicate WithinLimits(jobs: seq<Job>) {
    forall owner, resource, cap: nat :: cap > 0 ==> |Capped(jobs, owner, resource, cap)| <= cap
  }

  lemma StepWithinLimits(t: Tables, e: Event)
    requires WithinLimits(t.jobs)
    ensures WithinLimits(Apply(t, e).jobs)
  {
    var u := Apply(t, e);
    forall owner, resource, cap: nat | cap > 0
      ensures |Capped(u.jobs, owner, resource, cap)| <= cap
    {
      var before, after := Capped(t.jobs, owner, resource, cap), Capped(u.jobs, owner, resource, cap);
      if e.op.Claim? && ClaimStep(t, e.op.port, e.op.pid, e.op.resource, e.op.log, e.files, e.now).1.Some? {
        ClaimWithinLimit(t, e, owner, resource, cap);
      } else {
        NothingStarts(t, e, owner, resource, cap);
        SubsetSize(after, before);
      }
    }
  }

  lemma RanBeforeReport(t: Tables, e: Event, i: nat)
    requires i < |Apply(t, e).jobs| && Apply(t, e).jobs[i].status == Running
    requires e.op.Register? || e.op.Heartbeat? || e.op.Complete?
    ensures i < |t.jobs| && Apply(t, e).jobs[i] == t.jobs[i]
  {
  }

  lemma RanBeforeUser(t: Tables, e: Event, i: nat)
    requires i < |Apply(t, e).jobs| && Apply(t, e).jobs[i].status == Running
    requires e.op.Enqueue? || e.op.Cancel? || e.op.CancelAll? || e.op.Reclassify?
    ensures i < |t.jobs| && Apply(t, e).jobs[i] == t.jobs[i] && Apply(t, e).workers == t.workers
  {
  }

  /** Without a claim, what runs after a step ran before it, as the same row. */
  lemma RanBefore(t: Tables, e: Event, i: nat)
    requires i < |Apply(t, e).jobs| && Apply(t, e).jobs[i].status == Running
    requires e.op.Claim? ==> ClaimStep(t, e.op.port, e.op.pid, e.op.resource, e.op.log, e.files, e.now).1.None?
    ensures i < |t.jobs| && Apply(t, e).jobs[i] == t.jobs[i]
  {
    if e.op.Register? || e.op.Heartbeat? || e.op.Complete? {
      RanBeforeReport(t, e, i);
    } else if !e.op.Claim? {
      RanBeforeUser(t, e, i);
    }
  }

  lemma NothingStarts(t: Tables, e: Event, owner: string, resource: string, cap: nat)
    requires e.op.Claim? ==> ClaimStep(t, e.op.port, e.op.pid, e.op.resource, e.op.log, e.files, e.now).1.None?
    ensures Capped(Apply(t, e).jobs, owner, resource, cap) <= Capped(t.jobs, owner, resource, cap)
  {
    forall i | i in Capped(Apply(t, e).jobs, owner, resource, cap)
      ensures i in Capped(t.jobs, owner, resource, cap)
    {
      RanBefore(t, e, i);
    }
  }

  lemma ClaimWithinLimit(t: Tables, e: Event, owner: string, resource: string, cap: nat)
    requires WithinLimits(t.jobs) && cap > 0 && e.op.Claim?
    requires ClaimStep(t, e.op.port, e.op.pid, e.op.resource, e.op.log, e.files, e.now).1.Some?
    ensures |Capped(Apply(t, e).jobs, owner, resource, cap)| <= cap
  {
    var i := ClaimStep(t, e.op.port, e.op.pid, e.op.resource, e.op.log, e.files, e.now).1.value;
    var before, after := Capped(t.jobs, owner, resource, cap), Capped(Apply(t, e).jobs, owner, resource, cap);
    if i in after {
      var running := RunningRows(t.jobs, owner, resource);
      assert UnderLimit(t.jobs, i);
      assert after == before + {i};
      SubsetSize(before, running);
    } else {
      assert after <= before;
      SubsetSize(after, before);
    }
  }

  /** In every reachable state, of the running rows of an owner and a class at most L
      carry a limit in 1..L, whatever mixture of limits the rows were enqueued with. */
  lemma {:induction false} RunWithinLimits(t: Tables, events: seq<Event>)
    requires WithinLimits(t.jobs)
    ensures WithinLimits(Run(t, events).jobs)
    decreases |events|
  {
    if events != [] {
      StepWithinLimits(t, events[0]);
      RunWithinLimits(Apply(t, events[0]), events[1..]);
    }
  }

  lemma ReachableWithinLimits(events: seq<Event>)
    ensures WithinLimits(Run(EMPTY, events).jobs)
  {
    forall owner, resource, cap: nat | cap > 0
      ensures |Capped(EMPTY.jobs, owner, resource, cap)| <= cap
    {
      assert Capped(EMPTY.jobs, owner, resource, cap) == {};
    }
    RunWithinLimits(EMPTY, events);
  }

  // ---- Ownership ---------------------------------------------------------------------

  ghost predicate UniqueIds(jobs: seq<Job>) {
    forall i, j :: 0 <= i < j < |jobs| ==> jobs[i].item.promptId != jobs[j].item.promptId
  }

  lemma FindIs(jobs: seq<Job>, i: nat)
    requires UniqueIds(jobs) && i < |jobs|
    ensures Find(jobs, jobs[i].item.promptId) == Some(i)
  {
    var r := Find(jobs, jobs[i].item.promptId);
    assert r.Some?;
    assert jobs[r.value].item.promptId == jobs[i].item.promptId;
  }

  ghost predicate RowOwned(t: Tables, i: nat)
    requires i < |t.jobs|
  {
    && t.jobs[i].workerPort.Some?
    && t.jobs[i].workerPort.value in t.workers
    && t.workers[t.jobs[i].workerPort.value].active == Some(t.jobs[i].item.promptId)
  }

  /** The active job of a worker is a row that this worker has claimed. */
  ghost predicate ActiveClaimed(t: Tables, port: int)
    requires port in t.workers
  {
    t.workers[port].active.Some? ==>
      var row := Find(t.jobs, t.workers[port].active.value);
      row.Some? && t.jobs[row.value].workerPort == Some(port) && t.jobs[row.value].status != Queued
  }

  /** Ids are unique, every running row is the active job of the worker at its port, and
      a worker is only ever active on a row it has claimed. */
  ghost predicate Owned(t: Tables) {
    && UniqueIds(t.jobs)
    && (forall i: nat :: i < |t.jobs| && t.jobs[i].status == Running ==> RowOwned(t, i))
    && (forall port :: port in t.workers ==> ActiveClaimed(t, port))
  }

  /** Finding a row does not depend on anything but the ids of the rows. */
  lemma {:induction false} FindSame(a: seq<Job>, b: seq<Job>, id: string)
    requires |a| <= |b|
    requires forall i :: 0 <= i < |a| ==> a[i].item.promptId == b[i].item.promptId
    requires UniqueIds(b)
    ensures Find(a, id).Some? ==> Find(b, id) == Find(a, id)
    ensures |a| == |b| ==> Find(b, id) == Find(a, id)
  {
    if Find(a, id).Some? {
      FindIs(b, Find(a, id).value);
    } else if |a| == |b| {
      assert forall i :: 0 <= i < |b| ==> b[i].item.promptId != id;
    }
  }

  lemma EvolvesKeepsIds(t: Tables, u: Tables)
    requires UniqueIds(t.jobs) && StepEvolves(t, u)
    ensures UniqueIds(u.jobs)
    ensures forall id :: Find(t.jobs, id).Some? ==> Find(u.jobs, id) == Find(t.jobs, id)
  {
    forall i, j | 0 <= i < j < |u.jobs|
      ensures u.jobs[i].item.promptId != u.jobs[j].item.promptId
    {
      assert SameRow(t.jobs[i], u.jobs[i]);
    }
    forall id
      ensures Find(t.jobs, id).Some? ==> Find(u.jobs, id) == Find(t.jobs, id)
    {
      FindSame(t.jobs, u.jobs, id);
    }
  }

  predicate PortsKept(t: Tables, u: Tables)
    requires |t.jobs| <= |u.jobs|
  {
    forall i :: 0 <= i < |t.jobs| && t.jobs[i].status != Queued ==> u.jobs[i].workerPort == t.jobs[i].workerPort
  }

  lemma StepKeepsPorts(t: Tables, e: Event)
    ensures |t.jobs| <= |Apply(t, e).jobs| && PortsKept(t, Apply(t, e))
  {
    match e.op
    case Enqueue(_, _, _, _, _) =>
    case Register(_, _, _) =>
    case Heartbeat(_, _, _, _) =>
    case Claim(_, _, _, _) =>
    case Complete(_, _, _, _) =>
    case Cancel(_, _, _) =>
    case CancelAll(_, _) =>
    case Reclassify(_) =>
  }

  lemma ActiveKept(t: Tables, u: Tables, port: int)
    requires Owned(t) && StepEvolves(t, u) && PortsKept(t, u)
    requires port in t.workers && port in u.workers
    requires u.workers[port].active == None || u.workers[port].active == t.workers[port].active
    ensures ActiveClaimed(u, port)
  {
    EvolvesKeepsIds(t, u);
    assert ActiveClaimed(t, port);
  }

  /** A worker row that a step leaves active was claimed by that worker. */
  lemma StepKeepsActive(t: Tables, e: Event, port: int)
    requires Owned(t) && port in Apply(t, e).workers
    ensures ActiveClaimed(Apply(t, e), port)
  {
    var u := Apply(t, e);
    StepKeepsLifecycle(t, e);
    StepKeepsPorts(t, e);
    if e.op.Claim? && e.op.port == port {
      ClaimActive(t, e);
    } else {
      ActiveBefore(t, e, port);
      if port in t.workers {
        ActiveKept(t, u, port);
      }
    }
  }

  /** Only a claim gives a worker a job. */
  lemma ActiveBefore(t: Tables, e: Event, port: int)
    requires port in Apply(t, e).workers && !(e.op.Claim? && e.op.port == port)
    ensures
      var active := Apply(t, e).workers[port].active;
      active.None? || (port in t.workers && active == t.workers[port].active)
  {
  }

  lemma ClaimActive(t: Tables, e: Event)
    requires Owned(t) && e.op.Claim? && e.op.port in Apply(t, e).workers
    ensures ActiveClaimed(Apply(t, e), e.op.port)
  {
    var u := Apply(t, e);
    StepKeepsLifecycle(t, e);
    EvolvesKeepsIds(t, u);
    var claimed := ClaimStep(t, e.op.port, e.op.pid, e.op.resource, e.op.log, e.files, e.now).1;
    if claimed.Some? {
      FindIs(t.jobs, claimed.value);
    } else if e.op.port in t.workers {
      assert ActiveClaimed(t, e.op.port);
    }
  }

  /** The two branches that let go of a running job: a worker that registers again with
      its own pid, and any worker whose running job has the empty prompt id, which the
      code reads as "no active job". */
  ghost predicate Abandons(t: Tables, e: Event) {
    match e.op
    case Register(port, pid, _) =>
      ActiveRuns(t, port) && (t.workers[port].pid == pid || t.workers[port].active.value == "")
    case Claim(port, pid, resource, _) =>
      ActiveRuns(t, port) && t.workers[port].active.value == "" && Pick(t.jobs, ClassOrDefault(resource)).Some?
    case _ => false
  }

  /** The step leaves each running row to the worker at its port, or abandons one. */
  ghost predicate RowsOwned(t: Tables) {
    forall i: nat :: i < |t.jobs| && t.jobs[i].status == Running ==> RowOwned(t, i)
  }

  lemma ActiveRow(t: Tables, port: int)
    requires Owned(t) && ActiveRuns(t, port)
    ensures var row := Find(t.jobs, t.workers[port].active.value).value;
            t.jobs[row].status == Running && t.jobs[row].workerPort == Some(port)
  {
    assert ActiveClaimed(t, port);
  }

  lemma RunningIsActive(t: Tables, i: nat)
    requires Owned(t) && i < |t.jobs| && t.jobs[i].status == Running
    ensures RowOwned(t, i) && ActiveRuns(t, t.jobs[i].workerPort.value)
    ensures Find(t.jobs, t.jobs[i].item.promptId) == Some(i)
  {
    assert RowOwned(t, i);
    FindIs(t.jobs, i);
  }

  lemma RegisterRows(t: Tables, e: Event)
    requires Owned(t) && e.op.Register?
    ensures RowsOwned(Apply(t, e)) <==> !Abandons(t, e)
  {
    var u := Apply(t, e);
    if Abandons(t, e) {
      ActiveRow(t, e.op.port);
      var row := Find(t.jobs, t.workers[e.op.port].active.value).value;
      assert u.jobs[row] == t.jobs[row] && !RowOwned(u, row);
    } else {
      forall i: nat | i < |u.jobs| && u.jobs[i].status == Running
        ensures RowOwned(u, i)
      {
        RunningIsActive(t, i);
      }
    }
  }

  lemma ClaimRows(t: Tables, e: Event)
    requires Owned(t) && e.op.Claim?
    ensures RowsOwned(Apply(t, e)) <==> !Abandons(t, e)
  {
    var u := Apply(t, e);
    if Abandons(t, e) {
      ActiveRow(t, e.op.port);
      var row := Find(t.jobs, t.workers[e.op.port].active.value).value;
      var claimed := Pick(t.jobs, ClassOrDefault(e.op.resource)).value;
      assert t.jobs[claimed].item.promptId != t.jobs[row].item.promptId;
      assert u.jobs[row] == t.jobs[row] && !RowOwned(u, row);
    } else {
      forall i: nat | i < |u.jobs| && u.jobs[i].status == Running
        ensures RowOwned(u, i)
      {
        if t.jobs[i].status == Running {
          RunningIsActive(t, i);
        }
      }
    }
  }

  lemma HeartbeatRows(t: Tables, e: Event)
    requires Owned(t) && e.op.Heartbeat?
    ensures RowsOwned(Apply(t, e))
  {
    var u := Apply(t, e);
    forall i: nat | i < |u.jobs| && u.jobs[i].status == Running
      ensures RowOwned(u, i)
    {
      RunningIsActive(t, i);
    }
  }

  lemma CompleteRows(t: Tables, e: Event)
    requires Owned(t) && e.op.Complete?
    ensures RowsOwned(Apply(t, e))
  {
    var u := Apply(t, e);
    forall i: nat | i < |u.jobs| && u.jobs[i].status == Running
      ensures RowOwned(u, i)
    {
      RunningIsActive(t, i);
      assert t.jobs[i].item.promptId != e.op.id;
    }
  }

  lemma UserRows(t: Tables, e: Event, i: nat)
    requires Owned(t) && (e.op.Enqueue? || e.op.Cancel? || e.op.CancelAll? || e.op.Reclassify?)
    requires i < |Apply(t, e).jobs| && Apply(t, e).jobs[i].status == Running
    ensures RowOwned(Apply(t, e), i)
  {
    RanBeforeUser(t, e, i);
    StepKeepsLifecycle(t, e);
    EvolvesKeepsIds(t, Apply(t, e));
    RunningIsActive(t, i);
  }

  /** A step keeps ownership exactly when it is not one of the two abandoning branches. */
  lemma StepOwnership(t: Tables, e: Event)
    requires Owned(t)
    ensures Owned(Apply(t, e)) <==> !Abandons(t, e)
  {
    var u := Apply(t, e);
    StepKeepsLifecycle(t, e);
    EvolvesKeepsIds(t, u);
    forall port | port in u.workers
      ensures ActiveClaimed(u, port)
    {
      StepKeepsActive(t, e, port);
    }
    match e.op {
      case Register(_, _, _) => RegisterRows(t, e);
      case Claim(_, _, _, _) => ClaimRows(t, e);
      case Heartbeat(_, _, _, _) => HeartbeatRows(t, e);
      case Complete(_, _, _, _) => CompleteRows(t, e);
      case _ =>
        forall i: nat | i < |u.jobs| && u.jobs[i].status == Running
          ensures RowOwned(u, i)
        {
          UserRows(t, e, i);
        }
    }
  }

  /** Every state along the run satisfies Owned. */
  ghost predicate AlwaysOwned(t: Tables, events: seq<Event>)
    decreases |events|
  {
    Owned(t) && (events != [] ==> AlwaysOwned(Apply(t, events[0]), events[1..]))
  }

  ghost predicate NeverAbandons(t: Tables, events: seq<Event>)
    decreases |events|
  {
    events != [] ==> !Abandons(t, events[0]) && NeverAbandons(Apply(t, events[0]), events[1..])
  }

  /** Over whole runs: ownership holds throughout exactly when no step abandons a job. */
  lemma {:induction false} OwnershipExactly(t: Tables, events: seq<Event>)
    requires Owned(t)
    ensures AlwaysOwned(t, events) <==> NeverAbandons(t, events)
    decreases |events|
  {
    if events != [] {
      StepOwnership(t, events[0]);
      if Owned(Apply(t, events[0])) {
        OwnershipExactly(Apply(t, events[0]), events[1..]);
      }
    }
  }

  /** No two running rows share a port, and running rows never outnumber the workers. */
  lemma OwnedMeansOnePerPort(t: Tables)
    requires Owned(t)
    ensures forall i: nat, j: nat :: i < j < |t.jobs| && t.jobs[i].status == Running && t.jobs[j].status == Running
              ==> t.jobs[i].workerPort != t.jobs[j].workerPort
    ensures |RowsWith(t.jobs, Running)| <= |t.workers|
  {
    forall i: nat, j: nat | i < j < |t.jobs| && t.jobs[i].status == Running && t.jobs[j].status == Running
      ensures t.jobs[i].workerPort != t.jobs[j].workerPort
    {
      assert RowOwned(t, i) && RowOwned(t, j);
    }
    var rows := RowsWith(t.jobs, Running);
    var port := map i | i in rows :: RowPort(t, i);
    forall i | i in rows
      ensures port[i] in t.workers.Keys
    {
      assert RowOwned(t, i);
    }
    forall i, j | i in rows && j in rows && port[i] == port[j]
      ensures i == j
    {
      assert RowOwned(t, i) && RowOwned(t, j);
    }
    InjectionSize(rows, t.workers.Keys, port);
  }

  function RowPort(t: Tables, i: nat): int {
    if i < |t.jobs| && t.jobs[i].workerPort.Some? then t.jobs[i].workerPort.value else 0
  }

  /** After any heartbeat, the worker of every running job was seen within the window. */
  lemma HeartbeatBoundsSilence(t: Tables, e: Event, i: nat)
    requires Owned(t) && e.op.Heartbeat?
    requires i < |t.jobs| && Apply(t, e).jobs[i].status == Running
    ensures RowOwned(Apply(t, e), i)
    ensures Apply(t, e).workers[t.jobs[i].workerPort.value].lastHeartbeat >= e.now - Max(1, e.op.stale)
  {
    HeartbeatRows(t, e);
    var u := Apply(t, e);
    var port := t.jobs[i].workerPort.value;
    assert RowOwned(t, i);
    var seen := Seen(t.workers, e.op.port, e.op.pid, e.op.resource, e.now);
    assert seen[port].active == Some(t.jobs[i].item.promptId);
    assert !Stale(seen[port], Cutoff(e.now, e.op.stale)) by {
      assert t.jobs[i].item.promptId !in StaleIds(seen, Cutoff(e.now, e.op.stale));
    }
  }

  function EnqueueFree(cfg: Config, id: string, now: int): Event {
    Event(Enqueue(cfg, Item(0.0, id, []), "user", true, "api"), now, map[])
  }

  function ClaimFree(now: int): Event {
    Event(Claim(8180, 7, "api", ""), now, map[])
  }

  /** An unlimited job, enqueued and claimed by process 7 on port 8180. */
  lemma OneRunning(cfg: Config, id: string, now: int)
    requires cfg.adminLimit == 0
    ensures
      var t := Run(EMPTY, [EnqueueFree(cfg, id, now), ClaimFree(now)]);
      && |t.jobs| == 1 && t.jobs[0].status == Running && t.jobs[0].item.promptId == id
      && t.jobs[0].workerPort == Some(8180)
      && t.workers == map[8180 := Worker(7, Some(id), now, "api")]
  {
    var e0, e1 := EnqueueFree(cfg, id, now), ClaimFree(now);
    var t1 := Apply(EMPTY, e0);
    assert Eligible(t1.jobs, 0, "api");
    RunAppend(EMPTY, [e0], e1);
    RunAppend(EMPTY, [], e0);
    assert [] + [e0] == [e0] && [e0] + [e1] == [e0, e1];
  }

  /** The first abandoning branch: the same process registering again. */
  lemma SamePidRegisterAbandons(cfg: Config, now: int)
    requires cfg.adminLimit == 0
    ensures !Owned(Run(EMPTY, [EnqueueFree(cfg, "job", now), ClaimFree(now), Event(Register(8180, 7, "api"), now, map[])]))
  {
    var before := [EnqueueFree(cfg, "job", now), ClaimFree(now)];
    var e := Event(Register(8180, 7, "api"), now, map[]);
    OneRunning(cfg, "job", now);
    RunAppend(EMPTY, before, e);
    assert before + [e] == [EnqueueFree(cfg, "job", now), ClaimFree(now), e];
    assert !RowOwned(Run(EMPTY, before + [e]), 0);
  }

  /** The second: a worker running the job with the empty id claims another one. */
  lemma EmptyIdRunsTwoJobs(cfg: Config, now: int)
    requires cfg.adminLimit == 0
    ensures
      var t := Run(EMPTY, [EnqueueFree(cfg, "", now), ClaimFree(now), EnqueueFree(cfg, "job", now), ClaimFree(now)]);
      RowsWith(t.jobs, Running) == {0, 1} && |t.workers| == 1
  {
    var before := [EnqueueFree(cfg, "", now), ClaimFree(now)];
    OneRunning(cfg, "", now);
    SecondClaim(cfg, Run(EMPTY, before), now);
    RunAppend(EMPTY, before, EnqueueFree(cfg, "job", now));
    RunAppend(EMPTY, before + [EnqueueFree(cfg, "job", now)], ClaimFree(now));
    assert before + [EnqueueFree(cfg, "job", now)] + [ClaimFree(now)]
        == [EnqueueFree(cfg, "", now), ClaimFree(now), EnqueueFree(cfg, "job", now), ClaimFree(now)];
  }

  lemma SecondClaim(cfg: Config, t: Tables, now: int)
    requires cfg.adminLimit == 0
    requires |t.jobs| == 1 && t.jobs[0].status == Running && t.jobs[0].item.promptId == ""
    requires t.workers == map[8180 := Worker(7, Some(""), now, "api")]
    ensures
      var u := Apply(t, EnqueueFree(cfg, "job", now));
      var v := Apply(u, ClaimFree(now));
      RowsWith(v.jobs, Running) == {0, 1} && |v.workers| == 1
  {
    var u := Apply(t, EnqueueFree(cfg, "job", now));
    assert |u.jobs| == 2 && u.jobs[0] == t.jobs[0] && Eligible(u.jobs, 1, "api");
    assert Pick(u.jobs, "api") == Some(1);
    var v := Apply(u, ClaimFree(now));
    assert v.workers == map[8180 := Worker(7, Some("job"), now, "api")];
  }
}
