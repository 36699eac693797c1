/** What each scheduler transaction does to each row, said of the rows themselves: who is
    handed what, which job is lost, how a job ends, and that this is how it stays
    (utils/scheduler_store.py). */
module SchedulerEffects {
  import opened Values
  import opened LogLines
  import opened SchedulerModel
  import opened SchedulerSafety
  import opened SchedulerDrain

  // ---- Log positions -----------------------------------------------------------------

  ghost function LineFeeds(s: Bytes): set<nat> {
    set k: nat | k < |s| && s[k] == 10
  }

  lemma {:induction false} NewlinesAreLineFeeds(s: Bytes)
    ensures Newlines(s) == |LineFeeds(s)|
  {
    if s != [] {
      var n := |s| - 1;
      NewlinesAreLineFeeds(s[..n]);
      assert LineFeeds(s) == LineFeeds(s[..n]) + if s[n] == 10 then {n} else {};
    }
  }

  /** The line of a position is one more than the line feeds before it. */
  lemma LineOfExactly(s: Bytes, offset: int)
    ensures LineOf(s, offset) == 1 + |set k: nat | k < |s| && k < offset && s[k] == 10|
  {
    var n := Min(Max(0, offset), |s|);
    NewlinesAreLineFeeds(s[..n]);
    assert LineFeeds(s[..n]) == set k: nat | k < |s| && k < offset && s[k] == 10;
  }

  /** The size of a log that has a path; one that cannot be read counts as empty. */
  function EndOf(log: string, files: Files): Option<nat> {
    if log == "" then None else Some(if log in files then |files[log]| else 0)
  }

  ghost function LastLineOf(log: string, files: Files): Option<nat> {
    if log == "" then None else Some(1 + if log in files then |LineFeeds(files[log])| else 0)
  }

  lemma PositionIs(log: string, files: Files)
    ensures LogPosition(files, log) == (if log == "" then None else Some(log), EndOf(log, files), LastLineOf(log, files))
  {
    if log in files {
      NewlinesAreLineFeeds(files[log]);
      assert files[log][..|files[log]|] == files[log];
    }
  }

  function PathOf(job: Job): string {
    if job.logFile.Some? then job.logFile.value else ""
  }

  // ---- Claiming ----------------------------------------------------------------------

  /** Row `i` can go to a worker of class `c`: it is queued, of a class the worker takes, and
      fewer of its owner's jobs of its class run than its limit, if it has one. */
  ghost predicate Waits(jobs: seq<Job>, i: nat, c: string) {
    && i < |jobs| && jobs[i].status == Queued
    && (c == "default" || jobs[i].resource == "default" || jobs[i].resource == c)
    && (jobs[i].limit == 0
        || |set j: nat | j < |jobs| && jobs[j].status == Running && jobs[j].owner == jobs[i].owner && jobs[j].resource == jobs[i].resource|
           < jobs[i].limit)
  }

  /** The worker has an active job with a name, and its row is running. */
  ghost predicate Works(t: Tables, port: int) {
    && port in t.workers && t.workers[port].active.Some? && t.workers[port].active.value != ""
    && exists i :: 0 <= i < |t.jobs| && t.jobs[i].item.promptId == t.workers[port].active.value && t.jobs[i].status == Running
  }

  lemma WaitsIs(jobs: seq<Job>, i: nat, c: string)
    requires i < |jobs|
    ensures Waits(jobs, i, c) <==> Eligible(jobs, i, c)
  {
    assert RunningRows(jobs, jobs[i].owner, jobs[i].resource)
        == set j: nat | j < |jobs| && jobs[j].status == Running && jobs[j].owner == jobs[i].owner && jobs[j].resource == jobs[i].resource;
  }

  lemma WorksIs(t: Tables, port: int)
    requires UniqueIds(t.jobs)
    ensures Works(t, port) <==> Busy(t, port)
  {
    if Works(t, port) {
      var i: nat :| i < |t.jobs| && t.jobs[i].item.promptId == t.workers[port].active.value && t.jobs[i].status == Running;
      FindIs(t.jobs, i);
    }
  }

  lemma AllWaits(jobs: seq<Job>, c: string)
    ensures forall i: nat :: i < |jobs| ==> (Waits(jobs, i, c) <==> Eligible(jobs, i, c))
  {
    forall i: nat | i < |jobs|
      ensures Waits(jobs, i, c) <==> Eligible(jobs, i, c)
    {
      WaitsIs(jobs, i, c);
    }
  }

  /** A worker that has no job of its own is handed nothing exactly when no row waits for its
      class; what it is handed waits for its class and comes before all others that do. */
  lemma ClaimExactly(t: Tables, port: int, pid: int, resource: string, log: string, files: Files, now: int)
    requires UniqueIds(t.jobs)
    ensures
      var row := ClaimStep(t, port, pid, resource, log, files, now).1;
      var c := if resource == "" then "default" else resource;
      && (row.None? <==> Works(t, port) || forall i: nat :: i < |t.jobs| ==> !Waits(t.jobs, i, c))
      && (row.Some? ==>
            && Waits(t.jobs, row.value, c)
            && forall j: nat :: j < |t.jobs| && j != row.value && Waits(t.jobs, j, c) ==>
                 t.jobs[row.value].item.number < t.jobs[j].item.number
                 || (t.jobs[row.value].item.number == t.jobs[j].item.number && row.value < j))
  {
    AllWaits(t.jobs, if resource == "" then "default" else resource);
    WorksIs(t, port);
  }

  /** The row handed out starts running at this port, at the present end of the worker's log;
      the worker is seen now, and no other row and no other worker changes. */
  lemma ClaimWrites(t: Tables, port: int, pid: int, resource: string, log: string, files: Files, now: int)
    requires UniqueIds(t.jobs)
    ensures
      var (u, row) := ClaimStep(t, port, pid, resource, log, files, now);
      var active := if row.Some? then Some(t.jobs[row.value].item.promptId) else if port in t.workers then t.workers[port].active else None;
      && u.logs == t.logs && |u.jobs| == |t.jobs|
      && (forall i: nat :: i < |t.jobs| ==>
            u.jobs[i] == if row == Some(i)
                         then t.jobs[i].(status := Running, workerPort := Some(port), startedAt := Some(now),
                                         logFile := if log == "" then None else Some(log), logStart := EndOf(log, files),
                                         startLine := LastLineOf(log, files), logEnd := None, endLine := None)
                         else t.jobs[i])
      && u.workers == if Works(t, port) then t.workers
                      else t.workers[port := Worker(pid, active, now, if resource == "" then "default" else resource)]
  {
    PositionIs(log, files);
    WorksIs(t, port);
  }

  /** Over whole runs: no worker is ever handed a job of another class, unless it takes any. */
  lemma RunClaimsMatchClasses(t: Tables, events: seq<Event>, k: nat, i: nat)
    requires k < |events| && events[k].op.Claim?
    requires
      var e := events[k];
      ClaimStep(Run(t, events[..k]), e.op.port, e.op.pid, e.op.resource, e.op.log, e.files, e.now).1 == Some(i)
    ensures
      var jobs, c := Run(t, events[..k]).jobs, if events[k].op.resource == "" then "default" else events[k].op.resource;
      i < |jobs| && (c == "default" || jobs[i].resource == "default" || jobs[i].resource == c)
  {
    AllWaits(Run(t, events[..k]).jobs, if events[k].op.resource == "" then "default" else events[k].op.resource);
  }

  // ---- Losing jobs -------------------------------------------------------------------

  /** The row of a job whose worker is gone. */
  ghost predicate LostAt(was: Job, row: Job, files: Files, now: int) {
    row == was.(status := WorkerLost, finishedAt := Some(now), logEnd := EndOf(PathOf(was), files),
                endLine := LastLineOf(PathOf(was), files))
  }

  lemma StaleIdsAre(workers: map<int, Worker>, cutoff: int, id: string)
    ensures id in StaleIds(workers, cutoff)
            <==> exists p :: p in workers && workers[p].lastHeartbeat < cutoff && workers[p].active == Some(id)
  {
    if id in StaleIds(workers, cutoff) {
      var p :| p in workers && Stale(workers[p], cutoff) && workers[p].active.value == id;
      assert workers[p].lastHeartbeat < cutoff && workers[p].active == Some(id);
    }
    if p :| p in workers && workers[p].lastHeartbeat < cutoff && workers[p].active == Some(id) {
      assert Stale(workers[p], cutoff) && workers[p].active.value == id;
    }
  }

  /** In every state, a heartbeat loses exactly the running jobs of other workers that have
      been silent for longer than the window, at least a second. */
  lemma HeartbeatRowsExactly(t: Tables, e: Event, i: nat)
    requires e.op.Heartbeat? && i < |t.jobs|
    ensures
      var u := Apply(t, e);
      && |u.jobs| == |t.jobs|
      && if t.jobs[i].status == Running
            && exists p :: p in t.workers && p != e.op.port && t.workers[p].lastHeartbeat < e.now - Max(1, e.op.stale)
                           && t.workers[p].active == Some(t.jobs[i].item.promptId)
         then LostAt(t.jobs[i], u.jobs[i], e.files, e.now) else u.jobs[i] == t.jobs[i]
  {
    var seen := Seen(t.workers, e.op.port, e.op.pid, e.op.resource, e.now);
    StaleIdsAre(seen, Cutoff(e.now, e.op.stale), t.jobs[i].item.promptId);
    PositionIs(PathOf(t.jobs[i]), e.files);
    if p :| p in t.workers && p != e.op.port && t.workers[p].lastHeartbeat < e.now - Max(1, e.op.stale)
            && t.workers[p].active == Some(t.jobs[i].item.promptId) {
      assert seen[p] == t.workers[p];
    }
  }

  /** The sender is seen now, other workers are released exactly when they have been silent. */
  lemma HeartbeatWorkersExactly(t: Tables, e: Event)
    requires e.op.Heartbeat?
    ensures
      var u, port := Apply(t, e), e.op.port;
      && u.logs == t.logs && u.workers.Keys == t.workers.Keys + {port}
      && u.workers[port] == Worker(e.op.pid, if port in t.workers then t.workers[port].active else None, e.now,
                                   if e.op.resource == "" then "default" else e.op.resource)
      && forall p :: p in t.workers && p != port ==>
           u.workers[p] == if t.workers[p].lastHeartbeat < e.now - Max(1, e.op.stale) then t.workers[p].(active := None) else t.workers[p]
  {
  }

  /** Where every running row belongs to the worker at its port: it is lost exactly when that
      worker is not the sender and has been silent for longer than the window; otherwise the
      row, and the worker's active job, are as they were. */
  lemma HeartbeatLosesSilentExactly(t: Tables, e: Event, i: nat)
    requires Owned(t) && e.op.Heartbeat? && i < |t.jobs| && t.jobs[i].status == Running
    ensures t.jobs[i].workerPort.Some? && t.jobs[i].workerPort.value in t.workers
    ensures
      var u, port := Apply(t, e), t.jobs[i].workerPort.value;
      && port in u.workers
      && (u.jobs[i].status == WorkerLost <==> port != e.op.port && t.workers[port].lastHeartbeat < e.now - Max(1, e.op.stale))
      && (u.jobs[i].status != WorkerLost ==> u.jobs[i] == t.jobs[i] && u.workers[port].active == Some(t.jobs[i].item.promptId))
  {
    RunningIsActive(t, i);
    HeartbeatRowsExactly(t, e, i);
    HeartbeatWorkersExactly(t, e);
    if p :| p in t.workers && t.workers[p].active == Some(t.jobs[i].item.promptId) {
      OnlyItsWorker(t, i, p);
    }
  }

  lemma OnlyItsWorker(t: Tables, i: nat, p: int)
    requires Owned(t) && i < |t.jobs| && p in t.workers && t.workers[p].active == Some(t.jobs[i].item.promptId)
    ensures t.jobs[i].workerPort == Some(p)
  {
    assert ActiveClaimed(t, p);
    FindIs(t.jobs, i);
  }

  /** A registration loses exactly the running job that another process had at this port, and
      replaces the worker there. */
  lemma RegisterExactly(t: Tables, e: Event, i: nat)
    requires UniqueIds(t.jobs) && e.op.Register? && i < |t.jobs|
    ensures
      var u, port := Apply(t, e), e.op.port;
      && |u.jobs| == |t.jobs| && u.logs == t.logs
      && u.workers == t.workers[port := Worker(e.op.pid, None, e.now, if e.op.resource == "" then "default" else e.op.resource)]
      && if t.jobs[i].status == Running && t.jobs[i].item.promptId != "" && port in t.workers
            && t.workers[port].pid != e.op.pid && t.workers[port].active == Some(t.jobs[i].item.promptId)
         then LostAt(t.jobs[i], u.jobs[i], e.files, e.now) else u.jobs[i] == t.jobs[i]
  {
    FindIs(t.jobs, i);
    PositionIs(PathOf(t.jobs[i]), e.files);
  }

  // ---- Ending jobs -------------------------------------------------------------------

  /** A completion ends the row of this job if it runs or was lost, as what the worker says it
      is, and no other row. */
  lemma CompleteRecordsOutcome(t: Tables, e: Event, i: nat)
    requires UniqueIds(t.jobs) && e.op.Complete? && i < |t.jobs|
    ensures
      var u := Apply(t, e);
      && |u.jobs| == |t.jobs|
      && u.jobs[i] == if t.jobs[i].item.promptId == e.op.id && (t.jobs[i].status == Running || t.jobs[i].status == WorkerLost)
                      then t.jobs[i].(status := if e.op.ok then Completed else Failed, finishedAt := Some(e.now),
                                      logFile := if t.jobs[i].logFile.Some? || e.op.log == "" then t.jobs[i].logFile else Some(e.op.log),
                                      logEnd := EndOf(e.op.log, e.files), endLine := LastLineOf(e.op.log, e.files))
                      else t.jobs[i]
  {
    FindIs(t.jobs, i);
    PositionIs(e.op.log, e.files);
  }

  /** It releases the worker only from this very job, and keeps what the job has logged since
      its claim exactly when the log can be read and the claim noted a position. */
  lemma CompleteReleasesAndKeeps(t: Tables, e: Event)
    requires UniqueIds(t.jobs) && e.op.Complete?
    ensures
      var u, port, id, log := Apply(t, e), e.op.port, e.op.id, e.op.log;
      && u.workers == (if port in t.workers && t.workers[port].active == Some(id)
                       then t.workers[port := t.workers[port].(active := None, lastHeartbeat := e.now)] else t.workers)
      && (forall other :: other != id ==> (other in u.logs <==> other in t.logs) && (other in t.logs ==> u.logs[other] == t.logs[other]))
      && forall i: nat :: i < |t.jobs| && t.jobs[i].item.promptId == id ==>
           if log in e.files && log != "" && t.jobs[i].logStart.Some? then
             && id in u.logs
             && var start := t.jobs[i].logStart.value;
                u.logs[id] == JobLog(port, log, start, |e.files[log]|, t.jobs[i].startLine, LastLineOf(log, e.files),
                                     if start <= |e.files[log]| then e.files[log][start..] else [])
           else u.logs == t.logs
  {
    PositionIs(e.op.log, e.files);
    forall i: nat | i < |t.jobs| && t.jobs[i].item.promptId == e.op.id
      ensures Find(t.jobs, e.op.id) == Some(i)
    {
      FindIs(t.jobs, i);
    }
  }

  predicate Over(s: Status) {
    s == Completed || s == Failed || s == Cancelled
  }

  lemma OverStays(t: Tables, e: Event, i: nat)
    requires UniqueIds(t.jobs) && i < |t.jobs| && Over(t.jobs[i].status)
    ensures i < |Apply(t, e).jobs| && Apply(t, e).jobs[i] == t.jobs[i]
  {
    match e.op {
      case Complete(_, _, _, _) => CompleteRecordsOutcome(t, e, i);
      case Heartbeat(_, _, _, _) => HeartbeatRowsExactly(t, e, i);
      case Register(_, _, _) => RegisterExactly(t, e, i);
      case Claim(port, pid, resource, log) =>
        ClaimExactly(t, port, pid, resource, log, e.files, e.now);
        ClaimWrites(t, port, pid, resource, log, e.files, e.now);
      case _ => OverStaysForUsers(t, e, i);
    }
  }

  lemma OverStaysForUsers(t: Tables, e: Event, i: nat)
    requires i < |t.jobs| && Over(t.jobs[i].status)
    requires e.op.Enqueue? || e.op.Cancel? || e.op.CancelAll? || e.op.Reclassify?
    ensures i < |Apply(t, e).jobs| && Apply(t, e).jobs[i] == t.jobs[i]
  {
  }

  lemma {:induction false} OverForGood(t: Tables, events: seq<Event>, i: nat)
    requires UniqueIds(t.jobs) && i < |t.jobs| && Over(t.jobs[i].status)
    ensures i < |Run(t, events).jobs| && Run(t, events).jobs[i] == t.jobs[i]
    decreases |events|
  {
    if events != [] {
      OverStays(t, events[0], i);
      StepKeepsLifecycle(t, events[0]);
      EvolvesKeepsIds(t, Apply(t, events[0]));
      OverForGood(Apply(t, events[0]), events[1..], i);
    }
  }

  /** What a worker reports of a job it runs, or had lost, stands whatever happens later: a
      failure is never seen as a success, nor the other way round. */
  lemma OutcomeStands(t: Tables, e: Event, i: nat, later: seq<Event>)
    requires UniqueIds(t.jobs) && e.op.Complete? && i < |t.jobs| && t.jobs[i].item.promptId == e.op.id
    requires t.jobs[i].status == Running || t.jobs[i].status == WorkerLost
    ensures
      var end := Run(Apply(t, e), later);
      i < |end.jobs| && end.jobs[i].status == (if e.op.ok then Completed else Failed) && end.jobs[i].finishedAt == Some(e.now)
  {
    CompleteRecordsOutcome(t, e, i);
    StepKeepsLifecycle(t, e);
    EvolvesKeepsIds(t, Apply(t, e));
    OverForGood(Apply(t, e), later, i);
  }

  /** The steps that end the run of row `i`: its completion, another process registering at
      its port, and a heartbeat of another worker once its own has been silent too long. */
  ghost predicate Ends(t: Tables, e: Event, i: nat)
    requires i < |t.jobs|
  {
    match e.op
    case Complete(id, _, _, _) => id == t.jobs[i].item.promptId
    case Register(port, pid, _) =>
      t.jobs[i].workerPort == Some(port) && t.jobs[i].item.promptId != "" && port in t.workers && t.workers[port].pid != pid
    case Heartbeat(port, _, stale, _) =>
      exists p :: p in t.workers && t.jobs[i].workerPort == Some(p) && p != port && t.workers[p].lastHeartbeat < e.now - Max(1, stale)
    case _ => false
  }

  /** A running row stays exactly as it is until one of these steps. */
  lemma StepEndsExactly(t: Tables, e: Event, i: nat)
    requires Owned(t) && i < |t.jobs| && t.jobs[i].status == Running
    ensures i < |Apply(t, e).jobs|
    ensures Apply(t, e).jobs[i].status != Running <==> Ends(t, e, i)
    ensures !Ends(t, e, i) ==> Apply(t, e).jobs[i] == t.jobs[i]
  {
    RunningIsActive(t, i);
    match e.op {
      case Complete(_, _, _, _) => CompleteRecordsOutcome(t, e, i);
      case Heartbeat(_, _, _, _) => HeartbeatLosesSilentExactly(t, e, i); HeartbeatRowsExactly(t, e, i);
      case Register(port, _, _) =>
        RegisterExactly(t, e, i);
        if port in t.workers && t.workers[port].active == Some(t.jobs[i].item.promptId) {
          OnlyItsWorker(t, i, port);
        }
      case Claim(port, pid, resource, log) =>
        ClaimExactly(t, port, pid, resource, log, e.files, e.now);
        ClaimWrites(t, port, pid, resource, log, e.files, e.now);
      case _ => RunningStaysForUsers(t, e, i);
    }
  }

  lemma RunningStaysForUsers(t: Tables, e: Event, i: nat)
    requires i < |t.jobs| && t.jobs[i].status == Running
    requires e.op.Enqueue? || e.op.Cancel? || e.op.CancelAll? || e.op.Reclassify?
    ensures i < |Apply(t, e).jobs| && Apply(t, e).jobs[i] == t.jobs[i]
  {
  }

  /** The row runs at every point of the run. */
  ghost predicate KeepsRunning(t: Tables, events: seq<Event>, i: nat)
    decreases |events|
  {
    i < |t.jobs| && t.jobs[i].status == Running && (events != [] ==> KeepsRunning(Apply(t, events[0]), events[1..], i))
  }

  ghost predicate NeverEnds(t: Tables, events: seq<Event>, i: nat)
    decreases |events|
  {
    events != [] ==> i < |t.jobs| && !Ends(t, events[0], i) && NeverEnds(Apply(t, events[0]), events[1..], i)
  }

  /** Over whole runs in which no job is abandoned: a running job is left to its worker for
      exactly as long as no step ends it; a worker that keeps in touch never loses it. */
  lemma {:induction false} KeepsRunningExactly(t: Tables, events: seq<Event>, i: nat)
    requires Owned(t) && NeverAbandons(t, events) && i < |t.jobs| && t.jobs[i].status == Running
    ensures KeepsRunning(t, events, i) <==> NeverEnds(t, events, i)
    decreases |events|
  {
    if events != [] {
      StepEndsExactly(t, events[0], i);
      StepOwnership(t, events[0]);
      if !Ends(t, events[0], i) {
        KeepsRunningExactly(Apply(t, events[0]), events[1..], i);
      }
    }
  }

  // ---- The users' side ---------------------------------------------------------------

  /** An item is refused exactly when its prompt id is taken; otherwise one queued row comes
      last, of the class asked for or the class its node types call for, with the limit that
      goes with that class. */
  lemma EnqueueExactly(t: Tables, e: Event)
    requires e.op.Enqueue?
    ensures
      var u, n := Apply(t, e), |t.jobs|;
      && u.workers == t.workers && u.logs == t.logs
      && if exists i :: 0 <= i < n && t.jobs[i].item.promptId == e.op.item.promptId then u.jobs == t.jobs
         else
           && |u.jobs| == n + 1 && u.jobs[..n] == t.jobs
           && var job := u.jobs[n];
              && job.item == e.op.item && job.owner == e.op.owner && job.status == Queued && job.submittedAt == e.now
              && job.workerPort.None? && job.startedAt.None? && job.finishedAt.None? && job.logFile.None? && job.logStart.None?
              && job.logEnd.None? && job.startLine.None? && job.endLine.None?
              && job.limit == (if e.op.exempt then e.op.cfg.adminLimit
                               else if job.resource in e.op.cfg.limits then e.op.cfg.limits[job.resource] else e.op.cfg.maxPerUser)
              && if e.op.resource != "" then job.resource == e.op.resource else ClassFits(e.op.cfg, e.op.item, job.resource)
  {
  }

  /** Without configured gpu types every job is of the default class; otherwise it is a gpu
      job exactly when it has a node of such a type, and an api job if not. */
  predicate ClassFits(cfg: Config, item: Item, resource: string) {
    if cfg.gpuTypes == {} then resource == "default"
    else if exists k :: 0 <= k < |item.nodeTypes| && item.nodeTypes[k] in cfg.gpuTypes then resource == "gpu"
    else resource == "api"
  }

  /** A cancel succeeds exactly on a queued row that the caller owns, or any for an admin. */
  lemma CancelExactly(t: Tables, id: string, owner: string, admin: bool, now: int, i: nat)
    requires UniqueIds(t.jobs) && i < |t.jobs|
    ensures
      var (u, done) := CancelStep(t, id, owner, admin, now);
      var hit := t.jobs[i].item.promptId == id && t.jobs[i].status == Queued && (admin || t.jobs[i].owner == owner);
      && u.workers == t.workers && u.logs == t.logs && |u.jobs| == |t.jobs|
      && u.jobs[i] == (if hit then t.jobs[i].(status := Cancelled, finishedAt := Some(now)) else t.jobs[i])
      && (hit ==> done) && (t.jobs[i].item.promptId == id && !hit ==> !done)
  {
    FindIs(t.jobs, i);
  }

  lemma CancelMisses(t: Tables, id: string, owner: string, admin: bool, now: int)
    requires forall i :: 0 <= i < |t.jobs| ==> t.jobs[i].item.promptId != id
    ensures CancelStep(t, id, owner, admin, now) == (t, false)
  {
  }

  /** Cancelling everything takes the caller's queued rows and nobody else's, unless the
      caller is an admin; rows that run or are over stay. */
  lemma CancelAllExactly(t: Tables, owner: string, admin: bool, now: int, i: nat)
    requires i < |t.jobs|
    ensures
      var u := CancelAllStep(t, owner, admin, now);
      && u.workers == t.workers && u.logs == t.logs && |u.jobs| == |t.jobs|
      && (t.jobs[i].status == Queued && (admin || t.jobs[i].owner == owner) ==>
            u.jobs[i] == t.jobs[i].(status := Cancelled, finishedAt := Some(now)))
      && (t.jobs[i].status != Queued || (!admin && t.jobs[i].owner != owner) ==> u.jobs[i] == t.jobs[i])
  {
  }

  /** Opening the tables gives the queued rows of the default class the class and the limit
      that the configuration has for them now; unlimited rows stay so. */
  lemma ReclassifyExactly(t: Tables, cfg: Config, i: nat)
    requires i < |t.jobs|
    ensures
      var u := ReclassifyStep(t, cfg);
      && u.workers == t.workers && u.logs == t.logs && |u.jobs| == |t.jobs|
      && if cfg.gpuTypes == {} || t.jobs[i].status != Queued || t.jobs[i].resource != "default" then u.jobs[i] == t.jobs[i]
         else
           && ClassFits(cfg, t.jobs[i].item, u.jobs[i].resource)
           && u.jobs[i] == t.jobs[i].(resource := u.jobs[i].resource, limit := u.jobs[i].limit)
           && u.jobs[i].limit == if t.jobs[i].limit == 0 || u.jobs[i].resource !in cfg.limits then t.jobs[i].limit
                                 else cfg.limits[u.jobs[i].resource]
  {
  }

  // ---- Admission and deletion --------------------------------------------------------

  /** A port is free for a class of job: its worker was seen since the cutoff, its active job
      does not run, and one of the two takes any class or they are the same. */
  ghost predicate Free(t: Tables, p: int, resource: string, cutoff: int) {
    && p in t.workers && t.workers[p].lastHeartbeat >= cutoff
    && (t.workers[p].active.None?
        || forall i :: 0 <= i < |t.jobs| && t.jobs[i].item.promptId == t.workers[p].active.value ==> t.jobs[i].status != Running)
    && (t.workers[p].resource == "default" || resource == "default" || t.workers[p].resource == resource)
  }

  lemma FreeIs(t: Tables, p: int, resource: string, cutoff: int)
    requires UniqueIds(t.jobs)
    ensures Free(t, p, resource, cutoff) <==> IdleWorker(t, p, resource, cutoff)
  {
    if p in t.workers && t.workers[p].active.Some? {
      forall i: nat | i < |t.jobs| && t.jobs[i].item.promptId == t.workers[p].active.value
        ensures Find(t.jobs, t.workers[p].active.value) == Some(i)
      {
        FindIs(t.jobs, i);
      }
    }
  }

  ghost function FreePorts(t: Tables, resource: string, self: int, cutoff: int): set<int> {
    set p | p in t.workers && p != self && Free(t, p, resource, cutoff)
  }

  lemma FreePortsAre(t: Tables, resource: string, self: int, cutoff: int)
    requires UniqueIds(t.jobs)
    ensures FreePorts(t, resource, self, cutoff) == (set p | p in t.workers && IdleWorker(t, p, resource, cutoff)) - {self}
    ensures (set p | p in t.workers && LiveWorker(t, p, cutoff)) == set p | p in t.workers && t.workers[p].lastHeartbeat >= cutoff
  {
    forall p
      ensures Free(t, p, resource, cutoff) <==> IdleWorker(t, p, resource, cutoff)
    {
      FreeIs(t, p, resource, cutoff);
    }
  }

  /** The class of a job has room for one more of this owner's. */
  ghost predicate HasRoom(t: Tables, cfg: Config, owner: string, admin: bool, resource: string) {
    var limit := if admin then cfg.adminLimit else if resource in cfg.limits then cfg.limits[resource] else cfg.maxPerUser;
    limit == 0
    || |set j: nat | j < |t.jobs| && t.jobs[j].status == Running && t.jobs[j].owner == owner && t.jobs[j].resource == resource| < limit
  }

  lemma HasRoomIs(t: Tables, cfg: Config, owner: string, admin: bool, resource: string)
    ensures
      var limit := LimitFor(cfg, admin, resource);
      HasRoom(t, cfg, owner, admin, resource) <==> limit == 0 || |RunningRows(t.jobs, owner, resource)| < limit
  {
    assert RunningRows(t.jobs, owner, resource)
        == set j: nat | j < |t.jobs| && t.jobs[j].status == Running && t.jobs[j].owner == owner && t.jobs[j].resource == resource;
  }

  ghost predicate RunsUnder(t: Tables, parent: string, owner: string) {
    exists i :: 0 <= i < |t.jobs| && t.jobs[i].item.promptId == parent && t.jobs[i].status == Running && t.jobs[i].owner == owner
  }

  lemma RunsUnderIs(t: Tables, parent: string, owner: string)
    requires UniqueIds(t.jobs)
    ensures
      var row := Find(t.jobs, parent);
      RunsUnder(t, parent, owner) <==> row.Some? && t.jobs[row.value].status == Running && t.jobs[row.value].owner == owner
  {
    if i: nat :| i < |t.jobs| && t.jobs[i].item.promptId == parent && t.jobs[i].status == Running && t.jobs[i].owner == owner {
      FindIs(t.jobs, i);
    }
  }

  /** A child is admitted exactly when its parent runs under its owner, two workers are live,
      its class has room, and a port other than the parent's is free for it; the answer is
      those ports. */
  lemma AuthorizeExactly(t: Tables, cfg: Config, parent: string, owner: string, admin: bool, item: Item, self: int, now: int, resource: string)
    requires UniqueIds(t.jobs) && ClassFits(cfg, item, resource)
    ensures
      var answer := Authorize(t, cfg, parent, owner, admin, item, self, now);
      var free := FreePorts(t, resource, self, now - 60);
      && (answer.Ok? <==>
            && owner != "" && RunsUnder(t, parent, owner)
            && |set p | p in t.workers && t.workers[p].lastHeartbeat >= now - 60| >= 2
            && HasRoom(t, cfg, owner, admin, resource) && free != {})
      && (answer.Ok? ==> answer.value == free)
  {
    assert resource == Classify(cfg, item);
    FreePortsAre(t, resource, self, now - 60);
    HasRoomIs(t, cfg, owner, admin, resource);
    RunsUnderIs(t, parent, owner);
  }
}
