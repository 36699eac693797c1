/** The slices of an instance log that the scheduler assigns to jobs, for processes that
    each write, append-only, to a log of their own. */
module LogSlices {
  import opened Values
  import opened LogLines
  import opened SchedulerModel

  /** The log file of the process at each port. */
  type LogOf = int -> string

  ghost predicate OwnLogs(logOf: LogOf) {
    forall p, q :: logOf(p) == logOf(q) ==> p == q
  }

  ghost predicate OnlyGrow(f: Files, g: Files) {
    forall p :: p in f ==> p in g && f[p] <= g[p]
  }

  function Size(files: Files, log: string): nat {
    if log in files then |files[log]| else 0
  }

  /** A row that has been claimed carries the log of its port and a start within it; the
      slice is open exactly while the job runs. */
  predicate SliceOk(job: Job, files: Files, logOf: LogOf) {
    if job.status == Queued || job.status == Cancelled then job.logFile.None? && job.logStart.None? && job.logEnd.None?
    else
      && job.workerPort.Some? && job.logFile == Some(logOf(job.workerPort.value))
      && job.logFile.value != ""
      && job.logStart.Some? && job.logStart.value <= Size(files, job.logFile.value)
      && (job.status == Running <==> job.logEnd.None?)
      && (job.logEnd.Some? ==> job.logStart.value <= job.logEnd.value <= Size(files, job.logFile.value))
  }

  /** `a` ends before `b` starts. */
  predicate EndsBefore(a: Job, b: Job) {
    a.logEnd.Some? && b.logStart.Some? && a.logEnd.value <= b.logStart.value
  }

  predicate Apart(a: Job, b: Job) {
    a.logFile.Some? && a.logFile == b.logFile ==> EndsBefore(a, b) || EndsBefore(b, a)
  }

  ghost predicate RowsOk(t: Tables, files: Files, logOf: LogOf) {
    forall i :: 0 <= i < |t.jobs| ==> SliceOk(t.jobs[i], files, logOf)
  }

  ghost predicate Slices(t: Tables, files: Files, logOf: LogOf) {
    && RowsOk(t, files, logOf)
    && (forall i, j :: 0 <= i < j < |t.jobs| ==> Apart(t.jobs[i], t.jobs[j]))
  }

  /** A stored excerpt is the bytes of the log between its offsets. */
  ghost predicate Excerpts(t: Tables, files: Files) {
    forall id :: id in t.logs ==>
      var l := t.logs[id];
      l.file in files && l.start <= l.end <= |files[l.file]| && l.content == files[l.file][l.start..l.end]
  }

  /** Workers name their own log; a completion comes from the worker that claimed the row. */
  ghost predicate FromOwnWorker(t: Tables, e: Event, logOf: LogOf) {
    match e.op
    case Claim(port, _, _, log) => log == logOf(port) && log != ""
    case Complete(id, port, _, log) =>
      && log == logOf(port)
      && var row := Find(t.jobs, id); (row.Some? && t.jobs[row.value].logStart.Some? ==> t.jobs[row.value].workerPort == Some(port))
    case _ => true
  }

  /** A lost job reports completion after the log has been assigned to a later job. */
  ghost predicate LateOverlap(t: Tables, e: Event) {
    && e.op.Complete?
    && var row := Find(t.jobs, e.op.id);
       && row.Some? && t.jobs[row.value].status == WorkerLost
       && exists j :: 0 <= j < |t.jobs| && j != row.value && Intrudes(t.jobs[row.value], t.jobs[j], e.files)
  }

  predicate Intrudes(lost: Job, other: Job, files: Files) {
    && other.logFile.Some? && other.logFile == lost.logFile
    && !EndsBefore(other, lost)
    && other.logStart.Some? && other.logStart.value < Size(files, lost.logFile.value)
  }

  lemma GrowthKeeps(t: Tables, f: Files, g: Files, logOf: LogOf)
    requires OnlyGrow(f, g)
    ensures RowsOk(t, f, logOf) ==> RowsOk(t, g, logOf)
    ensures Slices(t, f, logOf) ==> Slices(t, g, logOf)
    ensures Excerpts(t, f) ==> Excerpts(t, g)
  {
    if RowsOk(t, f, logOf) {
      forall i | 0 <= i < |t.jobs|
        ensures SliceOk(t.jobs[i], g, logOf)
      {
        assert SliceOk(t.jobs[i], f, logOf);
      }
    }
    if Excerpts(t, f) {
      forall id | id in t.logs
        ensures var l := t.logs[id];
                l.file in g && l.start <= l.end <= |g[l.file]| && l.content == g[l.file][l.start..l.end]
      {
        var l := t.logs[id];
        assert f[l.file] <= g[l.file];
      }
    }
  }

  /** A claim that hands a row to a port whose last job still runs: no one has ended its slice. */
  ghost predicate Reassigns(t: Tables, e: Event) {
    && e.op.Claim?
    && ClaimStep(t, e.op.port, e.op.pid, e.op.resource, e.op.log, e.files, e.now).1.Some?
    && exists j :: 0 <= j < |t.jobs| && RunsAt(t.jobs[j], e.op.port)
  }

  predicate RunsAt(job: Job, port: int) {
    job.status == Running && job.workerPort == Some(port)
  }

  /** A slice that begins at the present end of the log is apart from another exactly when
      the other has ended. */
  lemma ClaimApart(claimed: Job, other: Job, port: int, files: Files, now: int, logOf: LogOf)
    requires OwnLogs(logOf) && logOf(port) != "" && SliceOk(other, files, logOf)
    ensures
      var begun := ClaimedRow(claimed, port, logOf(port), files, now);
      && SliceOk(begun, files, logOf)
      && (Apart(begun, other) <==> !RunsAt(other, port)) && (Apart(other, begun) <==> !RunsAt(other, port))
  {
    if other.logFile == Some(logOf(port)) {
      assert logOf(other.workerPort.value) == logOf(port);
      assert other.workerPort.value == port;
    }
  }

  /** A claim keeps the slices of one log apart exactly when the port's last job has ended. */
  lemma ClaimSlices(t: Tables, e: Event, logOf: LogOf)
    requires OwnLogs(logOf) && Slices(t, e.files, logOf)
    requires e.op.Claim? && FromOwnWorker(t, e, logOf)
    ensures Slices(Apply(t, e), e.files, logOf) <==> !Reassigns(t, e)
  {
    var u := Apply(t, e);
    var claimed := ClaimStep(t, e.op.port, e.op.pid, e.op.resource, e.op.log, e.files, e.now).1;
    if claimed.Some? {
      var i := claimed.value;
      assert u.jobs == t.jobs[i := ClaimedRow(t.jobs[i], e.op.port, e.op.log, e.files, e.now)];
      assert !RunsAt(t.jobs[i], e.op.port);
      forall j | 0 <= j < |t.jobs| && j != i
        ensures SliceOk(u.jobs[i], e.files, logOf)
        ensures Apart(u.jobs[i], u.jobs[j]) <==> !RunsAt(t.jobs[j], e.op.port)
        ensures Apart(u.jobs[j], u.jobs[i]) <==> !RunsAt(t.jobs[j], e.op.port)
      {
        assert SliceOk(t.jobs[j], e.files, logOf);
        ClaimApart(t.jobs[i], t.jobs[j], e.op.port, e.files, e.now, logOf);
      }
      assert SliceOk(t.jobs[i], e.files, logOf);
      assert SliceOk(u.jobs[i], e.files, logOf);
      if j :| 0 <= j < |t.jobs| && RunsAt(t.jobs[j], e.op.port) {
        assert if i < j then !Apart(u.jobs[i], u.jobs[j]) else !Apart(u.jobs[j], u.jobs[i]);
      }
    }
  }

  predicate Open(job: Job) {
    job.status == Running || job.status == WorkerLost
  }

  /** Ending a slice now keeps it apart from another exactly when the job was not lost or
      the other does not start before the end of the log. */
  lemma DoneApart(a: Job, b: Job, ok: bool, files: Files, now: int, logOf: LogOf)
    requires SliceOk(a, files, logOf) && SliceOk(b, files, logOf) && Open(a) && (Apart(a, b) || Apart(b, a))
    ensures
      var done := DoneRow(a, ok, a.logFile.value, files, now);
      && SliceOk(done, files, logOf)
      && (Apart(done, b) <==> !(a.status == WorkerLost && Intrudes(a, b, files)))
      && (Apart(done, b) <==> Apart(b, done))
  {
  }

  lemma CompleteSlices(t: Tables, e: Event, logOf: LogOf)
    requires OwnLogs(logOf) && Slices(t, e.files, logOf)
    requires e.op.Complete? && FromOwnWorker(t, e, logOf)
    ensures Slices(Apply(t, e), e.files, logOf) <==> !LateOverlap(t, e)
  {
    var u := Apply(t, e);
    var row := Find(t.jobs, e.op.id);
    if row.Some? && Open(t.jobs[row.value]) {
      var i := row.value;
      assert SliceOk(t.jobs[i], e.files, logOf);
      forall j | 0 <= j < |t.jobs| && j != i
        ensures Apart(u.jobs[i], u.jobs[j]) <==> !(t.jobs[i].status == WorkerLost && Intrudes(t.jobs[i], t.jobs[j], e.files))
        ensures Apart(u.jobs[i], u.jobs[j]) <==> Apart(u.jobs[j], u.jobs[i])
        ensures SliceOk(u.jobs[i], e.files, logOf)
      {
        assert SliceOk(t.jobs[j], e.files, logOf);
        assert if i < j then Apart(t.jobs[i], t.jobs[j]) else Apart(t.jobs[j], t.jobs[i]);
        DoneApart(t.jobs[i], t.jobs[j], e.op.ok, e.files, e.now, logOf);
      }
      assert SliceOk(u.jobs[i], e.files, logOf);
    }
  }

  lemma LostSliceOk(job: Job, files: Files, logOf: LogOf, now: int)
    requires OwnLogs(logOf) && SliceOk(job, files, logOf) && job.status == Running
    ensures SliceOk(LostRow(job, files, now), files, logOf)
  {
  }

  lemma LossSlices(t: Tables, e: Event, logOf: LogOf)
    requires OwnLogs(logOf) && Slices(t, e.files, logOf)
    requires e.op.Register? || e.op.Heartbeat?
    ensures Slices(Apply(t, e), e.files, logOf)
  {
    var u := Apply(t, e);
    forall i | 0 <= i < |u.jobs|
      ensures SliceOk(u.jobs[i], e.files, logOf)
      ensures u.jobs[i] == t.jobs[i] || (t.jobs[i].logEnd.None? && u.jobs[i] == LostRow(t.jobs[i], e.files, e.now))
    {
      assert SliceOk(t.jobs[i], e.files, logOf);
      if t.jobs[i].status == Running {
        LostSliceOk(t.jobs[i], e.files, logOf, e.now);
      }
    }
    forall i, j | 0 <= i < j < |u.jobs|
      ensures Apart(u.jobs[i], u.jobs[j])
    {
      assert Apart(t.jobs[i], t.jobs[j]);
    }
  }

  /** The row keeps its place in the log, or has none. */
  predicate SamePlace(a: Job, b: Job) {
    a.logFile == b.logFile && a.logStart == b.logStart && a.logEnd == b.logEnd
  }

  lemma UserRowOk(t: Tables, e: Event, logOf: LogOf, i: nat)
    requires RowsOk(t, e.files, logOf) && i < |Apply(t, e).jobs|
    requires e.op.Enqueue? || e.op.Cancel? || e.op.CancelAll? || e.op.Reclassify?
    ensures SliceOk(Apply(t, e).jobs[i], e.files, logOf)
    ensures if i < |t.jobs| then SamePlace(t.jobs[i], Apply(t, e).jobs[i]) else Apply(t, e).jobs[i].logFile.None?
  {
    if i < |t.jobs| {
      assert SliceOk(t.jobs[i], e.files, logOf);
    }
  }

  lemma UserSlices(t: Tables, e: Event, logOf: LogOf)
    requires Slices(t, e.files, logOf)
    requires e.op.Enqueue? || e.op.Cancel? || e.op.CancelAll? || e.op.Reclassify?
    ensures Slices(Apply(t, e), e.files, logOf)
  {
    var jobs := Apply(t, e).jobs;
    forall i: nat | i < |jobs|
      ensures SliceOk(jobs[i], e.files, logOf)
      ensures if i < |t.jobs| then SamePlace(t.jobs[i], jobs[i]) else jobs[i].logFile.None?
    {
      UserRowOk(t, e, logOf, i);
    }
    forall i, j | 0 <= i < j < |jobs|
      ensures Apart(jobs[i], jobs[j])
    {
      if j < |t.jobs| {
        assert Apart(t.jobs[i], t.jobs[j]);
      }
    }
  }

  lemma CompleteExcerpts(t: Tables, e: Event, logOf: LogOf)
    requires Slices(t, e.files, logOf) && Excerpts(t, e.files) && e.op.Complete? && FromOwnWorker(t, e, logOf)
    ensures Excerpts(Apply(t, e), e.files)
  {
    var u := Apply(t, e);
    var row := Find(t.jobs, e.op.id);
    if row.Some? {
      assert SliceOk(t.jobs[row.value], e.files, logOf);
    }
    forall id | id in u.logs
      ensures var l := u.logs[id];
              l.file in e.files && l.start <= l.end <= |e.files[l.file]|
              && l.content == e.files[l.file][l.start..l.end]
    {
      if id in t.logs && u.logs[id] == t.logs[id] {
        var l := t.logs[id];
        assert l.file in e.files;
      } else {
        assert u.logs[id] == Excerpt(t, e.op.id, e.op.port, e.op.log, e.files).value;
      }
    }
  }

  lemma StepExcerpts(t: Tables, e: Event, logOf: LogOf)
    requires Slices(t, e.files, logOf) && Excerpts(t, e.files) && FromOwnWorker(t, e, logOf)
    ensures Excerpts(Apply(t, e), e.files)
  {
    if e.op.Complete? {
      CompleteExcerpts(t, e, logOf);
    } else {
      assert Apply(t, e).logs == t.logs;
    }
  }

  lemma LossRowOk(t: Tables, e: Event, logOf: LogOf, i: nat)
    requires OwnLogs(logOf) && RowsOk(t, e.files, logOf) && i < |Apply(t, e).jobs|
    requires e.op.Register? || e.op.Heartbeat?
    ensures SliceOk(Apply(t, e).jobs[i], e.files, logOf)
  {
    assert SliceOk(t.jobs[i], e.files, logOf);
    if t.jobs[i].status == Running {
      LostSliceOk(t.jobs[i], e.files, logOf, e.now);
    }
  }

  lemma ReportRowOk(t: Tables, e: Event, logOf: LogOf, i: nat)
    requires OwnLogs(logOf) && RowsOk(t, e.files, logOf) && i < |Apply(t, e).jobs|
    requires e.op.Complete? && FromOwnWorker(t, e, logOf)
    ensures SliceOk(Apply(t, e).jobs[i], e.files, logOf)
  {
    assert SliceOk(t.jobs[i], e.files, logOf);
  }

  lemma ClaimRowOk(t: Tables, e: Event, logOf: LogOf, i: nat)
    requires OwnLogs(logOf) && RowsOk(t, e.files, logOf) && i < |Apply(t, e).jobs|
    requires e.op.Claim? && FromOwnWorker(t, e, logOf)
    ensures SliceOk(Apply(t, e).jobs[i], e.files, logOf)
  {
    assert SliceOk(t.jobs[i], e.files, logOf);
  }

  /** Each slice by itself lies in its log after every step, whether or not slices overlap. */
  lemma StepRows(t: Tables, e: Event, logOf: LogOf)
    requires OwnLogs(logOf) && RowsOk(t, e.files, logOf) && FromOwnWorker(t, e, logOf)
    ensures RowsOk(Apply(t, e), e.files, logOf)
  {
    forall i: nat | i < |Apply(t, e).jobs|
      ensures SliceOk(Apply(t, e).jobs[i], e.files, logOf)
    {
      if e.op.Claim? {
        ClaimRowOk(t, e, logOf, i);
      } else if e.op.Complete? {
        ReportRowOk(t, e, logOf, i);
      } else if e.op.Register? || e.op.Heartbeat? {
        LossRowOk(t, e, logOf, i);
      } else {
        UserRowOk(t, e, logOf, i);
      }
    }
  }

  /** A step of a process that keeps to its own log leaves the slices of each log apart
      exactly when it is neither a late completion that reaches into a later slice nor a claim
      for a port whose last job still runs. */
  lemma StepSlices(t: Tables, e: Event, logOf: LogOf)
    requires OwnLogs(logOf) && Slices(t, e.files, logOf) && FromOwnWorker(t, e, logOf)
    ensures Slices(Apply(t, e), e.files, logOf) <==> !LateOverlap(t, e) && !Reassigns(t, e)
  {
    if e.op.Claim? {
      ClaimSlices(t, e, logOf);
    } else if e.op.Complete? {
      CompleteSlices(t, e, logOf);
    } else if e.op.Register? || e.op.Heartbeat? {
      LossSlices(t, e, logOf);
    } else {
      UserSlices(t, e, logOf);
    }
  }

  ghost predicate Good(t: Tables, files: Files, logOf: LogOf) {
    Slices(t, files, logOf) && Excerpts(t, files)
  }

  /** A run in which each process keeps to its own append-only log and reports its own jobs. */
  ghost predicate OwnLogRun(t: Tables, files: Files, events: seq<Event>, logOf: LogOf)
    decreases |events|
  {
    events != [] ==>
      && OnlyGrow(files, events[0].files) && FromOwnWorker(t, events[0], logOf)
      && OwnLogRun(Apply(t, events[0]), events[0].files, events[1..], logOf)
  }

  /** At every point of the run no two job slices of one log overlap, and every stored
      excerpt is exactly the bytes between its offsets. */
  ghost predicate AlwaysGood(t: Tables, files: Files, events: seq<Event>, logOf: LogOf)
    decreases |events|
  {
    Good(t, files, logOf) && (events != [] ==> AlwaysGood(Apply(t, events[0]), events[0].files, events[1..], logOf))
  }

  ghost predicate NeverOverlaps(t: Tables, events: seq<Event>)
    decreases |events|
  {
    events != [] ==> !LateOverlap(t, events[0]) && !Reassigns(t, events[0]) && NeverOverlaps(Apply(t, events[0]), events[1..])
  }

  lemma StepGood(t: Tables, e: Event, logOf: LogOf)
    requires OwnLogs(logOf) && Good(t, e.files, logOf) && FromOwnWorker(t, e, logOf)
    ensures Good(Apply(t, e), e.files, logOf) <==> !LateOverlap(t, e) && !Reassigns(t, e)
  {
    StepExcerpts(t, e, logOf);
    StepSlices(t, e, logOf);
  }

  /** Over whole runs: the slices of one log stay apart, and every excerpt is exact, exactly
      when no lost job completes after its log was assigned again and no port is given a job
      while its last one still runs. */
  lemma {:induction false} SlicesNeverOverlapExactly(t: Tables, files: Files, events: seq<Event>, logOf: LogOf)
    requires OwnLogs(logOf) && Good(t, files, logOf) && OwnLogRun(t, files, events, logOf)
    ensures AlwaysGood(t, files, events, logOf) <==> NeverOverlaps(t, events)
    decreases |events|
  {
    if events != [] {
      GrowthKeeps(t, files, events[0].files, logOf);
      StepGood(t, events[0], logOf);
      if Good(Apply(t, events[0]), events[0].files, logOf) {
        SlicesNeverOverlapExactly(Apply(t, events[0]), events[0].files, events[1..], logOf);
      }
    }
  }
}
