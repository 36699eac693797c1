/** Following the log of one job while the worker still writes it (admin/job_logs.py): the
    command polls the job's row and copies what has appeared in its log. */
module LogFollow {
  import opened Values
  import opened LogLines
  import S = SchedulerModel
  import opened LogSlices

  // ---- Copying what is there ---------------------------------------------------------

  const COPY_CHUNK: nat := 65536

  /** How far the slice of a row can be read: to its end, or as far as the log goes. */
  function Readable(job: S.Job, files: Files): nat {
    if job.logFile.None? || job.logFile.value == "" then 0
    else if job.logEnd.Some? then Min(Size(files, job.logFile.value), job.logEnd.value)
    else Size(files, job.logFile.value)
  }

  /** The log bytes between two positions that are both in the log. */
  function Between(job: S.Job, files: Files, from: nat, to: nat): Bytes
    requires from <= to <= Readable(job, files)
  {
    if from == to then [] else files[job.logFile.value][from..to]
  }

  /** copy_available: append the readable bytes from `position` on, chunk by chunk. */
  method CopyAvailable(job: S.Job, files: Files, position: nat, output: Bytes) returns (reached: nat, copied: Bytes)
    ensures reached == Max(position, Readable(job, files))
    ensures copied == output + if position < reached then Between(job, files, position, reached) else []
  {
    reached, copied := position, output;
    if job.logFile.None? || job.logFile.value == "" || job.logFile.value !in files {
      return;
    }
    var log := files[job.logFile.value];
    var end := if job.logEnd.Some? then Min(|log|, job.logEnd.value) else |log|;
    if position >= end {
      return;
    }
    var remaining := end - position;
    while remaining > 0
      invariant 0 <= remaining && position <= reached && reached + remaining == end
      invariant copied == output + log[position..reached]
    {
      var chunk := log[reached..reached + Min(COPY_CHUNK, remaining)];
      assert log[position..reached + |chunk|] == log[position..reached] + chunk;
      copied := copied + chunk;
      reached := reached + |chunk|;
      remaining := remaining - |chunk|;
    }
  }

  // ---- Following ---------------------------------------------------------------------

  /** What one poll sees: the row of the job, if there is one, and the files. */
  datatype View = View(job: Option<S.Job>, files: Files)

  /** The exit code, if the command came to an end, and what it had printed. */
  datatype Outcome = Outcome(code: Option<nat>, output: Bytes)

  predicate Terminal(job: S.Job) {
    job.status != S.Queued && job.status != S.Running
  }

  function StartOfSlice(job: S.Job): nat {
    if job.logStart.Some? then job.logStart.value else 0
  }

  /** Where a poll copies from: a position of zero means that the start was not known yet. */
  function From(job: S.Job, position: nat): nat {
    if job.logFile.Some? && job.logFile.value != "" && position == 0 then StartOfSlice(job) else position
  }

  /** The loop over the polls, until it ends or the polls are broken off. */
  function FollowFrom(views: seq<View>, position: nat, output: Bytes): Outcome
    decreases |views|
  {
    if views == [] then Outcome(None, output)
    else if views[0].job.None? then Outcome(Some(2), output)
    else
      var job, files := views[0].job.value, views[0].files;
      var from := From(job, position);
      var reached := Max(from, Readable(job, files));
      var printed := output + if from < reached then Between(job, files, from, reached) else [];
      if Terminal(job) && (job.logEnd.None? || reached >= job.logEnd.value) then Outcome(Some(0), printed)
      else FollowFrom(views[1..], reached, printed)
  }

  /** Where the command starts: at the start of the slice, unless the job is still queued. */
  function Initially(job: S.Job): nat {
    if job.status == S.Queued then 0 else StartOfSlice(job)
  }

  /** The polling loop, which ends after one poll unless the caller follows. */
  method PollJob(views: seq<View>, start: nat, follow: bool) returns (r: Outcome)
    requires |views| > 0
    ensures follow ==> r == FollowFrom(views, start, [])
    ensures !follow ==> r == Outcome(Some(if views[0].job.None? then 2 else 0), FollowFrom(views[..1], start, []).output)
  {
    var position: nat, output: Bytes := start, [];
    var i: nat := 0;
    while i < |views|
      invariant 0 <= i <= |views| && (i == 0 ==> position == start && output == [])
      invariant follow || i == 0
      invariant FollowFrom(views, start, []) == FollowFrom(views[i..], position, output)
    {
      if views[i].job.None? {
        return Outcome(Some(2), output);
      }
      var job := views[i].job.value;
      if job.logFile.Some? && job.logFile.value != "" && position == 0 {
        position := StartOfSlice(job);
      }
      position, output := CopyAvailable(job, views[i].files, position, output);
      if !follow {
        assert views[..1][1..] == [];
        return Outcome(Some(0), output);
      }
      if job.status != S.Queued && job.status != S.Running {
        if job.logEnd.None? || position >= job.logEnd.value {
          return Outcome(Some(0), output);
        }
      }
      assert views[i..][1..] == views[i + 1..];
      i := i + 1;
    }
    r := Outcome(None, output);
  }

  /** show_job: `first` is the row as first read, `views` what the polls see. Code 2: no
      such job; code 3: queued, and not asked to wait. */
  method ShowJob(first: Option<S.Job>, stored: Option<Bytes>, follow: bool, views: seq<View>) returns (r: Outcome)
    requires |views| > 0
    ensures first.None? ==> r == Outcome(Some(2), [])
    ensures first.Some? && follow ==> r == FollowFrom(views, Initially(first.value), [])
    ensures first.Some? && !follow && stored.Some? ==> r == Outcome(Some(0), stored.value)
    ensures first.Some? && !follow && stored.None? && first.value.status == S.Queued ==> r == Outcome(Some(3), [])
    ensures first.Some? && !follow && stored.None? && first.value.status != S.Queued ==>
              r == Outcome(Some(if views[0].job.None? then 2 else 0), FollowFrom(views[..1], Initially(first.value), []).output)
  {
    if first.None? {
      return Outcome(Some(2), []);
    }
    if !follow && stored.Some? {
      return Outcome(Some(0), stored.value);
    }
    var position: nat := 0;
    if first.value.status == S.Queued {
      if !follow {
        return Outcome(Some(3), []);
      }
    } else {
      position := StartOfSlice(first.value);
    }
    r := PollJob(views, position, follow);
  }

  /** A poll ends the command exactly when it finds no row any more, or a job that is over
      and whose slice has been read to its end. */
  lemma PollEndsExactly(v: View, position: nat, output: Bytes)
    ensures
      var code := FollowFrom([v], position, output).code;
      && (code == Some(2) <==> v.job.None?)
      && (code == Some(0) <==>
            && v.job.Some? && v.job.value.status in {S.Completed, S.Failed, S.Cancelled, S.WorkerLost}
            && (v.job.value.logEnd.None? || Max(From(v.job.value, position), Readable(v.job.value, v.files)) >= v.job.value.logEnd.value))
      && (code.None? || code == Some(0) || code == Some(2))
  {
  }

  /** A job whose row disappears while it is followed ends the command with code two and what
      was printed before. */
  lemma {:induction false} VanishedJobFails(views: seq<View>, gone: View, position: nat, output: Bytes)
    requires FollowFrom(views, position, output).code.None? && gone.job.None?
    ensures FollowFrom(views + [gone], position, output) == Outcome(Some(2), FollowFrom(views, position, output).output)
    decreases |views|
  {
    if views == [] {
      assert views + [gone] == [gone];
    } else {
      assert (views + [gone])[1..] == views[1..] + [gone];
      var job, files := views[0].job.value, views[0].files;
      var from := From(job, position);
      var reached := Max(from, Readable(job, files));
      VanishedJobFails(views[1..], gone, reached, output + if from < reached then Between(job, files, from, reached) else []);
    }
  }

  // ---- What is printed ---------------------------------------------------------------

  /** A view of a job whose slice lies in its log. */
  ghost predicate Sound(v: View, logOf: LogOf) {
    v.job.Some? && SliceOk(v.job.value, v.files, logOf)
  }

  /** `b` is a later view of the same job than `a`: the log has grown, the slice begins where
      it began, and if it ended in between, it ended at or after what `a` could read. */
  ghost predicate Later(a: View, b: View) {
    && OnlyGrow(a.files, b.files)
    && a.job.Some? && b.job.Some?
    && (a.job.value.logFile.Some? ==>
          && b.job.value.logFile == a.job.value.logFile && b.job.value.logStart == a.job.value.logStart
          && Readable(a.job.value, a.files) <= Readable(b.job.value, b.files))
  }

  ghost predicate Life(views: seq<View>, logOf: LogOf) {
    && (forall k :: 0 <= k < |views| ==> Sound(views[k], logOf))
    && (forall k :: 0 < k < |views| ==> Later(views[k - 1], views[k]))
  }

  /** The slice of a job, as far as it can be read in a view. */
  function Slice(v: View): Bytes
    requires v.job.Some?
  {
    var job := v.job.value;
    var start := StartOfSlice(job);
    if start < Readable(job, v.files) then Between(job, v.files, start, Readable(job, v.files)) else []
  }

  /** The poll at which following ends: the first that finds the job over, or the last. */
  function LastPoll(views: seq<View>): nat
    requires |views| > 0 && forall k :: 0 <= k < |views| ==> views[k].job.Some?
    ensures LastPoll(views) < |views|
  {
    if Terminal(views[0].job.value) || |views| == 1 then 0 else 1 + LastPoll(views[1..])
  }

  /** What a follower has printed, and where it stands, after a poll that saw `v`. */
  predicate Caught(v: View, position: nat, output: Bytes) {
    && v.job.Some? && output == Slice(v)
    && position == if v.job.value.logFile.Some? then Readable(v.job.value, v.files) else 0
  }

  /** One poll after another view brings the output up to the new view. */
  lemma PollCatchesUp(a: View, b: View, position: nat, output: Bytes, logOf: LogOf)
    requires Sound(a, logOf) && Sound(b, logOf) && Later(a, b) && Caught(a, position, output)
    ensures
      var from := From(b.job.value, position);
      var reached := Max(from, Readable(b.job.value, b.files));
      Caught(b, reached, output + if from < reached then Between(b.job.value, b.files, from, reached) else [])
  {
    var x, y := a.job.value, b.job.value;
    if x.logFile.Some? {
      var log := x.logFile.value;
      var start, mid, end := x.logStart.value, Readable(x, a.files), Readable(y, b.files);
      if log in a.files {
        assert a.files[log] <= b.files[log];
        assert a.files[log][start..mid] == b.files[log][start..mid];
      }
      if log in b.files && mid < end {
        assert b.files[log][start..end] == b.files[log][start..mid] + b.files[log][mid..end];
      }
    }
  }

  lemma LifeTail(views: seq<View>, logOf: LogOf)
    requires |views| > 1 && Life(views, logOf)
    ensures Life(views[1..], logOf) && Later(views[0], views[1])
  {
    forall k | 0 < k < |views[1..]|
      ensures Later(views[1..][k - 1], views[1..][k])
    {
      assert Later(views[k], views[k + 1]);
    }
  }

  /** Where a poll that sees `v` stops copying, and what has been printed then. */
  function Reached(v: View, position: nat): nat
    requires v.job.Some?
  {
    Max(From(v.job.value, position), Readable(v.job.value, v.files))
  }

  function Printed(v: View, position: nat, output: Bytes): Bytes
    requires v.job.Some?
  {
    var from := From(v.job.value, position);
    output + if from < Reached(v, position) then Between(v.job.value, v.files, from, Reached(v, position)) else []
  }

  /** A poll of a job whose slice it has caught up with ends the command exactly when the job
      is over. */
  lemma CaughtPoll(views: seq<View>, position: nat, output: Bytes, logOf: LogOf)
    requires |views| > 0 && Sound(views[0], logOf)
    requires Caught(views[0], Reached(views[0], position), Printed(views[0], position, output))
    ensures
      FollowFrom(views, position, output)
      == if Terminal(views[0].job.value) then Outcome(Some(0), Slice(views[0]))
         else FollowFrom(views[1..], Reached(views[0], position), Slice(views[0]))
  {
  }

  lemma {:induction false} FollowGoesOn(views: seq<View>, position: nat, output: Bytes, logOf: LogOf)
    requires |views| > 0 && Life(views, logOf)
    requires Caught(views[0], Reached(views[0], position), Printed(views[0], position, output))
    ensures
      var last := LastPoll(views);
      FollowFrom(views, position, output)
      == Outcome(if Terminal(views[last].job.value) then Some(0) else None, Slice(views[last]))
    decreases |views|
  {
    CaughtPoll(views, position, output, logOf);
    if |views| == 1 {
      assert views[1..] == [];
    } else if !Terminal(views[0].job.value) {
      LifeTail(views, logOf);
      PollCatchesUp(views[0], views[1], Reached(views[0], position), Slice(views[0]), logOf);
      FollowGoesOn(views[1..], Reached(views[0], position), Slice(views[0]), logOf);
    }
  }

  /** A first reading that is as good as a poll that copied nothing. */
  lemma FirstReading(first: View, b: View, logOf: LogOf)
    requires Sound(first, logOf) && Sound(b, logOf) && Later(first, b)
    ensures Caught(b, Reached(b, Initially(first.job.value)), Printed(b, Initially(first.job.value), []))
  {
    var from, reached := From(b.job.value, Initially(first.job.value)), Reached(b, Initially(first.job.value));
    assert from < reached ==> [] + Between(b.job.value, b.files, from, reached) == Between(b.job.value, b.files, from, reached);
  }

  /** Following a job from any moment of its life prints exactly its slice of the log: all
      of it, with exit code 0, from the first poll that finds the job over, and what there
      is so far if the polls are broken off before. */
  lemma FollowPrintsTheSlice(first: View, views: seq<View>, logOf: LogOf)
    requires |views| > 0 && Life(views, logOf) && Sound(first, logOf) && Later(first, views[0])
    ensures
      var last := LastPoll(views);
      FollowFrom(views, Initially(first.job.value), [])
      == Outcome(if Terminal(views[last].job.value) then Some(0) else None, Slice(views[last]))
  {
    FirstReading(first, views[0], logOf);
    FollowGoesOn(views, Initially(first.job.value), [], logOf);
  }

  // ---- Views taken during a run ------------------------------------------------------

  lemma ReportIsLater(t: S.Tables, e: S.Event, i: nat, logOf: LogOf)
    requires i < |t.jobs| && SliceOk(t.jobs[i], e.files, logOf) && FromOwnWorker(t, e, logOf)
    requires e.op.Complete?
    ensures i < |S.Apply(t, e).jobs| && Later(View(Some(t.jobs[i]), e.files), View(Some(S.Apply(t, e).jobs[i]), e.files))
  {
  }

  lemma LossIsLater(t: S.Tables, e: S.Event, i: nat, logOf: LogOf)
    requires i < |t.jobs| && SliceOk(t.jobs[i], e.files, logOf)
    requires e.op.Register? || e.op.Heartbeat?
    ensures i < |S.Apply(t, e).jobs| && Later(View(Some(t.jobs[i]), e.files), View(Some(S.Apply(t, e).jobs[i]), e.files))
  {
  }

  /** A step moves no slice, and ends one only at the present end of the log. */
  lemma StepIsLater(t: S.Tables, e: S.Event, i: nat, logOf: LogOf)
    requires i < |t.jobs| && SliceOk(t.jobs[i], e.files, logOf)
    requires FromOwnWorker(t, e, logOf)
    ensures i < |S.Apply(t, e).jobs| && Later(View(Some(t.jobs[i]), e.files), View(Some(S.Apply(t, e).jobs[i]), e.files))
  {
    if e.op.Complete? {
      ReportIsLater(t, e, i, logOf);
    } else if e.op.Register? || e.op.Heartbeat? {
      LossIsLater(t, e, i, logOf);
    }
  }

  lemma GrowthIsLater(job: S.Job, f: Files, g: Files, logOf: LogOf)
    requires OnlyGrow(f, g) && SliceOk(job, f, logOf)
    ensures Later(View(Some(job), f), View(Some(job), g))
  {
    if job.logFile.Some? && job.logFile.value in f {
      assert f[job.logFile.value] <= g[job.logFile.value];
    }
  }

  lemma LaterTwice(a: View, b: View, c: View)
    requires Later(a, b) && Later(b, c)
    ensures Later(a, c)
  {
    forall p | p in a.files
      ensures p in c.files && a.files[p] <= c.files[p]
    {
      assert p in b.files && a.files[p] <= b.files[p] && b.files[p] <= c.files[p];
      assert a.files[p] == b.files[p][..|a.files[p]|] == c.files[p][..|a.files[p]|];
    }
  }

  function FilesAfter(files: Files, events: seq<S.Event>): Files {
    if events == [] then files else events[|events| - 1].files
  }

  lemma OneStepLater(t: S.Tables, files: Files, e: S.Event, i: nat, logOf: LogOf)
    requires OwnLogs(logOf) && RowsOk(t, files, logOf) && OnlyGrow(files, e.files) && i < |t.jobs|
    requires FromOwnWorker(t, e, logOf)
    ensures RowsOk(S.Apply(t, e), e.files, logOf)
    ensures i < |S.Apply(t, e).jobs| && Later(View(Some(t.jobs[i]), files), View(Some(S.Apply(t, e).jobs[i]), e.files))
  {
    assert SliceOk(t.jobs[i], files, logOf);
    GrowthKeeps(t, files, e.files, logOf);
    GrowthIsLater(t.jobs[i], files, e.files, logOf);
    assert SliceOk(t.jobs[i], e.files, logOf);
    StepIsLater(t, e, i, logOf);
    StepRows(t, e, logOf);
    LaterTwice(View(Some(t.jobs[i]), files), View(Some(t.jobs[i]), e.files), View(Some(S.Apply(t, e).jobs[i]), e.files));
  }

  /** The row of job `i` and the files, at the end of a run. */
  ghost function ViewAfter(t: S.Tables, files: Files, events: seq<S.Event>, i: nat): View {
    var jobs := S.Run(t, events).jobs;
    View(if i < |jobs| then Some(jobs[i]) else None, FilesAfter(files, events))
  }

  lemma ViewNext(t: S.Tables, files: Files, events: seq<S.Event>, i: nat)
    requires events != []
    ensures ViewAfter(t, files, events, i) == ViewAfter(S.Apply(t, events[0]), events[0].files, events[1..], i)
  {
  }

  /** What a run does to a job between two polls makes the second a later view of the first:
      polls taken along a run of the scheduler are views of one life. */
  lemma {:induction false} RunIsLater(t: S.Tables, files: Files, events: seq<S.Event>, i: nat, logOf: LogOf)
    requires OwnLogs(logOf) && RowsOk(t, files, logOf) && OwnLogRun(t, files, events, logOf) && i < |t.jobs|
    ensures Sound(ViewAfter(t, files, events, i), logOf) && Later(View(Some(t.jobs[i]), files), ViewAfter(t, files, events, i))
    decreases |events|
  {
    if events == [] {
      assert SliceOk(t.jobs[i], files, logOf);
      GrowthIsLater(t.jobs[i], files, files, logOf);
    } else {
      var u, g := S.Apply(t, events[0]), events[0].files;
      OneStepLater(t, files, events[0], i, logOf);
      RunIsLater(u, g, events[1..], i, logOf);
      ViewNext(t, files, events, i);
      LaterTwice(View(Some(t.jobs[i]), files), View(Some(u.jobs[i]), g), ViewAfter(t, files, events, i));
    }
  }
}
