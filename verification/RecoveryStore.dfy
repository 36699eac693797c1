/** The recovery manager object of utils/api_recovery.py: its table, updated in place, and one
    whole iteration, proved to be the steps of RecoveryModel one after the other. */
module RecoveryStore {
  import opened Values
  import S = SchedulerModel
  import H = History
  import opened RecoveryModel

  /** What an iteration meets: the queue when it sweeps, when it picks a row, after the query,
      after the download and when it publishes; the rows that other processes observe between
      sweep and pick, by the time it publishes, and before it acknowledges; the history that it
      publishes into, and what others make of it then; what the provider and the download
      answered. */
  datatype Encounter = Encounter(swept: S.Tables, joined: seq<Rec>, picked: S.Tables, asked: S.Tables, downloaded: S.Tables, published: S.Tables,
                                 saved: H.Table, observed: seq<Rec>, later: H.Table -> H.Table, after: seq<Rec>,
                                 outcome: Outcome, videos: Option<seq<string>>,
                                 prompt: string, createTime: Option<int>, now: int)

  /** What the steps up to the download decide. */
  ghost function Decide(w: World, k: nat, started: int, x: Encounter): Decision
    requires k < |w.recs|
  {
    var fetched := FetchRunner(w.(queue := x.asked), k, started, x.outcome);
    if fetched.Downloading? then DownloadRunner(w.(queue := x.downloaded), k, started, x.videos).decision else fetched.decision
  }

  /** The steps that finish an iteration: publish, then acknowledge unless refused. */
  ghost function Finish(w: World, k: nat, started: int, d: Decision, x: Encounter): World
    requires k < |w.recs|
  {
    var v := PublishStep(w.(queue := x.published, runner := Some(Decided(k, started, d))), k, started, d, x.prompt, x.createTime, x.now);
    if v.runner.Some? then
      AcknowledgeStep(v.(history := x.later(v.history), recs := v.recs + x.after), k, started, v.runner.value.decision)
    else v
  }

  /** The tables as the iteration finds them when it picks a row. */
  ghost function Base(w: World, x: Encounter): World {
    var swept := SweepStep(w.(queue := x.swept));
    swept.(queue := x.picked, recs := swept.recs + x.joined)
  }

  /** And when it publishes. */
  ghost function Found(base: World, x: Encounter): World {
    base.(history := x.saved, recs := base.recs + x.observed)
  }

  /** Steps that other processes can take while an iteration holds the lock. */
  ghost predicate OnlyOthers(events: seq<Event>) {
    forall k :: 0 <= k < |events| ==>
      events[k].step.Scheduler? || events[k].step.SaveHistory? || events[k].step.DeleteHistory? || events[k].step.Observe?
  }

  lemma {:induction false} OthersRun(w: World, events: seq<Event>)
    requires OnlyOthers(events)
    ensures Run(w, events).runner == w.runner && w.recs <= Run(w, events).recs
    decreases |events|
  {
    if events != [] {
      OtherStep(w, events[0]);
      OthersRun(Apply(w, events[0]), events[1..]);
    }
  }

  lemma OtherStep(w: World, e: Event)
    requires e.step.Scheduler? || e.step.SaveHistory? || e.step.DeleteHistory? || e.step.Observe?
    ensures Apply(w, e).runner == w.runner && w.recs <= Apply(w, e).recs
  {
  }

  lemma Picks(w: World, k: nat, e: Event)
    requires w.runner.None? && FirstDue(w.queue.jobs, SweepStep(w).recs, k, e.now)
    ensures
      var picked := Apply(Apply(w, e.(step := Sweep)), e.(step := Choose(k)));
      picked.recs == SweepStep(w).recs && picked.history == w.history && picked.runner == Some(Chosen(k, e.now))
  {
    var swept := Apply(w, e.(step := Sweep));
    forall j | 0 <= j < |w.recs|
      ensures DueRow(w.queue.jobs, SweepStep(w).recs[j], e.now) == DueRow(swept.queue.jobs, swept.recs[j], e.now)
    {
    }
    assert FirstDue(swept.queue.jobs, swept.recs, k, e.now);
  }

  lemma Asks(w: World, k: nat, started: int, e: Event, outcome: Outcome)
    requires k < |w.recs| && w.runner == Some(Chosen(k, started))
    ensures
      var fetched := Apply(w, e.(step := Fetch(outcome)));
      && fetched.recs == w.recs && fetched.history == w.history
      && fetched.runner == Some(FetchRunner(w, k, started, outcome))
  {
  }

  lemma Loads(w: World, k: nat, started: int, e: Event, videos: Option<seq<string>>)
    requires k < |w.recs| && w.runner.Some?
    requires w.runner.value == Downloading(k, started) || w.runner.value.Decided?
    ensures
      var decided := Apply(w, e.(step := Download(videos)));
      && decided.recs == w.recs && decided.history == w.history
      && decided.runner == if w.runner.value.Downloading? then Some(DownloadRunner(w, k, started, videos)) else w.runner
  {
  }

  lemma Publishes(w: World, k: nat, started: int, d: Decision, x: Encounter, e: Event)
    requires k < |w.recs| && w.runner == Some(Decided(k, started, d))
    ensures
      var v := Apply(w, Event(Publish(x.prompt, x.createTime), x.now, e.files));
      var direct := PublishStep(w, k, started, d, x.prompt, x.createTime, x.now);
      v.recs == direct.recs == w.recs && v.history == direct.history && v.runner == direct.runner
      && (v.runner.Some? ==> v.runner.value.Published? && v.runner.value.rec == k && v.runner.value.now == started)
  {
  }

  lemma Acknowledges(w: World, k: nat, started: int, e: Event)
    requires k < |w.recs|
    requires w.runner.Some? ==> w.runner.value.Published? && w.runner.value.rec == k && w.runner.value.now == started
    ensures
      var done := Apply(w, e.(step := Acknowledge));
      && done.runner.None? && done.history == w.history
      && done.recs == if w.runner.Some? then w.recs[k := AcknowledgedRow(w.recs[k], started, w.runner.value.decision)] else w.recs
  {
  }

  /** What other processes do in the five gaps of an iteration. */
  datatype Gaps = Gaps(swept: seq<Event>, picked: seq<Event>, asked: seq<Event>, loaded: seq<Event>, published: seq<Event>)

  ghost predicate ByOthers(g: Gaps) {
    OnlyOthers(g.swept) && OnlyOthers(g.picked) && OnlyOthers(g.asked) && OnlyOthers(g.loaded) && OnlyOthers(g.published)
  }

  /** The world in which a row is picked, after the sweep and the first gap. */
  ghost function Picking(w: World, g: Gaps, e: Event): World {
    Run(Apply(w, e.(step := Sweep)), g.swept)
  }

  /** The worlds after the query's gap, after the download's gap, and before publishing. */
  ghost function Interleave(w: World, k: nat, x: Encounter, e: Event, g: Gaps): (World, World, World) {
    var asked := Run(Apply(Picking(w, g, e), e.(step := Choose(k))), g.picked);
    var loaded := Run(Apply(asked, e.(step := Fetch(x.outcome))), g.asked);
    (asked, loaded, Run(Apply(loaded, e.(step := Download(x.videos))), g.loaded))
  }

  /** The world after publishing, and what others have made of it before the acknowledgement. */
  ghost function AfterPublishing(w: World, k: nat, x: Encounter, e: Event, g: Gaps): World {
    Apply(Interleave(w, k, x, e, g).2, Event(Publish(x.prompt, x.createTime), x.now, e.files))
  }

  ghost function BeforeAcknowledging(w: World, k: nat, x: Encounter, e: Event, g: Gaps): World {
    Run(AfterPublishing(w, k, x, e, g), g.published)
  }

  /** Rows are only added on the way. */
  ghost predicate RowsGrow(w: World, k: nat, x: Encounter, e: Event, g: Gaps) {
    && SweepStep(w).recs <= Picking(w, g, e).recs <= Interleave(w, k, x, e, g).2.recs
    && AfterPublishing(w, k, x, e, g).recs <= BeforeAcknowledging(w, k, x, e, g).recs
  }

  /** What the object meets on such a run. */
  ghost function Met(w: World, k: nat, x: Encounter, e: Event, g: Gaps): Encounter
    requires RowsGrow(w, k, x, e, g)
  {
    var picking := Picking(w, g, e);
    var (asked, loaded, ready) := Interleave(w, k, x, e, g);
    var settled := BeforeAcknowledging(w, k, x, e, g);
    x.(swept := w.queue, joined := picking.recs[|SweepStep(w).recs|..], picked := picking.queue,
    asked := asked.queue, downloaded := loaded.queue, published := ready.queue,
    saved := ready.history, observed := ready.recs[|picking.recs|..],
    later := _ => settled.history, after := settled.recs[|AfterPublishing(w, k, x, e, g).recs|..])
  }

  lemma Chooses(w: World, k: nat, e: Event)
    requires w.runner.None? && FirstDue(w.queue.jobs, w.recs, k, e.now)
    ensures
      var v := Apply(w, e.(step := Choose(k)));
      v.recs == w.recs && v.history == w.history && v.queue == w.queue && v.runner == Some(Chosen(k, e.now))
  {
  }

  lemma Sweeps(w: World, e: Event)
    requires w.runner.None?
    ensures
      var v := Apply(w, e.(step := Sweep));
      v.recs == SweepStep(w).recs && v.history == w.history && v.queue == w.queue && v.runner.None?
  {
  }

  lemma PickingIs(w: World, g: Gaps, e: Event)
    requires OnlyOthers(g.swept) && w.runner.None?
    ensures Picking(w, g, e).runner.None? && SweepStep(w).recs <= Picking(w, g, e).recs
  {
    Sweeps(w, e);
    OthersRun(Apply(w, e.(step := Sweep)), g.swept);
  }

  /** From the pick on: the rows only grow, and the decision is what was asked and loaded. */
  lemma InterleaveIs(w: World, k: nat, x: Encounter, e: Event, g: Gaps)
    requires ByOthers(g) && Picking(w, g, e).runner.None?
    requires FirstDue(Picking(w, g, e).queue.jobs, Picking(w, g, e).recs, k, e.now)
    ensures
      var (asked, loaded, ready) := Interleave(w, k, x, e, g);
      && Picking(w, g, e).recs <= asked.recs <= loaded.recs <= ready.recs
      && k < |asked.recs|
      && var fetched := FetchRunner(asked, k, e.now, x.outcome);
         ready.runner == Some(if fetched.Downloading? then DownloadRunner(loaded, k, e.now, x.videos) else fetched)
  {
    var picking := Picking(w, g, e);
    Chooses(picking, k, e);
    var picked := Apply(picking, e.(step := Choose(k)));
    OthersRun(picked, g.picked);
    var asked := Run(picked, g.picked);
    Asks(asked, k, e.now, e, x.outcome);
    var fetched := Apply(asked, e.(step := Fetch(x.outcome)));
    OthersRun(fetched, g.asked);
    var loaded := Run(fetched, g.asked);
    Loads(loaded, k, e.now, e, x.videos);
    OthersRun(Apply(loaded, e.(step := Download(x.videos))), g.loaded);
  }

  lemma PrefixAndRest(a: seq<Rec>, b: seq<Rec>)
    requires a <= b
    ensures a + b[|a|..] == b
  {
  }

  /** What the object meets gives it the same rows. */
  lemma MetRows(w: World, k: nat, x: Encounter, e: Event, g: Gaps)
    requires RowsGrow(w, k, x, e, g)
    ensures
      var y := Met(w, k, x, e, g);
      var ready := Interleave(w, k, x, e, g).2;
      && Base(w, y).recs == Picking(w, g, e).recs
      && Found(Base(w, y), y).recs == ready.recs && Found(Base(w, y), y).history == ready.history
  {
    var y := Met(w, k, x, e, g);
    BaseIs(w, y);
    PrefixAndRest(SweepStep(w).recs, Picking(w, g, e).recs);
    PrefixAndRest(Picking(w, g, e).recs, Interleave(w, k, x, e, g).2.recs);
  }

  lemma LastGapGrows(w: World, k: nat, x: Encounter, e: Event, g: Gaps)
    requires OnlyOthers(g.published)
    ensures AfterPublishing(w, k, x, e, g).recs <= BeforeAcknowledging(w, k, x, e, g).recs
  {
    OthersRun(AfterPublishing(w, k, x, e, g), g.published);
  }

  /** And the same decision. */
  lemma MetDecides(w: World, k: nat, x: Encounter, e: Event, g: Gaps)
    requires ByOthers(g) && w.runner.None?
    requires FirstDue(Picking(w, g, e).queue.jobs, Picking(w, g, e).recs, k, e.now)
    ensures RowsGrow(w, k, x, e, g)
    ensures
      var y := Met(w, k, x, e, g);
      var base := Base(w, y);
      && k < |base.recs|
      && Interleave(w, k, x, e, g).2.runner == Some(Decided(k, e.now, Decide(base, k, e.now, y)))
  {
    PickingIs(w, g, e);
    InterleaveIs(w, k, x, e, g);
    LastGapGrows(w, k, x, e, g);
    MetRows(w, k, x, e, g);
    var y := Met(w, k, x, e, g);
    var (asked, loaded, ready) := Interleave(w, k, x, e, g);
    DecidedBy(asked, loaded, k, e.now, y, Base(w, y));
  }

  lemma DecidedBy(asked: World, loaded: World, k: nat, started: int, x: Encounter, base: World)
    requires k < |base.recs| && base.recs <= asked.recs <= loaded.recs
    requires x.asked == asked.queue && x.downloaded == loaded.queue
    ensures
      var fetched := FetchRunner(asked, k, started, x.outcome);
      (if fetched.Downloading? then DownloadRunner(loaded, k, started, x.videos) else fetched)
      == Decided(k, started, Decide(base, k, started, x))
  {
    assert asked.recs[k] == base.recs[k] && loaded.recs[k] == asked.recs[k];
    SameDecision(base, asked, loaded, k, started, x);
  }

  lemma BaseIs(w: World, x: Encounter)
    requires x.swept == w.queue
    ensures Base(w, x).recs == SweepStep(w).recs + x.joined && Base(w, x).history == w.history
  {
    assert SweepStep(w.(queue := x.swept)).recs == SweepStep(w).recs;
  }

  /** Publishing, the last gap, and acknowledging. */
  lemma LastSteps(ready: World, k: nat, d: Decision, x: Encounter, e: Event, others: seq<Event>)
    requires k < |ready.recs| && ready.runner == Some(Decided(k, e.now, d)) && OnlyOthers(others)
    ensures
      var direct := PublishStep(ready, k, e.now, d, x.prompt, x.createTime, x.now);
      var published := Apply(ready, Event(Publish(x.prompt, x.createTime), x.now, e.files));
      var met := Run(published, others);
      var done := Apply(met, e.(step := Acknowledge));
      && published.history == direct.history && published.recs == direct.recs && published.runner == direct.runner
      && k < |direct.recs| && direct.recs <= met.recs
      && done.history == met.history && done.runner.None?
      && done.recs == met.recs[k := if direct.runner.Some? then AcknowledgedRow(direct.recs[k], e.now, direct.runner.value.decision)
                                    else direct.recs[k]]
  {
    Publishes(ready, k, e.now, d, x, e);
    var published := Apply(ready, Event(Publish(x.prompt, x.createTime), x.now, e.files));
    OthersRun(published, others);
    Acknowledges(Run(published, others), k, e.now, e);
  }

  /** The object's iteration is a run of the protocol, whatever the scheduler, workers saving
      and users deleting results, and other observers do in its five gaps: it ends with the
      history and the rows that the steps end with, and stops where they stop when publishing
      is refused. */
  lemma IterationIsARun(w: World, k: nat, x: Encounter, e: Event, g: Gaps)
    requires ByOthers(g) && w.runner.None?
    requires FirstDue(Picking(w, g, e).queue.jobs, Picking(w, g, e).recs, k, e.now)
    ensures RowsGrow(w, k, x, e, g)
    ensures
      var y := Met(w, k, x, e, g);
      var base := Base(w, y);
      && k < |base.recs|
      && var direct := Finish(Found(base, y), k, e.now, Decide(base, k, e.now, y), y);
         var published := AfterPublishing(w, k, x, e, g);
         var done := Apply(BeforeAcknowledging(w, k, x, e, g), e.(step := Acknowledge));
         if published.runner.Some? then direct.recs == done.recs && direct.history == done.history && done.runner.None?
         else direct.recs == published.recs && direct.history == published.history
  {
    MetDecides(w, k, x, e, g);
    MetRows(w, k, x, e, g);
    var y := Met(w, k, x, e, g);
    var base, ready := Base(w, y), Interleave(w, k, x, e, g).2;
    var d := Decide(base, k, e.now, y);
    LastSteps(ready, k, d, y, e, g.published);
    PrefixAndRest(AfterPublishing(w, k, x, e, g).recs, BeforeAcknowledging(w, k, x, e, g).recs);
    FinishIs(Found(base, y), ready, k, e.now, d, y);
  }

  /** Finishing reads the queue from the encounter, and publishes as the step does. */
  lemma FinishIs(v: World, ready: World, k: nat, started: int, d: Decision, x: Encounter)
    requires k < |v.recs| && ready.recs == v.recs && ready.history == v.history && x.published == ready.queue
    requires ready.runner == Some(Decided(k, started, d))
    ensures
      var p := PublishStep(ready, k, started, d, x.prompt, x.createTime, x.now);
      var f := Finish(v, k, started, d, x);
      && k < |p.recs| && p.recs == v.recs
      && f.history == (if p.runner.Some? then x.later(p.history) else p.history)
      && f.recs == if p.runner.Some? then (p.recs + x.after)[k := AcknowledgedRow(p.recs[k], started, p.runner.value.decision)]
                   else p.recs
  {
  }

  /** Deciding reads the queue from the encounter, and of the world only the row it works on. */
  lemma SameDecision(v: World, asked: World, loaded: World, k: nat, started: int, x: Encounter)
    requires k < |v.recs| && k < |asked.recs| && k < |loaded.recs|
    requires asked.recs[k] == v.recs[k] && loaded.recs[k] == v.recs[k]
    requires x.asked == asked.queue && x.downloaded == loaded.queue
    ensures
      var fetched := FetchRunner(asked, k, started, x.outcome);
      var decided := if fetched.Downloading? then DownloadRunner(loaded, k, started, x.videos) else fetched;
      decided == Decided(k, started, Decide(v, k, started, x))
  {
  }

  class ApiRecoveryManager {
    var recs: seq<Rec>
    const history: H.HistoryStore

    constructor (history: H.HistoryStore)
      ensures recs == [] && this.history == history
    {
      recs := [];
      this.history := history;
    }

    /** INSERT OR IGNORE: the first submission with a key wins. */
    method Observe(queue: S.Tables, rec: Rec, now: int)
      modifies this
      ensures World(queue, history.rows, recs, None, now) == ObserveStep(World(queue, history.rows, old(recs), None, now), rec, now)
    {
      if rec.credentials.None? || !S.HasStatus(queue.jobs, rec.promptId, S.Running) {
        return;
      }
      for i := 0 to |recs|
        invariant recs == old(recs)
        invariant forall k :: 0 <= k < i ==> recs[k].id != rec.id
      {
        if recs[i].id == rec.id {
          return;
        }
      }
      recs := recs + [rec.(state := H.Pending, createdAt := now, nextCheck := 0, failures := 0, message := "", acts := 0)];
    }

    /** Give up the pending recoveries of jobs that ended by themselves. */
    method Sweep(queue: S.Tables)
      modifies this
      ensures recs == SweepStep(World(queue, history.rows, old(recs), None, 0)).recs
    {
      for i := 0 to |recs|
        invariant |recs| == |old(recs)|
        invariant forall k :: 0 <= k < i ==> recs[k] == SweptRow(queue.jobs, old(recs)[k])
        invariant forall k :: i <= k < |recs| ==> recs[k] == old(recs)[k]
      {
        var r := recs[i];
        if r.state == H.Pending {
          var row := S.Find(queue.jobs, r.promptId);
          if row.Some? && (queue.jobs[row.value].status == S.Completed || queue.jobs[row.value].status == S.Cancelled
                           || queue.jobs[row.value].status == S.Failed) {
            recs := recs[i := r.(state := H.Ignored, credentials := None)];
          }
        }
      }
    }

    /** ORDER BY next_check, created_at LIMIT 1 over the due rows. */
    method SelectDue(queue: S.Tables, now: int) returns (row: Option<nat>)
      ensures row.Some? ==> FirstDue(queue.jobs, recs, row.value, now)
      ensures row.None? ==> forall k :: 0 <= k < |recs| ==> !DueRow(queue.jobs, recs[k], now)
    {
      row := None;
      for i := 0 to |recs|
        invariant row.Some? ==> row.value < i && DueRow(queue.jobs, recs[row.value], now)
        invariant row.None? ==> forall k :: 0 <= k < i ==> !DueRow(queue.jobs, recs[k], now)
        invariant row.Some? ==> forall k :: 0 <= k < i && DueRow(queue.jobs, recs[k], now) ==>
                                  recs[row.value].nextCheck < recs[k].nextCheck
                                  || (recs[row.value].nextCheck == recs[k].nextCheck && recs[row.value].createdAt <= recs[k].createdAt)
      {
        if DueRow(queue.jobs, recs[i], now) {
          if row.None? || recs[i].nextCheck < recs[row.value].nextCheck
             || (recs[i].nextCheck == recs[row.value].nextCheck && recs[i].createdAt < recs[row.value].createdAt) {
            row := Some(i);
          }
        }
      }
    }

    /** Merge into the history under the transaction, if the job is still lost. */
    method Publish(k: nat, state: H.RecoveryState, message: string, videos: seq<string>, x: Encounter)
      returns (r: Result<bool, H.HistoryError>)
      requires k < |recs|
      modifies history
      ensures
        var w := World(x.published, old(history.rows), recs, None, x.now);
        if Lost(w, recs[k].promptId)
        then (history.rows, r) == H.MergeStep(old(history.rows), TaskOf(w, recs[k], x.prompt, x.createTime), state, message, videos, x.now)
        else r == Ok(false) && history.rows == old(history.rows)
    {
      var row := S.Find(x.published.jobs, recs[k].promptId);
      if row.None? || x.published.jobs[row.value].status != S.WorkerLost {
        return Ok(false);
      }
      var job := x.published.jobs[row.value];
      var task := H.RecoveryTask(recs[k].id, recs[k].promptId, job.owner, recs[k].nodeId, recs[k].provider, recs[k].taskId,
                                 x.prompt, x.createTime, job.submittedAt);
      r := history.MergeApiRecovery(task, state, message, videos, x.now);
    }

    method PowerOfTwo(n: nat) returns (p: nat)
      ensures p == Pow2(n)
    {
      p := 1;
      for i := 0 to n
        invariant p == Pow2(i)
      {
        p := 2 * p;
      }
    }

    /** Ask the provider and download: the state, message, videos and failures to write. */
    method Consult(k: nat, started: int, x: Encounter) returns (d: Decision)
      requires k < |recs|
      ensures forall w: World :: w.recs == recs ==> d == Decide(w, k, started, x)
    {
      var rec := recs[k];
      var state, message, videos, failures := H.Pending, "", [], rec.failures;
      var trouble := false;
      if started - rec.createdAt > MAX_AGE {
        state, message := H.Failed, EXPIRED;
      } else if x.outcome.QueryRejected? {
        state, message := H.Failed, TextOf(x.outcome.rejection);
      } else if x.outcome.Trouble? {
        trouble := true;
      } else if !S.HasStatus(x.asked.jobs, rec.promptId, S.WorkerLost) {
        state, message := H.Ignored, FINISHED;
      } else if x.outcome.Ready? {
        if x.videos.None? {
          trouble := true;
        } else if !S.HasStatus(x.downloaded.jobs, rec.promptId, S.WorkerLost) {
          state, message := H.Ignored, FINISHED;
        } else {
          state, message, videos := H.Recovered, "recovered", x.videos.value;
        }
      } else if x.outcome.Refused? {
        state, message := H.Failed, "refused";
      } else {
        message, failures := "in progress", 0;
      }
      if trouble {
        failures, message := failures + 1, "retrying";
        if failures >= MAX_FAILURES {
          state, message := H.Failed, "gave up";
        }
      }
      d := Decision(state, message, videos, failures);
    }

    /** Persist the history before acknowledging: a crash in between repeats the merge. */
    method Settle(k: nat, started: int, decision: Decision, x: Encounter) returns (r: Result<bool, H.HistoryError>)
      requires k < |recs|
      modifies this, history
      ensures
        var after := Finish(World(x.picked, old(history.rows), old(recs), None, started), k, started, decision, x);
        recs == after.recs && history.rows == after.history
      ensures r.Ok? ==> r.value
      ensures r.Err? ==> recs == old(recs) && history.rows == old(history.rows)
    {
      var rec := recs[k];
      var state := decision.state;
      if state != H.Ignored {
        var published := Publish(k, state, decision.message, decision.videos, x);
        if published.Err? {
          return Err(published.error);
        }
        if !published.value {
          state := H.Ignored;
        }
      }
      recs := recs + x.after;
      history.rows := x.later(history.rows);
      var power := PowerOfTwo(Min(decision.failures, 6));
      recs := recs[k := rec.(state := state, message := decision.message, nextCheck := started + Min(1800, 30 * power),
                             failures := decision.failures, credentials := if state == H.Pending then rec.credentials else None,
                             acts := rec.acts + 1)];
      r := Ok(true);
    }

    /** One iteration: give up what is moot, pick the first due row, ask, download, publish,
        acknowledge. False when nothing is due; an error when publishing was refused, which
        leaves the row as it was. The history and the table of recoveries are shared: before it
        publishes and before it acknowledges, they are what other processes have made of them. */
    method RecoverOne(x: Encounter, started: int) returns (r: Result<bool, H.HistoryError>, ghost row: Option<nat>)
      modifies this, history
      ensures
        var base := Base(World(x.swept, old(history.rows), old(recs), None, started), x);
        match row
        case None => r == Ok(false) && recs == base.recs && history.rows == old(history.rows)
                     && forall k :: 0 <= k < |base.recs| ==> !DueRow(x.picked.jobs, base.recs[k], started)
        case Some(k) =>
          && FirstDue(x.picked.jobs, base.recs, k, started)
          && var after := Finish(Found(base, x), k, started, Decide(base, k, started, x), x);
             recs == after.recs && history.rows == after.history && (r.Ok? ==> r.value)
             && (r.Err? ==> recs == base.recs + x.observed && history.rows == x.saved)
    {
      Sweep(x.swept);
      recs := recs + x.joined;
      var due := SelectDue(x.picked, started);
      row := due;
      if due.None? {
        return Ok(false), row;
      }
      var decision := Consult(due.value, started, x);
      recs := recs + x.observed;
      history.rows := x.saved;
      r := Settle(due.value, started, decision, x);
    }
  }
}
