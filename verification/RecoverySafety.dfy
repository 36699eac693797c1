/** Theorems about recovery: success wins, repetition after a crash is harmless, and every
    recovery row is dealt with in a bounded number of iterations. */
module RecoverySafety {
  import opened Values
  import S = SchedulerModel
  import H = History
  import opened RecoveryModel

  // ---- The retry delay ---------------------------------------------------------------

  lemma {:induction false} Pow2Grows(m: nat, n: nat)
    requires m <= n
    ensures 0 < Pow2(m) <= Pow2(n)
  {
    if m < n {
      Pow2Grows(m, n - 1);
    } else if n > 0 {
      Pow2Grows(m - 1, n - 1);
    }
  }

  /** Capping the exponent at six is the same as not capping it, and more failures never
      shorten the delay, which is at least thirty seconds. */
  lemma DelayIsCappedDoubling(failures: nat, more: nat)
    requires failures <= more
    ensures Delay(failures) == Min(1800, 30 * Pow2(failures))
    ensures 30 <= Delay(failures) <= Delay(more)
  {
    assert Pow2(6) == 64;
    Pow2Grows(0, failures);
    Pow2Grows(failures, more);
    if failures >= 6 {
      Pow2Grows(6, failures);
    }
    if more >= 6 {
      Pow2Grows(6, more);
    }
  }

  // ---- Success wins ------------------------------------------------------------------

  /** Recovery writes the history only in its publishing step, only of the job it works on,
      and only while that job is lost and has no successful item. */
  lemma RecoveryWritesOnlyLostJobs(w: World, e: Event)
    requires H.Unique(w.history)
    requires !e.step.SaveHistory? && !e.step.DeleteHistory?
    requires Apply(w, e).history != w.history
    ensures e.step.Publish? && w.runner.Some? && w.runner.value.rec < |w.recs| && H.Unique(Apply(w, e).history)
    ensures
      var id := w.recs[w.runner.value.rec].promptId;
      && Lost(w, id)
      && (H.ItemOf(w.history, id).Some? ==> !H.Succeeded(H.ItemOf(w.history, id).value))
      && forall other :: other != id ==> H.ItemOf(Apply(w, e).history, other) == H.ItemOf(w.history, other)
  {
    var r := w.runner.value;
    var task := TaskOf(w, w.recs[r.rec], e.step.prompt, e.step.createTime);
    H.MergeTouchesOnlyItsOwn(w.history, task, r.decision.state, r.decision.message, r.decision.videos, e.now);
  }

  /** The step replaces or removes the saved item of `id` on behalf of its owner or the cap. */
  ghost predicate Replaces(w: World, e: Event, id: string) {
    match e.step
    case SaveHistory(other, item, max) => other == id || H.Find(H.SaveStep(w.history, other, item, max), id).None?
    case DeleteHistory(other) => other == id
    case _ => false
  }

  lemma {:induction false} FindInSuffix(h: H.Table, n: nat, id: string)
    requires H.Unique(h) && n <= |h|
    ensures H.Find(h[n..], id).Some? ==> H.ItemOf(h[n..], id) == H.ItemOf(h, id)
  {
    if H.Find(h[n..], id).Some? {
      var i := H.Find(h[n..], id).value;
      assert h[n..][i] == h[n + i];
      assert H.Find(h, id).Some?;
      assert h[H.Find(h, id).value].promptId == h[n + i].promptId;
    }
  }

  lemma SaveKeepsOthers(h: H.Table, id: string, item: H.Item, max: nat, other: string)
    requires H.Unique(h) && other != id && H.Find(H.SaveStep(h, id, item, max), other).Some?
    ensures H.ItemOf(H.SaveStep(h, id, item, max), other) == H.ItemOf(h, other)
  {
    var g := H.Upsert(h, id, item.userId, item);
    H.FindUpsert(h, id, item.userId, item, other);
    if |g| > max {
      FindInSuffix(g, |g| - max, other);
    }
  }

  lemma {:induction false} FindIs(h: H.Table, i: nat)
    requires H.Unique(h) && i < |h|
    ensures H.Find(h, h[i].promptId) == Some(i)
  {
    var n := |h| - 1;
    if i < n {
      assert h[i].promptId != h[n].promptId;
      assert h[..n][i] == h[i];
      FindIs(h[..n], i);
    }
  }

  /** Where row `i` of the table after a removal at `gap` stood before. */
  function Before(i: nat, gap: nat): nat {
    if i < gap then i else i + 1
  }

  lemma RemoveKeepsUnique(h: H.Table, id: string)
    requires H.Unique(h)
    ensures H.Unique(Remove(h, id))
  {
    if H.Find(h, id).Some? {
      var gap, g := H.Find(h, id).value, Remove(h, id);
      forall i, j | 0 <= i < j < |g|
        ensures g[i].promptId != g[j].promptId
      {
        assert h[Before(i, gap)].promptId != h[Before(j, gap)].promptId;
      }
    }
  }

  lemma RemoveKeepsOthers(h: H.Table, id: string, other: string)
    requires H.Unique(h) && other != id && H.Find(h, other).Some?
    ensures H.ItemOf(Remove(h, id), other) == H.ItemOf(h, other)
  {
    RemoveKeepsUnique(h, id);
    if H.Find(h, id).Some? {
      var gap, at := H.Find(h, id).value, H.Find(h, other).value;
      var k := if at < gap then at else at - 1;
      assert Remove(h, id)[k] == h[at];
      FindIs(Remove(h, id), k);
    }
  }

  lemma StepKeepsSuccess(w: World, e: Event, id: string)
    requires H.Unique(w.history) && !Replaces(w, e, id)
    requires H.ItemOf(w.history, id).Some? && H.Succeeded(H.ItemOf(w.history, id).value)
    ensures H.Unique(Apply(w, e).history) && H.ItemOf(Apply(w, e).history, id) == H.ItemOf(w.history, id)
  {
    var v := Apply(w, e);
    match e.step
    case SaveHistory(other, item, max) =>
      H.FindUpsert(w.history, other, item.userId, item, id);
      SaveKeepsOthers(w.history, other, item, max, id);
    case DeleteHistory(other) =>
      RemoveKeepsUnique(w.history, other);
      RemoveKeepsOthers(w.history, other, id);
    case _ =>
      if v.history != w.history {
        RecoveryWritesOnlyLostJobs(w, e);
      }
  }

  ghost predicate NeverReplaced(w: World, events: seq<Event>, id: string)
    decreases |events|
  {
    events != [] ==> !Replaces(w, events[0], id) && NeverReplaced(Apply(w, events[0]), events[1..], id)
  }

  /** Once a successful item is saved, no interleaving of recovery steps, crashes, scheduler
      steps and the saving of other jobs alters it, for as long as its row stays. */
  lemma {:induction false} SuccessWins(w: World, events: seq<Event>, id: string)
    requires H.Unique(w.history) && NeverReplaced(w, events, id)
    requires H.ItemOf(w.history, id).Some? && H.Succeeded(H.ItemOf(w.history, id).value)
    ensures H.ItemOf(Run(w, events).history, id) == H.ItemOf(w.history, id)
    decreases |events|
  {
    if events != [] {
      StepKeepsSuccess(w, events[0], id);
      SuccessWins(Apply(w, events[0]), events[1..], id);
    }
  }

  /** The saved item of the job belongs to somebody else. */
  predicate OtherOwner(w: World, rec: Rec) {
    var row := H.Find(w.history, rec.promptId);
    row.Some? && w.history[row.value].owner != TaskOf(w, rec, "", None).owner
  }

  predicate SavedSuccess(w: World, id: string) {
    var item := H.ItemOf(w.history, id);
    item.Some? && H.Succeeded(item.value)
  }

  /** When an iteration gets to publish, it writes exactly when the job is still lost and its
      saved item, if there is one, belongs to its owner and does not say "success"; another
      owner's item aborts the iteration, anything else makes it an ignored one. */
  lemma PublishWritesExactly(w: World, e: Event)
    requires H.Unique(w.history) && e.step.Publish?
    requires w.runner.Some? && w.runner.value.Decided? && w.runner.value.rec < |w.recs|
    requires w.runner.value.decision.state != H.Ignored
    ensures
      var r := w.runner.value;
      var rec := w.recs[r.rec];
      var v := Apply(w, e);
      var after := H.ItemOf(v.history, rec.promptId);
      && (v.runner == Some(Published(r.rec, r.now, r.decision))
          <==> Lost(w, rec.promptId) && !OtherOwner(w, rec) && !SavedSuccess(w, rec.promptId))
      && (v.runner.None? <==> Lost(w, rec.promptId) && OtherOwner(w, rec))
      && (v.runner != Some(Published(r.rec, r.now, r.decision)) ==> v.history == w.history)
      && (v.runner == Some(Published(r.rec, r.now, r.decision)) ==>
            after.Some? && rec.id in after.value.recovery && after.value.recovery[rec.id].state == r.decision.state
            && H.OutputKey(rec.id) in after.value.outputs
            && after.value.outputs[H.OutputKey(rec.id)] == H.Recovery(r.decision.message, r.decision.videos))
  {
    var r := w.runner.value;
    H.MergeTouchesOnlyItsOwn(w.history, TaskOf(w, w.recs[r.rec], e.step.prompt, e.step.createTime),
                             r.decision.state, r.decision.message, r.decision.videos, e.now);
  }

  /** A job that finishes without a status object counts as successful for the queue but its
      saved item has no status: between the save and the completion, a recovery of the lost
      job still writes into it. */
  lemma UnstatedSuccessIsNotProtected(w: World, e: Event, item: H.Item)
    requires H.Unique(w.history) && e.step.Publish?
    requires w.runner.Some? && w.runner.value.Decided? && w.runner.value.rec < |w.recs|
    requires w.runner.value.decision.state != H.Ignored
    requires
      var id := w.recs[w.runner.value.rec].promptId;
      && Lost(w, id) && H.ItemOf(w.history, id) == Some(item) && item.status == None
      && !OtherOwner(w, w.recs[w.runner.value.rec])
      && w.recs[w.runner.value.rec].id !in item.recovery
    ensures H.ItemOf(Apply(w, e).history, w.recs[w.runner.value.rec].promptId) != Some(item)
  {
    PublishWritesExactly(w, e);
  }

  // ---- Bounded effort ----------------------------------------------------------------

  const MAX_ACTS := 20162

  /** Credentials are kept exactly while pending; fewer than twenty failures in a row leave a
      row pending; each act puts the next check thirty seconds further from the creation. */
  predicate RecOk(rec: Rec, clock: int) {
    && (rec.state == H.Pending <==> rec.credentials.Some?)
    && rec.failures <= MAX_FAILURES && (rec.state == H.Pending ==> rec.failures < MAX_FAILURES)
    && rec.createdAt <= clock
    && rec.acts <= MAX_ACTS
    && (rec.state == H.Pending ==>
          rec.acts < MAX_ACTS && (rec.acts > 0 ==> rec.nextCheck >= rec.createdAt + 30 * rec.acts))
  }

  predicate DecisionOk(rec: Rec, started: int, d: Decision) {
    && d.failures <= MAX_FAILURES
    && (d.state == H.Pending ==> d.failures < MAX_FAILURES && started - rec.createdAt <= MAX_AGE)
  }

  /** The iteration works on a row that is still pending and was due when it started. */
  predicate RunnerOk(w: World, r: Runner) {
    && r.rec < |w.recs| && w.recs[r.rec].state == H.Pending
    && w.recs[r.rec].nextCheck <= r.now && w.recs[r.rec].createdAt <= r.now <= w.clock
    && (r.Downloading? ==> r.now - w.recs[r.rec].createdAt <= MAX_AGE)
    && (r.Decided? || r.Published? ==> DecisionOk(w.recs[r.rec], r.now, r.decision))
  }

  predicate WorldOk(w: World) {
    && (forall k :: 0 <= k < |w.recs| ==> RecOk(w.recs[k], w.clock))
    && (w.runner.Some? ==> RunnerOk(w, w.runner.value))
  }

  lemma AcknowledgedOk(w: World, r: Runner)
    requires WorldOk(w) && w.runner == Some(r) && r.Published?
    ensures RecOk(AcknowledgedRow(w.recs[r.rec], r.now, r.decision), w.clock)
  {
    assert RecOk(w.recs[r.rec], w.clock);
    DelayIsCappedDoubling(r.decision.failures, r.decision.failures);
  }

  lemma TickKeepsWorld(w: World, clock: int)
    requires WorldOk(w) && w.clock <= clock
    ensures WorldOk(w.(clock := clock))
  {
    forall k | 0 <= k < |w.recs|
      ensures RecOk(w.recs[k], clock)
    {
      assert RecOk(w.recs[k], w.clock);
    }
  }

  lemma StepKeepsRecs(w0: World, e: Event, k: nat)
    requires WorldOk(w0) && w0.clock <= e.now && k < |Apply(w0, e).recs|
    ensures RecOk(Apply(w0, e).recs[k], e.now)
  {
    var w := w0.(clock := e.now);
    TickKeepsWorld(w0, e.now);
    if k < |w.recs| {
      assert RecOk(w.recs[k], w.clock);
      if e.step.Acknowledge? && w.runner.Some? && w.runner.value.Published? && w.runner.value.rec == k {
        AcknowledgedOk(w, w.runner.value);
      }
    }
  }

  lemma RunnerStarts(w0: World, e: Event)
    requires WorldOk(w0) && w0.clock <= e.now && w0.runner.None? && Apply(w0, e).runner.Some?
    ensures RunnerOk(Apply(w0, e), Apply(w0, e).runner.value)
  {
    assert RecOk(w0.recs[e.step.row], w0.clock);
  }

  lemma RunnerGoesOn(w0: World, e: Event)
    requires WorldOk(w0) && w0.clock <= e.now && w0.runner.Some? && Apply(w0, e).runner.Some?
    requires e.step.Fetch? || e.step.Download? || e.step.Publish?
    ensures RunnerOk(Apply(w0, e), Apply(w0, e).runner.value)
  {
    assert RecOk(w0.recs[w0.runner.value.rec], w0.clock);
  }

  lemma RunnerWaits(w0: World, e: Event)
    requires WorldOk(w0) && w0.clock <= e.now && w0.runner.Some? && Apply(w0, e).runner.Some?
    requires !e.step.Fetch? && !e.step.Download? && !e.step.Publish?
    ensures RunnerOk(Apply(w0, e), Apply(w0, e).runner.value)
  {
  }

  lemma StepKeepsRunner(w0: World, e: Event)
    requires WorldOk(w0) && w0.clock <= e.now && Apply(w0, e).runner.Some?
    ensures RunnerOk(Apply(w0, e), Apply(w0, e).runner.value)
  {
    if w0.runner.None? {
      RunnerStarts(w0, e);
    } else if e.step.Fetch? || e.step.Download? || e.step.Publish? {
      RunnerGoesOn(w0, e);
    } else {
      RunnerWaits(w0, e);
    }
  }

  lemma StepKeepsWorld(w: World, e: Event)
    requires WorldOk(w) && w.clock <= e.now
    ensures WorldOk(Apply(w, e)) && Apply(w, e).clock == e.now
  {
    var v := Apply(w, e);
    ClockMoves(w, e);
    forall k | 0 <= k < |v.recs|
      ensures RecOk(v.recs[k], v.clock)
    {
      StepKeepsRecs(w, e, k);
    }
    if v.runner.Some? {
      StepKeepsRunner(w, e);
    }
  }

  lemma ClockMoves(w: World, e: Event)
    requires w.clock <= e.now
    ensures Apply(w, e).clock == e.now
  {
  }

  lemma {:induction false} RunKeepsWorld(w: World, events: seq<Event>)
    requires WorldOk(w) && Timely(w.clock, events, When)
    ensures WorldOk(Run(w, events))
    decreases |events|
  {
    if events != [] {
      StepKeepsWorld(w, events[0]);
      RunKeepsWorld(Apply(w, events[0]), events[1..]);
    }
  }

  /** Over any run: a recovery row is acted on at most 20162 times, with at most twenty
      failures in a row, and keeps its credentials exactly while it is pending. */
  lemma RecoveryIsBounded(queue: S.Tables, history: H.Table, clock: int, events: seq<Event>)
    requires Timely(clock, events, When)
    ensures forall k :: 0 <= k < |Run(World(queue, history, [], None, clock), events).recs| ==>
              var rec := Run(World(queue, history, [], None, clock), events).recs[k];
              rec.acts <= MAX_ACTS && rec.failures <= MAX_FAILURES && (rec.state == H.Pending <==> rec.credentials.Some?)
  {
    var w := World(queue, history, [], None, clock);
    RunKeepsWorld(w, events);
    forall k | 0 <= k < |Run(w, events).recs|
      ensures var rec := Run(w, events).recs[k];
              rec.acts <= MAX_ACTS && rec.failures <= MAX_FAILURES && (rec.state == H.Pending <==> rec.credentials.Some?)
    {
      assert RecOk(Run(w, events).recs[k], Run(w, events).clock);
    }
  }

  /** A row leaves `pending` once, for good, and nothing about it changes after. */
  lemma StepKeepsSettled(w: World, e: Event, k: nat)
    requires WorldOk(w) && w.clock <= e.now && k < |w.recs| && w.recs[k].state != H.Pending
    ensures k < |Apply(w, e).recs| && Apply(w, e).recs[k] == w.recs[k]
  {
  }

  lemma {:induction false} SettledForGood(w: World, events: seq<Event>, k: nat)
    requires WorldOk(w) && Timely(w.clock, events, When) && k < |w.recs| && w.recs[k].state != H.Pending
    ensures k < |Run(w, events).recs| && Run(w, events).recs[k] == w.recs[k]
    decreases |events|
  {
    if events != [] {
      StepKeepsWorld(w, events[0]);
      StepKeepsSettled(w, events[0], k);
      SettledForGood(Apply(w, events[0]), events[1..], k);
    }
  }
}
