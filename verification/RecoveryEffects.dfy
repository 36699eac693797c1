/** What one recovery attempt does to its row and to the history, for every answer of the
    provider, and that a recovery is neither given up early nor late (utils/api_recovery.py). */
module RecoveryEffects {
  import opened Values
  import S = SchedulerModel
  import SchedulerSafety
  import H = History
  import opened RecoveryModel
  import opened RecoverySafety
  import opened RecoveryStore
  import opened RecoveryCrash

  /** Some row of the queue has this prompt id and this status. */
  ghost predicate IsNow(t: S.Tables, id: string, status: S.Status) {
    exists i :: 0 <= i < |t.jobs| && t.jobs[i].item.promptId == id && t.jobs[i].status == status
  }

  lemma StatusIs(t: S.Tables, id: string, status: S.Status)
    requires SchedulerSafety.UniqueIds(t.jobs)
    ensures S.HasStatus(t.jobs, id, status) <==> IsNow(t, id, status)
  {
    if i: nat :| i < |t.jobs| && t.jobs[i].item.promptId == id && t.jobs[i].status == status {
      SchedulerSafety.FindIs(t.jobs, i);
    }
  }

  // ---- Rows that come and go ---------------------------------------------------------

  /** A submission is recorded exactly once, with credentials, while its job runs. */
  lemma ObserveExactly(w: World, rec: Rec, now: int)
    requires SchedulerSafety.UniqueIds(w.queue.jobs)
    ensures
      var v := ObserveStep(w, rec, now);
      && v == w.(recs := v.recs)
      && if rec.credentials.Some? && (forall k :: 0 <= k < |w.recs| ==> w.recs[k].id != rec.id) && IsNow(w.queue, rec.promptId, S.Running)
         then v.recs == w.recs + [Rec(rec.id, rec.promptId, rec.nodeId, rec.provider, rec.taskId, rec.credentials,
                                      H.Pending, now, 0, 0, "", 0)]
         else v.recs == w.recs
  {
    StatusIs(w.queue, rec.promptId, S.Running);
  }

  /** The sweep gives up exactly the pending rows of jobs that are completed, cancelled or
      failed, and forgets their credentials. */
  lemma SweepExactly(w: World, k: nat)
    requires SchedulerSafety.UniqueIds(w.queue.jobs) && k < |w.recs|
    ensures
      var v, rec := SweepStep(w), w.recs[k];
      && v == w.(recs := v.recs) && |v.recs| == |w.recs|
      && v.recs[k] == if rec.state == H.Pending && (IsNow(w.queue, rec.promptId, S.Completed) || IsNow(w.queue, rec.promptId, S.Cancelled)
                                                    || IsNow(w.queue, rec.promptId, S.Failed))
                      then rec.(state := H.Ignored, credentials := None) else rec
  {
    StatusIs(w.queue, w.recs[k].promptId, S.Completed);
    StatusIs(w.queue, w.recs[k].promptId, S.Cancelled);
    StatusIs(w.queue, w.recs[k].promptId, S.Failed);
  }

  /** A row can be picked exactly when it is pending, its time has come, and its job is lost;
      it is picked exactly when no due row has an earlier check, or the same and an earlier
      submission. */
  lemma PickExactly(t: S.Tables, recs: seq<Rec>, k: nat, now: int)
    requires SchedulerSafety.UniqueIds(t.jobs) && k < |recs|
    ensures DueRow(t.jobs, recs[k], now)
            <==> recs[k].state == H.Pending && recs[k].nextCheck <= now && IsNow(t, recs[k].promptId, S.WorkerLost)
    ensures FirstDue(t.jobs, recs, k, now) <==>
              && DueRow(t.jobs, recs[k], now)
              && forall j :: 0 <= j < |recs| && DueRow(t.jobs, recs[j], now) ==>
                   !(recs[j].nextCheck < recs[k].nextCheck)
                   && !(recs[j].nextCheck == recs[k].nextCheck && recs[j].createdAt < recs[k].createdAt)
  {
    StatusIs(t, recs[k].promptId, S.WorkerLost);
  }

  /** Half a minute after the first attempt or a first failure short of it, then doubling up to
      half an hour. */
  lemma DelayTable(failures: nat)
    ensures Delay(failures) == if failures < 6 then [30, 60, 120, 240, 480, 960][failures] else 1800
  {
    assert Pow2(1) == 2 && Pow2(2) == 4 && Pow2(3) == 8;
    assert Pow2(4) == 16 && Pow2(5) == 32 && Pow2(6) == 64;
  }

  // ---- What an attempt decides -------------------------------------------------------

  /** The provider cannot be asked, or it has a result that cannot be downloaded. */
  ghost predicate Troubled(outcome: Outcome, videos: Option<seq<string>>, lost: bool) {
    outcome.Trouble? || (outcome.Ready? && lost && videos.None?)
  }

  /** The table of decisions, by the age of the row, what the provider says, and whether the
      job is still lost after the query and after the download. */
  lemma DecideExactly(base: World, k: nat, started: int, x: Encounter)
    requires k < |base.recs| && SchedulerSafety.UniqueIds(x.asked.jobs) && SchedulerSafety.UniqueIds(x.downloaded.jobs)
    ensures
      var rec, d := base.recs[k], Decide(base, k, started, x);
      var asked, loaded := IsNow(x.asked, rec.promptId, S.WorkerLost), IsNow(x.downloaded, rec.promptId, S.WorkerLost);
      var late := started - rec.createdAt > 7 * 86400;
      var answered := !late && !x.outcome.QueryRejected? && !x.outcome.Trouble?;
      && (d.state == H.Recovered <==> answered && asked && x.outcome.Ready? && x.videos.Some? && loaded)
      && (d.state == H.Recovered ==> d.videos == x.videos.value && d.failures == rec.failures)
      && (d.state != H.Recovered ==> d.videos == [])
      && (d.state == H.Ignored <==> answered && (!asked || (x.outcome.Ready? && x.videos.Some? && !loaded)))
      && (d.state == H.Pending <==>
            !late && ((answered && asked && x.outcome.InProgress?) || (Troubled(x.outcome, x.videos, asked) && rec.failures < 19)))
      && d.failures == if !late && Troubled(x.outcome, x.videos, asked) then rec.failures + 1
                       else if answered && asked && x.outcome.InProgress? then 0 else rec.failures
  {
    StatusIs(x.asked, base.recs[k].promptId, S.WorkerLost);
    StatusIs(x.downloaded, base.recs[k].promptId, S.WorkerLost);
  }

  /** What is written when publishing goes through: the row is pending with its credentials
      exactly when that was decided, and its next check comes after the delay. */
  lemma FinishWrites(w: World, k: nat, started: int, d: Decision, x: Encounter)
    requires k < |w.recs|
    requires
      var v := w.(queue := x.published);
      d.state == H.Ignored || (Lost(v, w.recs[k].promptId) && !OtherOwner(v, w.recs[k]) && !SavedSuccess(v, w.recs[k].promptId))
    ensures
      var after, rec := Finish(w, k, started, d, x), w.recs[k];
      && |after.recs| == |w.recs| + |x.after|
      && after.recs[k] == rec.(state := d.state, message := d.message, failures := d.failures, acts := rec.acts + 1,
                               nextCheck := started + (if d.failures < 6 then [30, 60, 120, 240, 480, 960][d.failures] else 1800),
                               credentials := if d.state == H.Pending then rec.credentials else None)
      && forall j :: 0 <= j < |w.recs| && j != k ==> after.recs[j] == w.recs[j]
  {
    DelayTable(d.failures);
  }

  /** What is left when it does not: a job that is no longer lost, or has a success of its own
      by now, makes it an ignored one; somebody else's item stops the attempt. */
  lemma FinishRefused(w: World, k: nat, started: int, d: Decision, x: Encounter)
    requires k < |w.recs| && d.state != H.Ignored
    ensures
      var v := w.(queue := x.published);
      var after, rec := Finish(w, k, started, d, x), w.recs[k];
      && (Lost(v, rec.promptId) && OtherOwner(v, rec) ==> after.recs == w.recs && after.history == w.history)
      && (!Lost(v, rec.promptId) || (!OtherOwner(v, rec) && SavedSuccess(v, rec.promptId)) ==>
            && k < |after.recs| && after.recs[k].state == H.Ignored && after.recs[k].credentials.None?
            && after.history == x.later(w.history))
  {
  }

  /** Trouble within the first seven days, whatever others do meanwhile: once published, the
      row stays pending with its credentials and one more failure exactly when it had fewer
      than nineteen, and is given up otherwise. */
  lemma TroubleRetriesExactly(base: World, k: nat, started: int, x: Encounter)
    requires k < |base.recs| && SchedulerSafety.UniqueIds(x.asked.jobs) && SchedulerSafety.UniqueIds(x.downloaded.jobs)
    requires started - base.recs[k].createdAt <= 7 * 86400
    requires Troubled(x.outcome, x.videos, IsNow(x.asked, base.recs[k].promptId, S.WorkerLost))
    requires
      var v := Found(base, x).(queue := x.published);
      Lost(v, base.recs[k].promptId) && !OtherOwner(v, base.recs[k]) && !SavedSuccess(v, base.recs[k].promptId)
    ensures
      var rec := base.recs[k];
      var after := Finish(Found(base, x), k, started, Decide(base, k, started, x), x);
      && k < |after.recs| && after.recs[k].failures == rec.failures + 1
      && (after.recs[k].state == H.Pending && after.recs[k].credentials == rec.credentials <==> rec.failures < 19)
      && (rec.failures >= 19 ==> after.recs[k].state == H.Failed && after.recs[k].credentials.None?)
  {
    DecideExactly(base, k, started, x);
    FinishWrites(Found(base, x), k, started, Decide(base, k, started, x), x);
  }

  /** A result is published for the job's owner, as submitted, under the submission's own id,
      node, provider and remote task. */
  lemma TaskIsOfTheJob(w: World, rec: Rec, prompt: string, createTime: Option<int>, i: nat)
    requires SchedulerSafety.UniqueIds(w.queue.jobs) && i < |w.queue.jobs| && w.queue.jobs[i].item.promptId == rec.promptId
    ensures TaskOf(w, rec, prompt, createTime)
            == H.RecoveryTask(rec.id, rec.promptId, w.queue.jobs[i].owner, rec.nodeId, rec.provider, rec.taskId, prompt, createTime,
                              w.queue.jobs[i].submittedAt)
  {
    SchedulerSafety.FindIs(w.queue.jobs, i);
  }

  // ---- Nineteen troubles and a result ------------------------------------------------

  /** An uninterrupted attempt, with its answers and its clock. */
  datatype Try = Try(reply: Reply, event: Event)

  ghost function Attempts(w: World, k: nat, tries: seq<Try>): World
    decreases |tries|
  {
    if tries == [] then w else Attempts(Attempt(w, k, tries[0].reply, tries[0].event), k, tries[1..])
  }

  /** Each attempt picks row `k` within its first seven days. */
  ghost predicate InTime(w: World, k: nat, tries: seq<Try>)
    decreases |tries|
  {
    tries != [] ==>
      && Picked(w, k, tries[0].event.now) && k < |w.recs| && tries[0].event.now - w.recs[k].createdAt <= 7 * 86400
      && InTime(Attempt(w, k, tries[0].reply, tries[0].event), k, tries[1..])
  }

  /** Nothing stands in the way of publishing for row `k`. */
  ghost predicate CanPublish(w: World, k: nat) {
    k < |w.recs| && H.Unique(w.history) && !OtherOwner(w, w.recs[k]) && !SavedSuccess(w, w.recs[k].promptId)
  }

  lemma PublishGoesThrough(w: World, k: nat, r: Reply, e: Event)
    requires Picked(w, k, e.now) && CanPublish(w, k)
    ensures DecisionFor(w, k, e.now, r).state != H.Ignored
    ensures
      var v, d := Publishing(w, k, r, e), DecisionFor(w, k, e.now, r);
      && v.runner == Some(Published(k, e.now, d)) && v.queue == w.queue
      && H.Unique(v.history) && Shows(v.history, w.recs[k], d.message, d.videos)
      && !OtherOwner(v, w.recs[k]) && !SavedSuccess(v, w.recs[k].promptId)
  {
    PickedRow(w, k, e.now);
    DecidingIs(w, k, r, e);
    PublishingIs(w, k, r, e);
    var d := DecisionFor(w, k, e.now, r);
    var decided := Deciding(w, k, r, e);
    var task := TaskOf(decided, decided.recs[k], r.prompt, r.createTime);
    H.MergeTouchesOnlyItsOwn(w.history, task, d.state, d.message, d.videos, e.now);
    MergedOwner(w.history, task, d.state, d.message, d.videos, e.now);
  }

  lemma MergedOwner(h: H.Table, t: H.RecoveryTask, s: H.RecoveryState, m: string, v: seq<string>, now: int)
    requires H.Unique(h) && H.MergeStep(h, t, s, m, v, now).1 == Ok(true)
    ensures
      var g := H.MergeStep(h, t, s, m, v, now).0;
      var row := H.Find(g, t.promptId);
      row.Some? && g[row.value].owner == t.owner
  {
    MergesAgain(h, t, s, m, v, now, s, m, v, now);
    H.MergeTouchesOnlyItsOwn(H.MergeStep(h, t, s, m, v, now).0, t, s, m, v, now);
    H.MergeTouchesOnlyItsOwn(h, t, s, m, v, now);
  }

  /** Whose item it is does not depend on how far the recovery has come. */
  lemma SameWay(v: World, p: World, rec: Rec, was: Rec)
    requires v.queue == p.queue && v.history == p.history && rec.promptId == was.promptId
    ensures OtherOwner(v, rec) == OtherOwner(p, was) && SavedSuccess(v, rec.promptId) == SavedSuccess(p, was.promptId)
  {
  }

  lemma AttemptLeaves(w: World, k: nat, r: Reply, e: Event)
    requires Picked(w, k, e.now) && CanPublish(w, k)
    ensures
      var v, p := Attempt(w, k, r, e), Publishing(w, k, r, e);
      && v.history == p.history && v.queue == w.queue && k < |v.recs|
      && v.recs[k] == AcknowledgedRow(w.recs[k], e.now, DecisionFor(w, k, e.now, r))
  {
    PublishGoesThrough(w, k, r, e);
    AttemptRow(w, k, r, e);
    PickedRow(w, k, e.now);
    QueueStays(Publishing(w, k, r, e), e);
  }

  lemma QueueStays(w: World, e: Event)
    ensures Apply(w, e.(step := Acknowledge)).queue == w.queue
  {
  }

  /** What an attempt that can publish leaves: the row as decided, and the way still free. */
  lemma AttemptWrites(w: World, k: nat, r: Reply, e: Event)
    requires Picked(w, k, e.now) && CanPublish(w, k)
    ensures
      var v, d := Attempt(w, k, r, e), DecisionFor(w, k, e.now, r);
      && k < |v.recs| && v.recs[k] == AcknowledgedRow(w.recs[k], e.now, d) && v.queue == w.queue
      && CanPublish(v, k) && Shows(v.history, w.recs[k], d.message, d.videos)
  {
    PublishGoesThrough(w, k, r, e);
    AttemptLeaves(w, k, r, e);
    SameWay(Attempt(w, k, r, e), Publishing(w, k, r, e), Attempt(w, k, r, e).recs[k], w.recs[k]);
  }

  lemma TroubledTry(w: World, k: nat, t: Try)
    requires Picked(w, k, t.event.now) && CanPublish(w, k) && t.event.now - w.recs[k].createdAt <= 7 * 86400
    requires Troubled(t.reply.outcome, t.reply.videos, true) && w.recs[k].failures < 19
    ensures
      var v := Attempt(w, k, t.reply, t.event);
      && CanPublish(v, k) && v.queue == w.queue
      && v.recs[k].state == H.Pending && v.recs[k].failures == w.recs[k].failures + 1
      && v.recs[k].credentials == w.recs[k].credentials && v.recs[k].id == w.recs[k].id
      && v.recs[k].promptId == w.recs[k].promptId && v.recs[k].createdAt == w.recs[k].createdAt
  {
    PickedRow(w, k, t.event.now);
    AttemptWrites(w, k, t.reply, t.event);
  }

  /** Up to nineteen attempts in a row that meet trouble leave the recovery pending, with its
      credentials and the failures counted. */
  lemma {:induction false} TroublesAreCounted(w: World, k: nat, tries: seq<Try>)
    requires CanPublish(w, k) && InTime(w, k, tries) && w.recs[k].state == H.Pending
    requires forall j :: 0 <= j < |tries| ==> Troubled(tries[j].reply.outcome, tries[j].reply.videos, true)
    requires w.recs[k].failures + |tries| <= 19
    ensures
      var v := Attempts(w, k, tries);
      && CanPublish(v, k) && v.queue == w.queue
      && v.recs[k].state == H.Pending && v.recs[k].failures == w.recs[k].failures + |tries|
      && v.recs[k].credentials == w.recs[k].credentials && v.recs[k].id == w.recs[k].id
      && v.recs[k].promptId == w.recs[k].promptId && v.recs[k].createdAt == w.recs[k].createdAt
    decreases |tries|
  {
    if tries != [] {
      TroubledTry(w, k, tries[0]);
      TroublesAreCounted(Attempt(w, k, tries[0].reply, tries[0].event), k, tries[1..]);
    }
  }

  /** Nineteen troubled attempts and then a result, all within seven days: the result is
      recovered, and the history shows its videos. */
  lemma ResultAfterTroublesIsRecovered(w: World, k: nat, tries: seq<Try>, last: Try)
    requires CanPublish(w, k) && InTime(w, k, tries) && w.recs[k].state == H.Pending && w.recs[k].failures == 0 && |tries| <= 19
    requires forall j :: 0 <= j < |tries| ==> Troubled(tries[j].reply.outcome, tries[j].reply.videos, true)
    requires InTime(Attempts(w, k, tries), k, [last])
    requires last.reply.outcome.Ready? && last.reply.videos.Some?
    ensures
      var v := Attempt(Attempts(w, k, tries), k, last.reply, last.event);
      && k < |v.recs| && v.recs[k].state == H.Recovered && v.recs[k].credentials.None?
      && Shows(v.history, w.recs[k], v.recs[k].message, last.reply.videos.value)
  {
    TroublesAreCounted(w, k, tries);
    var v := Attempts(w, k, tries);
    PickedRow(v, k, last.event.now);
    AttemptWrites(v, k, last.reply, last.event);
  }

  /** A twentieth trouble in a row gives the recovery up. */
  lemma TwentiethTroubleGivesUp(w: World, k: nat, tries: seq<Try>)
    requires CanPublish(w, k) && InTime(w, k, tries) && w.recs[k].state == H.Pending && w.recs[k].failures == 0 && |tries| == 20
    requires forall j :: 0 <= j < |tries| ==> Troubled(tries[j].reply.outcome, tries[j].reply.videos, true)
    ensures
      var v := Attempts(w, k, tries);
      k < |v.recs| && v.recs[k].state == H.Failed && v.recs[k].credentials.None?
  {
    assert tries == tries[..19] + [tries[19]];
    AttemptsAppend(w, k, tries[..19], tries[19]);
    TroublesAreCounted(w, k, tries[..19]);
    LastTry(Attempts(w, k, tries[..19]), k, tries[19]);
  }

  lemma LastTry(w: World, k: nat, t: Try)
    requires CanPublish(w, k) && InTime(w, k, [t]) && w.recs[k].state == H.Pending && w.recs[k].failures == 19
    requires Troubled(t.reply.outcome, t.reply.videos, true)
    ensures
      var v := Attempt(w, k, t.reply, t.event);
      k < |v.recs| && v.recs[k].state == H.Failed && v.recs[k].credentials.None?
  {
    PickedRow(w, k, t.event.now);
    AttemptWrites(w, k, t.reply, t.event);
  }

  lemma {:induction false} AttemptsAppend(w: World, k: nat, tries: seq<Try>, last: Try)
    ensures Attempts(w, k, tries + [last]) == Attempt(Attempts(w, k, tries), k, last.reply, last.event)
    ensures InTime(w, k, tries + [last]) <==> InTime(w, k, tries) && InTime(Attempts(w, k, tries), k, [last])
    decreases |tries|
  {
    if tries == [] {
      assert tries + [last] == [last] && [last][1..] == [];
      assert Attempts(Attempt(w, k, last.reply, last.event), k, []) == Attempt(w, k, last.reply, last.event);
    } else {
      assert (tries + [last])[1..] == tries[1..] + [last];
      AttemptsAppend(Attempt(w, k, tries[0].reply, tries[0].event), k, tries[1..], last);
    }
  }
}
