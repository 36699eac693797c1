/** Dying between the history merge and the acknowledgement, and running again: what an
    iteration that asks the provider anew makes of it (utils/api_recovery.py). */
module RecoveryCrash {
  import opened Values
  import S = SchedulerModel
  import SchedulerSafety
  import H = History
  import opened RecoveryModel
  import opened RecoverySafety
  import opened RecoveryStore

  /** What the provider and the download answer, and the prompt of the job's payload. */
  datatype Reply = Reply(outcome: Outcome, videos: Option<seq<string>>, prompt: string, createTime: Option<int>)

  /** Sweep, pick row `k`, ask, download. */
  ghost function Deciding(w: World, k: nat, r: Reply, e: Event): World {
    var picked := Apply(Apply(w, e.(step := Sweep)), e.(step := Choose(k)));
    Apply(Apply(picked, e.(step := Fetch(r.outcome))), e.(step := Download(r.videos)))
  }

  /** The same, and publish. */
  ghost function Publishing(w: World, k: nat, r: Reply, e: Event): World {
    Apply(Deciding(w, k, r, e), e.(step := Publish(r.prompt, r.createTime)))
  }

  /** A whole iteration. */
  ghost function Attempt(w: World, k: nat, r: Reply, e: Event): World {
    Apply(Publishing(w, k, r, e), e.(step := Acknowledge))
  }

  function DecisionFor(w: World, k: nat, now: int, r: Reply): Decision
    requires k < |w.recs|
  {
    var fetched := FetchRunner(w, k, now, r.outcome);
    if fetched.Downloading? then DownloadRunner(w, k, now, r.videos).decision else fetched.decision
  }

  /** Row `k` is the one that an iteration starting at `now` picks. */
  ghost predicate Picked(w: World, k: nat, now: int) {
    w.runner.None? && FirstDue(w.queue.jobs, SweepStep(w).recs, k, now)
  }

  lemma PickedRow(w: World, k: nat, now: int)
    requires Picked(w, k, now)
    ensures k < |w.recs| && SweepStep(w).recs[k] == w.recs[k] && Lost(w, w.recs[k].promptId) && w.recs[k].state == H.Pending
  {
  }

  lemma DecidingIs(w: World, k: nat, r: Reply, e: Event)
    requires Picked(w, k, e.now)
    ensures k < |w.recs|
    ensures
      var v := Deciding(w, k, r, e);
      && v.recs == SweepStep(w).recs && v.history == w.history && v.queue == w.queue
      && v.runner == Some(Decided(k, e.now, DecisionFor(w, k, e.now, r)))
  {
    PickedRow(w, k, e.now);
    Picks(w, k, e);
    var picked := Apply(Apply(w, e.(step := Sweep)), e.(step := Choose(k)));
    Asks(picked, k, e.now, e, r.outcome);
    var fetched := Apply(picked, e.(step := Fetch(r.outcome)));
    Loads(fetched, k, e.now, e, r.videos);
    SameAnswer(w, picked, fetched, k, e.now, r);
  }

  lemma SameAnswer(w: World, picked: World, fetched: World, k: nat, now: int, r: Reply)
    requires k < |w.recs| && k < |picked.recs| && k < |fetched.recs|
    requires picked.recs[k] == fetched.recs[k] == w.recs[k] && picked.queue == fetched.queue == w.queue
    ensures
      var asked := FetchRunner(picked, k, now, r.outcome);
      var loaded := if asked.Downloading? then DownloadRunner(fetched, k, now, r.videos) else asked;
      loaded == Decided(k, now, DecisionFor(w, k, now, r))
  {
  }

  lemma PublishAgrees(w: World, k: nat, now: int, d: Decision, r: Reply, e: Event)
    requires k < |w.recs| && w.runner == Some(Decided(k, now, d))
    ensures
      var v := Apply(w, e.(step := Publish(r.prompt, r.createTime)));
      var direct := PublishStep(w, k, now, d, r.prompt, r.createTime, e.now);
      v.recs == w.recs && v.queue == w.queue && v.history == direct.history && v.runner == direct.runner
  {
  }

  /** The table after the sweep, with what publishing does to the history. */
  lemma PublishingIs(w: World, k: nat, r: Reply, e: Event)
    requires Picked(w, k, e.now)
    ensures
      var decided := Deciding(w, k, r, e);
      var v := Publishing(w, k, r, e);
      && k < |w.recs| && k < |decided.recs| && v.recs == decided.recs && v.queue == w.queue
      && var direct := PublishStep(decided, k, e.now, DecisionFor(w, k, e.now, r), r.prompt, r.createTime, e.now);
         v.history == direct.history && v.runner == direct.runner
  {
    DecidingIs(w, k, r, e);
    PublishAgrees(Deciding(w, k, r, e), k, e.now, DecisionFor(w, k, e.now, r), r, e);
  }

  /** Nothing but the clock changes the choice, and only by making more rows due. */
  lemma StillPicked(w: World, v: World, k: nat, now: int, later: int)
    requires Picked(w, k, now) && now <= later && v.runner.None?
    requires v.queue == w.queue && v.recs == SweepStep(w).recs
    ensures Picked(v, k, later) && SweepStep(v).recs == v.recs
  {
    forall j | 0 <= j < |v.recs|
      ensures SweepStep(v).recs[j] == v.recs[j]
    {
    }
    assert SweepStep(v).recs == v.recs;
  }

  /** The decision of an iteration that starts more than seven days after the submission. */
  function Expired(rec: Rec): Decision {
    Decision(H.Failed, EXPIRED, [], rec.failures)
  }

  /** The answer is the same while the row is young enough; after that it is not asked for. */
  lemma DecisionAgain(w: World, v: World, k: nat, now: int, later: int, r: Reply)
    requires k < |w.recs| && k < |v.recs| && v.recs[k] == w.recs[k] && v.queue == w.queue && now <= later
    ensures later - w.recs[k].createdAt <= MAX_AGE ==> DecisionFor(v, k, later, r) == DecisionFor(w, k, now, r)
    ensures later - w.recs[k].createdAt > MAX_AGE ==> DecisionFor(v, k, later, r) == Expired(w.recs[k])
    ensures DecisionFor(w, k, now, r) == Expired(w.recs[k]) <==> now - w.recs[k].createdAt > MAX_AGE
  {
  }

  /** The first attempt has merged its decision into the history. */
  ghost predicate Merged(w: World, k: nat, r: Reply, e: Event) {
    && Picked(w, k, e.now) && k < |w.recs|
    && DecisionFor(w, k, e.now, r).state != H.Ignored
    && Publishing(w, k, r, e).runner == Some(Published(k, e.now, DecisionFor(w, k, e.now, r)))
  }

  /** The process dies there. */
  ghost function Crashed(w: World, k: nat, r: Reply, e: Event, f: Event): World {
    Apply(Publishing(w, k, r, e), f.(step := CrashRunner))
  }

  lemma CrashedIs(w: World, k: nat, r: Reply, e: Event, f: Event)
    requires Merged(w, k, r, e) && e.now <= f.now
    ensures
      var v := Crashed(w, k, r, e, f);
      && v.recs == SweepStep(w).recs && v.queue == w.queue && v.history == Publishing(w, k, r, e).history
      && v.recs[k] == w.recs[k] && Picked(v, k, f.now) && SweepStep(v).recs == v.recs
  {
    PickedRow(w, k, e.now);
    DecidingIs(w, k, r, e);
    PublishingIs(w, k, r, e);
    StillPicked(w, Crashed(w, k, r, e, f), k, e.now, f.now);
  }

  /** The task a publishing step of this attempt merges for. */
  function TaskFor(w: World, k: nat, r: Reply): H.RecoveryTask
    requires k < |w.recs|
  {
    TaskOf(w, w.recs[k], r.prompt, r.createTime)
  }

  lemma MergedIs(w: World, k: nat, r: Reply, e: Event)
    requires Merged(w, k, r, e)
    ensures
      var d := DecisionFor(w, k, e.now, r);
      H.MergeStep(w.history, TaskFor(w, k, r), d.state, d.message, d.videos, e.now) == (Publishing(w, k, r, e).history, Ok(true))
  {
    PickedRow(w, k, e.now);
    DecidingIs(w, k, r, e);
    PublishingIs(w, k, r, e);
  }

  /** The rerun comes to the decision of the first attempt. */
  ghost predicate DecidesAlike(w: World, k: nat, r: Reply, e: Event, f: Event) {
    && k < |w.recs| && k < |Crashed(w, k, r, e, f).recs|
    && DecisionFor(Crashed(w, k, r, e, f), k, f.now, r) == DecisionFor(w, k, e.now, r)
  }

  /** Deciding the same again publishes the same again, and changes nothing. */
  lemma RepublishingIs(w: World, k: nat, r: Reply, e: Event, f: Event)
    requires H.Unique(w.history) && Merged(w, k, r, e) && e.now <= f.now
    requires DecidesAlike(w, k, r, e, f)
    ensures
      var d := DecisionFor(w, k, e.now, r);
      var v := Publishing(Crashed(w, k, r, e, f), k, r, f);
      v.runner == Some(Published(k, f.now, d)) && v.history == Publishing(w, k, r, e).history
  {
    var d, c := DecisionFor(w, k, e.now, r), Crashed(w, k, r, e, f);
    CrashedIs(w, k, r, e, f);
    MergedIs(w, k, r, e);
    H.MergeIsIdempotent(w.history, TaskFor(w, k, r), d.state, d.message, d.videos, e.now, f.now);
    DecidingIs(c, k, r, f);
    PublishingIs(c, k, r, f);
    PickedRow(c, k, f.now);
  }

  /** The row that an attempt leaves: as it was when publishing was refused, acknowledged with
      what was published otherwise. */
  lemma AttemptRow(w: World, k: nat, r: Reply, e: Event)
    requires Picked(w, k, e.now)
    ensures
      var p := Publishing(w, k, r, e);
      var v := Attempt(w, k, r, e);
      && k < |p.recs| && p.recs == SweepStep(w).recs && v.history == p.history
      && (p.runner.None? || (p.runner.value.Published? && p.runner.value.now == e.now
          && (p.runner.value.decision == DecisionFor(w, k, e.now, r) || p.runner.value.decision.state == H.Ignored)))
      && v.recs == if p.runner.None? then p.recs else p.recs[k := AcknowledgedRow(p.recs[k], e.now, p.runner.value.decision)]
  {
    DecidingIs(w, k, r, e);
    PublishingIs(w, k, r, e);
    Acknowledges(Publishing(w, k, r, e), k, e.now, e);
  }

  /** Up to the next check time, row `k` and all others, and the whole history, are the same. */
  ghost predicate SameOutcome(straight: World, again: World, k: nat) {
    && k < |straight.recs| && k < |again.recs| && again.history == straight.history
    && again.recs == straight.recs[k := straight.recs[k].(nextCheck := again.recs[k].nextCheck)]
  }

  lemma RerunAlike(w: World, k: nat, r: Reply, e: Event, f: Event)
    requires H.Unique(w.history) && Merged(w, k, r, e) && e.now <= f.now
    requires DecidesAlike(w, k, r, e, f)
    ensures SameOutcome(Attempt(w, k, r, e), Attempt(Crashed(w, k, r, e, f), k, r, f), k)
  {
    CrashedIs(w, k, r, e, f);
    RepublishingIs(w, k, r, e, f);
    AttemptRow(w, k, r, e);
    AttemptRow(Crashed(w, k, r, e, f), k, r, f);
  }

  lemma RerunExpired(w: World, k: nat, r: Reply, e: Event, f: Event)
    requires H.Unique(w.history) && Merged(w, k, r, e) && e.now <= f.now
    requires f.now - w.recs[k].createdAt > MAX_AGE && e.now - w.recs[k].createdAt <= MAX_AGE
    ensures !SameOutcome(Attempt(w, k, r, e), Attempt(Crashed(w, k, r, e, f), k, r, f), k)
  {
    CrashedIs(w, k, r, e, f);
    DecisionAgain(w, Crashed(w, k, r, e, f), k, e.now, f.now, r);
    AttemptRow(w, k, r, e);
    AttemptRow(Crashed(w, k, r, e, f), k, r, f);
  }

  /** Dying after the merge and running again, with the same answers from the provider, leads
      to the history and the rows of an uninterrupted iteration, up to the next check time,
      exactly when the rerun starts within seven days of the submission, or the first attempt
      already started later than that. */
  lemma CrashBeforeAcknowledgementExactly(w: World, k: nat, r: Reply, e: Event, f: Event)
    requires H.Unique(w.history) && Merged(w, k, r, e) && e.now <= f.now
    ensures Picked(Crashed(w, k, r, e, f), k, f.now)
    ensures SameOutcome(Attempt(w, k, r, e), Attempt(Crashed(w, k, r, e, f), k, r, f), k)
            <==> f.now - w.recs[k].createdAt <= MAX_AGE || e.now - w.recs[k].createdAt > MAX_AGE
  {
    CrashedIs(w, k, r, e, f);
    DecisionAgain(w, Crashed(w, k, r, e, f), k, e.now, f.now, r);
    if f.now - w.recs[k].createdAt <= MAX_AGE || e.now - w.recs[k].createdAt > MAX_AGE {
      RerunAlike(w, k, r, e, f);
    } else {
      RerunExpired(w, k, r, e, f);
    }
  }

  /** The output of a merged recovery. */
  ghost predicate Shows(h: H.Table, rec: Rec, message: string, videos: seq<string>) {
    var item := H.ItemOf(h, rec.promptId);
    && item.Some? && H.OutputKey(rec.id) in item.value.outputs
    && item.value.outputs[H.OutputKey(rec.id)] == H.Recovery(message, videos)
  }

  lemma MergedShows(w: World, k: nat, r: Reply, e: Event)
    requires H.Unique(w.history) && Merged(w, k, r, e)
    ensures
      var d := DecisionFor(w, k, e.now, r);
      H.Unique(Publishing(w, k, r, e).history) && Shows(Publishing(w, k, r, e).history, w.recs[k], d.message, d.videos)
  {
    var d := DecisionFor(w, k, e.now, r);
    MergedIs(w, k, r, e);
    H.MergeTouchesOnlyItsOwn(w.history, TaskFor(w, k, r), d.state, d.message, d.videos, e.now);
  }

  /** What could be merged once can be merged again, whatever is decided. */
  lemma MergesAgain(h: H.Table, t: H.RecoveryTask, s: H.RecoveryState, m: string, v: seq<string>, now: int,
                    s': H.RecoveryState, m': string, v': seq<string>, later: int)
    requires H.Unique(h) && H.MergeStep(h, t, s, m, v, now).1 == Ok(true)
    ensures H.MergeStep(H.MergeStep(h, t, s, m, v, now).0, t, s', m', v', later).1 == Ok(true)
  {
    var g := H.MergeStep(h, t, s, m, v, now).0;
    H.MergeTouchesOnlyItsOwn(h, t, s, m, v, now);
    H.MergeTouchesOnlyItsOwn(g, t, s', m', v', later);
    var row := H.Find(g, t.promptId).value;
    assert g[row].owner == t.owner;
  }

  lemma RerunMerges(w: World, k: nat, r: Reply, e: Event, f: Event)
    requires H.Unique(w.history) && Merged(w, k, r, e) && e.now <= f.now
    requires k < |Crashed(w, k, r, e, f).recs| && DecisionFor(Crashed(w, k, r, e, f), k, f.now, r).state != H.Ignored
    ensures Merged(Crashed(w, k, r, e, f), k, r, f)
  {
    var c := Crashed(w, k, r, e, f);
    var d, d' := DecisionFor(w, k, e.now, r), DecisionFor(c, k, f.now, r);
    CrashedIs(w, k, r, e, f);
    MergedIs(w, k, r, e);
    MergesAgain(w.history, TaskFor(w, k, r), d.state, d.message, d.videos, e.now, d'.state, d'.message, d'.videos, f.now);
    PickedRow(c, k, f.now);
    DecidingIs(c, k, r, f);
    PublishingIs(c, k, r, f);
  }

  /** What a rerun after seven days does to a recovered result: its videos are dropped. */
  lemma LateRerunDropsVideos(w: World, k: nat, r: Reply, e: Event, f: Event)
    requires H.Unique(w.history) && Merged(w, k, r, e) && e.now <= f.now
    requires DecisionFor(w, k, e.now, r).state == H.Recovered && f.now - w.recs[k].createdAt > MAX_AGE
    ensures Shows(Publishing(w, k, r, e).history, w.recs[k], "recovered", DecisionFor(w, k, e.now, r).videos)
    ensures Shows(Attempt(Crashed(w, k, r, e, f), k, r, f).history, w.recs[k], EXPIRED, [])
  {
    var c := Crashed(w, k, r, e, f);
    CrashedIs(w, k, r, e, f);
    DecisionAgain(w, c, k, e.now, f.now, r);
    MergedShows(w, k, r, e);
    RerunMerges(w, k, r, e, f);
    MergedShows(c, k, r, f);
    AttemptRow(c, k, r, f);
  }

  // ---- A run from empty tables -------------------------------------------------------

  const START := World(S.EMPTY, [], [], None, 0)

  const SUBMITTED := Rec("key", "job", "7", "provider", "remote", Some("bearer"), H.Pending, 0, 0, 0, "", 0)

  const FOUND := Reply(Ready(["https://example.invalid/clip.mp4"]), Some(["000.mp4"]), "", None)

  function FromScheduler(e: S.Event): Event {
    Event(Scheduler(e.op), e.now, e.files)
  }

  /** A job is enqueued, claimed and submitted to a provider; then its worker restarts. */
  function LossEvents(cfg: S.Config): seq<Event> {
    [
      FromScheduler(SchedulerSafety.EnqueueFree(cfg, "job", 0)),
      FromScheduler(SchedulerSafety.ClaimFree(0)),
      Event(Observe(SUBMITTED), 0, map[]),
      Event(Scheduler(S.Register(8180, 8, "api")), 0, map[])
    ]
  }

  ghost function Lose(w: World, cfg: S.Config): World {
    var events := LossEvents(cfg);
    Apply(Apply(Apply(Apply(w, events[0]), events[1]), events[2]), events[3])
  }

  lemma RunNext(w: World, e: Event, rest: seq<Event>)
    ensures Run(w, [e] + rest) == Run(Apply(w, e), rest)
  {
    assert ([e] + rest)[1..] == rest;
  }

  lemma LossIsARun(w: World, cfg: S.Config)
    ensures Run(w, LossEvents(cfg)) == Lose(w, cfg)
  {
    var events := LossEvents(cfg);
    var a, b, c, d := events[0], events[1], events[2], events[3];
    assert events == [a] + [b, c, d] && [b, c, d] == [b] + [c, d] && [c, d] == [c] + [d] && [d] == [d] + [];
    RunNext(w, a, [b, c, d]);
    RunNext(Apply(w, a), b, [c, d]);
    RunNext(Apply(Apply(w, a), b), c, [d]);
    RunNext(Apply(Apply(Apply(w, a), b), c), d, []);
  }

  lemma RunningFirst(cfg: S.Config)
    requires cfg.adminLimit == 0
    ensures
      var t := S.Apply(S.Apply(S.EMPTY, SchedulerSafety.EnqueueFree(cfg, "job", 0)), SchedulerSafety.ClaimFree(0));
      && |t.jobs| == 1 && t.jobs[0].status == S.Running && t.jobs[0].item.promptId == "job"
      && t.jobs[0].owner == "user" && t.workers == map[8180 := S.Worker(7, Some("job"), 0, "api")]
  {
    var e0, e1 := SchedulerSafety.EnqueueFree(cfg, "job", 0), SchedulerSafety.ClaimFree(0);
    SchedulerSafety.OneRunning(cfg, "job", 0);
    assert [e0, e1][1..] == [e1] && [e1][1..] == [];
    assert S.Run(S.Apply(S.EMPTY, e0), [e1]) == S.Apply(S.Apply(S.EMPTY, e0), e1);
    SchedulerSafety.RunKeepsLifecycle(S.Apply(S.EMPTY, e0), [e1]);
  }

  lemma LossLeaves(cfg: S.Config)
    requires cfg.adminLimit == 0
    ensures
      var w := Lose(START, cfg);
      && w.recs == [SUBMITTED] && w.history == [] && w.runner.None?
      && |w.queue.jobs| == 1 && w.queue.jobs[0].item.promptId == "job" && w.queue.jobs[0].status == S.WorkerLost
      && w.queue.jobs[0].owner == "user"
  {
    RunningFirst(cfg);
    var events := LossEvents(cfg);
    var claimed := Apply(Apply(START, events[0]), events[1]);
    var observed := Apply(claimed, events[2]);
    assert observed.recs == [SUBMITTED] && observed.queue == claimed.queue;
  }

  lemma FirstAttemptMerges(w: World, e: Event)
    requires w.recs == [SUBMITTED] && w.history == [] && w.runner.None? && 0 <= e.now <= MAX_AGE
    requires |w.queue.jobs| == 1 && w.queue.jobs[0].item.promptId == "job" && w.queue.jobs[0].status == S.WorkerLost
    ensures Merged(w, 0, FOUND, e) && DecisionFor(w, 0, e.now, FOUND) == Decision(H.Recovered, "recovered", ["000.mp4"], 0)
  {
    assert w.recs[0] == SUBMITTED;
    assert SweepStep(w).recs[0] == SUBMITTED;
    assert Picked(w, 0, e.now);
    DecidingIs(w, 0, FOUND, e);
    PublishingIs(w, 0, FOUND, e);
    assert SweepStep(w).recs[0] == SUBMITTED;
  }

  /** A reachable run: the result is recovered on the last day, the process dies before it
      acknowledges, and the rerun a second later overwrites the result as expired. */
  lemma ExpiredRerunOverwrites(cfg: S.Config)
    requires cfg.adminLimit == 0
    ensures
      var w := Run(START, LossEvents(cfg));
      var e, f := Event(Sweep, MAX_AGE, map[]), Event(Sweep, MAX_AGE + 1, map[]);
      && Merged(w, 0, FOUND, e)
      && Shows(Publishing(w, 0, FOUND, e).history, SUBMITTED, "recovered", ["000.mp4"])
      && Shows(Attempt(Crashed(w, 0, FOUND, e, f), 0, FOUND, f).history, SUBMITTED, EXPIRED, [])
      && !SameOutcome(Attempt(w, 0, FOUND, e), Attempt(Crashed(w, 0, FOUND, e, f), 0, FOUND, f), 0)
  {
    var w := Lose(START, cfg);
    var e, f := Event(Sweep, MAX_AGE, map[]), Event(Sweep, MAX_AGE + 1, map[]);
    LossIsARun(START, cfg);
    LossLeaves(cfg);
    FirstAttemptMerges(w, e);
    LateRerunDropsVideos(w, 0, FOUND, e, f);
    CrashBeforeAcknowledgementExactly(w, 0, FOUND, e, f);
  }

  /** A reachable run: the lost worker saves its result without a status object, and before it
      completes the job, a recovery writes into that result. */
  lemma UnstatedResultIsOverwritten(cfg: S.Config, item: H.Item, max: nat)
    requires cfg.adminLimit == 0 && max > 0 && item.userId == "user" && item.status.None? && item.recovery == map[]
    ensures
      var w := Run(START, LossEvents(cfg) + [Event(SaveHistory("job", item, max), 0, map[])]);
      var e := Event(Sweep, 0, map[]);
      && H.ItemOf(w.history, "job") == Some(item) && Picked(w, 0, 0)
      && H.ItemOf(Publishing(w, 0, FOUND, e).history, "job") != Some(item)
  {
    var lost, e := Lose(START, cfg), Event(Sweep, 0, map[]);
    var save := Event(SaveHistory("job", item, max), 0, map[]);
    LossIsARun(START, cfg);
    LossLeaves(cfg);
    RunLast(START, LossEvents(cfg), save);
    var w := Apply(lost, save);
    assert w.history == [H.Row("job", "user", item)];
    assert H.Find(w.history, "job") == Some(0);
    assert SweepStep(w).recs[0] == SUBMITTED;
    assert Picked(w, 0, 0);
    Overwritten(w, item, e);
  }

  lemma {:induction false} RunLast(w: World, events: seq<Event>, e: Event)
    ensures Run(w, events + [e]) == Apply(Run(w, events), e)
    decreases |events|
  {
    if events == [] {
      assert events + [e] == [e] && [e][1..] == [];
      assert Run(Apply(w, e), []) == Apply(w, e);
    } else {
      assert (events + [e])[1..] == events[1..] + [e];
      RunLast(Apply(w, events[0]), events[1..], e);
    }
  }

  lemma Overwritten(w: World, item: H.Item, e: Event)
    requires Picked(w, 0, e.now) && w.recs == [SUBMITTED] && w.history == [H.Row("job", "user", item)] && 0 <= e.now <= MAX_AGE
    requires |w.queue.jobs| == 1 && w.queue.jobs[0].item.promptId == "job" && w.queue.jobs[0].owner == "user"
    requires item.status.None? && item.recovery == map[]
    ensures H.ItemOf(Publishing(w, 0, FOUND, e).history, "job") != Some(item)
  {
    PickedRow(w, 0, e.now);
    DecidingIs(w, 0, FOUND, e);
    var decided := Deciding(w, 0, FOUND, e);
    assert decided.recs[0] == SUBMITTED;
    assert H.Find(w.history, "job") == Some(0);
    UnstatedSuccessIsNotProtected(decided, e.(step := Publish(FOUND.prompt, FOUND.createTime)), item);
  }
}
