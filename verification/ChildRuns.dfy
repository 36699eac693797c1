/** A run of the child protocol from empty tables that leaves a child nobody will cancel. */
module ChildRuns {
  import opened Values
  import A = AgentModel
  import S = SchedulerModel
  import AgentSafety
  import opened ChildProtocol
  import opened ChildSafety

  const START := World(A.EMPTY, S.EMPTY, [], [], [])

  function At0(step: Step): Event {
    Event(step, 0, map[])
  }

  /** Steps that are taken at one instant. */
  ghost function Take(w: World, lim: A.Limits, steps: seq<Step>): World {
    Run(w, lim, seq(|steps|, i requires 0 <= i < |steps| => At0(steps[i])))
  }

  lemma TakeNext(w: World, lim: A.Limits, s: Step, rest: seq<Step>)
    ensures Take(w, lim, [s] + rest) == Take(Apply(w, lim, At0(s)), lim, rest)
  {
    var all := [s] + rest;
    var events := seq(|all|, i requires 0 <= i < |all| => At0(all[i]));
    assert events[1..] == seq(|rest|, i requires 0 <= i < |rest| => At0(rest[i]));
  }

  lemma {:induction false} TakeAppend(w: World, lim: A.Limits, first: seq<Step>, rest: seq<Step>)
    ensures Take(w, lim, first + rest) == Take(Take(w, lim, first), lim, rest)
    decreases |first|
  {
    if first == [] {
      assert first + rest == rest;
    } else {
      assert first == [first[0]] + first[1..] && first + rest == [first[0]] + (first[1..] + rest);
      TakeNext(w, lim, first[0], first[1..]);
      TakeNext(w, lim, first[0], first[1..] + rest);
      TakeAppend(Apply(w, lim, At0(first[0])), lim, first[1..], rest);
    }
  }

  ghost predicate LegalTake(w: World, lim: A.Limits, steps: seq<Step>) {
    LegalRun(w, lim, seq(|steps|, i requires 0 <= i < |steps| => At0(steps[i])))
  }

  lemma LegalNext(w: World, lim: A.Limits, s: Step, rest: seq<Step>)
    ensures LegalTake(w, lim, [s] + rest) <==> Legal(w, At0(s)) && LegalTake(Apply(w, lim, At0(s)), lim, rest)
  {
    var all := [s] + rest;
    var events := seq(|all|, i requires 0 <= i < |all| => At0(all[i]));
    assert events[1..] == seq(|rest|, i requires 0 <= i < |rest| => At0(rest[i]));
  }

  /** Steps that reserve nothing and belong to no other process are always legal. */
  lemma {:induction false} OwnStepsAreLegal(w: World, lim: A.Limits, steps: seq<Step>)
    requires forall i :: 0 <= i < |steps| ==> !steps[i].Reserve? && !steps[i].OtherQueue? && !steps[i].OtherAgent?
    ensures LegalTake(w, lim, steps)
    decreases |steps|
  {
    if steps != [] {
      assert steps == [steps[0]] + steps[1..];
      LegalNext(w, lim, steps[0], steps[1..]);
      OwnStepsAreLegal(Apply(w, lim, At0(steps[0])), lim, steps[1..]);
    }
  }

  lemma {:induction false} LegalAppend(w: World, lim: A.Limits, first: seq<Step>, rest: seq<Step>)
    requires LegalTake(w, lim, first) && LegalTake(Take(w, lim, first), lim, rest)
    ensures LegalTake(w, lim, first + rest)
    decreases |first|
  {
    if first == [] {
      assert first + rest == rest;
    } else {
      assert first == [first[0]] + first[1..] && first + rest == [first[0]] + (first[1..] + rest);
      TakeNext(w, lim, first[0], first[1..]);
      LegalNext(w, lim, first[0], first[1..]);
      LegalNext(w, lim, first[0], first[1..] + rest);
      LegalAppend(Apply(w, lim, At0(first[0])), lim, first[1..], rest);
    }
  }

  /** Four steps, one after the other. */
  lemma TakeFour(w: World, lim: A.Limits, a: Step, b: Step, c: Step, d: Step)
    ensures
      var w1 := Apply(w, lim, At0(a));
      var w2 := Apply(w1, lim, At0(b));
      var w3 := Apply(w2, lim, At0(c));
      && Take(w, lim, [a, b, c, d]) == Apply(w3, lim, At0(d))
      && (LegalTake(w, lim, [a, b, c, d]) <==> Legal(w, At0(a)) && Legal(w1, At0(b)) && Legal(w2, At0(c)) && Legal(w3, At0(d)))
  {
    var w1 := Apply(w, lim, At0(a));
    var w2 := Apply(w1, lim, At0(b));
    var w3 := Apply(w2, lim, At0(c));
    assert [a, b, c, d] == [a] + [b, c, d] && [b, c, d] == [b] + [c, d] && [c, d] == [c] + [d] && [d] == [d] + [];
    TakeNext(w, lim, a, [b, c, d]);
    TakeNext(w1, lim, b, [c, d]);
    TakeNext(w2, lim, c, [d]);
    TakeNext(w3, lim, d, []);
    LegalNext(w, lim, a, [b, c, d]);
    LegalNext(w1, lim, b, [c, d]);
    LegalNext(w2, lim, c, [d]);
    LegalNext(w3, lim, d, []);
  }

  const CHILD := A.Child(0, "key", "print", "child", None)

  function Request(stage: Stage): Submission {
    Submission(0, "user", "key", "print", stage)
  }

  /** A task that is running, with a request that has reserved its child. */
  function Reserving(): World {
    World(AgentSafety.FirstTask(A.Running, 0).(children := [CHILD]), S.EMPTY, [Request(Reserved("child"))], [], [])
  }

  /** The steps up to there: create, claim, submit, reserve. */
  function Opening(): seq<Step> {
    [OtherAgent(A.Create("user", "key", "job")), OtherAgent(A.Claim), Submit(0, "user", 0, "key", "print"), Reserve(0, "child")]
  }

  lemma OpeningReserves(lim: A.Limits)
    requires lim.concurrency > 0 && lim.perUser > 0 && lim.pendingPerUser > 0
    ensures Take(START, lim, Opening()) == Reserving() && LegalTake(START, lim, Opening())
  {
    AgentSafety.FirstClaim(lim, 0);
    var steps := Opening();
    TakeFour(START, lim, steps[0], steps[1], steps[2], steps[3]);
    assert A.FindChild([], 0, "key") == None;
  }

  /** The owner cancels, and the call comes to its end: the child is not queued yet. */
  function Cancelling(): seq<Step> {
    [StartCancel(0, "user"), ListChildren(0), CancelNext(0), CancelNext(0)]
  }

  function Cancelled(): World {
    Reserving().(agents := AgentSafety.FirstTask(A.CancelRequested, 0).(children := [CHILD]), cancels := [CancelCall(0, "user", Finished)])
  }

  lemma CallEnds(lim: A.Limits)
    ensures Take(Reserving(), lim, Cancelling()) == Cancelled()
  {
    var steps := Cancelling();
    TakeFour(Reserving(), lim, steps[0], steps[1], steps[2], steps[3]);
    assert [CHILD][..0] == [] && ChildIds([], 0) == [];
    assert ChildIds([CHILD], 0) == ["child"];
    assert ["child"][1..] == [];
  }

  function Ending(cfg: S.Config): seq<Step> {
    [Handle(0, true, cfg, true, 0.0, [], "accepted"), Crash(0)]
  }

  lemma HandlerQueuesChild(lim: A.Limits, cfg: S.Config)
    ensures
      var end := Take(Cancelled(), lim, Ending(cfg));
      && end.cancels == Cancelled().cancels && end.subs == [Request(Crashed)] && end.agents == Cancelled().agents
      && S.HasStatus(end.queue.jobs, "child", S.Queued)
  {
    var steps := Ending(cfg);
    assert steps == [steps[0]] + [steps[1]] && [steps[1]] == [steps[1]] + [];
    TakeNext(Cancelled(), lim, steps[0], [steps[1]]);
    TakeNext(Apply(Cancelled(), lim, At0(steps[0])), lim, steps[1], []);
    assert S.Find([], "child") == None;
  }

  /** A reachable run: the cancel call comes to its end while the handler is about to run, the
      request dies right after it, everything has returned, and the child is still queued. */
  lemma LostRequestStrandsChild(lim: A.Limits, cfg: S.Config)
    requires lim.concurrency > 0 && lim.perUser > 0 && lim.pendingPerUser > 0
    ensures
      var steps := Opening() + (Cancelling() + Ending(cfg));
      var end := Take(START, lim, steps);
      && WorldOk(START) && LegalTake(START, lim, steps)
      && |end.cancels| == 1 && end.cancels[0].stage.Finished? && AllReturned(end, 0)
      && |end.agents.children| == 1 && QueuedChild(end, 0, 0)
  {
    TakeAppend(START, lim, Opening(), Cancelling() + Ending(cfg));
    OpeningReserves(lim);
    TakeAppend(Reserving(), lim, Cancelling(), Ending(cfg));
    CallEnds(lim);
    HandlerQueuesChild(lim, cfg);
    StrandingIsLegal(lim, cfg);
  }

  lemma StrandingIsLegal(lim: A.Limits, cfg: S.Config)
    requires lim.concurrency > 0 && lim.perUser > 0 && lim.pendingPerUser > 0
    ensures WorldOk(START) && LegalTake(START, lim, Opening() + (Cancelling() + Ending(cfg)))
  {
    OpeningReserves(lim);
    OwnStepsAreLegal(Reserving(), lim, Cancelling() + Ending(cfg));
    LegalAppend(START, lim, Opening(), Cancelling() + Ending(cfg));
  }
}
