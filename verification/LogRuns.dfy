/** Runs of the scheduler from empty tables on which the log slices of two jobs overlap. */
module LogRuns {
  import opened Values
  import opened LogLines
  import opened SchedulerModel
  import opened LogSlices

  lemma RunNext(t: Tables, files: Files, e: Event, rest: seq<Event>, logOf: LogOf)
    ensures OwnLogRun(t, files, [e] + rest, logOf)
            <==> OnlyGrow(files, e.files) && FromOwnWorker(t, e, logOf) && OwnLogRun(Apply(t, e), e.files, rest, logOf)
    ensures NeverOverlaps(t, [e] + rest) <==> !LateOverlap(t, e) && !Reassigns(t, e) && NeverOverlaps(Apply(t, e), rest)
  {
    assert ([e] + rest)[1..] == rest;
  }

  /** The log of the process at port 8180, with one line feed per step of its life. */
  function Log(logOf: LogOf, size: nat): Files {
    map[logOf(8180) := seq(size, i => LF)]
  }

  function Queue(cfg: Config, id: string, files: Files): Event {
    Event(Enqueue(cfg, Item(0.0, id, []), "user", true, "api"), 0, files)
  }

  function Take(pid: int, logOf: LogOf, files: Files): Event {
    Event(Claim(8180, pid, "api", logOf(8180)), 0, files)
  }

  function Restart(pid: int, files: Files): Event {
    Event(Register(8180, pid, "api"), 0, files)
  }

  function Report(logOf: LogOf, files: Files): Event {
    Event(Complete("first", 8180, true, logOf(8180)), 0, files)
  }

  function FirstJob(cfg: Config): Job {
    NewJob(cfg, Item(0.0, "first", []), "user", true, "api", 0)
  }

  function SecondJob(cfg: Config): Job {
    NewJob(cfg, Item(0.0, "second", []), "user", true, "api", 0)
  }

  /** The first job, claimed at the start of the log and lost after its first line. */
  function LostJob(cfg: Config, logOf: LogOf): Job {
    LostRow(ClaimedRow(FirstJob(cfg), 8180, logOf(8180), Log(logOf, 0), 0), Log(logOf, 1), 0)
  }

  /** After the first claim, after the restart, and after the second claim. */
  function Claimed(cfg: Config, logOf: LogOf): Tables {
    Tables([ClaimedRow(FirstJob(cfg), 8180, logOf(8180), Log(logOf, 0), 0)],
           map[8180 := Worker(7, Some("first"), 0, "api")], map[])
  }

  function Restarted(cfg: Config, logOf: LogOf): Tables {
    Tables([LostJob(cfg, logOf)], map[8180 := Worker(8, None, 0, "api")], map[])
  }

  function Taken(cfg: Config, logOf: LogOf): Tables {
    Tables([LostJob(cfg, logOf), ClaimedRow(SecondJob(cfg), 8180, logOf(8180), Log(logOf, 1), 0)],
           map[8180 := Worker(8, Some("second"), 0, "api")], map[])
  }

  lemma FirstClaim(cfg: Config, logOf: LogOf)
    requires cfg.adminLimit == 0
    ensures
      var t := Apply(EMPTY, Queue(cfg, "first", Log(logOf, 0)));
      && t == EMPTY.(jobs := [FirstJob(cfg)])
      && Apply(t, Take(7, logOf, Log(logOf, 0))) == Claimed(cfg, logOf)
  {
    var t := Apply(EMPTY, Queue(cfg, "first", Log(logOf, 0)));
    assert t.jobs == [FirstJob(cfg)];
    assert Eligible(t.jobs, 0, "api");
    assert Pick(t.jobs, "api") == Some(0);
  }

  lemma Loss(cfg: Config, logOf: LogOf)
    ensures Apply(Claimed(cfg, logOf), Restart(8, Log(logOf, 1))) == Restarted(cfg, logOf)
  {
    assert Find(Claimed(cfg, logOf).jobs, "first") == Some(0);
  }

  lemma SecondClaim(cfg: Config, logOf: LogOf)
    requires cfg.adminLimit == 0
    ensures
      var t := Apply(Restarted(cfg, logOf), Queue(cfg, "second", Log(logOf, 1)));
      && t == Restarted(cfg, logOf).(jobs := [LostJob(cfg, logOf), SecondJob(cfg)])
      && Apply(t, Take(8, logOf, Log(logOf, 1))) == Taken(cfg, logOf)
  {
    var t := Apply(Restarted(cfg, logOf), Queue(cfg, "second", Log(logOf, 1)));
    assert Find([LostJob(cfg, logOf)], "second") == None;
    assert t.jobs == [LostJob(cfg, logOf), SecondJob(cfg)];
    assert Eligible(t.jobs, 1, "api") && !Eligible(t.jobs, 0, "api");
    assert Pick(t.jobs, "api") == Some(1);
  }

  lemma LateReport(cfg: Config, logOf: LogOf)
    requires logOf(8180) != ""
    ensures LateOverlap(Taken(cfg, logOf), Report(logOf, Log(logOf, 2)))
    ensures FromOwnWorker(Taken(cfg, logOf), Report(logOf, Log(logOf, 2)), logOf)
  {
    var t := Taken(cfg, logOf);
    assert t.jobs[..1] == [LostJob(cfg, logOf)];
    assert Find(t.jobs[..1], "first") == Some(0);
    assert Find(t.jobs, "first") == Some(0);
    assert Intrudes(t.jobs[0], t.jobs[1], Log(logOf, 2));
  }

  lemma LogGrows(logOf: LogOf, m: nat, n: nat)
    requires m <= n
    ensures OnlyGrow(Log(logOf, m), Log(logOf, n))
  {
    assert Log(logOf, m)[logOf(8180)] <= Log(logOf, n)[logOf(8180)];
  }

  /** What happens after the restart. */
  function Later(cfg: Config, logOf: LogOf): seq<Event> {
    [Queue(cfg, "second", Log(logOf, 1)), Take(8, logOf, Log(logOf, 1)), Report(logOf, Log(logOf, 2))]
  }

  lemma LaterOverlaps(cfg: Config, logOf: LogOf)
    requires cfg.adminLimit == 0 && logOf(8180) != ""
    ensures OwnLogRun(Restarted(cfg, logOf), Log(logOf, 1), Later(cfg, logOf), logOf)
    ensures !NeverOverlaps(Restarted(cfg, logOf), Later(cfg, logOf))
  {
    var d, e, f := Later(cfg, logOf)[0], Later(cfg, logOf)[1], Later(cfg, logOf)[2];
    var t := Apply(Restarted(cfg, logOf), d);
    SecondClaim(cfg, logOf);
    LateReport(cfg, logOf);
    LogGrows(logOf, 1, 1);
    LogGrows(logOf, 1, 2);
    assert Later(cfg, logOf) == [d] + [e, f] && [e, f] == [e] + [f] && [f] == [f] + [];
    RunNext(Taken(cfg, logOf), Log(logOf, 1), f, [], logOf);
    RunNext(t, Log(logOf, 1), e, [f], logOf);
    RunNext(Restarted(cfg, logOf), Log(logOf, 1), d, [e, f], logOf);
  }

  /** A reachable run: the process at the port restarts and claims another job, and then the
      first job is reported after all, up to the present end of the log. */
  lemma LateReportOverlaps(cfg: Config, logOf: LogOf)
    requires cfg.adminLimit == 0 && OwnLogs(logOf) && logOf(8180) != ""
    ensures
      var f0 := Log(logOf, 0);
      var events := [Queue(cfg, "first", f0), Take(7, logOf, f0), Restart(8, Log(logOf, 1))] + Later(cfg, logOf);
      Good(EMPTY, f0, logOf) && OwnLogRun(EMPTY, f0, events, logOf) && !AlwaysGood(EMPTY, f0, events, logOf)
  {
    var f0, later := Log(logOf, 0), Later(cfg, logOf);
    var a, b, c := Queue(cfg, "first", f0), Take(7, logOf, f0), Restart(8, Log(logOf, 1));
    FirstClaim(cfg, logOf);
    Loss(cfg, logOf);
    LaterOverlaps(cfg, logOf);
    LogGrows(logOf, 0, 0);
    LogGrows(logOf, 0, 1);
    assert [a, b, c] + later == [a] + ([b] + ([c] + later));
    RunNext(Claimed(cfg, logOf), f0, c, later, logOf);
    RunNext(Apply(EMPTY, a), f0, b, [c] + later, logOf);
    RunNext(EMPTY, f0, a, [b] + ([c] + later), logOf);
    SlicesNeverOverlapExactly(EMPTY, f0, [a, b, c] + later, logOf);
  }

  // ---- A job abandoned by its own process --------------------------------------------

  /** The first job as the claim left it. */
  function RunningJob(cfg: Config, logOf: LogOf): Job {
    ClaimedRow(FirstJob(cfg), 8180, logOf(8180), Log(logOf, 0), 0)
  }

  /** The same process has registered again, and the second job is queued. */
  function Abandoned(cfg: Config, logOf: LogOf): Tables {
    Tables([RunningJob(cfg, logOf), SecondJob(cfg)], map[8180 := Worker(7, None, 0, "api")], map[])
  }

  lemma AbandonedIs(cfg: Config, logOf: LogOf)
    ensures Apply(Apply(Claimed(cfg, logOf), Restart(7, Log(logOf, 0))), Queue(cfg, "second", Log(logOf, 0))) == Abandoned(cfg, logOf)
  {
    var t := Apply(Claimed(cfg, logOf), Restart(7, Log(logOf, 0)));
    assert t == Tables([RunningJob(cfg, logOf)], map[8180 := Worker(7, None, 0, "api")], map[]);
    assert Find([RunningJob(cfg, logOf)], "second") == None;
    assert Apply(t, Queue(cfg, "second", Log(logOf, 0))).jobs == [RunningJob(cfg, logOf), SecondJob(cfg)];
  }

  lemma AbandonedReassigns(cfg: Config, logOf: LogOf)
    requires cfg.adminLimit == 0
    ensures Reassigns(Abandoned(cfg, logOf), Take(7, logOf, Log(logOf, 0)))
  {
    var t := Abandoned(cfg, logOf);
    assert Eligible(t.jobs, 1, "api");
    assert RunsAt(t.jobs[0], 8180);
  }

  /** A reachable run without any late completion: a process registers again under its own
      pid and claims another job, and both jobs have open slices of one log. */
  lemma ReassignedPortOverlaps(cfg: Config, logOf: LogOf)
    requires cfg.adminLimit == 0 && OwnLogs(logOf) && logOf(8180) != ""
    ensures
      var f0 := Log(logOf, 0);
      var events := [Queue(cfg, "first", f0), Take(7, logOf, f0), Restart(7, f0), Queue(cfg, "second", f0), Take(7, logOf, f0)];
      Good(EMPTY, f0, logOf) && OwnLogRun(EMPTY, f0, events, logOf) && !AlwaysGood(EMPTY, f0, events, logOf)
  {
    var f0 := Log(logOf, 0);
    var a, b, c, d := Queue(cfg, "first", f0), Take(7, logOf, f0), Restart(7, f0), Queue(cfg, "second", f0);
    var t1, t3 := Apply(EMPTY, a), Apply(Claimed(cfg, logOf), c);
    FirstClaim(cfg, logOf);
    AbandonedIs(cfg, logOf);
    AbandonedReassigns(cfg, logOf);
    LogGrows(logOf, 0, 0);
    assert [a, b, c, d, b] == [a] + [b, c, d, b] && [b, c, d, b] == [b] + [c, d, b] && [c, d, b] == [c] + [d, b];
    assert [d, b] == [d] + [b] && [b] == [b] + [];
    RunNext(Abandoned(cfg, logOf), f0, b, [], logOf);
    RunNext(t3, f0, d, [b], logOf);
    RunNext(Claimed(cfg, logOf), f0, c, [d, b], logOf);
    RunNext(t1, f0, b, [c, d, b], logOf);
    RunNext(EMPTY, f0, a, [b, c, d, b], logOf);
    SlicesNeverOverlapExactly(EMPTY, f0, [a, b, c, d, b], logOf);
  }
}
