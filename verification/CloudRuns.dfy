/** Runs of the cloud archive from empty tables that break what the theorems guard. */
module CloudRuns {
  import opened Values
  import opened CloudModel
  import opened CloudSafety

  const SECONDS := 1800

  function Clip(status: ArtifactStatus, attempts: nat, next: Option<int>, lease: Option<Lease>): Artifact {
    Artifact("job", 1, "clip.mp4", status, attempts, next, lease)
  }

  function Job(cloudStatus: CloudStatus, uploaded: nat, manifest: ManifestStatus, lease: Option<Lease>): Task {
    Task("srv", "user", cloudStatus, 1, uploaded, 0, manifest, if manifest.MPending? then 0 else 1, Some(0), lease, 0, None)
  }

  function State(task: Task, clip: Artifact): Cloud {
    Cloud(map["job" := task], [clip])
  }

  // ---- A superseded uploader reports late --------------------------------------------

  /** The states of the run: registered, claimed by "a", claimed by "b" when that lease ran
      out, uploaded by "b", manifest claimed, failure reported by "a", manifest reported. */
  function LateStates(): seq<Cloud> {
    [
      EMPTY,
      State(Job(CPending, 0, MPending, None), Clip(Pending, 0, Some(0), None)),
      State(Job(CUploading, 0, MPending, None), Clip(Uploading, 1, Some(0), Some(Lease("a", SECONDS)))),
      State(Job(CUploading, 0, MPending, None), Clip(Uploading, 2, Some(0), Some(Lease("b", 2 * SECONDS)))),
      State(Job(CUploading, 1, MPending, None), Clip(Uploaded, 2, None, None)),
      State(Job(CUploading, 1, MUploading, Some(Lease("b", SECONDS + 1 + SECONDS))), Clip(Uploaded, 2, None, None)),
      State(Job(CUploading, 0, MUploading, Some(Lease("b", SECONDS + 1 + SECONDS))), Clip(Pending, 2, Some(SECONDS + 2 + 120), None)),
      ManifestSucceededStep(
        State(Job(CUploading, 0, MUploading, Some(Lease("b", SECONDS + 1 + SECONDS))), Clip(Pending, 2, Some(SECONDS + 2 + 120), None)),
        "job", SECONDS + 3)
    ]
  }

  function LateEvents(): seq<Event> {
    [
      Event(Enqueue("srv", "job", "user", ["clip.mp4"]), 0),
      Event(ClaimArtifact("a", SECONDS), 0),
      Event(ClaimArtifact("b", SECONDS), SECONDS),
      Event(ReportArtifact(0, "b", Succeeded), SECONDS + 1),
      Event(ClaimManifest("b", SECONDS, Some("job")), SECONDS + 1),
      Event(ReportArtifact(0, "a", Errored(3)), SECONDS + 2),
      Event(ManifestSucceeded("job", "b"), SECONDS + 3)
    ]
  }

  lemma Registered(cfg: Settings)
    ensures Next(LateStates()[0], cfg, LateEvents()[0], LateStates()[1])
  {
    assert ["clip.mp4"][..0] == [];
    assert UpsertArtifacts([], "job", [], 0) == [];
    assert UpsertArtifacts([], "job", ["clip.mp4"], 0) == [Clip(Pending, 0, Some(0), None)];
  }

  /** No lease is live, so a slot is free. */
  lemma NothingLive(c: Cloud, now: int)
    requires forall i :: 0 <= i < |c.artifacts| ==> !LiveAt(c.artifacts[i].lease, now)
    requires forall id :: id in c.tasks ==> !LiveAt(c.tasks[id].manifestLease, now)
    ensures SlotsUsed(c, now) == 0
  {
    assert LiveArtifacts(c, now) == {} && LiveManifests(c, now) == {};
  }

  lemma ClaimedTwice(cfg: Settings)
    requires cfg.concurrency > 0
    ensures Next(LateStates()[1], cfg, LateEvents()[1], LateStates()[2])
    ensures Next(LateStates()[2], cfg, LateEvents()[2], LateStates()[3])
  {
    NothingLive(LateStates()[1], 0);
    NothingLive(LateStates()[2], SECONDS);
  }

  /** A report of the only artifact sets the counts of a single row. */
  lemma OnlyRow(c: Cloud)
    requires |c.artifacts| == 1 && c.artifacts[0].promptId == "job"
    ensures |RowsOf(c, "job")| == 1
    ensures |UploadedOf(c, "job")| == if c.artifacts[0].status.Uploaded? then 1 else 0
    ensures |FailedOf(c, "job")| == if Failure(c.artifacts[0].status) then 1 else 0
  {
    assert RowsOf(c, "job") == {0};
    assert UploadedOf(c, "job") == if c.artifacts[0].status.Uploaded? then {0} else {};
    assert FailedOf(c, "job") == if Failure(c.artifacts[0].status) then {0} else {};
  }

  lemma Reported(task: Task, clip: Artifact, report: Report, now: int)
    requires clip.promptId == "job" && task.artifactCount == 1
    ensures
      var row := ReportedRow(clip, report, now);
      ReportStep(State(task, clip), 0, report, now)
      == State(task.(uploadedCount := if row.status.Uploaded? then 1 else 0, failedCount := if Failure(row.status) then 1 else 0), row)
  {
    var row := ReportedRow(clip, report, now);
    assert [clip][0 := row] == [row];
    OnlyRow(State(task, row));
  }

  lemma ReportedTwice(cfg: Settings)
    ensures Next(LateStates()[3], cfg, LateEvents()[3], LateStates()[4])
    ensures Next(LateStates()[5], cfg, LateEvents()[5], LateStates()[6])
  {
    Reported(LateStates()[3].tasks["job"], LateStates()[3].artifacts[0], Succeeded, SECONDS + 1);
    Reported(LateStates()[5].tasks["job"], LateStates()[5].artifacts[0], Errored(3), SECONDS + 2);
  }

  lemma ManifestClaimedOnce(cfg: Settings)
    requires cfg.concurrency > 0 && cfg.maxAttempts > 0
    ensures Next(LateStates()[4], cfg, LateEvents()[4], LateStates()[5])
  {
    NothingLive(LateStates()[4], SECONDS + 1);
  }

  lemma LateStep(cfg: Settings, k: nat)
    requires cfg.concurrency > 0 && cfg.maxAttempts > 0 && k < 7
    ensures Next(LateStates()[k], cfg, LateEvents()[k], LateStates()[k + 1])
  {
    if k == 0 {
      Registered(cfg);
    } else if k == 1 || k == 2 {
      ClaimedTwice(cfg);
    } else if k == 3 || k == 5 {
      ReportedTwice(cfg);
    } else if k == 4 {
      ManifestClaimedOnce(cfg);
    } else {
      assert LateEvents()[6].op == ManifestSucceeded("job", "b");
    }
  }

  /** A reachable run: the uploader whose lease was taken over reports its failure while the
      manifest is being uploaded, and the job is marked completed with its artifact pending. */
  lemma LateFailureCompletesWrongly(cfg: Settings)
    requires cfg.concurrency > 0 && cfg.maxAttempts > 0
    ensures LateStates()[0] == EMPTY && IsRun(cfg, LateStates(), LateEvents())
    ensures
      var end := LateStates()[7];
      end.tasks["job"].cloudStatus.CloudCompleted? && end.artifacts[0].status.Pending? && !AllUploaded(end, "job")
  {
    forall k: nat | k < |LateEvents()|
      ensures Next(LateStates()[k], cfg, LateEvents()[k], LateStates()[k + 1])
    {
      LateStep(cfg, k);
    }
    assert LateStates()[7].artifacts[0].promptId == "job";
  }

  // ---- A revived lease ---------------------------------------------------------------

  function Notes(manifest: ManifestStatus, lease: Option<Lease>): Task {
    Task("srv", "user", NoArtifacts, 0, 0, 0, manifest, if manifest.MPending? then 0 else 1, Some(0), lease, 0, None)
  }

  function Both(notes: Task, job: Task, clip: Artifact): Cloud {
    Cloud(map["notes" := notes, "job" := job], [clip])
  }

  /** Two jobs are registered, the manifest of one is claimed by "a", its lease runs out, "b"
      claims the artifact of the other, and "a" renews. */
  function RevivalStates(): seq<Cloud> {
    [
      EMPTY,
      Cloud(map["notes" := Notes(MPending, None)], []),
      Both(Notes(MPending, None), Job(CPending, 0, MPending, None), Clip(Pending, 0, Some(0), None)),
      Both(Notes(MUploading, Some(Lease("a", SECONDS))), Job(CPending, 0, MPending, None), Clip(Pending, 0, Some(0), None)),
      Both(Notes(MUploading, Some(Lease("a", SECONDS))), Job(CUploading, 0, MPending, None),
           Clip(Uploading, 1, Some(0), Some(Lease("b", 2 * SECONDS)))),
      Both(Notes(MUploading, Some(Lease("a", 2 * SECONDS))), Job(CUploading, 0, MPending, None),
           Clip(Uploading, 1, Some(0), Some(Lease("b", 2 * SECONDS))))
    ]
  }

  function RevivalEvents(): seq<Event> {
    [
      Event(Enqueue("srv", "notes", "user", []), 0),
      Event(Enqueue("srv", "job", "user", ["clip.mp4"]), 0),
      Event(ClaimManifest("a", SECONDS, Some("notes")), 0),
      Event(ClaimArtifact("b", SECONDS), SECONDS),
      Event(RenewManifest("notes", "a", SECONDS), SECONDS)
    ]
  }

  lemma BothRegistered(cfg: Settings)
    ensures Next(RevivalStates()[0], cfg, RevivalEvents()[0], RevivalStates()[1])
    ensures Next(RevivalStates()[1], cfg, RevivalEvents()[1], RevivalStates()[2])
  {
    Registered(cfg);
  }

  lemma BothClaimed(cfg: Settings)
    requires cfg.concurrency > 0 && cfg.maxAttempts > 0
    ensures Next(RevivalStates()[2], cfg, RevivalEvents()[2], RevivalStates()[3])
    ensures Next(RevivalStates()[3], cfg, RevivalEvents()[3], RevivalStates()[4])
  {
    NothingLive(RevivalStates()[2], 0);
    NothingLive(RevivalStates()[3], SECONDS);
    assert !AllTerminal(RevivalStates()[2], "job") by {
      assert RevivalStates()[2].artifacts[0].promptId == "job";
    }
  }

  /** A reachable run on which renewing an expired lease exceeds a budget of one upload. */
  lemma RevivalExceedsBudget(cfg: Settings)
    requires cfg.concurrency == 1 && cfg.maxAttempts > 0
    ensures RevivalStates()[0] == EMPTY && IsRun(cfg, RevivalStates(), RevivalEvents())
    ensures SlotsUsed(RevivalStates()[4], SECONDS) == 1 && SlotsUsed(RevivalStates()[5], SECONDS) == 2
  {
    forall k: nat | k < |RevivalEvents()|
      ensures Next(RevivalStates()[k], cfg, RevivalEvents()[k], RevivalStates()[k + 1])
    {
      RevivalStep(cfg, k);
    }
    RevivalSlots();
  }

  lemma RevivalStep(cfg: Settings, k: nat)
    requires cfg.concurrency > 0 && cfg.maxAttempts > 0 && k < 5
    ensures Next(RevivalStates()[k], cfg, RevivalEvents()[k], RevivalStates()[k + 1])
  {
    if k < 2 {
      BothRegistered(cfg);
    } else if k < 4 {
      BothClaimed(cfg);
    } else {
      assert RevivalEvents()[4].op == RenewManifest("notes", "a", SECONDS);
    }
  }

  lemma RevivalSlots()
    ensures SlotsUsed(RevivalStates()[4], SECONDS) == 1 && SlotsUsed(RevivalStates()[5], SECONDS) == 2
  {
    var c, d := RevivalStates()[4], RevivalStates()[5];
    assert LiveArtifacts(c, SECONDS) == {0} && LiveManifests(c, SECONDS) == {};
    assert LiveArtifacts(d, SECONDS) == {0} && LiveManifests(d, SECONDS) == {"notes"};
  }

  // ---- A shorter registration --------------------------------------------------------

  function Register(c: Cloud, sources: seq<string>): Cloud {
    var r := EnqueueStep(c, "srv", "job", "user", sources, 0);
    if r.Ok? then r.value else c
  }

  /** Every second, shorter registration is a reachable run that breaks the counters. */
  lemma ShorterRegistrationMiscounts(cfg: Settings, long: seq<string>, short: seq<string>)
    requires |short| < |long|
    ensures
      var first, second := Register(EMPTY, long), Register(Register(EMPTY, long), short);
      && IsRun(cfg, [EMPTY, first, second], [Event(Enqueue("srv", "job", "user", long), 0), Event(Enqueue("srv", "job", "user", short), 0)])
      && CountersOk(first) && !CountersOk(second)
  {
    var first := Register(EMPTY, long);
    EmptyCounts();
    EnqueueCountsExactly(EMPTY, "srv", "job", "user", long, 0);
    assert CountsOk(first, "job");
    EnqueueCountsExactly(first, "srv", "job", "user", short, 0);
  }

  lemma EmptyCounts()
    ensures CountersOk(EMPTY) && |RowsOf(EMPTY, "job")| == 0
  {
    forall id
      ensures RowsOf(EMPTY, id) == {}
    {
    }
    forall id
      ensures Numbered(EMPTY.artifacts, id, |RowsOf(EMPTY, id)|)
    {
      assert RowsOf(Cloud(map[], EMPTY.artifacts), id) == {};
    }
  }
}
