/** The cloud archive tables and their transactions (CloudArchiveStore in
    utils/cloud_archive.py). */
module CloudModel {
  import opened Values

  datatype ArtifactStatus = Pending | Uploading | Uploaded | CloudFailed | SourceMissing

  datatype ManifestStatus = MPending | MUploading | MUploaded | MFailed

  datatype CloudStatus = CPending | CUploading | CloudCompleted | CFailed | NoArtifacts

  predicate Terminal(s: ArtifactStatus) {
    s.Uploaded? || s.CloudFailed? || s.SourceMissing?
  }

  predicate Failure(s: ArtifactStatus) {
    s.CloudFailed? || s.SourceMissing?
  }

  /** A lease: who holds it and until when. */
  datatype Lease = Lease(owner: string, expires: int)

  /** A row of scheduler_cloud_artifacts; its autoincrement id is its index. */
  datatype Artifact = Artifact(
    promptId: string,
    ordinal: nat,
    source: string,
    status: ArtifactStatus,
    attempts: nat,
    nextAttempt: Option<int>,
    lease: Option<Lease>)

  /** A row of scheduler_cloud_tasks. */
  datatype Task = Task(
    serverId: string,
    owner: string,
    cloudStatus: CloudStatus,
    artifactCount: nat,
    uploadedCount: nat,
    failedCount: nat,
    manifest: ManifestStatus,
    manifestAttempts: nat,
    manifestNext: Option<int>,
    manifestLease: Option<Lease>,
    created: int,
    completed: Option<int>)

  datatype Cloud = Cloud(tasks: map<string, Task>, artifacts: seq<Artifact>)

  const EMPTY := Cloud(map[], [])

  datatype CloudError = OtherServer

  // ---- Counting ----------------------------------------------------------------------

  ghost function RowsOf(c: Cloud, id: string): set<nat> {
    set i: nat | i < |c.artifacts| && c.artifacts[i].promptId == id
  }

  ghost function UploadedOf(c: Cloud, id: string): set<nat> {
    set i: nat | i < |c.artifacts| && c.artifacts[i].promptId == id && c.artifacts[i].status.Uploaded?
  }

  ghost function FailedOf(c: Cloud, id: string): set<nat> {
    set i: nat | i < |c.artifacts| && c.artifacts[i].promptId == id && Failure(c.artifacts[i].status)
  }

  ghost predicate AllTerminal(c: Cloud, id: string) {
    forall i :: 0 <= i < |c.artifacts| && c.artifacts[i].promptId == id ==> Terminal(c.artifacts[i].status)
  }

  predicate LiveAt(lease: Option<Lease>, now: int) {
    lease.Some? && lease.value.expires > now
  }

  ghost function LiveArtifacts(c: Cloud, now: int): set<nat> {
    set i: nat | i < |c.artifacts| && c.artifacts[i].status.Uploading? && LiveAt(c.artifacts[i].lease, now)
  }

  ghost function LiveManifests(c: Cloud, now: int): set<string> {
    set id | id in c.tasks && c.tasks[id].manifest.MUploading? && LiveAt(c.tasks[id].manifestLease, now)
  }

  /** Upload slots in use: live artifact leases and live manifest leases. */
  ghost function SlotsUsed(c: Cloud, now: int): nat {
    |LiveArtifacts(c, now)| + |LiveManifests(c, now)|
  }

  // ---- Transactions ------------------------------------------------------------------

  /** RETRY_DELAYS[min(max(0, attempts - 1), 1)]. */
  function RetryDelay(attempts: nat): int {
    if attempts <= 1 then 30 else 120
  }

  /** The row with this prompt id and ordinal below `n`. */
  function FindArtifact(artifacts: seq<Artifact>, id: string, ordinal: nat): (r: Option<nat>)
    ensures r.Some? ==> r.value < |artifacts| && artifacts[r.value].promptId == id && artifacts[r.value].ordinal == ordinal
    ensures r.None? ==> forall i :: 0 <= i < |artifacts| ==> !(artifacts[i].promptId == id && artifacts[i].ordinal == ordinal)
  {
    if artifacts == [] then None
    else
      var last := artifacts[|artifacts| - 1];
      if last.promptId == id && last.ordinal == ordinal then Some(|artifacts| - 1)
      else FindArtifact(artifacts[..|artifacts| - 1], id, ordinal)
  }

  /** INSERT … ON CONFLICT(prompt_id, ordinal) DO UPDATE: a known row keeps its status. */
  function UpsertArtifact(artifacts: seq<Artifact>, id: string, ordinal: nat, source: string, now: int): seq<Artifact> {
    var row := FindArtifact(artifacts, id, ordinal);
    if row.Some? then artifacts[row.value := artifacts[row.value].(source := source)]
    else artifacts + [Artifact(id, ordinal, source, Pending, 0, Some(now), None)]
  }

  function UpsertArtifacts(artifacts: seq<Artifact>, id: string, sources: seq<string>, now: int): seq<Artifact> {
    if sources == [] then artifacts
    else
      var n := |sources| - 1;
      UpsertArtifact(UpsertArtifacts(artifacts, id, sources[..n], now), id, |sources|, sources[n], now)
  }

  function NewTask(server: string, owner: string, count: nat, now: int): Task {
    Task(server, owner, if count > 0 then CPending else NoArtifacts, count, 0, 0, MPending, 0, Some(now), None, now, None)
  }

  function EnqueueStep(c: Cloud, server: string, id: string, owner: string, sources: seq<string>, now: int): Result<Cloud, CloudError> {
    if id in c.tasks && c.tasks[id].serverId != server then Err(OtherServer)
    else
      var task := if id in c.tasks then c.tasks[id].(owner := owner, artifactCount := |sources|)
                  else NewTask(server, owner, |sources|, now);
      Ok(Cloud(c.tasks[id := task], UpsertArtifacts(c.artifacts, id, sources, now)))
  }

  predicate Due(at: Option<int>, now: int) {
    at.None? || at.value <= now
  }

  /** `status = pending OR (status = uploading AND the lease has expired)`, and due. */
  predicate Claimable(a: Artifact, now: int) {
    && (a.status.Pending? || (a.status.Uploading? && (a.lease.None? || a.lease.value.expires <= now)))
    && Due(a.nextAttempt, now)
  }

  /** ORDER BY id LIMIT 1. */
  function FirstClaimable(artifacts: seq<Artifact>, now: int, from: nat): (r: Option<nat>)
    requires from <= |artifacts|
    ensures r.Some? ==> from <= r.value < |artifacts| && Claimable(artifacts[r.value], now)
                        && forall j :: from <= j < r.value ==> !Claimable(artifacts[j], now)
    ensures r.None? ==> forall j :: from <= j < |artifacts| ==> !Claimable(artifacts[j], now)
    decreases |artifacts| - from
  {
    if from == |artifacts| then None
    else if Claimable(artifacts[from], now) then Some(from)
    else FirstClaimable(artifacts, now, from + 1)
  }

  ghost function ClaimArtifactStep(c: Cloud, claimant: string, concurrency: nat, seconds: int, now: int)
    : (r: (Cloud, Option<nat>))
    ensures r.1.Some? ==> r.1.value < |c.artifacts|
  {
    if SlotsUsed(c, now) >= concurrency then (c, None)
    else
      var row := FirstClaimable(c.artifacts, now, 0);
      if row.None? then (c, None)
      else
        var a := c.artifacts[row.value];
        (Cloud(if a.promptId in c.tasks then c.tasks[a.promptId := c.tasks[a.promptId].(cloudStatus := CUploading)] else c.tasks,
               c.artifacts[row.value := a.(status := Uploading, attempts := a.attempts + 1, lease := Some(Lease(claimant, now + seconds)))]),
         row)
  }

  /** Recount the artifacts of a task into its row. */
  ghost function Refresh(c: Cloud, id: string): Cloud {
    if id in c.tasks
    then c.(tasks := c.tasks[id := c.tasks[id].(artifactCount := |RowsOf(c, id)|,
                                                uploadedCount := |UploadedOf(c, id)|,
                                                failedCount := |FailedOf(c, id)|)])
    else c
  }

  datatype Report = Succeeded | Errored(maxAttempts: nat) | Missing

  function ReportedRow(a: Artifact, report: Report, now: int): Artifact {
    match report
    case Succeeded => a.(status := Uploaded, nextAttempt := None, lease := None)
    case Missing => a.(status := SourceMissing, nextAttempt := None, lease := None)
    case Errored(max) =>
      if a.attempts >= max then a.(status := CloudFailed, nextAttempt := None, lease := None)
      else a.(status := Pending, nextAttempt := Some(now + RetryDelay(a.attempts)), lease := None)
  }

  /** artifact_succeeded, artifact_failed and artifact_source_missing. */
  ghost function ReportStep(c: Cloud, i: nat, report: Report, now: int): Cloud {
    if i < |c.artifacts|
    then Refresh(c.(artifacts := c.artifacts[i := ReportedRow(c.artifacts[i], report, now)]), c.artifacts[i].promptId)
    else c
  }

  function RenewArtifactStep(c: Cloud, i: nat, claimant: string, seconds: int, now: int): (Cloud, bool) {
    if i < |c.artifacts| && c.artifacts[i].status.Uploading? && c.artifacts[i].lease.Some? && c.artifacts[i].lease.value.owner == claimant
    then (c.(artifacts := c.artifacts[i := c.artifacts[i].(lease := Some(Lease(claimant, now + seconds)))]), true)
    else (c, false)
  }

  ghost predicate ManifestClaimable(c: Cloud, id: string, max: nat, now: int) {
    && id in c.tasks
    && var t := c.tasks[id];
    && (t.manifest.MPending? || (t.manifest.MUploading? && (t.manifestLease.None? || t.manifestLease.value.expires <= now)))
    && t.manifestAttempts < max
    && Due(t.manifestNext, now)
    && AllTerminal(c, id)
  }

  /** claim_manifest may hand out `id`: a claimable task such that none is older. */
  ghost predicate OldestManifest(c: Cloud, id: string, max: nat, now: int) {
    && ManifestClaimable(c, id, max, now)
    && forall other :: other in c.tasks && ManifestClaimable(c, other, max, now) ==> c.tasks[id].created <= c.tasks[other].created
  }

  function ManifestClaimed(c: Cloud, id: string, claimant: string, seconds: int, now: int): Cloud
    requires id in c.tasks
  {
    var t := c.tasks[id];
    c.(tasks := c.tasks[id := t.(manifest := MUploading, manifestAttempts := t.manifestAttempts + 1,
                                 manifestLease := Some(Lease(claimant, now + seconds)))])
  }

  /** One claim_manifest: nothing when the slots are full or nothing is claimable, otherwise
      a lease on an oldest claimable task. Ties in created_at may be broken either way. */
  ghost predicate ClaimManifestResult(c: Cloud, claimant: string, max: nat, concurrency: nat, seconds: int, now: int,
                                      d: Cloud, claimed: Option<string>)
  {
    if claimed.None? then
      && d == c
      && (SlotsUsed(c, now) >= concurrency || forall id :: id in c.tasks ==> !ManifestClaimable(c, id, max, now))
    else
      && SlotsUsed(c, now) < concurrency
      && OldestManifest(c, claimed.value, max, now)
      && d == ManifestClaimed(c, claimed.value, claimant, seconds, now)
  }

  /** The status that stored counts stand for. */
  function DesiredStatus(t: Task): CloudStatus {
    if t.artifactCount == 0 then NoArtifacts
    else if t.failedCount > 0 then CFailed
    else CloudCompleted
  }

  function ManifestSucceededStep(c: Cloud, id: string, now: int): Cloud {
    if id in c.tasks
    then c.(tasks := c.tasks[id := c.tasks[id].(cloudStatus := DesiredStatus(c.tasks[id]), manifest := MUploaded,
                                                manifestNext := None, manifestLease := None, completed := Some(now))])
    else c
  }

  function ManifestFailedStep(c: Cloud, id: string, max: nat, now: int): Cloud {
    if id !in c.tasks then c
    else
      var t := c.tasks[id];
      var over := t.manifestAttempts >= max;
      c.(tasks := c.tasks[id := t.(cloudStatus := if over then CFailed else CUploading,
                                   manifest := if over then MFailed else MPending,
                                   manifestNext := if over then None else Some(now + RetryDelay(t.manifestAttempts)),
                                   manifestLease := None, completed := if over then Some(now) else None)])
  }

  function RenewManifestStep(c: Cloud, id: string, claimant: string, seconds: int, now: int): (Cloud, bool) {
    if id in c.tasks && c.tasks[id].manifest.MUploading? && c.tasks[id].manifestLease.Some? && c.tasks[id].manifestLease.value.owner == claimant
    then (c.(tasks := c.tasks[id := c.tasks[id].(manifestLease := Some(Lease(claimant, now + seconds)))]), true)
    else (c, false)
  }

  function ResetRow(a: Artifact, now: int): Artifact {
    a.(status := Pending, attempts := 0, nextAttempt := Some(now), lease := None)
  }

  /** Requeue the failed artifacts and the manifest of a task. */
  function ResetStep(c: Cloud, id: string, now: int): Cloud {
    Cloud(
      if id in c.tasks
      then c.tasks[id := c.tasks[id].(cloudStatus := CPending, manifest := MPending, manifestAttempts := 0,
                                      manifestNext := Some(now), manifestLease := None, completed := None)]
      else c.tasks,
      seq(|c.artifacts|, i requires 0 <= i < |c.artifacts| =>
        if c.artifacts[i].promptId == id && Failure(c.artifacts[i].status) then ResetRow(c.artifacts[i], now) else c.artifacts[i]))
  }

  // ---- Runs --------------------------------------------------------------------------

  datatype Op =
    | Enqueue(server: string, id: string, owner: string, sources: seq<string>)
    | ClaimArtifact(claimant: string, seconds: int)
    | ReportArtifact(row: nat, claimant: string, report: Report)
    | RenewArtifact(row: nat, claimant: string, seconds: int)
    | ClaimManifest(claimant: string, seconds: int, choice: Option<string>)
    | ManifestSucceeded(id: string, claimant: string)
    | ManifestFailed(id: string, claimant: string)
    | RenewManifest(id: string, claimant: string, seconds: int)
    | Reset(id: string)

  datatype Event = Event(op: Op, now: int)

  /** The settings every server shares. */
  datatype Settings = Settings(concurrency: nat, maxAttempts: nat)

  /** One committed transaction. The claimant of a report is who sends it: the tables do not
      look at it. */
  ghost predicate Next(c: Cloud, cfg: Settings, e: Event, d: Cloud) {
    match e.op
    case Enqueue(server, id, owner, sources) =>
      var r := EnqueueStep(c, server, id, owner, sources, e.now);
      d == if r.Ok? then r.value else c
    case ClaimArtifact(claimant, seconds) => d == ClaimArtifactStep(c, claimant, cfg.concurrency, seconds, e.now).0
    case ReportArtifact(row, _, report) => d == ReportStep(c, row, report, e.now)
    case RenewArtifact(row, claimant, seconds) => d == RenewArtifactStep(c, row, claimant, seconds, e.now).0
    case ClaimManifest(claimant, seconds, choice) =>
      ClaimManifestResult(c, claimant, cfg.maxAttempts, cfg.concurrency, seconds, e.now, d, choice)
    case ManifestSucceeded(id, _) => d == ManifestSucceededStep(c, id, e.now)
    case ManifestFailed(id, _) => d == ManifestFailedStep(c, id, cfg.maxAttempts, e.now)
    case RenewManifest(id, claimant, seconds) => d == RenewManifestStep(c, id, claimant, seconds, e.now).0
    case Reset(id) => d == ResetStep(c, id, e.now)
  }

  /** A run: states[k + 1] follows states[k] by events[k], and the clock never goes back. */
  ghost predicate IsRun(cfg: Settings, states: seq<Cloud>, events: seq<Event>) {
    && |states| == |events| + 1
    && (forall k :: 0 <= k < |events| ==> Next(states[k], cfg, events[k], states[k + 1]))
    && (forall j, k :: 0 <= j < k < |events| ==> events[j].now <= events[k].now)
  }
}
