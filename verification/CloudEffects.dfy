/** What each transaction of the cloud archive does to each artifact and to each job, said of
    the rows themselves (CloudArchiveStore in utils/cloud_archive.py). */
module CloudEffects {
  import opened Values
  import opened CloudModel
  import opened CloudSafety

  // ---- Registering -------------------------------------------------------------------

  /** (job, ordinal) is unique. */
  ghost predicate DistinctOrdinals(artifacts: seq<Artifact>) {
    forall i, j :: 0 <= i < j < |artifacts| ==> artifacts[i].promptId != artifacts[j].promptId || artifacts[i].ordinal != artifacts[j].ordinal
  }

  lemma UpsertExactly(artifacts: seq<Artifact>, id: string, ordinal: nat, source: string, now: int)
    requires DistinctOrdinals(artifacts)
    ensures
      var b := UpsertArtifact(artifacts, id, ordinal, source, now);
      && |artifacts| <= |b| <= |artifacts| + 1 && DistinctOrdinals(b)
      && (forall i :: 0 <= i < |artifacts| ==>
            b[i] == if artifacts[i].promptId == id && artifacts[i].ordinal == ordinal then artifacts[i].(source := source) else artifacts[i])
      && (|b| > |artifacts| <==> forall i :: 0 <= i < |artifacts| ==> artifacts[i].promptId != id || artifacts[i].ordinal != ordinal)
      && (|b| > |artifacts| ==> b[|artifacts|] == Artifact(id, ordinal, source, Pending, 0, Some(now), None))
  {
    var b := UpsertArtifact(artifacts, id, ordinal, source, now);
    var row := FindArtifact(artifacts, id, ordinal);
    forall i | 0 <= i < |artifacts| && artifacts[i].promptId == id && artifacts[i].ordinal == ordinal
      ensures row == Some(i)
    {
      assert row.Some?;
    }
  }

  /** The known artifacts keep their state and take the sources of their ordinals. */
  ghost predicate Kept(artifacts: seq<Artifact>, b: seq<Artifact>, id: string, sources: seq<string>) {
    |artifacts| <= |b| && forall i :: 0 <= i < |artifacts| ==> b[i] == Renamed(artifacts[i], id, sources)
  }

  /** What comes after them are pending artifacts of the list. */
  ghost predicate Added(from: nat, b: seq<Artifact>, id: string, sources: seq<string>, now: int) {
    forall i :: from <= i < |b| ==>
      1 <= b[i].ordinal <= |sources| && b[i] == Artifact(id, b[i].ordinal, sources[b[i].ordinal - 1], Pending, 0, Some(now), None)
  }

  ghost predicate Covered(b: seq<Artifact>, id: string, n: nat) {
    forall m :: 1 <= m <= n ==> HasOrdinal(b, id, m)
  }

  /** After registering a list, every ordinal of it has one artifact: the known one as it was,
      or a new one at the end. */
  lemma {:induction false} UpsertsExactly(artifacts: seq<Artifact>, id: string, sources: seq<string>, now: int)
    requires DistinctOrdinals(artifacts)
    ensures
      var b := UpsertArtifacts(artifacts, id, sources, now);
      DistinctOrdinals(b) && Kept(artifacts, b, id, sources) && Added(|artifacts|, b, id, sources, now) && Covered(b, id, |sources|)
  {
    if sources != [] {
      var n := |sources| - 1;
      var a := UpsertArtifacts(artifacts, id, sources[..n], now);
      UpsertsExactly(artifacts, id, sources[..n], now);
      UpsertExactly(a, id, |sources|, sources[n], now);
      var b := UpsertArtifacts(artifacts, id, sources, now);
      OneMoreKept(artifacts, a, b, id, sources);
      OneMoreAdded(|artifacts|, a, b, id, sources, now);
      OneMoreCovered(a, b, id, sources);
    }
  }

  /** What one more source did. */
  ghost predicate OneMore(a: seq<Artifact>, b: seq<Artifact>, id: string, sources: seq<string>)
    requires sources != []
  {
    && |a| <= |b|
    && forall i :: 0 <= i < |a| ==>
         b[i] == if a[i].promptId == id && a[i].ordinal == |sources| then a[i].(source := sources[|sources| - 1]) else a[i]
  }

  lemma OneMoreKept(artifacts: seq<Artifact>, a: seq<Artifact>, b: seq<Artifact>, id: string, sources: seq<string>)
    requires sources != [] && Kept(artifacts, a, id, sources[..|sources| - 1]) && OneMore(a, b, id, sources)
    ensures Kept(artifacts, b, id, sources)
  {
  }

  lemma OneMoreAdded(from: nat, a: seq<Artifact>, b: seq<Artifact>, id: string, sources: seq<string>, now: int)
    requires sources != [] && Added(from, a, id, sources[..|sources| - 1], now) && OneMore(a, b, id, sources)
    requires |b| > |a| ==> |b| == |a| + 1 && b[|a|] == Artifact(id, |sources|, sources[|sources| - 1], Pending, 0, Some(now), None)
    ensures Added(from, b, id, sources, now)
  {
  }

  lemma OneMoreCovered(a: seq<Artifact>, b: seq<Artifact>, id: string, sources: seq<string>)
    requires sources != [] && Covered(a, id, |sources| - 1) && OneMore(a, b, id, sources)
    requires |b| > |a| ==> b[|a|].promptId == id && b[|a|].ordinal == |sources|
    requires |b| == |a| ==> HasOrdinal(a, id, |sources|)
    ensures Covered(b, id, |sources|)
  {
    forall m | 1 <= m <= |sources|
      ensures HasOrdinal(b, id, m)
    {
      if m < |sources| || |b| == |a| {
        assert HasOrdinal(a, id, m);
        KeepsOrdinal(a, b, id, m);
      } else {
        assert b[|a|].promptId == id && b[|a|].ordinal == m;
      }
    }
  }

  /** Only registering adds artifacts, and no step changes what one is. */
  lemma OthersKeepOrdinals(c: Cloud, cfg: Settings, e: Event, d: Cloud)
    requires Next(c, cfg, e, d) && !e.op.Enqueue? && DistinctOrdinals(c.artifacts)
    ensures DistinctOrdinals(d.artifacts)
  {
    assert |d.artifacts| == |c.artifacts|;
    assert forall i :: 0 <= i < |c.artifacts| ==>
        d.artifacts[i].promptId == c.artifacts[i].promptId && d.artifacts[i].ordinal == c.artifacts[i].ordinal;
  }

  /** Over any run no job has two artifacts of one ordinal. */
  lemma {:induction false} RunKeepsOrdinals(cfg: Settings, states: seq<Cloud>, events: seq<Event>, n: nat)
    requires IsRun(cfg, states, events) && n <= |events| && DistinctOrdinals(states[0].artifacts)
    ensures DistinctOrdinals(states[n].artifacts)
  {
    if n > 0 {
      RunKeepsOrdinals(cfg, states, events, n - 1);
      var c, e := states[n - 1], events[n - 1];
      assert Next(c, cfg, e, states[n]);
      if e.op.Enqueue? {
        UpsertsExactly(c.artifacts, e.op.id, e.op.sources, e.now);
      } else {
        OthersKeepOrdinals(c, cfg, e, states[n]);
      }
    }
  }

  function Renamed(a: Artifact, id: string, sources: seq<string>): Artifact {
    if a.promptId == id && 1 <= a.ordinal <= |sources| then a.(source := sources[a.ordinal - 1]) else a
  }

  ghost predicate HasOrdinal(artifacts: seq<Artifact>, id: string, ordinal: int) {
    exists i :: 0 <= i < |artifacts| && artifacts[i].promptId == id && artifacts[i].ordinal == ordinal
  }

  lemma KeepsOrdinal(a: seq<Artifact>, b: seq<Artifact>, id: string, ordinal: int)
    requires |a| <= |b| && HasOrdinal(a, id, ordinal)
    requires forall i :: 0 <= i < |a| ==> b[i].promptId == a[i].promptId && b[i].ordinal == a[i].ordinal
    ensures HasOrdinal(b, id, ordinal)
  {
    var i :| 0 <= i < |a| && a[i].promptId == id && a[i].ordinal == ordinal;
    assert b[i].promptId == id && b[i].ordinal == ordinal;
  }

  /** A job belongs to the server that registered it first; registering it again only changes
      its owner and its number of artifacts. */
  lemma EnqueueExactly(c: Cloud, server: string, id: string, owner: string, sources: seq<string>, now: int)
    ensures
      var r := EnqueueStep(c, server, id, owner, sources, now);
      && (r.Err? <==> id in c.tasks && c.tasks[id].serverId != server)
      && (r.Ok? ==>
            && r.value.artifacts == UpsertArtifacts(c.artifacts, id, sources, now)
            && r.value.tasks.Keys == c.tasks.Keys + {id}
            && (forall other :: other in c.tasks && other != id ==> r.value.tasks[other] == c.tasks[other])
            && r.value.tasks[id] == if id in c.tasks then c.tasks[id].(owner := owner, artifactCount := |sources|)
                                    else Task(server, owner, if sources == [] then NoArtifacts else CPending, |sources|, 0, 0,
                                              MPending, 0, Some(now), None, now, None))
  {
  }

  // ---- Artifacts ---------------------------------------------------------------------

  /** An artifact can be handed out when it waits, or its upload's lease has run out, and its
      time has come. */
  ghost predicate Ready(artifacts: seq<Artifact>, i: nat, now: int) {
    && i < |artifacts|
    && (artifacts[i].status == Pending
        || (artifacts[i].status == Uploading && (artifacts[i].lease.None? || artifacts[i].lease.value.expires <= now)))
    && (artifacts[i].nextAttempt.None? || artifacts[i].nextAttempt.value <= now)
  }

  /** The uploads under a lease that has not run out, of artifacts and of manifests. */
  ghost function Uploads(c: Cloud, now: int): nat {
    |set i: nat | i < |c.artifacts| && c.artifacts[i].status == Uploading && c.artifacts[i].lease.Some? && c.artifacts[i].lease.value.expires > now|
    + |set id | id in c.tasks && c.tasks[id].manifest == MUploading && c.tasks[id].manifestLease.Some? && c.tasks[id].manifestLease.value.expires > now|
  }

  lemma UploadsAreSlots(c: Cloud, now: int)
    ensures Uploads(c, now) == SlotsUsed(c, now)
  {
    assert LiveArtifacts(c, now)
        == set i: nat | i < |c.artifacts| && c.artifacts[i].status == Uploading && c.artifacts[i].lease.Some? && c.artifacts[i].lease.value.expires > now;
    assert LiveManifests(c, now)
        == set id | id in c.tasks && c.tasks[id].manifest == MUploading && c.tasks[id].manifestLease.Some? && c.tasks[id].manifestLease.value.expires > now;
  }

  /** An artifact is handed out exactly when a slot is free and one is ready: the first ready
      one, with one more attempt and a lease of the caller, and its job counts as uploading. */
  lemma ClaimExactly(c: Cloud, claimant: string, concurrency: nat, seconds: int, now: int)
    ensures
      var (d, row) := ClaimArtifactStep(c, claimant, concurrency, seconds, now);
      && (row.Some? <==> Uploads(c, now) < concurrency && exists i: nat :: i < |c.artifacts| && Ready(c.artifacts, i, now))
      && (row.Some? ==> Ready(c.artifacts, row.value, now) && forall j: nat :: j < row.value ==> !Ready(c.artifacts, j, now))
      && |d.artifacts| == |c.artifacts| && d.tasks.Keys == c.tasks.Keys
      && (forall i: nat :: i < |c.artifacts| ==>
            d.artifacts[i] == if row == Some(i)
                              then c.artifacts[i].(status := Uploading, attempts := c.artifacts[i].attempts + 1,
                                                   lease := Some(Lease(claimant, now + seconds)))
                              else c.artifacts[i])
      && (forall id :: id in c.tasks ==>
            d.tasks[id] == if row.Some? && c.artifacts[row.value].promptId == id then c.tasks[id].(cloudStatus := CUploading) else c.tasks[id])
  {
    UploadsAreSlots(c, now);
    forall i: nat | i < |c.artifacts|
      ensures Ready(c.artifacts, i, now) <==> Claimable(c.artifacts[i], now)
    {
    }
  }

  /** A report settles the artifact whoever sends it: a success is uploaded, a missing source
      is over, an error is tried again after half a minute, then two, until the last attempt. */
  lemma ReportExactly(c: Cloud, row: nat, report: Report, now: int)
    requires row < |c.artifacts|
    ensures
      var d, was := ReportStep(c, row, report, now), c.artifacts[row];
      var again := report.Errored? && was.attempts < report.maxAttempts;
      && |d.artifacts| == |c.artifacts| && (forall i :: 0 <= i < |c.artifacts| && i != row ==> d.artifacts[i] == c.artifacts[i])
      && d.artifacts[row] == was.(lease := None,
                                  status := if report.Succeeded? then Uploaded else if report.Missing? then SourceMissing
                                            else if again then Pending else CloudFailed,
                                  nextAttempt := if again then Some(now + if was.attempts <= 1 then 30 else 120) else None)
  {
  }

  /** It also counts the artifacts of that job again, and changes no other job. */
  lemma ReportCounts(c: Cloud, row: nat, report: Report, now: int)
    requires row < |c.artifacts|
    ensures
      var d, id := ReportStep(c, row, report, now), c.artifacts[row].promptId;
      && d.tasks.Keys == c.tasks.Keys && (forall other :: other in c.tasks && other != id ==> d.tasks[other] == c.tasks[other])
      && (id in c.tasks ==>
            d.tasks[id] == c.tasks[id].(
              artifactCount := |set i: nat | i < |d.artifacts| && d.artifacts[i].promptId == id|,
              uploadedCount := |set i: nat | i < |d.artifacts| && d.artifacts[i].promptId == id && d.artifacts[i].status == Uploaded|,
              failedCount := |set i: nat | i < |d.artifacts| && d.artifacts[i].promptId == id
                                           && (d.artifacts[i].status == CloudFailed || d.artifacts[i].status == SourceMissing)|))
  {
    var d, id := ReportStep(c, row, report, now), c.artifacts[row].promptId;
    CountsAre(d, id);
    var b := c.(artifacts := d.artifacts);
    assert RowsOf(b, id) == RowsOf(d, id) && UploadedOf(b, id) == UploadedOf(d, id) && FailedOf(b, id) == FailedOf(d, id);
  }

  lemma CountsAre(d: Cloud, id: string)
    ensures RowsOf(d, id) == set i: nat | i < |d.artifacts| && d.artifacts[i].promptId == id
    ensures UploadedOf(d, id) == set i: nat | i < |d.artifacts| && d.artifacts[i].promptId == id && d.artifacts[i].status == Uploaded
    ensures FailedOf(d, id) == set i: nat | i < |d.artifacts| && d.artifacts[i].promptId == id
                                            && (d.artifacts[i].status == CloudFailed || d.artifacts[i].status == SourceMissing)
  {
  }

  /** Only the holder renews, and only while it uploads, even after the lease has run out. */
  lemma RenewExactly(c: Cloud, row: nat, claimant: string, seconds: int, now: int)
    ensures
      var (d, done) := RenewArtifactStep(c, row, claimant, seconds, now);
      && (done <==> row < |c.artifacts| && c.artifacts[row].status == Uploading && c.artifacts[row].lease.Some?
                    && c.artifacts[row].lease.value.owner == claimant)
      && (!done ==> d == c)
      && (done ==> d.tasks == c.tasks && |d.artifacts| == |c.artifacts| && forall i :: 0 <= i < |c.artifacts| ==>
                     d.artifacts[i] == if i == row then c.artifacts[i].(lease := Some(Lease(claimant, now + seconds))) else c.artifacts[i])
  {
  }

  // ---- Manifests ---------------------------------------------------------------------

  /** A manifest can be handed out when it waits, or its upload's lease has run out, it has
      attempts left, its time has come, and every artifact of the job is settled. */
  ghost predicate ManifestReady(c: Cloud, id: string, max: nat, now: int) {
    && id in c.tasks && c.tasks[id].manifestAttempts < max
    && (c.tasks[id].manifest == MPending
        || (c.tasks[id].manifest == MUploading && (c.tasks[id].manifestLease.None? || c.tasks[id].manifestLease.value.expires <= now)))
    && (c.tasks[id].manifestNext.None? || c.tasks[id].manifestNext.value <= now)
    && forall i :: 0 <= i < |c.artifacts| && c.artifacts[i].promptId == id ==>
         c.artifacts[i].status == Uploaded || c.artifacts[i].status == CloudFailed || c.artifacts[i].status == SourceMissing
  }

  lemma ManifestReadyIs(c: Cloud, id: string, max: nat, now: int)
    ensures ManifestReady(c, id, max, now) <==> ManifestClaimable(c, id, max, now)
  {
  }

  /** A manifest is handed out exactly when a slot is free and one is ready: an oldest ready
      one, with one more attempt and a lease of the caller; nothing else changes. */
  lemma ClaimManifestExactly(c: Cloud, claimant: string, max: nat, concurrency: nat, seconds: int, now: int, d: Cloud, id: Option<string>)
    requires ClaimManifestResult(c, claimant, max, concurrency, seconds, now, d, id)
    ensures id.Some? <==> Uploads(c, now) < concurrency && exists other :: other in c.tasks && ManifestReady(c, other, max, now)
    ensures id.None? ==> d == c
    ensures id.Some? ==>
              && ManifestReady(c, id.value, max, now)
              && (forall other :: other in c.tasks && ManifestReady(c, other, max, now) ==> c.tasks[id.value].created <= c.tasks[other].created)
              && d.artifacts == c.artifacts && d.tasks.Keys == c.tasks.Keys
              && forall other :: other in c.tasks ==>
                   d.tasks[other] == if other == id.value
                                     then c.tasks[other].(manifest := MUploading, manifestAttempts := c.tasks[other].manifestAttempts + 1,
                                                          manifestLease := Some(Lease(claimant, now + seconds)))
                                     else c.tasks[other]
  {
    UploadsAreSlots(c, now);
    forall other | other in c.tasks
      ensures ManifestReady(c, other, max, now) <==> ManifestClaimable(c, other, max, now)
    {
      ManifestReadyIs(c, other, max, now);
    }
    if id.Some? {
      ManifestReadyIs(c, id.value, max, now);
    }
  }

  /** A reported manifest ends the archive of its job: without artifacts, failed if some
      artifact failed by its count, completed otherwise. */
  lemma ManifestSucceededExactly(c: Cloud, id: string, now: int)
    ensures
      var d := ManifestSucceededStep(c, id, now);
      && d.artifacts == c.artifacts && d.tasks.Keys == c.tasks.Keys
      && (forall other :: other in c.tasks && other != id ==> d.tasks[other] == c.tasks[other])
      && (id in c.tasks ==>
            d.tasks[id] == c.tasks[id].(manifest := MUploaded, manifestNext := None, manifestLease := None, completed := Some(now),
                                        cloudStatus := if c.tasks[id].artifactCount == 0 then NoArtifacts
                                                       else if c.tasks[id].failedCount > 0 then CFailed else CloudCompleted))
  {
  }

  /** A manifest that could not be uploaded waits again, half a minute after the first attempt
      and two after a later one, exactly when attempts are left; otherwise the archive failed. */
  lemma ManifestFailedExactly(c: Cloud, id: string, max: nat, now: int)
    ensures
      var d := ManifestFailedStep(c, id, max, now);
      && d.artifacts == c.artifacts && d.tasks.Keys == c.tasks.Keys
      && (forall other :: other in c.tasks && other != id ==> d.tasks[other] == c.tasks[other])
      && (id in c.tasks ==>
            var was, t := c.tasks[id], d.tasks[id];
            && t == was.(manifest := t.manifest, cloudStatus := t.cloudStatus, manifestNext := t.manifestNext, manifestLease := None,
                         completed := t.completed)
            && (was.manifestAttempts < max ==>
                  && t.manifest == MPending && t.cloudStatus == CUploading && t.completed.None?
                  && t.manifestNext == Some(now + if was.manifestAttempts <= 1 then 30 else 120))
            && (was.manifestAttempts >= max ==>
                  t.manifest == MFailed && t.cloudStatus == CFailed && t.completed == Some(now) && t.manifestNext.None?))
  {
  }

  /** A failed attempt short of the last is one after which the manifest can be handed out
      again as soon as its delay is over, if its artifacts are still settled. */
  lemma ManifestIsRetried(c: Cloud, id: string, max: nat, now: int, later: int)
    requires id in c.tasks
    ensures
      var d := ManifestFailedStep(c, id, max, now);
      later >= now + 120 && AllTerminal(c, id) ==> (ManifestReady(d, id, max, later) <==> c.tasks[id].manifestAttempts < max)
  {
    ManifestFailedExactly(c, id, max, now);
  }

  lemma RenewManifestExactly(c: Cloud, id: string, claimant: string, seconds: int, now: int)
    ensures
      var (d, done) := RenewManifestStep(c, id, claimant, seconds, now);
      && (done <==> id in c.tasks && c.tasks[id].manifest == MUploading && c.tasks[id].manifestLease.Some?
                    && c.tasks[id].manifestLease.value.owner == claimant)
      && (!done ==> d == c)
      && (done ==> d == c.(tasks := c.tasks[id := c.tasks[id].(manifestLease := Some(Lease(claimant, now + seconds)))]))
  {
  }

  /** Starting over takes the failed artifacts of this job, with fresh attempts, and its
      manifest; what is uploaded stays so, and other jobs are left alone. */
  lemma ResetExactly(c: Cloud, id: string, now: int)
    ensures
      var d := ResetStep(c, id, now);
      && |d.artifacts| == |c.artifacts| && d.tasks.Keys == c.tasks.Keys
      && (forall i :: 0 <= i < |c.artifacts| ==>
            var a := c.artifacts[i];
            d.artifacts[i] == if a.promptId == id && (a.status == CloudFailed || a.status == SourceMissing)
                              then a.(status := Pending, attempts := 0, nextAttempt := Some(now), lease := None) else a)
      && (forall other :: other in c.tasks ==>
            d.tasks[other] == if other == id
                              then c.tasks[id].(cloudStatus := CPending, manifest := MPending, manifestAttempts := 0,
                                                manifestNext := Some(now), manifestLease := None, completed := None)
                              else c.tasks[other])
  {
  }
}
