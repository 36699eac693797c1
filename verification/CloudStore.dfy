/** The store object of utils/cloud_archive.py: each method is one transaction and is proved
    to be the step of the same name. */
module CloudStore {
  import opened Values
  import opened CloudModel

  class CloudArchiveStore {
    var tasks: map<string, Task>
    var artifacts: seq<Artifact>

    ghost function Db(): Cloud
      reads this
    {
      Cloud(tasks, artifacts)
    }

    constructor ()
      ensures Db() == EMPTY
    {
      tasks, artifacts := map[], [];
    }

    method FindRow(id: string, ordinal: nat) returns (row: Option<nat>)
      ensures row == FindArtifact(artifacts, id, ordinal)
    {
      var i := |artifacts|;
      assert artifacts[..i] == artifacts;
      while i > 0
        invariant 0 <= i <= |artifacts|
        invariant FindArtifact(artifacts, id, ordinal) == FindArtifact(artifacts[..i], id, ordinal)
      {
        if artifacts[i - 1].promptId == id && artifacts[i - 1].ordinal == ordinal {
          return Some(i - 1);
        }
        assert artifacts[..i][..i - 1] == artifacts[..i - 1];
        i := i - 1;
      }
      row := None;
    }

    /** Register a finished job and its artifacts; known artifacts keep their progress. */
    method EnqueueTask(server: string, id: string, owner: string, sources: seq<string>, now: int) returns (r: Result<(), CloudError>)
      modifies this
      ensures var step := EnqueueStep(old(Db()), server, id, owner, sources, now);
              r.Ok? == step.Ok? && Db() == if step.Ok? then step.value else old(Db())
    {
      if id in tasks && tasks[id].serverId != server {
        return Err(OtherServer);
      }
      if id in tasks {
        tasks := tasks[id := tasks[id].(owner := owner, artifactCount := |sources|)];
      } else {
        tasks := tasks[id := NewTask(server, owner, |sources|, now)];
      }
      ghost var registered, before := tasks, artifacts;
      for k := 0 to |sources|
        invariant tasks == registered
        invariant artifacts == UpsertArtifacts(before, id, sources[..k], now)
      {
        var row := FindRow(id, k + 1);
        if row.Some? {
          artifacts := artifacts[row.value := artifacts[row.value].(source := sources[k])];
        } else {
          artifacts := artifacts + [Artifact(id, k + 1, sources[k], Pending, 0, Some(now), None)];
        }
        assert sources[..k + 1][..k] == sources[..k];
      }
      assert sources[..|sources|] == sources;
      r := Ok(());
    }

    method CountLiveArtifacts(now: int) returns (n: nat)
      ensures n == |LiveArtifacts(Db(), now)|
    {
      n := 0;
      ghost var rows := LiveArtifacts(Db(), now);
      BelowAll(rows, |artifacts|);
      for i := 0 to |artifacts|
        invariant n == |Below(rows, i)|
      {
        BelowNext(rows, i);
        if artifacts[i].status.Uploading? && artifacts[i].lease.Some? && artifacts[i].lease.value.expires > now {
          n := n + 1;
        }
      }
    }

    method CountLiveManifests(now: int) returns (n: nat)
      ensures n == |LiveManifests(Db(), now)|
    {
      n := 0;
      var todo := tasks.Keys;
      ghost var counted: set<string> := {};
      while todo != {}
        invariant todo <= tasks.Keys
        invariant forall id :: id in counted <==> id in LiveManifests(Db(), now) && id !in todo
        invariant n == |counted|
      {
        EmptyOrName(todo);
        var id :| id in todo;
        todo := todo - {id};
        if tasks[id].manifest.MUploading? && tasks[id].manifestLease.Some? && tasks[id].manifestLease.value.expires > now {
          n := n + 1;
          counted := counted + {id};
        }
      }
      assert counted == LiveManifests(Db(), now);
    }

    method FirstClaimableRow(now: int) returns (row: Option<nat>)
      ensures row == FirstClaimable(artifacts, now, 0)
    {
      for i := 0 to |artifacts|
        invariant FirstClaimable(artifacts, now, 0) == FirstClaimable(artifacts, now, i)
      {
        if Claimable(artifacts[i], now) {
          return Some(i);
        }
      }
      row := None;
    }

    /** Lease the first due artifact while an upload slot is free. */
    method ClaimArtifact(claimant: string, concurrency: nat, seconds: int, now: int) returns (claimed: Option<nat>)
      modifies this
      ensures (Db(), claimed) == ClaimArtifactStep(old(Db()), claimant, concurrency, seconds, now)
    {
      var live := CountLiveArtifacts(now);
      var manifests := CountLiveManifests(now);
      if live + manifests >= concurrency {
        return None;
      }
      claimed := FirstClaimableRow(now);
      if claimed.None? {
        return;
      }
      var a := artifacts[claimed.value];
      artifacts := artifacts[claimed.value := a.(status := Uploading, attempts := a.attempts + 1,
                                                 lease := Some(Lease(claimant, now + seconds)))];
      if a.promptId in tasks {
        tasks := tasks[a.promptId := tasks[a.promptId].(cloudStatus := CUploading)];
      }
    }

    /** SELECT COUNT, SUM, SUM over the artifacts of a task. */
    method CountArtifacts(id: string) returns (total: nat, uploaded: nat, failed: nat)
      ensures total == |RowsOf(Db(), id)| && uploaded == |UploadedOf(Db(), id)| && failed == |FailedOf(Db(), id)|
    {
      total, uploaded, failed := 0, 0, 0;
      ghost var rows, done, bad := RowsOf(Db(), id), UploadedOf(Db(), id), FailedOf(Db(), id);
      BelowAll(rows, |artifacts|);
      BelowAll(done, |artifacts|);
      BelowAll(bad, |artifacts|);
      for i := 0 to |artifacts|
        invariant total == |Below(rows, i)| && uploaded == |Below(done, i)| && failed == |Below(bad, i)|
      {
        BelowNext(rows, i);
        BelowNext(done, i);
        BelowNext(bad, i);
        if artifacts[i].promptId == id {
          total := total + 1;
          if artifacts[i].status.Uploaded? {
            uploaded := uploaded + 1;
          }
          if artifacts[i].status.CloudFailed? || artifacts[i].status.SourceMissing? {
            failed := failed + 1;
          }
        }
      }
    }

    /** Store the recounted artifacts into the task row. */
    method RefreshCounts(id: string)
      modifies this`tasks
      ensures Db() == Refresh(old(Db()), id)
    {
      var total, uploaded, failed := CountArtifacts(id);
      if id in tasks {
        tasks := tasks[id := tasks[id].(artifactCount := total, uploadedCount := uploaded, failedCount := failed)];
      }
    }

    method ArtifactSucceeded(i: nat, now: int)
      modifies this
      ensures Db() == ReportStep(old(Db()), i, Succeeded, now)
    {
      if i < |artifacts| {
        artifacts := artifacts[i := artifacts[i].(status := Uploaded, nextAttempt := None, lease := None)];
        RefreshCounts(artifacts[i].promptId);
      }
    }

    method ArtifactSourceMissing(i: nat, now: int)
      modifies this
      ensures Db() == ReportStep(old(Db()), i, Missing, now)
    {
      if i < |artifacts| {
        artifacts := artifacts[i := artifacts[i].(status := SourceMissing, nextAttempt := None, lease := None)];
        RefreshCounts(artifacts[i].promptId);
      }
    }

    method ArtifactFailed(i: nat, maxAttempts: nat, now: int)
      modifies this
      ensures Db() == ReportStep(old(Db()), i, Errored(maxAttempts), now)
    {
      if i < |artifacts| {
        var a := artifacts[i];
        var over := a.attempts >= maxAttempts;
        var delays := [30, 120];
        var delay := delays[Min(Max(0, a.attempts - 1), |delays| - 1)];
        artifacts := artifacts[i := a.(status := if over then CloudFailed else Pending,
                                       nextAttempt := if over then None else Some(now + delay), lease := None)];
        RefreshCounts(a.promptId);
      }
    }

    method RenewArtifactLease(i: nat, claimant: string, seconds: int, now: int) returns (changed: bool)
      modifies this`artifacts
      ensures (Db(), changed) == RenewArtifactStep(old(Db()), i, claimant, seconds, now)
    {
      changed := i < |artifacts| && artifacts[i].status.Uploading?
                 && artifacts[i].lease.Some? && artifacts[i].lease.value.owner == claimant;
      if changed {
        artifacts := artifacts[i := artifacts[i].(lease := Some(Lease(claimant, now + seconds)))];
      }
    }

    /** NOT EXISTS an artifact of the task outside its terminal states. */
    method NoneOpen(id: string) returns (none: bool)
      ensures none == AllTerminal(Db(), id)
    {
      for i := 0 to |artifacts|
        invariant forall k :: 0 <= k < i && artifacts[k].promptId == id ==> Terminal(artifacts[k].status)
      {
        if artifacts[i].promptId == id && !Terminal(artifacts[i].status) {
          return false;
        }
      }
      none := true;
    }

    /** Lease the manifest of an oldest task whose artifacts are all terminal. */
    method ClaimManifest(claimant: string, maxAttempts: nat, concurrency: nat, seconds: int, now: int) returns (claimed: Option<string>)
      modifies this`tasks
      ensures ClaimManifestResult(old(Db()), claimant, maxAttempts, concurrency, seconds, now, Db(), claimed)
    {
      claimed := None;
      var live := CountLiveArtifacts(now);
      var manifests := CountLiveManifests(now);
      if live + manifests >= concurrency {
        return;
      }
      var todo := tasks.Keys;
      while todo != {}
        invariant todo <= tasks.Keys && Db() == old(Db())
        invariant claimed.Some? ==> ManifestClaimable(Db(), claimed.value, maxAttempts, now)
        invariant forall id :: id in tasks && id !in todo && ManifestClaimable(Db(), id, maxAttempts, now) ==>
                    claimed.Some? && tasks[claimed.value].created <= tasks[id].created
      {
        EmptyOrName(todo);
        var id :| id in todo;
        todo := todo - {id};
        var t := tasks[id];
        var free := t.manifest.MPending? || (t.manifest.MUploading? && (t.manifestLease.None? || t.manifestLease.value.expires <= now));
        if free && t.manifestAttempts < maxAttempts && Due(t.manifestNext, now) {
          var ready := NoneOpen(id);
          if ready && (claimed.None? || t.created < tasks[claimed.value].created) {
            claimed := Some(id);
          }
        }
      }
      if claimed.Some? {
        var t := tasks[claimed.value];
        tasks := tasks[claimed.value := t.(manifest := MUploading, manifestAttempts := t.manifestAttempts + 1,
                                           manifestLease := Some(Lease(claimant, now + seconds)))];
      }
    }

    method ManifestSucceeded(id: string, now: int)
      modifies this`tasks
      ensures Db() == ManifestSucceededStep(old(Db()), id, now)
    {
      if id in tasks {
        var t := tasks[id];
        var status := CloudCompleted;
        if t.artifactCount == 0 {
          status := NoArtifacts;
        } else if t.failedCount > 0 {
          status := CFailed;
        }
        tasks := tasks[id := t.(cloudStatus := status, manifest := MUploaded, manifestNext := None,
                                manifestLease := None, completed := Some(now))];
      }
    }

    method ManifestFailed(id: string, maxAttempts: nat, now: int)
      modifies this`tasks
      ensures Db() == ManifestFailedStep(old(Db()), id, maxAttempts, now)
    {
      if id in tasks {
        var t := tasks[id];
        var over := t.manifestAttempts >= maxAttempts;
        var delays := [30, 120];
        var delay := delays[Min(Max(0, t.manifestAttempts - 1), |delays| - 1)];
        tasks := tasks[id := t.(cloudStatus := if over then CFailed else CUploading,
                                manifest := if over then MFailed else MPending,
                                manifestNext := if over then None else Some(now + delay),
                                manifestLease := None, completed := if over then Some(now) else None)];
      }
    }

    method RenewManifestLease(id: string, claimant: string, seconds: int, now: int) returns (changed: bool)
      modifies this`tasks
      ensures (Db(), changed) == RenewManifestStep(old(Db()), id, claimant, seconds, now)
    {
      changed := id in tasks && tasks[id].manifest.MUploading?
                 && tasks[id].manifestLease.Some? && tasks[id].manifestLease.value.owner == claimant;
      if changed {
        tasks := tasks[id := tasks[id].(manifestLease := Some(Lease(claimant, now + seconds)))];
      }
    }

    /** Requeue what failed; the answer says whether any row changed. */
    method ResetFailed(id: string, now: int) returns (changed: bool)
      modifies this
      ensures Db() == ResetStep(old(Db()), id, now)
      ensures changed == (id in old(tasks) || exists i :: i in FailedOf(old(Db()), id))
    {
      changed := false;
      ghost var before := artifacts;
      for i := 0 to |artifacts|
        invariant |artifacts| == |before| && tasks == old(tasks)
        invariant forall k :: 0 <= k < i ==> artifacts[k] == ResetStep(old(Db()), id, now).artifacts[k]
        invariant forall k :: i <= k < |artifacts| ==> artifacts[k] == before[k]
        invariant changed <==> exists k: nat :: k < i && k in FailedOf(old(Db()), id)
      {
        if artifacts[i].promptId == id && (artifacts[i].status.CloudFailed? || artifacts[i].status.SourceMissing?) {
          assert i in FailedOf(old(Db()), id);
          artifacts := artifacts[i := ResetRow(artifacts[i], now)];
          changed := true;
        }
      }
      assert artifacts == ResetStep(old(Db()), id, now).artifacts;
      if id in tasks {
        tasks := tasks[id := tasks[id].(cloudStatus := CPending, manifest := MPending, manifestAttempts := 0,
                                        manifestNext := Some(now), manifestLease := None, completed := None)];
        changed := true;
      }
    }
  }
}
