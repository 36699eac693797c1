/** What every run of the cloud archive tables keeps: derived counters, the manifest gate,
    and the shared upload budget. */
module CloudSafety {
  import opened Values
  import opened CloudModel

  // ---- Counters ----------------------------------------------------------------------

  /** The artifacts of a task are numbered 1..n without gaps or repeats. */
  ghost predicate Numbered(artifacts: seq<Artifact>, id: string, n: nat) {
    && (forall o: nat :: FindArtifact(artifacts, id, o).Some? <==> 1 <= o <= n)
    && |RowsOf(Cloud(map[], artifacts), id)| == n
  }

  ghost predicate CountsOk(c: Cloud, id: string)
    requires id in c.tasks
  {
    var t := c.tasks[id];
    && t.artifactCount == |RowsOf(c, id)|
    && t.uploadedCount == |UploadedOf(c, id)|
    && (t.failedCount == |FailedOf(c, id)| || !AllTerminal(c, id))
  }

  /** Every artifact belongs to a task, and the stored counts are right; the failed count may
      lag only while some artifact is not terminal. */
  ghost predicate CountersOk(c: Cloud) {
    && (forall i :: 0 <= i < |c.artifacts| ==> c.artifacts[i].promptId in c.tasks)
    && (forall id :: id in c.tasks ==> CountsOk(c, id))
    && (forall id :: Numbered(c.artifacts, id, |RowsOf(c, id)|))
  }

  /** Whenever all artifacts of a task are terminal, its three counts are the true counts. */
  lemma TerminalCountsAreTrue(c: Cloud, id: string)
    requires CountersOk(c) && id in c.tasks && AllTerminal(c, id)
    ensures c.tasks[id].artifactCount == |RowsOf(c, id)|
    ensures c.tasks[id].uploadedCount == |UploadedOf(c, id)|
    ensures c.tasks[id].failedCount == |FailedOf(c, id)|
    ensures c.tasks[id].artifactCount == c.tasks[id].uploadedCount + c.tasks[id].failedCount
  {
    assert CountsOk(c, id);
    assert RowsOf(c, id) == UploadedOf(c, id) + FailedOf(c, id);
    assert UploadedOf(c, id) !! FailedOf(c, id);
  }

  /** Rows keep their identity; what changes is their status. */
  ghost predicate SameRows(a: seq<Artifact>, b: seq<Artifact>) {
    |a| == |b| && forall i :: 0 <= i < |a| ==> b[i].promptId == a[i].promptId && b[i].ordinal == a[i].ordinal
  }

  lemma {:induction false} FindInSameRows(a: seq<Artifact>, b: seq<Artifact>, id: string, o: nat)
    requires SameRows(a, b)
    ensures FindArtifact(a, id, o) == FindArtifact(b, id, o)
  {
    if a != [] {
      FindInSameRows(a[..|a| - 1], b[..|b| - 1], id, o);
    }
  }

  lemma NumberedInSameRows(a: seq<Artifact>, b: seq<Artifact>, id: string, n: nat)
    requires SameRows(a, b) && Numbered(a, id, n)
    ensures Numbered(b, id, n)
  {
    forall o: nat
      ensures FindArtifact(b, id, o).Some? <==> 1 <= o <= n
    {
      FindInSameRows(a, b, id, o);
    }
    assert RowsOf(Cloud(map[], a), id) == RowsOf(Cloud(map[], b), id);
  }

  lemma SameRowsNumbered(c: Cloud, d: Cloud)
    requires CountersOk(c) && SameRows(c.artifacts, d.artifacts)
    ensures forall id :: RowsOf(d, id) == RowsOf(c, id) && Numbered(d.artifacts, id, |RowsOf(d, id)|)
  {
    forall id
      ensures RowsOf(d, id) == RowsOf(c, id) && Numbered(d.artifacts, id, |RowsOf(d, id)|)
    {
      assert RowsOf(d, id) == RowsOf(c, id);
      NumberedInSameRows(c.artifacts, d.artifacts, id, |RowsOf(c, id)|);
    }
  }

  /** Stored counts stay and no row becomes terminal or stops being so. */
  ghost predicate CountsUntouched(c: Cloud, d: Cloud) {
    && SameRows(c.artifacts, d.artifacts) && d.tasks.Keys == c.tasks.Keys
    && (forall id :: id in c.tasks ==>
          && d.tasks[id].artifactCount == c.tasks[id].artifactCount
          && d.tasks[id].uploadedCount == c.tasks[id].uploadedCount
          && d.tasks[id].failedCount == c.tasks[id].failedCount)
    && (forall i :: 0 <= i < |c.artifacts| ==>
          d.artifacts[i].status == c.artifacts[i].status
          || (!Terminal(d.artifacts[i].status) && !Terminal(c.artifacts[i].status)))
  }

  lemma UntouchedCounts(c: Cloud, d: Cloud)
    requires CountersOk(c) && CountsUntouched(c, d)
    ensures CountersOk(d)
  {
    SameRowsNumbered(c, d);
    forall id | id in d.tasks
      ensures CountsOk(d, id)
    {
      UntouchedTask(c, d, id);
    }
  }

  lemma UntouchedTask(c: Cloud, d: Cloud, id: string)
    requires id in c.tasks && CountsOk(c, id) && CountsUntouched(c, d)
    ensures CountsOk(d, id)
  {
    assert RowsOf(d, id) == RowsOf(c, id);
    assert UploadedOf(d, id) == UploadedOf(c, id) && FailedOf(d, id) == FailedOf(c, id);
    if AllTerminal(d, id) {
      forall i | 0 <= i < |c.artifacts| && c.artifacts[i].promptId == id
        ensures Terminal(c.artifacts[i].status)
      {
        assert Terminal(d.artifacts[i].status);
      }
    }
  }

  /** Any report recounts its own task and leaves the counts of the others. */
  lemma ReportedCounts(c: Cloud, i: nat, report: Report, now: int)
    requires CountersOk(c)
    ensures CountersOk(ReportStep(c, i, report, now))
  {
    var d := ReportStep(c, i, report, now);
    if i < |c.artifacts| {
      var own := c.artifacts[i].promptId;
      assert SameRows(c.artifacts, d.artifacts);
      SameRowsNumbered(c, d);
      forall id | id in d.tasks
        ensures CountsOk(d, id)
      {
        if id == own {
          RecountIsExact(c.(artifacts := d.artifacts), own);
        } else {
          SameTask(c, d, id);
        }
      }
    }
  }

  /** What happens to other rows leaves the counts of a task as they are. */
  lemma SameTask(c: Cloud, d: Cloud, id: string)
    requires id in c.tasks && CountsOk(c, id) && id in d.tasks && |d.artifacts| == |c.artifacts|
    requires d.tasks[id].artifactCount == c.tasks[id].artifactCount && d.tasks[id].uploadedCount == c.tasks[id].uploadedCount
    requires d.tasks[id].failedCount == c.tasks[id].failedCount
    requires forall k :: 0 <= k < |c.artifacts| && (c.artifacts[k].promptId == id || d.artifacts[k].promptId == id) ==>
               d.artifacts[k] == c.artifacts[k]
    ensures CountsOk(d, id)
  {
    assert RowsOf(d, id) == RowsOf(c, id);
    assert UploadedOf(d, id) == UploadedOf(c, id) && FailedOf(d, id) == FailedOf(c, id);
  }

  /** After a refresh the three counters are the true counts. */
  lemma RecountIsExact(c: Cloud, id: string)
    requires id in c.tasks
    ensures
      var d := Refresh(c, id);
      && d.artifacts == c.artifacts
      && d.tasks[id].artifactCount == |RowsOf(d, id)| && d.tasks[id].uploadedCount == |UploadedOf(d, id)|
      && d.tasks[id].failedCount == |FailedOf(d, id)|
  {
    var d := Refresh(c, id);
    assert RowsOf(d, id) == RowsOf(c, id) && UploadedOf(d, id) == UploadedOf(c, id) && FailedOf(d, id) == FailedOf(c, id);
  }

  lemma ResetCounts(c: Cloud, id: string, now: int)
    requires CountersOk(c)
    ensures CountersOk(ResetStep(c, id, now))
  {
    var d := ResetStep(c, id, now);
    assert SameRows(c.artifacts, d.artifacts);
    SameRowsNumbered(c, d);
    forall other | other in d.tasks
      ensures CountsOk(d, other)
    {
      if other != id {
        SameTask(c, d, other);
      } else {
        ResetTask(c, id, now);
      }
    }
  }

  lemma ResetTask(c: Cloud, id: string, now: int)
    requires id in c.tasks && CountsOk(c, id)
    ensures id in ResetStep(c, id, now).tasks && CountsOk(ResetStep(c, id, now), id)
  {
    var d := ResetStep(c, id, now);
    assert RowsOf(d, id) == RowsOf(c, id) && UploadedOf(d, id) == UploadedOf(c, id);
    if k :| k in FailedOf(c, id) {
      assert !Terminal(d.artifacts[k].status);
    } else {
      forall k | 0 <= k < |c.artifacts| && c.artifacts[k].promptId == id
        ensures d.artifacts[k] == c.artifacts[k]
      {
        assert k !in FailedOf(c, id);
      }
      SameTask(c, d, id);
    }
  }

  /** `b` is `a` with sources rewritten and pending rows of `id` appended. */
  ghost predicate Grown(a: seq<Artifact>, b: seq<Artifact>, id: string) {
    && |a| <= |b|
    && (forall i :: 0 <= i < |a| ==> b[i] == a[i].(source := b[i].source))
    && (forall i :: |a| <= i < |b| ==> b[i].promptId == id && b[i].status.Pending? && b[i].lease.None?)
  }

  lemma UpdateNumbers(artifacts: seq<Artifact>, id: string, ordinal: nat, source: string, now: int, n: nat)
    requires Numbered(artifacts, id, n) && 1 <= ordinal <= n
    ensures
      var b := UpsertArtifact(artifacts, id, ordinal, source, now);
      Numbered(b, id, n) && Grown(artifacts, b, id)
  {
    NumberedInSameRows(artifacts, UpsertArtifact(artifacts, id, ordinal, source, now), id, n);
  }

  lemma InsertNumbers(artifacts: seq<Artifact>, id: string, source: string, now: int, n: nat)
    requires Numbered(artifacts, id, n)
    ensures
      var b := UpsertArtifact(artifacts, id, n + 1, source, now);
      Numbered(b, id, n + 1) && Grown(artifacts, b, id)
  {
    assert FindArtifact(artifacts, id, n + 1).None?;
    var b := UpsertArtifact(artifacts, id, n + 1, source, now);
    assert b[..|b| - 1] == artifacts;
    assert RowsOf(Cloud(map[], b), id) == RowsOf(Cloud(map[], artifacts), id) + {|artifacts|};
  }

  lemma {:induction false} UpsertsNumber(artifacts: seq<Artifact>, id: string, sources: seq<string>, now: int, n: nat)
    requires Numbered(artifacts, id, n)
    ensures
      var b := UpsertArtifacts(artifacts, id, sources, now);
      Numbered(b, id, Max(n, |sources|)) && Grown(artifacts, b, id)
  {
    if sources != [] {
      var m := |sources| - 1;
      UpsertsNumber(artifacts, id, sources[..m], now, n);
      var a := UpsertArtifacts(artifacts, id, sources[..m], now);
      if |sources| <= Max(n, m) {
        UpdateNumbers(a, id, |sources|, sources[m], now, Max(n, m));
      } else {
        InsertNumbers(a, id, sources[m], now, Max(n, m));
      }
    }
  }

  /** Registering artifacts rewrites sources and appends pending rows, whatever was there. */
  lemma {:induction false} UpsertsGrow(artifacts: seq<Artifact>, id: string, sources: seq<string>, now: int)
    ensures Grown(artifacts, UpsertArtifacts(artifacts, id, sources, now), id)
  {
    if sources != [] {
      UpsertsGrow(artifacts, id, sources[..|sources| - 1], now);
    }
  }

  lemma {:induction false} FindOther(a: seq<Artifact>, b: seq<Artifact>, id: string, other: string, o: nat)
    requires Grown(a, b, id) && other != id
    ensures FindArtifact(b, other, o) == FindArtifact(a, other, o)
    decreases |b|
  {
    if |b| > |a| {
      FindOther(a, b[..|b| - 1], id, other, o);
    } else {
      FindInSameRows(a, b, other, o);
    }
  }

  /** Registering a task again keeps the counters exactly when the new list is not shorter
      than the rows the task already has. */
  lemma EnqueueCountsExactly(c: Cloud, server: string, id: string, owner: string, sources: seq<string>, now: int)
    requires CountersOk(c) && EnqueueStep(c, server, id, owner, sources, now).Ok?
    ensures CountersOk(EnqueueStep(c, server, id, owner, sources, now).value) <==> |sources| >= |RowsOf(c, id)|
  {
    var d := EnqueueStep(c, server, id, owner, sources, now).value;
    var n := |RowsOf(c, id)|;
    assert RowsOf(Cloud(map[], c.artifacts), id) == RowsOf(c, id);
    UpsertsNumber(c.artifacts, id, sources, now, n);
    assert RowsOf(Cloud(map[], d.artifacts), id) == RowsOf(d, id);
    if |sources| >= n {
      GrownCounts(c, d, id);
    } else {
      assert d.tasks[id].artifactCount != |RowsOf(d, id)|;
    }
  }

  lemma GrownCounts(c: Cloud, d: Cloud, id: string)
    requires CountersOk(c) && Grown(c.artifacts, d.artifacts, id)
    requires id in d.tasks && d.tasks.Keys == c.tasks.Keys + {id}
    requires forall other :: other in c.tasks && other != id ==> d.tasks[other] == c.tasks[other]
    requires Numbered(d.artifacts, id, d.tasks[id].artifactCount)
    requires if id in c.tasks
             then d.tasks[id].uploadedCount == c.tasks[id].uploadedCount && d.tasks[id].failedCount == c.tasks[id].failedCount
             else d.tasks[id].uploadedCount == 0 == d.tasks[id].failedCount
    ensures CountersOk(d)
  {
    forall other
      ensures other in d.tasks ==> CountsOk(d, other)
      ensures Numbered(d.artifacts, other, |RowsOf(d, other)|)
    {
      assert UploadedOf(d, other) == UploadedOf(c, other) && FailedOf(d, other) == FailedOf(c, other);
      assert RowsOf(Cloud(map[], d.artifacts), other) == RowsOf(d, other);
      assert AllTerminal(d, other) ==> AllTerminal(c, other) by {
        assert forall i :: 0 <= i < |c.artifacts| ==> d.artifacts[i].status == c.artifacts[i].status;
      }
      if other != id {
        assert RowsOf(d, other) == RowsOf(c, other) && RowsOf(Cloud(map[], c.artifacts), other) == RowsOf(c, other);
        forall o: nat
          ensures FindArtifact(d.artifacts, other, o) == FindArtifact(c.artifacts, other, o)
        {
          FindOther(c.artifacts, d.artifacts, id, other, o);
        }
      }
      if other in c.tasks {
        assert CountsOk(c, other);
      } else {
        assert UploadedOf(c, other) == {} && FailedOf(c, other) == {};
      }
    }
  }

  /** The one step that can break the counters. */
  ghost predicate Shortens(c: Cloud, e: Event) {
    e.op.Enqueue? && EnqueueStep(c, e.op.server, e.op.id, e.op.owner, e.op.sources, e.now).Ok?
    && |e.op.sources| < |RowsOf(c, e.op.id)|
  }

  lemma OtherStepsUntouched(c: Cloud, cfg: Settings, e: Event, d: Cloud)
    requires Next(c, cfg, e, d) && !e.op.Enqueue? && !e.op.ReportArtifact? && !e.op.Reset?
    ensures CountsUntouched(c, d)
  {
  }

  /** A step keeps the counters exactly when it is not a shorter registration. */
  lemma StepCountersExactly(c: Cloud, cfg: Settings, e: Event, d: Cloud)
    requires CountersOk(c) && Next(c, cfg, e, d)
    ensures CountersOk(d) <==> !Shortens(c, e)
  {
    match e.op
    case Enqueue(server, id, owner, sources) =>
      if EnqueueStep(c, server, id, owner, sources, e.now).Ok? {
        EnqueueCountsExactly(c, server, id, owner, sources, e.now);
      }
    case ReportArtifact(row, _, report) => ReportedCounts(c, row, report, e.now);
    case Reset(id) => ResetCounts(c, id, e.now);
    case _ =>
      OtherStepsUntouched(c, cfg, e, d);
      UntouchedCounts(c, d);
  }

  /** Over whole runs, in every state whose past contains no shorter registration. */
  lemma {:induction false} RunCounters(cfg: Settings, states: seq<Cloud>, events: seq<Event>, n: nat)
    requires IsRun(cfg, states, events) && n <= |events| && CountersOk(states[0])
    requires forall k :: 0 <= k < n ==> !Shortens(states[k], events[k])
    ensures CountersOk(states[n])
  {
    if n > 0 {
      RunCounters(cfg, states, events, n - 1);
      StepCountersExactly(states[n - 1], cfg, events[n - 1], states[n]);
    }
  }

  // ---- The manifest gate -------------------------------------------------------------

  ghost predicate AllUploaded(c: Cloud, id: string) {
    RowsOf(c, id) != {} && forall i :: 0 <= i < |c.artifacts| && c.artifacts[i].promptId == id ==> c.artifacts[i].status.Uploaded?
  }

  /** With correct counters, a manifest report calls the task completed wrongly exactly when
      an artifact has left its terminal state and none of the counted ones has failed. */
  lemma CompletedIsTrueExactly(c: Cloud, id: string, now: int)
    requires CountersOk(c) && id in c.tasks
    ensures
      (ManifestSucceededStep(c, id, now).tasks[id].cloudStatus.CloudCompleted? ==> AllUploaded(c, id))
      <==> !(c.tasks[id].artifactCount > 0 && c.tasks[id].failedCount == 0 && !AllTerminal(c, id))
  {
    assert CountsOk(c, id);
    if AllTerminal(c, id) && c.tasks[id].failedCount == 0 {
      assert FailedOf(c, id) == {};
      forall i | 0 <= i < |c.artifacts| && c.artifacts[i].promptId == id
        ensures c.artifacts[i].status.Uploaded?
      {
        assert i !in FailedOf(c, id);
      }
    }
  }

  /** While a manifest is being uploaded every artifact of its task is terminal. */
  ghost predicate Gated(c: Cloud) {
    forall id :: id in c.tasks && c.tasks[id].manifest.MUploading? ==> AllTerminal(c, id)
  }

  /** The two ways to open an artifact under an upload: a failure report that leads to a
      retry, and a registration that adds artifacts. */
  ghost predicate Reopens(c: Cloud, e: Event) {
    match e.op
    case ReportArtifact(row, _, report) =>
      && row < |c.artifacts| && c.artifacts[row].promptId in c.tasks && c.tasks[c.artifacts[row].promptId].manifest.MUploading?
      && report.Errored? && c.artifacts[row].attempts < report.maxAttempts
    case Enqueue(server, id, _, sources) =>
      && id in c.tasks && c.tasks[id].manifest.MUploading? && c.tasks[id].serverId == server
      && |sources| > |RowsOf(c, id)|
    case _ => false
  }

  /** A step keeps the gate exactly when it does not open an artifact under an upload. */
  lemma StepGated(c: Cloud, cfg: Settings, e: Event, d: Cloud)
    requires Gated(c) && CountersOk(c) && Next(c, cfg, e, d)
    ensures Gated(d) <==> !Reopens(c, e)
  {
    if e.op.Enqueue? {
      EnqueueGated(c, e);
    } else if e.op.ReportArtifact? {
      ReportGated(c, e);
    } else if e.op.ClaimArtifact? || e.op.RenewArtifact? {
      OpenStaysGated(c, cfg, e, d);
    } else if e.op.Reset? {
      ResetGated(c, e.op.id, e.now);
    } else {
      assert d.artifacts == c.artifacts;
      forall id | id in d.tasks && d.tasks[id].manifest.MUploading?
        ensures AllTerminal(d, id)
      {
        assert AllTerminal(c, id);
      }
    }
  }

  lemma ResetGated(c: Cloud, id: string, now: int)
    requires Gated(c)
    ensures Gated(ResetStep(c, id, now))
  {
    var d := ResetStep(c, id, now);
    forall other | other in d.tasks && d.tasks[other].manifest.MUploading?
      ensures AllTerminal(d, other)
    {
      assert other != id && AllTerminal(c, other);
    }
  }

  /** What is not terminal may be claimed or renewed. */
  lemma OpenStaysGated(c: Cloud, cfg: Settings, e: Event, d: Cloud)
    requires Gated(c) && Next(c, cfg, e, d) && (e.op.ClaimArtifact? || e.op.RenewArtifact?)
    ensures Gated(d)
  {
    forall id | id in d.tasks && d.tasks[id].manifest.MUploading?
      ensures AllTerminal(d, id)
    {
      assert id in c.tasks && AllTerminal(c, id);
    }
  }

  lemma ReportGated(c: Cloud, e: Event)
    requires Gated(c) && e.op.ReportArtifact?
    ensures Gated(ReportStep(c, e.op.row, e.op.report, e.now)) <==> !Reopens(c, e)
  {
    var d := ReportStep(c, e.op.row, e.op.report, e.now);
    if Reopens(c, e) {
      assert !Terminal(d.artifacts[e.op.row].status);
      assert !AllTerminal(d, c.artifacts[e.op.row].promptId);
    } else {
      forall id | id in d.tasks && d.tasks[id].manifest.MUploading?
        ensures AllTerminal(d, id)
      {
        assert AllTerminal(c, id);
      }
    }
  }

  lemma EnqueueGated(c: Cloud, e: Event)
    requires Gated(c) && CountersOk(c) && e.op.Enqueue?
    ensures
      var r := EnqueueStep(c, e.op.server, e.op.id, e.op.owner, e.op.sources, e.now);
      Gated(if r.Ok? then r.value else c) <==> !Reopens(c, e)
  {
    var r := EnqueueStep(c, e.op.server, e.op.id, e.op.owner, e.op.sources, e.now);
    if r.Ok? {
      var d, id := r.value, e.op.id;
      UpsertsGrow(c.artifacts, id, e.op.sources, e.now);
      AddedRows(c, d, id, e.op.sources, e.now);
      forall other | other in d.tasks && d.tasks[other].manifest.MUploading? && !Reopens(c, e)
        ensures AllTerminal(d, other)
      {
        assert AllTerminal(c, other);
        assert forall i :: 0 <= i < |c.artifacts| ==> d.artifacts[i].status == c.artifacts[i].status;
      }
      if Reopens(c, e) {
        assert !Terminal(d.artifacts[|c.artifacts|].status) && d.artifacts[|c.artifacts|].promptId == id;
        assert !AllTerminal(d, id);
      }
    }
  }

  lemma GrownRows(c: Cloud, d: Cloud, id: string)
    requires Grown(c.artifacts, d.artifacts, id)
    ensures |d.artifacts| > |c.artifacts| <==> |RowsOf(d, id)| > |RowsOf(c, id)|
  {
    if |d.artifacts| > |c.artifacts| {
      SubsetSize(RowsOf(c, id) + {|c.artifacts|}, RowsOf(d, id));
    } else {
      assert RowsOf(d, id) == RowsOf(c, id);
    }
  }

  /** A registration adds rows exactly when its list is longer than the rows it finds. */
  lemma AddedRows(c: Cloud, d: Cloud, id: string, sources: seq<string>, now: int)
    requires CountersOk(c) && d.artifacts == UpsertArtifacts(c.artifacts, id, sources, now) && Grown(c.artifacts, d.artifacts, id)
    ensures |d.artifacts| > |c.artifacts| <==> |sources| > |RowsOf(c, id)|
  {
    GrownRows(c, d, id);
    RegisteredRows(c, d, id, sources, now);
  }

  lemma RegisteredRows(c: Cloud, d: Cloud, id: string, sources: seq<string>, now: int)
    requires CountersOk(c) && d.artifacts == UpsertArtifacts(c.artifacts, id, sources, now)
    ensures |RowsOf(d, id)| == Max(|RowsOf(c, id)|, |sources|)
  {
    var n := |RowsOf(c, id)|;
    assert RowsOf(Cloud(map[], c.artifacts), id) == RowsOf(c, id);
    UpsertsNumber(c.artifacts, id, sources, now, n);
    assert RowsOf(Cloud(map[], d.artifacts), id) == RowsOf(d, id);
  }

  /** Over whole runs without a shorter registration: the gate holds throughout exactly when
      no step opens an artifact under an upload. */
  lemma {:induction false} RunGated(cfg: Settings, states: seq<Cloud>, events: seq<Event>, n: nat)
    requires IsRun(cfg, states, events) && n <= |events| && CountersOk(states[0]) && Gated(states[0])
    requires forall k :: 0 <= k < n ==> !Shortens(states[k], events[k])
    ensures CountersOk(states[n])
    ensures (forall k :: 0 <= k <= n ==> Gated(states[k])) <==> (forall k :: 0 <= k < n ==> !Reopens(states[k], events[k]))
  {
    RunCounters(cfg, states, events, n);
    if n > 0 {
      RunGated(cfg, states, events, n - 1);
      RunCounters(cfg, states, events, n - 1);
      if forall k :: 0 <= k <= n - 1 ==> Gated(states[k]) {
        StepGated(states[n - 1], cfg, events[n - 1], states[n]);
      }
    }
  }

  /** On every run without a shorter registration and without opening an artifact under an
      upload: a manifest is handed out only with true counts over terminal artifacts, and a
      report of an upload in progress writes `cloud_completed` only when there is at least one
      artifact and all of them are uploaded. */
  lemma ManifestWaitsForEveryArtifact(cfg: Settings, states: seq<Cloud>, events: seq<Event>, n: nat, id: string)
    requires IsRun(cfg, states, events) && n < |events| && CountersOk(states[0]) && Gated(states[0])
    requires forall k :: 0 <= k < n ==> !Shortens(states[k], events[k]) && !Reopens(states[k], events[k])
    requires id in states[n].tasks
    ensures events[n].op.ClaimManifest? && events[n].op.choice == Some(id) ==>
              AllTerminal(states[n], id) && DesiredStatus(states[n].tasks[id])
              == if RowsOf(states[n], id) == {} then NoArtifacts else if FailedOf(states[n], id) != {} then CFailed else CloudCompleted
    ensures events[n].op.ManifestSucceeded? && events[n].op.id == id && states[n].tasks[id].manifest.MUploading?
            && states[n + 1].tasks[id].cloudStatus.CloudCompleted? ==>
              AllUploaded(states[n + 1], id)
  {
    RunGated(cfg, states, events, n);
    assert Gated(states[n]);
    assert Next(states[n], cfg, events[n], states[n + 1]);
    if events[n].op.ClaimManifest? && events[n].op.choice == Some(id) {
      TerminalCountsAreTrue(states[n], id);
    }
    if events[n].op.ManifestSucceeded? && events[n].op.id == id && states[n].tasks[id].manifest.MUploading? {
      CompletedIsTrueExactly(states[n], id, events[n].now);
      assert AllTerminal(states[n], id);
    }
  }

  // ---- The completed status ----------------------------------------------------------

  /** Whatever is marked completed has at least one artifact, and all of them are uploaded. */
  ghost predicate CompletedIsTrue(c: Cloud) {
    forall id :: id in c.tasks && c.tasks[id].cloudStatus.CloudCompleted? ==> AllUploaded(c, id)
  }

  /** The three ways to a false status: a manifest report over open artifacts with no failure
      counted, any report but success on an artifact of a completed task, and a registration
      that adds artifacts to one. */
  ghost predicate Falsifies(c: Cloud, e: Event) {
    match e.op
    case ManifestSucceeded(id, _) =>
      id in c.tasks && c.tasks[id].artifactCount > 0 && c.tasks[id].failedCount == 0 && !AllTerminal(c, id)
    case ReportArtifact(row, _, report) =>
      && row < |c.artifacts| && c.artifacts[row].promptId in c.tasks
      && c.tasks[c.artifacts[row].promptId].cloudStatus.CloudCompleted? && !report.Succeeded?
    case Enqueue(server, id, _, sources) =>
      && id in c.tasks && c.tasks[id].cloudStatus.CloudCompleted? && c.tasks[id].serverId == server
      && |sources| > |RowsOf(c, id)|
    case _ => false
  }

  /** Rows of a task that a step leaves as uploaded as they were. */
  lemma UploadedStays(c: Cloud, d: Cloud, id: string)
    requires AllUploaded(c, id) && |c.artifacts| == |d.artifacts|
    requires forall i :: 0 <= i < |c.artifacts| ==>
               d.artifacts[i].promptId == c.artifacts[i].promptId
               && (c.artifacts[i].promptId == id && c.artifacts[i].status.Uploaded? ==> d.artifacts[i].status.Uploaded?)
    ensures AllUploaded(d, id)
  {
    assert RowsOf(d, id) == RowsOf(c, id);
  }

  lemma ReportTrue(c: Cloud, e: Event)
    requires CompletedIsTrue(c) && e.op.ReportArtifact?
    ensures CompletedIsTrue(ReportStep(c, e.op.row, e.op.report, e.now)) <==> !Falsifies(c, e)
  {
    var d := ReportStep(c, e.op.row, e.op.report, e.now);
    if Falsifies(c, e) {
      var id := c.artifacts[e.op.row].promptId;
      assert !d.artifacts[e.op.row].status.Uploaded?;
      assert !AllUploaded(d, id);
    } else {
      forall id | id in d.tasks && d.tasks[id].cloudStatus.CloudCompleted?
        ensures AllUploaded(d, id)
      {
        UploadedStays(c, d, id);
      }
    }
  }

  lemma EnqueueTrue(c: Cloud, e: Event)
    requires CompletedIsTrue(c) && CountersOk(c) && e.op.Enqueue?
    ensures
      var r := EnqueueStep(c, e.op.server, e.op.id, e.op.owner, e.op.sources, e.now);
      CompletedIsTrue(if r.Ok? then r.value else c) <==> !Falsifies(c, e)
  {
    var r := EnqueueStep(c, e.op.server, e.op.id, e.op.owner, e.op.sources, e.now);
    if r.Ok? {
      var d, id := r.value, e.op.id;
      UpsertsGrow(c.artifacts, id, e.op.sources, e.now);
      AddedRows(c, d, id, e.op.sources, e.now);
      forall other | other in d.tasks && d.tasks[other].cloudStatus.CloudCompleted? && !Falsifies(c, e)
        ensures AllUploaded(d, other)
      {
        GrownUploaded(c, d, id, other);
      }
      if Falsifies(c, e) {
        assert d.artifacts[|c.artifacts|].promptId == id && !d.artifacts[|c.artifacts|].status.Uploaded?;
        assert !AllUploaded(d, id);
      }
    }
  }

  lemma GrownUploaded(c: Cloud, d: Cloud, id: string, other: string)
    requires Grown(c.artifacts, d.artifacts, id) && AllUploaded(c, other)
    requires other != id || |d.artifacts| == |c.artifacts|
    ensures AllUploaded(d, other)
  {
    var i :| i in RowsOf(c, other);
    assert i in RowsOf(d, other);
    forall k | 0 <= k < |d.artifacts| && d.artifacts[k].promptId == other
      ensures d.artifacts[k].status.Uploaded?
    {
      assert k < |c.artifacts|;
      assert d.artifacts[k] == c.artifacts[k].(source := d.artifacts[k].source);
    }
  }

  lemma ManifestReportTrue(c: Cloud, e: Event)
    requires CompletedIsTrue(c) && CountersOk(c) && e.op.ManifestSucceeded?
    ensures CompletedIsTrue(ManifestSucceededStep(c, e.op.id, e.now)) <==> !Falsifies(c, e)
  {
    if e.op.id in c.tasks {
      var d := ManifestSucceededStep(c, e.op.id, e.now);
      CompletedIsTrueExactly(c, e.op.id, e.now);
      assert AllUploaded(d, e.op.id) <==> AllUploaded(c, e.op.id) by {
        assert RowsOf(d, e.op.id) == RowsOf(c, e.op.id);
      }
      forall id | id in d.tasks && id != e.op.id && d.tasks[id].cloudStatus.CloudCompleted?
        ensures AllUploaded(d, id)
      {
        UploadedStays(c, d, id);
      }
    }
  }

  lemma QuietStepTrue(c: Cloud, cfg: Settings, e: Event, d: Cloud)
    requires CompletedIsTrue(c) && Next(c, cfg, e, d)
    requires !e.op.Enqueue? && !e.op.ReportArtifact? && !e.op.ManifestSucceeded?
    ensures CompletedIsTrue(d)
  {
    forall id | id in d.tasks && d.tasks[id].cloudStatus.CloudCompleted?
      ensures AllUploaded(d, id)
    {
      assert AllUploaded(c, id);
      UploadedStays(c, d, id);
    }
  }

  /** A step keeps every completed status true exactly when it is none of the three. */
  lemma StepCompletedExactly(c: Cloud, cfg: Settings, e: Event, d: Cloud)
    requires CompletedIsTrue(c) && CountersOk(c) && Next(c, cfg, e, d)
    ensures CompletedIsTrue(d) <==> !Falsifies(c, e)
  {
    if e.op.Enqueue? {
      EnqueueTrue(c, e);
    } else if e.op.ReportArtifact? {
      ReportTrue(c, e);
    } else if e.op.ManifestSucceeded? {
      ManifestReportTrue(c, e);
    } else {
      QuietStepTrue(c, cfg, e, d);
    }
  }

  /** At every point of the run up to `n`, what is marked completed is so. */
  ghost predicate TrueUpTo(states: seq<Cloud>, n: nat)
    requires n < |states|
  {
    forall k :: 0 <= k <= n ==> CompletedIsTrue(states[k])
  }

  ghost predicate NoneFalsifies(states: seq<Cloud>, events: seq<Event>, n: nat)
    requires n <= |events| < |states|
  {
    forall k :: 0 <= k < n ==> !Falsifies(states[k], events[k])
  }

  lemma NthCompleted(cfg: Settings, states: seq<Cloud>, events: seq<Event>, n: nat)
    requires IsRun(cfg, states, events) && 0 < n <= |events| && CountersOk(states[0])
    requires forall k :: 0 <= k < n ==> !Shortens(states[k], events[k])
    requires CompletedIsTrue(states[n - 1])
    ensures CompletedIsTrue(states[n]) <==> !Falsifies(states[n - 1], events[n - 1])
  {
    RunCounters(cfg, states, events, n - 1);
    StepCompletedExactly(states[n - 1], cfg, events[n - 1], states[n]);
  }

  /** Over whole runs without a shorter registration: `cloud_completed` is true of every task
      at every point exactly when no step falsifies it. */
  lemma {:induction false} RunCompletedExactly(cfg: Settings, states: seq<Cloud>, events: seq<Event>, n: nat)
    requires IsRun(cfg, states, events) && n <= |events| && CountersOk(states[0]) && CompletedIsTrue(states[0])
    requires forall k :: 0 <= k < n ==> !Shortens(states[k], events[k])
    ensures TrueUpTo(states, n) <==> NoneFalsifies(states, events, n)
  {
    if n > 0 {
      RunCompletedExactly(cfg, states, events, n - 1);
      if TrueUpTo(states, n - 1) {
        NthCompleted(cfg, states, events, n);
      }
    }
  }

  // ---- One holder per lease ----------------------------------------------------------

  predicate Holds(lease: Option<Lease>, claimant: string) {
    lease.Some? && lease.value.owner == claimant
  }

  /** Artifact `i` is being uploaded under a lease of this claimant that is live at `now`. */
  predicate Uploads(c: Cloud, i: nat, claimant: string, now: int) {
    i < |c.artifacts| && c.artifacts[i].status.Uploading? && Holds(c.artifacts[i].lease, claimant) && LiveAt(c.artifacts[i].lease, now)
  }

  predicate UploadsManifest(c: Cloud, id: string, claimant: string, now: int) {
    && id in c.tasks && c.tasks[id].manifest.MUploading?
    && Holds(c.tasks[id].manifestLease, claimant) && LiveAt(c.tasks[id].manifestLease, now)
  }

  /** Who holds a live lease on an artifact loses it in a step exactly when the artifact is
      reported: no claim takes it over. */
  lemma ArtifactKeepsHolder(c: Cloud, cfg: Settings, e: Event, d: Cloud, i: nat, claimant: string)
    requires Next(c, cfg, e, d) && Uploads(c, i, claimant, e.now)
    ensures i < |d.artifacts|
    ensures d.artifacts[i].status.Uploading? && Holds(d.artifacts[i].lease, claimant)
            <==> !(e.op.ReportArtifact? && e.op.row == i)
  {
    if e.op.Enqueue? {
      UpsertsGrow(c.artifacts, e.op.id, e.op.sources, e.now);
    }
  }

  /** The same of a manifest: only its reports and a reset end a live lease. */
  lemma ManifestKeepsHolder(c: Cloud, cfg: Settings, e: Event, d: Cloud, id: string, claimant: string)
    requires Next(c, cfg, e, d) && UploadsManifest(c, id, claimant, e.now)
    ensures id in d.tasks
    ensures d.tasks[id].manifest.MUploading? && Holds(d.tasks[id].manifestLease, claimant)
            <==> !((e.op.ManifestSucceeded? || e.op.ManifestFailed? || e.op.Reset?) && e.op.id == id)
  {
  }

  /** Over whole runs: as long as its lease is live at every step and nobody reports it, an
      artifact keeps its one holder, whoever else claims. */
  lemma {:induction false} OneHolderPerArtifact(cfg: Settings, states: seq<Cloud>, events: seq<Event>, n: nat, i: nat, claimant: string)
    requires IsRun(cfg, states, events) && n <= |events| && i < |states[0].artifacts|
    requires states[0].artifacts[i].status.Uploading? && Holds(states[0].artifacts[i].lease, claimant)
    requires forall k :: 0 <= k < n ==> i < |states[k].artifacts| ==> LiveAt(states[k].artifacts[i].lease, events[k].now)
    requires forall k :: 0 <= k < n ==> !(events[k].op.ReportArtifact? && events[k].op.row == i)
    ensures i < |states[n].artifacts| && states[n].artifacts[i].status.Uploading? && Holds(states[n].artifacts[i].lease, claimant)
  {
    if n > 0 {
      OneHolderPerArtifact(cfg, states, events, n - 1, i, claimant);
      ArtifactKeepsHolder(states[n - 1], cfg, events[n - 1], states[n], i, claimant);
    }
  }

  lemma {:induction false} OneHolderPerManifest(cfg: Settings, states: seq<Cloud>, events: seq<Event>, n: nat, id: string, claimant: string)
    requires IsRun(cfg, states, events) && n <= |events| && id in states[0].tasks
    requires states[0].tasks[id].manifest.MUploading? && Holds(states[0].tasks[id].manifestLease, claimant)
    requires forall k :: 0 <= k < n && id in states[k].tasks ==> LiveAt(states[k].tasks[id].manifestLease, events[k].now)
    requires forall k :: 0 <= k < n ==>
               !((events[k].op.ManifestSucceeded? || events[k].op.ManifestFailed? || events[k].op.Reset?) && events[k].op.id == id)
    ensures id in states[n].tasks && states[n].tasks[id].manifest.MUploading? && Holds(states[n].tasks[id].manifestLease, claimant)
  {
    if n > 0 {
      OneHolderPerManifest(cfg, states, events, n - 1, id, claimant);
      ManifestKeepsHolder(states[n - 1], cfg, events[n - 1], states[n], id, claimant);
    }
  }

  // ---- The upload budget -------------------------------------------------------------

  lemma SlotsFree(c: Cloud, t: int, u: int)
    requires t <= u
    ensures SlotsUsed(c, u) <= SlotsUsed(c, t)
  {
    SubsetSize(LiveArtifacts(c, u), LiveArtifacts(c, t));
    SubsetSize(LiveManifests(c, u), LiveManifests(c, t));
  }

  /** A renewal that brings a lease back to life after it ran out. */
  ghost predicate Revives(c: Cloud, e: Event) {
    match e.op
    case RenewArtifact(row, claimant, seconds) =>
      && RenewArtifactStep(c, row, claimant, seconds, e.now).1
      && !LiveAt(c.artifacts[row].lease, e.now) && seconds > 0
    case RenewManifest(id, claimant, seconds) =>
      && RenewManifestStep(c, id, claimant, seconds, e.now).1
      && !LiveAt(c.tasks[id].manifestLease, e.now) && seconds > 0
    case _ => false
  }

  /** Reviving a lease takes one more slot; every other step takes one only if it is free. */
  lemma RevivalTakesSlot(c: Cloud, cfg: Settings, e: Event, d: Cloud)
    requires Next(c, cfg, e, d) && Revives(c, e)
    ensures SlotsUsed(d, e.now) == SlotsUsed(c, e.now) + 1
  {
    if e.op.RenewArtifact? {
      assert LiveArtifacts(d, e.now) == LiveArtifacts(c, e.now) + {e.op.row};
      assert LiveManifests(d, e.now) == LiveManifests(c, e.now);
    } else {
      assert LiveArtifacts(d, e.now) == LiveArtifacts(c, e.now);
      assert LiveManifests(d, e.now) == LiveManifests(c, e.now) + {e.op.id};
    }
  }

  lemma ArtifactTakesFreeSlot(c: Cloud, claimant: string, concurrency: nat, seconds: int, now: int)
    ensures SlotsUsed(ClaimArtifactStep(c, claimant, concurrency, seconds, now).0, now) <= Max(SlotsUsed(c, now), concurrency)
  {
    var (d, row) := ClaimArtifactStep(c, claimant, concurrency, seconds, now);
    if row.Some? {
      SubsetSize(LiveArtifacts(d, now), LiveArtifacts(c, now) + {row.value});
      assert LiveManifests(d, now) == LiveManifests(c, now);
    }
  }

  lemma ManifestTakesSlot(c: Cloud, id: string, claimant: string, seconds: int, now: int)
    requires id in c.tasks
    ensures SlotsUsed(ManifestClaimed(c, id, claimant, seconds, now), now) <= SlotsUsed(c, now) + 1
  {
    var d := ManifestClaimed(c, id, claimant, seconds, now);
    assert LiveArtifacts(d, now) == LiveArtifacts(c, now);
    SubsetSize(LiveManifests(d, now), LiveManifests(c, now) + {id});
  }

  lemma ClaimTakesFreeSlot(c: Cloud, cfg: Settings, e: Event, d: Cloud)
    requires Next(c, cfg, e, d) && (e.op.ClaimArtifact? || e.op.ClaimManifest?)
    ensures SlotsUsed(d, e.now) <= Max(SlotsUsed(c, e.now), cfg.concurrency)
  {
    if e.op.ClaimArtifact? {
      ArtifactTakesFreeSlot(c, e.op.claimant, cfg.concurrency, e.op.seconds, e.now);
    } else if e.op.choice.Some? {
      ManifestTakesSlot(c, e.op.choice.value, e.op.claimant, e.op.seconds, e.now);
    }
  }

  lemma QuietStepTakesNoSlot(c: Cloud, cfg: Settings, e: Event, d: Cloud)
    requires Next(c, cfg, e, d) && !Revives(c, e)
    requires !e.op.ClaimArtifact? && !e.op.ClaimManifest?
    ensures SlotsUsed(d, e.now) <= SlotsUsed(c, e.now)
  {
    if e.op.Enqueue? {
      UpsertsGrow(c.artifacts, e.op.id, e.op.sources, e.now);
    }
    SubsetSize(LiveArtifacts(d, e.now), LiveArtifacts(c, e.now));
    SubsetSize(LiveManifests(d, e.now), LiveManifests(c, e.now));
  }

  /** The budget survives a step exactly when the step does not revive an expired lease
      while all slots are taken. */
  lemma StepBudgetExactly(c: Cloud, cfg: Settings, e: Event, d: Cloud)
    requires Next(c, cfg, e, d) && SlotsUsed(c, e.now) <= cfg.concurrency
    ensures SlotsUsed(d, e.now) <= cfg.concurrency <==> !(Revives(c, e) && SlotsUsed(c, e.now) == cfg.concurrency)
  {
    if Revives(c, e) {
      RevivalTakesSlot(c, cfg, e, d);
    } else if e.op.ClaimArtifact? || e.op.ClaimManifest? {
      ClaimTakesFreeSlot(c, cfg, e, d);
    } else {
      QuietStepTakesNoSlot(c, cfg, e, d);
    }
  }

  /** On every run whose leases are renewed only while they are live, artifact and manifest
      uploads together never exceed the concurrency limit, at any time after each step. */
  lemma {:induction false} BudgetHolds(cfg: Settings, states: seq<Cloud>, events: seq<Event>, n: nat, t: int)
    requires IsRun(cfg, states, events) && 0 < n <= |events| && t >= events[n - 1].now
    requires SlotsUsed(states[0], events[0].now) <= cfg.concurrency
    requires forall k :: 0 <= k < n ==> !Revives(states[k], events[k])
    ensures SlotsUsed(states[n], t) <= cfg.concurrency
  {
    if n > 1 {
      BudgetHolds(cfg, states, events, n - 1, events[n - 1].now);
    }
    StepBudgetExactly(states[n - 1], cfg, events[n - 1], states[n]);
    SlotsFree(states[n], events[n - 1].now, t);
  }

  /** The manifest of a task is attempted at most max_attempts times between resets. */
  lemma {:induction false} ManifestAttemptsAreBounded(cfg: Settings, states: seq<Cloud>, events: seq<Event>, n: nat, id: string)
    requires IsRun(cfg, states, events) && n <= |events|
    requires forall other :: other in states[0].tasks ==> states[0].tasks[other].manifestAttempts <= cfg.maxAttempts
    ensures id in states[n].tasks ==> states[n].tasks[id].manifestAttempts <= cfg.maxAttempts
  {
    if n > 0 {
      ManifestAttemptsAreBounded(cfg, states, events, n - 1, id);
      assert Next(states[n - 1], cfg, events[n - 1], states[n]);
    }
  }
}
