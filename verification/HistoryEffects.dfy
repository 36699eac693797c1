/** What saving, merging, repairing and reading do to the rows of the history, said of the
    rows themselves (utils/history_store.py). */
module HistoryEffects {
  import opened Values
  import opened History

  // ---- Saving ------------------------------------------------------------------------

  /** Saving puts the item in the place of its row, or last, and then keeps the newest rows:
      as many as there are, up to the maximum. */
  lemma SaveExactly(h: Table, id: string, item: Item, max: nat)
    requires Unique(h)
    ensures
      var g := SaveStep(h, id, item, max);
      var known := exists i :: 0 <= i < |h| && h[i].promptId == id;
      var n := if known then |h| else |h| + 1;
      && |g| == Min(n, max)
      && forall k :: 0 <= k < |g| ==>
           var at := n - |g| + k;
           g[k] == if at < |h| && h[at].promptId != id then h[at] else Row(id, item.userId, item)
  {
  }

  // ---- Repairing ---------------------------------------------------------------------

  /** Without a recovery part or a status nothing is repaired. Otherwise the recovery error
      has all its fields, every other message stays, and the creation time is the item's own
      or that of its first start message that has one. */
  lemma RepairExactly(item: Item)
    ensures item.recovery == map[] || item.status.None? ==> Repair(item) == item
    ensures item.recovery != map[] && item.status.Some? ==>
              var r, was := Repair(item), item.status.value;
              && r == item.(createTime := r.createTime, status := r.status)
              && r.status.Some? && r.status.value == was.(messages := r.status.value.messages)
              && |r.status.value.messages| == |was.messages|
              && (forall k :: 0 <= k < |was.messages| ==>
                    r.status.value.messages[k]
                    == if was.messages[k].event == "execution_error" && was.messages[k].nodeType == "APIRecovery"
                       then was.messages[k].(hasTraceback := true, hasInputs := true, hasOutputs := true) else was.messages[k])
              && (item.createTime.Some? ==> r.createTime == item.createTime)
              && (item.createTime.None? ==> FirstStart(was.messages, r.createTime))
  {
    if item.status.Some? {
      FirstStartIs(item.status.value.messages);
    }
  }

  predicate IsStart(m: Message) {
    m.event == "execution_start" && m.timestamp.Some?
  }

  /** The time of the first start message with a time, or none when there is no such message. */
  ghost predicate FirstStart(ms: seq<Message>, time: Option<int>) {
    if time.None? then forall k :: 0 <= k < |ms| ==> !IsStart(ms[k])
    else exists k :: 0 <= k < |ms| && IsStart(ms[k]) && ms[k].timestamp == time && forall j :: 0 <= j < k ==> !IsStart(ms[j])
  }

  lemma {:induction false} FirstStartIs(ms: seq<Message>)
    ensures FirstStart(ms, StartTime(ms))
  {
    if ms != [] && !IsStart(ms[0]) {
      FirstStartIs(ms[1..]);
      if StartTime(ms).Some? {
        var k :| 0 <= k < |ms| - 1 && IsStart(ms[1..][k]) && ms[1..][k].timestamp == StartTime(ms)
                 && forall j :: 0 <= j < k ==> !IsStart(ms[1..][j]);
        assert ms[k + 1] == ms[1..][k];
        forall j | 0 <= j < k + 1
          ensures !IsStart(ms[j])
        {
          assert j > 0 ==> ms[j] == ms[1..][j - 1];
        }
      }
    }
  }

  // ---- Merging -----------------------------------------------------------------------

  /** A merge is refused exactly for somebody else's row, leaves a success as it is, and adds
      an item for a lost job that has none. */
  lemma MergeExactly(h: Table, t: RecoveryTask, s: RecoveryState, m: string, v: seq<string>, now: int)
    requires Unique(h)
    ensures
      var (g, r) := MergeStep(h, t, s, m, v, now);
      && (forall i :: 0 <= i < |h| && h[i].promptId == t.promptId ==>
            var success := h[i].item.status.Some? && h[i].item.status.value.statusStr == "success";
            && (r.Err? <==> h[i].owner != t.owner)
            && (r == Ok(false) <==> h[i].owner == t.owner && success)
            && |g| == |h|
            && (r == Ok(true) ==> g[i] == h[i].(item := g[i].item) && Holds(h[i].item, g[i].item, t, s, m, v)))
      && (r != Ok(true) ==> g == h)
      && (forall i :: 0 <= i < |h| && h[i].promptId != t.promptId ==> i < |g| && g[i] == h[i])
  {
    var row := Find(h, t.promptId);
    forall i | 0 <= i < |h| && h[i].promptId == t.promptId
      ensures row == Some(i)
    {
      assert row.Some?;
    }
  }

  /** What a merge makes of an item: its entry and its output are set, the rest is repaired. */
  ghost predicate Holds(was: Item, item: Item, t: RecoveryTask, s: RecoveryState, m: string, v: seq<string>) {
    item == Repair(was.(recovery := was.recovery[t.id := Entry(t.provider, t.taskId, t.nodeId, s, m)],
                        outputs := was.outputs["api_recovery_" + t.id := Recovery(m, v)]))
  }

  /** The item of a job without a saved result: an interrupted run that started when the job
      was submitted and failed now at the node of the recovery. */
  lemma MergeAddsInterrupted(h: Table, t: RecoveryTask, s: RecoveryState, m: string, v: seq<string>, now: int)
    requires Unique(h) && forall i :: 0 <= i < |h| ==> h[i].promptId != t.promptId
    ensures
      var (g, r) := MergeStep(h, t, s, m, v, now);
      && r == Ok(true) && |g| == |h| + 1 && g[..|h|] == h && g[|h|].promptId == t.promptId && g[|h|].owner == t.owner
      && g[|h|].item == Item(
           t.prompt, if t.createTime.Some? then t.createTime else Some(t.submittedAt * 1000),
           map["api_recovery_" + t.id := Recovery(m, v)], t.owner,
           Some(RunStatus("error", false, [Message("execution_start", "", "", Some(t.submittedAt * 1000), false, false, false),
                                           Message("execution_error", t.nodeId, "APIRecovery", Some(now * 1000), true, true, true)])),
           map[t.id := Entry(t.provider, t.taskId, t.nodeId, s, m)])
  {
    MergeCreates(h, t, s, m, v, now);
    var item := InterruptedItem(t, now);
    var entries := item.recovery[t.id := Entry(t.provider, t.taskId, t.nodeId, s, m)];
    assert t.id in entries;
    assert RepairedMessages(item.status.value.messages) == item.status.value.messages;
  }

  // ---- Reading -----------------------------------------------------------------------

  /** The positions of the rows of one owner and one prompt id, where these are asked for. */
  ghost function Asked(h: Table, owner: Option<string>, id: Option<string>): set<nat> {
    set i: nat | i < |h| && (owner.None? || h[i].owner == owner.value) && (id.None? || h[i].promptId == id.value)
  }

  /** The filter keeps exactly these rows, each once and in their order. */
  lemma {:induction false} MatchingInOrder(h: Table, owner: Option<string>, id: Option<string>)
    ensures Chosen(h, Asked(h, owner, id), Matching(h, owner, id))
  {
    if h != [] {
      MatchingInOrder(h[..|h| - 1], owner, id);
      AskedBelow(h, owner, id);
      ChosenLast(h, Asked(h, owner, id), Matching(h[..|h| - 1], owner, id));
    }
  }

  lemma AskedBelow(h: Table, owner: Option<string>, id: Option<string>)
    requires h != []
    ensures Below(Asked(h, owner, id), |h| - 1) == Asked(h[..|h| - 1], owner, id)
  {
  }

  /** A window starts at its offset, or as many rows before the end as it is long, and is no
      longer than asked for; a negative length is no limit. */
  lemma WindowExactly(rows: Table, max: Option<int>, offset: int)
    ensures
      var w := Window(rows, max, offset);
      var start := if offset >= 0 then offset else if max.None? || max.value == 0 then 0 else Max(0, |rows| - max.value);
      && |w| == (if max.Some? && max.value >= 0 then Min(max.value, Max(0, |rows| - start)) else Max(0, |rows| - start))
      && forall k :: 0 <= k < |w| ==> start + k < |rows| && w[k] == rows[start + k]
  {
  }

  /** What is shown of a window: each row in its place, repaired, under its owner. */
  lemma ShownExactly(rows: Table, k: nat)
    requires k < |rows|
    ensures
      var r := ShownRows(rows);
      && |r| == |rows| && r[k].promptId == rows[k].promptId && r[k].owner == rows[k].owner
      && r[k].item.userId == rows[k].owner && r[k].item == Repair(rows[k].item).(userId := rows[k].owner)
  {
  }
}
