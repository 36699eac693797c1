/** The execution history (utils/history_store.py): saving results, merging recovered API
    results into an interrupted job, and reading windows of it. */
module History {
  import opened Values

  /** A status message; the flags say which optional fields its data has. */
  datatype Message = Message(event: string, nodeId: string, nodeType: string, timestamp: Option<int>,
                             hasTraceback: bool, hasInputs: bool, hasOutputs: bool)

  datatype RunStatus = RunStatus(statusStr: string, completed: bool, messages: seq<Message>)

  datatype RecoveryState = Pending | Recovered | Failed | Ignored

  datatype Entry = Entry(provider: string, taskId: string, nodeId: string, state: RecoveryState, message: string)

  datatype Output = Node(data: string) | Recovery(text: string, videos: seq<string>)

  /** A history item: what the steps read of its prompt, outputs, status and recovery part. */
  datatype Item = Item(prompt: string, createTime: Option<int>, outputs: map<string, Output>, userId: string,
                       status: Option<RunStatus>, recovery: map<string, Entry>)

  /** A row of the history table; rows stand in the order of their sequence numbers. */
  datatype Row = Row(promptId: string, owner: string, item: Item)

  type Table = seq<Row>

  /** What a recovery iteration knows of its task: the recovery row joined with its job. */
  datatype RecoveryTask = RecoveryTask(id: string, promptId: string, owner: string, nodeId: string, provider: string,
                                       taskId: string, prompt: string, createTime: Option<int>, submittedAt: int)

  datatype HistoryError = OwnerMismatch

  function Find(h: Table, id: string): (r: Option<nat>)
    ensures r.Some? ==> r.value < |h| && h[r.value].promptId == id
    ensures r.None? ==> forall i :: 0 <= i < |h| ==> h[i].promptId != id
  {
    if h == [] then None
    else if h[|h| - 1].promptId == id then Some(|h| - 1)
    else Find(h[..|h| - 1], id)
  }

  function ItemOf(h: Table, id: string): Option<Item> {
    var row := Find(h, id);
    if row.Some? then Some(h[row.value].item) else None
  }

  /** The UNIQUE constraint on prompt ids. */
  ghost predicate Unique(h: Table) {
    forall i, j :: 0 <= i < j < |h| ==> h[i].promptId != h[j].promptId
  }

  // ---- Repair ------------------------------------------------------------------------

  predicate IsRecoveryError(m: Message) {
    m.event == "execution_error" && m.nodeType == "APIRecovery"
  }

  function RepairedMessage(m: Message): Message {
    if IsRecoveryError(m) then m.(hasTraceback := true, hasInputs := true, hasOutputs := true) else m
  }

  function RepairedMessages(ms: seq<Message>): (r: seq<Message>)
    ensures |r| == |ms|
  {
    seq(|ms|, i requires 0 <= i < |ms| => RepairedMessage(ms[i]))
  }

  /** The timestamp of the first start message that has one. */
  function StartTime(ms: seq<Message>): Option<int> {
    if ms == [] then None
    else if ms[0].event == "execution_start" && ms[0].timestamp.Some? then ms[0].timestamp
    else StartTime(ms[1..])
  }

  function Repair(item: Item): Item {
    if item.recovery == map[] || item.status.None? then item
    else
      var ms := item.status.value.messages;
      item.(createTime := if item.createTime.Some? then item.createTime else StartTime(ms),
      status := Some(item.status.value.(messages := RepairedMessages(ms))))
  }

  lemma {:induction false} RepairKeepsStart(ms: seq<Message>)
    ensures StartTime(RepairedMessages(ms)) == StartTime(ms)
  {
    if ms != [] {
      assert RepairedMessages(ms)[1..] == RepairedMessages(ms[1..]);
      RepairKeepsStart(ms[1..]);
    }
  }

  /** Repairing is done once and for all: reading back a repaired item changes nothing. */
  lemma RepairIsIdempotent(item: Item)
    ensures Repair(Repair(item)) == Repair(item)
  {
    if item.status.Some? {
      var ms := item.status.value.messages;
      RepairKeepsStart(ms);
      assert RepairedMessages(RepairedMessages(ms)) == RepairedMessages(ms);
    }
  }

  // ---- Saving ------------------------------------------------------------------------

  function Upsert(h: Table, id: string, owner: string, item: Item): Table {
    var row := Find(h, id);
    if row.Some? then h[row.value := Row(id, owner, item)] else h + [Row(id, owner, item)]
  }

  /** Keep the newest `max` rows. */
  function Trim(h: Table, max: nat): Table {
    if |h| > max then h[|h| - max..] else h
  }

  function SaveStep(h: Table, id: string, item: Item, max: nat): Table {
    Trim(Upsert(h, id, item.userId, item), max)
  }

  // ---- Merging recovered results -----------------------------------------------------

  predicate Succeeded(item: Item) {
    item.status.Some? && item.status.value.statusStr == "success"
  }

  function InterruptedItem(task: RecoveryTask, now: int): Item {
    Item(task.prompt, task.createTime, map[], task.owner,
         Some(RunStatus("error", false, [
           Message("execution_start", "", "", Some(task.submittedAt * 1000), false, false, false),
           Message("execution_error", task.nodeId, "APIRecovery", Some(now * 1000), true, true, true)])),
         map[])
  }

  function OutputKey(id: string): string {
    "api_recovery_" + id
  }

  function MergedItem(item: Item, task: RecoveryTask, state: RecoveryState, message: string, videos: seq<string>): Item {
    Repair(item.(recovery := item.recovery[task.id := Entry(task.provider, task.taskId, task.nodeId, state, message)],
                 outputs := item.outputs[OutputKey(task.id) := Recovery(message, videos)]))
  }

  /** merge_api_recovery: the table after it, and whether it published. */
  function MergeStep(h: Table, task: RecoveryTask, state: RecoveryState, message: string, videos: seq<string>, now: int)
    : (Table, Result<bool, HistoryError>)
  {
    var row := Find(h, task.promptId);
    if row.Some? && h[row.value].owner != task.owner then (h, Err(OwnerMismatch))
    else
      var item := if row.Some? then h[row.value].item else InterruptedItem(task, now);
      if Succeeded(item) then (h, Ok(false))
      else (Upsert(h, task.promptId, task.owner, MergedItem(item, task, state, message, videos)), Ok(true))
  }

  lemma FindUpsert(h: Table, id: string, owner: string, item: Item, other: string)
    requires Unique(h)
    ensures Unique(Upsert(h, id, owner, item))
    ensures ItemOf(Upsert(h, id, owner, item), other) == if other == id then Some(item) else ItemOf(h, other)
    ensures Find(h, other).Some? ==> Find(Upsert(h, id, owner, item), other) == Find(h, other)
  {
    var g := Upsert(h, id, owner, item);
    if Find(h, id).None? {
      assert g[..|h|] == h;
    } else {
      SameIds(h, g, other);
    }
  }

  lemma {:induction false} SameIds(g: Table, h: Table, id: string)
    requires |g| == |h| && forall i :: 0 <= i < |g| ==> g[i].promptId == h[i].promptId
    ensures Find(g, id) == Find(h, id)
  {
    if g != [] {
      SameIds(g[..|g| - 1], h[..|h| - 1], id);
    }
  }

  /** A merge touches one row only, never a successful one, and there it sets one entry and
      one output and keeps every other entry and output. */
  lemma MergeTouchesOnlyItsOwn(h: Table, task: RecoveryTask, state: RecoveryState, message: string, videos: seq<string>, now: int)
    requires Unique(h)
    ensures
      var (g, r) := MergeStep(h, task, state, message, videos, now);
      var was := ItemOf(h, task.promptId);
      && Unique(g)
      && (forall id :: id != task.promptId ==> ItemOf(g, id) == ItemOf(h, id))
      && (r == Ok(true) <==>
            (was.Some? ==> h[Find(h, task.promptId).value].owner == task.owner && !Succeeded(was.value)))
      && (r != Ok(true) ==> g == h)
      && (r == Ok(true) ==>
            var merged := ItemOf(g, task.promptId);
            var outputs := if was.Some? then was.value.outputs else map[];
            var entries := if was.Some? then was.value.recovery else map[];
            && merged.Some? && !Succeeded(merged.value)
            && merged.value.outputs == outputs[OutputKey(task.id) := Recovery(message, videos)]
            && merged.value.recovery == entries[task.id := Entry(task.provider, task.taskId, task.nodeId, state, message)])
  {
    var (g, r) := MergeStep(h, task, state, message, videos, now);
    if r == Ok(true) {
      var row := Find(h, task.promptId);
      var item := if row.Some? then h[row.value].item else InterruptedItem(task, now);
      UpsertItems(h, task.promptId, task.owner, MergedItem(item, task, state, message, videos));
    }
  }

  lemma UpsertItems(h: Table, id: string, owner: string, item: Item)
    requires Unique(h)
    ensures Unique(Upsert(h, id, owner, item)) && ItemOf(Upsert(h, id, owner, item), id) == Some(item)
    ensures forall other :: other != id ==> ItemOf(Upsert(h, id, owner, item), other) == ItemOf(h, other)
  {
    FindUpsert(h, id, owner, item, id);
    forall other | other != id
      ensures ItemOf(Upsert(h, id, owner, item), other) == ItemOf(h, other)
    {
      FindUpsert(h, id, owner, item, other);
    }
  }

  lemma MergedTwice(item: Item, task: RecoveryTask, state: RecoveryState, message: string, videos: seq<string>)
    ensures MergedItem(MergedItem(item, task, state, message, videos), task, state, message, videos)
            == MergedItem(item, task, state, message, videos)
  {
    var once := item.(recovery := item.recovery[task.id := Entry(task.provider, task.taskId, task.nodeId, state, message)],
                      outputs := item.outputs[OutputKey(task.id) := Recovery(message, videos)]);
    RepairIsIdempotent(once);
    var twice := Repair(once);
    assert twice.recovery[task.id := Entry(task.provider, task.taskId, task.nodeId, state, message)] == twice.recovery;
    assert twice.outputs[OutputKey(task.id) := Recovery(message, videos)] == twice.outputs;
  }

  /** Merging the same outcome again, at whatever time, leaves the history as it is. */
  lemma MergeIsIdempotent(h: Table, task: RecoveryTask, state: RecoveryState, message: string, videos: seq<string>, now: int, later: int)
    requires Unique(h) && MergeStep(h, task, state, message, videos, now).1 == Ok(true)
    ensures
      var g := MergeStep(h, task, state, message, videos, now).0;
      MergeStep(g, task, state, message, videos, later) == (g, Ok(true))
  {
    var g := MergeStep(h, task, state, message, videos, now).0;
    var row := Find(h, task.promptId);
    var item := if row.Some? then h[row.value].item else InterruptedItem(task, now);
    FindUpsert(h, task.promptId, task.owner, MergedItem(item, task, state, message, videos), task.promptId);
    MergedTwice(item, task, state, message, videos);
    var at := Find(g, task.promptId).value;
    assert g[at] == Row(task.promptId, task.owner, MergedItem(item, task, state, message, videos));
    assert g[at := g[at]] == g;
  }

  lemma MergedItemsCommute(item: Item, t: RecoveryTask, s: RecoveryState, m: string, v: seq<string>,
                           t': RecoveryTask, s': RecoveryState, m': string, v': seq<string>)
    requires t.id != t'.id
    ensures MergedItem(MergedItem(item, t, s, m, v), t', s', m', v') == MergedItem(MergedItem(item, t', s', m', v'), t, s, m, v)
  {
    var both := item.(recovery := item.recovery[t.id := Entry(t.provider, t.taskId, t.nodeId, s, m)]
                                  [t'.id := Entry(t'.provider, t'.taskId, t'.nodeId, s', m')],
                      outputs := item.outputs[OutputKey(t.id) := Recovery(m, v)][OutputKey(t'.id) := Recovery(m', v')]);
    assert OutputKey(t.id)[|"api_recovery_"|..] == t.id && OutputKey(t'.id)[|"api_recovery_"|..] == t'.id;
    RepairThenMerge(item, t, s, m, v, t', s', m', v', both);
    RepairThenMerge(item, t', s', m', v', t, s, m, v, both);
  }

  lemma RepairThenMerge(item: Item, t: RecoveryTask, s: RecoveryState, m: string, v: seq<string>,
                        t': RecoveryTask, s': RecoveryState, m': string, v': seq<string>, both: Item)
    requires both == item.(recovery := both.recovery, outputs := both.outputs)
    requires both.recovery == item.recovery[t.id := Entry(t.provider, t.taskId, t.nodeId, s, m)]
                              [t'.id := Entry(t'.provider, t'.taskId, t'.nodeId, s', m')]
    requires both.outputs == item.outputs[OutputKey(t.id) := Recovery(m, v)][OutputKey(t'.id) := Recovery(m', v')]
    ensures MergedItem(MergedItem(item, t, s, m, v), t', s', m', v') == Repair(both)
  {
    var first := MergedItem(item, t, s, m, v);
    assert t.id in first.recovery;
    if item.status.Some? {
      var ms := item.status.value.messages;
      RepairKeepsStart(ms);
      assert RepairedMessages(RepairedMessages(ms)) == RepairedMessages(ms);
      assert t'.id in both.recovery;
    }
  }

  lemma MergeReplaces(h: Table, t: RecoveryTask, s: RecoveryState, m: string, v: seq<string>, now: int, row: nat)
    requires Unique(h) && Find(h, t.promptId) == Some(row) && h[row].owner == t.owner && !Succeeded(h[row].item)
    ensures MergeStep(h, t, s, m, v, now).0 == h[row := Row(t.promptId, t.owner, MergedItem(h[row].item, t, s, m, v))]
    ensures Unique(MergeStep(h, t, s, m, v, now).0) && Find(MergeStep(h, t, s, m, v, now).0, t.promptId) == Some(row)
    ensures !Succeeded(MergedItem(h[row].item, t, s, m, v))
  {
    FindUpsert(h, t.promptId, t.owner, MergedItem(h[row].item, t, s, m, v), t.promptId);
  }

  lemma SavedMergesCommute(h: Table, t: RecoveryTask, s: RecoveryState, m: string, v: seq<string>, now: int,
                           t': RecoveryTask, s': RecoveryState, m': string, v': seq<string>, now': int)
    requires Unique(h) && t.id != t'.id && t.promptId == t'.promptId && t.owner == t'.owner
    requires Find(h, t.promptId).Some?
    ensures MergeStep(MergeStep(h, t, s, m, v, now).0, t', s', m', v', now').0
            == MergeStep(MergeStep(h, t', s', m', v', now').0, t, s, m, v, now).0
  {
    var row := Find(h, t.promptId).value;
    var item := h[row].item;
    if h[row].owner == t.owner && !Succeeded(item) {
      MergeReplaces(h, t, s, m, v, now, row);
      MergeReplaces(h, t', s', m', v', now', row);
      MergeReplaces(MergeStep(h, t, s, m, v, now).0, t', s', m', v', now', row);
      MergeReplaces(MergeStep(h, t', s', m', v', now').0, t, s, m, v, now, row);
      MergedItemsCommute(item, t, s, m, v, t', s', m', v');
    }
  }

  /** The first merge of a job without a saved item adds an interrupted one. */
  lemma MergeCreates(h: Table, t: RecoveryTask, s: RecoveryState, m: string, v: seq<string>, now: int)
    requires Unique(h) && Find(h, t.promptId).None?
    ensures
      var g := MergeStep(h, t, s, m, v, now).0;
      && g == h + [Row(t.promptId, t.owner, MergedItem(InterruptedItem(t, now), t, s, m, v))]
      && Unique(g) && Find(g, t.promptId) == Some(|h|) && !Succeeded(g[|h|].item)
  {
    FindUpsert(h, t.promptId, t.owner, MergedItem(InterruptedItem(t, now), t, s, m, v), t.promptId);
  }

  /** Two merges of a job without a saved item: one row, made by the first. */
  lemma MergesCreate(h: Table, t: RecoveryTask, s: RecoveryState, m: string, v: seq<string>, now: int,
                     t': RecoveryTask, s': RecoveryState, m': string, v': seq<string>, now': int)
    requires Unique(h) && t.promptId == t'.promptId && t.owner == t'.owner && Find(h, t.promptId).None?
    ensures MergeStep(MergeStep(h, t, s, m, v, now).0, t', s', m', v', now').0
            == h + [Row(t.promptId, t.owner, MergedItem(MergedItem(InterruptedItem(t, now), t, s, m, v), t', s', m', v'))]
  {
    MergeCreates(h, t, s, m, v, now);
    var g := MergeStep(h, t, s, m, v, now).0;
    MergeReplaces(g, t', s', m', v', now', |h|);
  }

  /** The error message of an interrupted item outlives two merges. */
  lemma ErrorStays(item: Item, t: RecoveryTask, s: RecoveryState, m: string, v: seq<string>,
                   t': RecoveryTask, s': RecoveryState, m': string, v': seq<string>)
    requires item.status.Some? && |item.status.value.messages| == 2
    ensures
      var merged := MergedItem(MergedItem(item, t, s, m, v), t', s', m', v');
      && merged.status.Some? && |merged.status.value.messages| == 2
      && merged.status.value.messages[1].timestamp == item.status.value.messages[1].timestamp
      && merged.status.value.messages[1].nodeId == item.status.value.messages[1].nodeId
  {
    var once := MergedItem(item, t, s, m, v);
    assert t.id in item.recovery[t.id := Entry(t.provider, t.taskId, t.nodeId, s, m)];
    assert t'.id in once.recovery[t'.id := Entry(t'.provider, t'.taskId, t'.nodeId, s', m')];
  }

  /** Results of different recoveries of one job may be merged in either order exactly when
      the job has a saved item, or the interrupted item that the first merge adds would name
      the same time and node either way. */
  lemma MergesCommute(h: Table, t: RecoveryTask, s: RecoveryState, m: string, v: seq<string>, now: int,
                      t': RecoveryTask, s': RecoveryState, m': string, v': seq<string>, now': int)
    requires Unique(h) && t.id != t'.id && t.promptId == t'.promptId && t.owner == t'.owner
    requires t.prompt == t'.prompt && t.createTime == t'.createTime && t.submittedAt == t'.submittedAt
    ensures MergeStep(MergeStep(h, t, s, m, v, now).0, t', s', m', v', now').0
            == MergeStep(MergeStep(h, t', s', m', v', now').0, t, s, m, v, now).0
            <==> Find(h, t.promptId).Some? || (now == now' && t.nodeId == t'.nodeId)
  {
    if Find(h, t.promptId).Some? {
      SavedMergesCommute(h, t, s, m, v, now, t', s', m', v', now');
    } else {
      var a, b := InterruptedItem(t, now), InterruptedItem(t', now');
      MergesCreate(h, t, s, m, v, now, t', s', m', v', now');
      MergesCreate(h, t', s', m', v', now', t, s, m, v, now);
      MergedItemsCommute(b, t, s, m, v, t', s', m', v');
      ErrorStays(a, t, s, m, v, t', s', m', v');
      ErrorStays(b, t, s, m, v, t', s', m', v');
      var x, y := MergedItem(MergedItem(a, t, s, m, v), t', s', m', v'), MergedItem(MergedItem(b, t, s, m, v), t', s', m', v');
      assert (h + [Row(t.promptId, t.owner, x)])[|h|].item == x && (h + [Row(t.promptId, t.owner, y)])[|h|].item == y;
    }
  }

  // ---- Reading -----------------------------------------------------------------------

  predicate Matches(row: Row, owner: Option<string>, id: Option<string>) {
    (owner.Some? ==> row.owner == owner.value) && (id.Some? ==> row.promptId == id.value)
  }

  function Matching(h: Table, owner: Option<string>, id: Option<string>): Table {
    if h == [] then []
    else Matching(h[..|h| - 1], owner, id) + if Matches(h[|h| - 1], owner, id) then [h[|h| - 1]] else []
  }

  /** The offset a query starts at: a negative one asks for the newest `max` rows. */
  function StartOf(total: nat, max: Option<int>, offset: int): int {
    if offset >= 0 then offset
    else Max(0, total - if max.Some? && max.value != 0 then max.value else total)
  }

  function Shown(row: Row): Row {
    row.(item := Repair(row.item).(userId := row.owner))
  }

  function ShownRows(rows: Table): (r: Table)
    ensures |r| == |rows|
  {
    seq(|rows|, i requires 0 <= i < |rows| => Shown(rows[i]))
  }

  /** LIMIT max OFFSET start over the matching rows; a negative limit is no limit. */
  function Window(rows: Table, max: Option<int>, offset: int): Table {
    var start := Min(StartOf(|rows|, max, offset), |rows|);
    var rest := rows[start..];
    if max.Some? && max.value >= 0 then rest[..Min(max.value, |rest|)] else rest
  }

  function Query(h: Table, max: Option<int>, offset: int, owner: Option<string>, id: Option<string>): Table {
    ShownRows(Window(Matching(h, owner, id), max, offset))
  }

  lemma {:induction false} MatchingIsExact(h: Table, owner: Option<string>, id: Option<string>)
    ensures forall row :: row in Matching(h, owner, id) <==> row in h && Matches(row, owner, id)
  {
    if h != [] {
      MatchingIsExact(h[..|h| - 1], owner, id);
      assert h == h[..|h| - 1] + [h[|h| - 1]];
    }
  }

  /** Whatever window a user asks for, it holds only the user's own items, marked as theirs. */
  lemma QueryIsolatesOwners(h: Table, max: Option<int>, offset: int, owner: string, id: Option<string>)
    ensures forall k :: 0 <= k < |Query(h, max, offset, Some(owner), id)| ==>
              var row := Query(h, max, offset, Some(owner), id)[k];
              row.owner == owner && row.item.userId == owner && exists r :: r in h && r.owner == owner && row == Shown(r)
  {
    var rows := Matching(h, Some(owner), id);
    MatchingIsExact(h, Some(owner), id);
    var window := Window(rows, max, offset);
    forall k | 0 <= k < |window|
      ensures window[k] in h && window[k].owner == owner
    {
      assert window[k] in rows;
    }
  }

  lemma PageIs(rows: Table, max: nat, at: nat)
    ensures Window(rows, Some(max), at) == rows[Min(at, |rows|)..Min(at + max, |rows|)]
  {
  }

  lemma ShownSplit(rows: Table, from: nat, to: nat)
    requires from <= to <= |rows|
    ensures ShownRows(rows[..to]) == ShownRows(rows[..from]) + ShownRows(rows[from..to])
  {
  }

  lemma PageExtends(h: Table, max: nat, at: nat, owner: Option<string>, id: Option<string>)
    ensures
      var rows := Matching(h, owner, id);
      ShownRows(rows[..Min(at + max, |rows|)]) == ShownRows(rows[..Min(at, |rows|)]) + Query(h, Some(max), at, owner, id)
  {
    var rows := Matching(h, owner, id);
    PageIs(rows, max, at);
    ShownSplit(rows, Min(at, |rows|), Min(at + max, |rows|));
  }

  /** Pages of size `max` from offsets 0, max, 2·max, … show every matching row once, in order. */
  lemma {:induction false} PagesCover(h: Table, max: nat, pages: nat, owner: Option<string>, id: Option<string>)
    requires max > 0
    ensures PagesUpTo(h, max, pages, owner, id)
            == ShownRows(Matching(h, owner, id)[..Min(pages * max, |Matching(h, owner, id)|)])
  {
    if pages > 0 {
      var at := (pages - 1) * max;
      assert at + max == pages * max;
      PagesCover(h, max, pages - 1, owner, id);
      PageExtends(h, max, at, owner, id);
      assert PagesUpTo(h, max, pages, owner, id) == PagesUpTo(h, max, pages - 1, owner, id) + Query(h, Some(max), at, owner, id);
    }
  }

  /** The default window is the newest `max` matching rows, in order. */
  lemma DefaultWindowIsNewest(h: Table, max: nat, owner: Option<string>, id: Option<string>)
    requires max > 0
    ensures Query(h, Some(max), -1, owner, id)
            == ShownRows(Matching(h, owner, id)[Max(0, |Matching(h, owner, id)| - max)..])
  {
    var rows := Matching(h, owner, id);
    assert Window(rows, Some(max), -1) == rows[Max(0, |rows| - max)..];
  }

  function PagesUpTo(h: Table, max: nat, pages: nat, owner: Option<string>, id: Option<string>): Table {
    if pages == 0 then []
    else PagesUpTo(h, max, pages - 1, owner, id) + Query(h, Some(max), (pages - 1) * max, owner, id)
  }

  // ---- The store ---------------------------------------------------------------------

  class HistoryStore {
    var rows: Table

    constructor ()
      ensures rows == []
    {
      rows := [];
    }

    method FindRow(id: string) returns (row: Option<nat>)
      ensures row == Find(rows, id)
    {
      var i := |rows|;
      assert rows[..i] == rows;
      while i > 0
        invariant 0 <= i <= |rows|
        invariant Find(rows, id) == Find(rows[..i], id)
      {
        if rows[i - 1].promptId == id {
          return Some(i - 1);
        }
        assert rows[..i][..i - 1] == rows[..i - 1];
        i := i - 1;
      }
      row := None;
    }

    /** Insert or replace an item, then drop the oldest rows beyond `max`. */
    method Save(id: string, item: Item, max: nat)
      modifies this
      ensures rows == SaveStep(old(rows), id, item, max)
    {
      var row := FindRow(id);
      if row.Some? {
        rows := rows[row.value := Row(id, item.userId, item)];
      } else {
        rows := rows + [Row(id, item.userId, item)];
      }
      if |rows| > max {
        rows := rows[|rows| - max..];
      }
    }

    /** Rewrite the messages of an item in place, one after the other. */
    method RepairFields(item: Item) returns (r: Item)
      ensures r == Repair(item)
    {
      r := item;
      if item.recovery == map[] || item.status.None? {
        return;
      }
      var ms := item.status.value.messages;
      var created := item.createTime;
      var done: seq<Message> := [];
      for i := 0 to |ms|
        invariant done == RepairedMessages(ms[..i])
        invariant (if created.Some? then created else StartTime(ms[i..]))
                  == if item.createTime.Some? then item.createTime else StartTime(ms)
      {
        assert ms[i..][1..] == ms[i + 1..];
        if ms[i].event == "execution_start" && ms[i].timestamp.Some? && created.None? {
          created := ms[i].timestamp;
        }
        var m := ms[i];
        if m.event == "execution_error" && m.nodeType == "APIRecovery" {
          m := m.(hasTraceback := true, hasInputs := true, hasOutputs := true);
        }
        assert RepairedMessages(ms[..i + 1]) == RepairedMessages(ms[..i]) + [RepairedMessage(ms[i])];
        done := done + [m];
      }
      assert ms[..|ms|] == ms;
      r := item.(createTime := created, status := Some(item.status.value.(messages := done)));
    }

    /** Add a recovered output unless the job has a successful result of its own. */
    method MergeApiRecovery(task: RecoveryTask, state: RecoveryState, message: string, videos: seq<string>, now: int)
      returns (r: Result<bool, HistoryError>)
      modifies this
      ensures (rows, r) == MergeStep(old(rows), task, state, message, videos, now)
    {
      var row := FindRow(task.promptId);
      if row.Some? && rows[row.value].owner != task.owner {
        return Err(OwnerMismatch);
      }
      var item := if row.Some? then rows[row.value].item else InterruptedItem(task, now);
      if item.status.Some? && item.status.value.statusStr == "success" {
        return Ok(false);
      }
      item := item.(recovery := item.recovery[task.id := Entry(task.provider, task.taskId, task.nodeId, state, message)]);
      item := item.(outputs := item.outputs["api_recovery_" + task.id := Recovery(message, videos)]);
      item := RepairFields(item);
      if row.Some? {
        rows := rows[row.value := rows[row.value].(item := item)];
      } else {
        rows := rows + [Row(task.promptId, task.owner, item)];
      }
      r := Ok(true);
    }

    method SelectRows(owner: Option<string>, id: Option<string>) returns (found: Table)
      ensures found == Matching(rows, owner, id)
    {
      found := [];
      for i := 0 to |rows|
        invariant found == Matching(rows[..i], owner, id)
      {
        assert rows[..i + 1][..i] == rows[..i];
        if (owner.None? || rows[i].owner == owner.value) && (id.None? || rows[i].promptId == id.value) {
          found := found + [rows[i]];
        }
      }
      assert rows[..|rows|] == rows;
    }

    method ShowRows(window: Table) returns (r: Table)
      ensures r == ShownRows(window)
    {
      r := [];
      for i := 0 to |window|
        invariant r == ShownRows(window[..i])
      {
        var item := RepairFields(window[i].item);
        assert ShownRows(window[..i + 1]) == ShownRows(window[..i]) + [Shown(window[i])];
        r := r + [window[i].(item := item.(userId := window[i].owner))];
      }
      assert window[..|window|] == window;
    }

    /** SELECT … WHERE … ORDER BY sequence LIMIT … OFFSET …, repaired for display. */
    method QueryRows(max: Option<int>, offset: int, owner: Option<string>, id: Option<string>) returns (r: Table)
      ensures r == Query(rows, max, offset, owner, id)
    {
      var found := SelectRows(owner, id);
      var start := offset;
      if start < 0 {
        start := Max(0, |found| - if max.Some? && max.value != 0 then max.value else |found|);
      }
      var window := found[Min(start, |found|)..];
      if max.Some? && max.value >= 0 {
        window := window[..Min(max.value, |window|)];
      }
      r := ShowRows(window);
    }
  }
}
