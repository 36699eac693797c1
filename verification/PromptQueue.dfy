/** The prompt queue of a worker process (utils/access_control.py): what it takes from the
    scheduler, how it reports a finished job, and how it reads a history. */
module PromptQueue {
  import opened Values
  import S = SchedulerModel
  import Safety = SchedulerSafety
  import Effects = SchedulerEffects
  import Store = SchedulerStore
  import LogLines
  import H = History
  import R = RecoveryModel
  import RecoverySafety

  /** What the worker remembers of a job it runs. */
  datatype Taken = Taken(item: S.Item, owner: string)

  /** The history in memory, in the order in which its keys were first assigned. */
  type Local = seq<(string, H.Item)>

  const ATTEMPTS := 3

  function At(local: Local, id: string): (r: Option<nat>)
    ensures r.Some? ==> r.value < |local| && local[r.value].0 == id
  {
    if local == [] then None
    else if local[0].0 == id then Some(0)
    else var rest := At(local[1..], id); if rest.Some? then Some(rest.value + 1) else None
  }

  /** Assigning to a key that is there keeps its place. */
  function Assign(local: Local, id: string, item: H.Item): Local {
    var at := At(local, id);
    if at.Some? then local[at.value := (id, item)] else local + [(id, item)]
  }

  /** A full history drops its first key before it takes an item. */
  function Remember(local: Local, id: string, item: H.Item, capacity: nat): Local {
    Assign(if |local| >= capacity && local != [] then local[1..] else local, id, item)
  }

  /** A job without a status object counts as a success for the queue. */
  predicate CountsAsSuccess(status: Option<H.RunStatus>) {
    status.None? || status.value.statusStr == "success"
  }

  class PromptQueueAccess {
    const scheduler: Store.SchedulerStore
    const history: H.HistoryStore
    const port: int
    const pid: int
    const resource: string
    const log: string
    const capacity: nat
    var running: map<nat, Taken>
    var counter: nat
    var local: Local

    /** Running items have ids below the counter, and the history in memory is capped. */
    ghost predicate Valid()
      reads this
    {
      (forall k :: k in running ==> k < counter) && |local| <= capacity && capacity > 0
    }

    constructor (scheduler: Store.SchedulerStore, history: H.HistoryStore, port: int, pid: int, resource: string, log: string,
                 capacity: nat)
      requires capacity > 0
      ensures Valid() && this.scheduler == scheduler && this.history == history && this.port == port && this.pid == pid
      ensures this.resource == resource && this.log == log && this.capacity == capacity && running == map[] && local == []
    {
      this.scheduler, this.history, this.port, this.pid := scheduler, history, port, pid;
      this.resource, this.log, this.capacity := resource, log, capacity;
      running, counter, local := map[], 0, [];
    }

    /** One turn of the waiting loop: a claimed job gets an id that no running item has. */
    method Poll(files: LogLines.Files, now: int) returns (r: Option<(S.Item, nat)>)
      requires Valid() && scheduler.Valid(files)
      modifies this`running, this`counter, scheduler, scheduler.lines
      ensures Valid() && LogLines.Agrees(scheduler.lines.entries, files)
      ensures
        var (after, row) := S.ClaimStep(old(scheduler.Db()), port, pid, resource, log, files, now);
        && scheduler.Db() == after
        && (row.None? ==> r.None? && running == old(running))
        && (row.Some? ==> r.Some? && r.value.1 !in old(running) && r.value.0 == scheduler.jobs[row.value].item
                          && running == old(running)[r.value.1 := Taken(r.value.0, scheduler.jobs[row.value].owner)])
    {
      r := None;
      var claimed := scheduler.Claim(port, pid, resource, log, files, now);
      if claimed.Some? {
        var id := counter;
        running := running[id := Taken(claimed.value.0, claimed.value.1)];
        counter := counter + 1;
        r := Some((claimed.value.0, id));
      }
    }

    method AssignLocal(id: string, item: H.Item)
      requires |local| < capacity
      modifies this`local
      ensures local == Assign(old(local), id, item) && |local| <= capacity
    {
      var i := 0;
      assert local[0..] == local;
      while i < |local|
        invariant 0 <= i <= |local| && local == old(local)
        invariant At(local, id) == var rest := At(local[i..], id); if rest.Some? then Some(rest.value + i) else None
      {
        if local[i].0 == id {
          local := local[i := (id, item)];
          return;
        }
        assert local[i..][1..] == local[i + 1..];
        i := i + 1;
      }
      local := local + [(id, item)];
    }

    /** Complete the row of a job, trying three times; `broken` says how many tries raise. */
    method ReportDone(id: string, status: Option<H.RunStatus>, broken: nat, files: LogLines.Files, now: int)
      requires scheduler.Valid(files)
      modifies scheduler, scheduler.lines
      ensures scheduler.Db() == if broken >= ATTEMPTS then old(scheduler.Db())
                                else S.CompleteStep(old(scheduler.Db()), id, port, CountsAsSuccess(status), log, files, now)
      ensures LogLines.Agrees(scheduler.lines.entries, files)
      ensures broken >= 3 ==> scheduler.Db() == old(scheduler.Db())
      ensures broken < 3 ==> Recorded(old(scheduler.Db()), scheduler.Db(), id, status)
    {
      var attempt := 0;
      while attempt < ATTEMPTS
        invariant 0 <= attempt <= ATTEMPTS && attempt <= broken
        invariant scheduler.Db() == old(scheduler.Db()) && scheduler.Valid(files)
      {
        if attempt >= broken {
          scheduler.Complete(id, port, status.None? || status.value.statusStr == "success", log, files, now);
          ReportedOutcomes(old(scheduler.Db()), id, port, status, log, files, now);
          return;
        }
        attempt := attempt + 1;
      }
    }

    /** A job ends: remember it, save its history, and only then complete its row, trying
        three times. `saved` and `broken` say whether saving and how many tries raise. */
    method TaskDone(itemId: nat, prompt: string, createTime: Option<int>, outputs: map<string, H.Output>,
                    status: Option<H.RunStatus>, saved: bool, broken: nat, files: LogLines.Files, now: int)
      requires Valid() && itemId in running && scheduler.Valid(files)
      modifies this`running, this`local, history, scheduler, scheduler.lines
      ensures Valid() && running == old(running) - {itemId} && LogLines.Agrees(scheduler.lines.entries, files)
      ensures
        var job := old(running)[itemId];
        var item := H.Item(prompt, createTime, outputs, job.owner, status, map[]);
        && local == Remember(old(local), job.item.promptId, item, capacity)
        && history.rows == (if saved then H.SaveStep(old(history.rows), job.item.promptId, item, capacity) else old(history.rows))
        && scheduler.Db() == if broken >= ATTEMPTS then old(scheduler.Db())
                             else S.CompleteStep(old(scheduler.Db()), job.item.promptId, port, CountsAsSuccess(status), log, files, now)
      ensures broken >= 3 ==> scheduler.Db() == old(scheduler.Db())
      ensures broken < 3 ==> Recorded(old(scheduler.Db()), scheduler.Db(), old(running)[itemId].item.promptId, status)
    {
      var job := running[itemId];
      running := running - {itemId};
      var id := job.item.promptId;
      if |local| >= capacity {
        local := local[1..];
      }
      var item := H.Item(prompt, createTime, outputs, job.owner, status, map[]);
      AssignLocal(id, item);
      if saved {
        history.Save(id, item, capacity);
      }
      ReportDone(id, status, broken, files, now);
    }

    /** The history in memory that a user sees: their own items, and all to an admin. */
    method VisibleHistory(user: string, admin: bool) returns (visible: Local)
      ensures visible == Visible(local, user, admin)
    {
      visible := [];
      for i := 0 to |local|
        invariant visible == Visible(local[..i], user, admin)
      {
        assert local[..i + 1][..i] == local[..i];
        if admin || local[i].1.userId == user {
          visible := visible + [local[i]];
        }
      }
      assert local[..|local|] == local;
    }

    /** The window of the history in memory, read in one pass. */
    method LocalHistory(user: string, admin: bool, max: Option<int>, offset: int) returns (r: Local)
      ensures r == LocalWindow(Visible(local, user, admin), max, offset)
    {
      var mine := VisibleHistory(user, admin);
      var start := offset;
      if start < 0 && max.Some? {
        start := |mine| - max.value;
      }
      r := Pass(mine, start, max);
    }

    /** One pass that starts collecting at `start` and looks at the maximum after each item. */
    static method Pass(mine: Local, start: int, max: Option<int>) returns (r: Local)
      ensures r == Passed(mine, start, max)
    {
      r := [];
      var from := Max(0, Min(|mine|, start));
      for i := 0 to |mine|
        invariant r == if i <= from then [] else mine[from..i]
        invariant max.Some? ==> |r| < Max(1, max.value)
      {
        if i >= start {
          r := r + [mine[i]];
          if max.Some? && |r| >= max.value {
            return;
          }
        }
      }
    }
  }

  function Visible(local: Local, user: string, admin: bool): Local {
    if local == [] then []
    else
      var last := local[|local| - 1];
      Visible(local[..|local| - 1], user, admin) + if admin || last.1.userId == user then [last] else []
  }

  /** The items of this user, or all for an admin. */
  ghost function Own(local: Local, user: string, admin: bool): set<nat> {
    set i: nat | i < |local| && (admin || local[i].1.userId == user)
  }

  /** What a user sees are exactly these, each once and in their order. */
  lemma {:induction false} VisibleInOrder(local: Local, user: string, admin: bool)
    ensures Chosen(local, Own(local, user, admin), Visible(local, user, admin))
  {
    if local != [] {
      VisibleInOrder(local[..|local| - 1], user, admin);
      assert Below(Own(local, user, admin), |local| - 1) == Own(local[..|local| - 1], user, admin);
      ChosenLast(local, Own(local, user, admin), Visible(local[..|local| - 1], user, admin));
    }
  }

  /** The history in memory after a job: the item in the place of its key, or last; a full
      history loses its oldest key first, whether or not the item's key is known. */
  lemma RememberExactly(local: Local, id: string, item: H.Item, capacity: nat)
    requires forall i, j :: 0 <= i < j < |local| ==> local[i].0 != local[j].0
    ensures
      var r := Remember(local, id, item, capacity);
      var kept := if |local| >= capacity && local != [] then local[1..] else local;
      && (forall i :: 0 <= i < |kept| ==> i < |r| && r[i] == if kept[i].0 == id then (id, item) else kept[i])
      && (if forall i :: 0 <= i < |kept| ==> kept[i].0 != id then |r| == |kept| + 1 && r[|kept|] == (id, item) else |r| == |kept|)
  {
    var kept := if |local| >= capacity && local != [] then local[1..] else local;
    AtIs(kept, id);
  }

  lemma {:induction false} AtIs(local: Local, id: string)
    requires forall i, j :: 0 <= i < j < |local| ==> local[i].0 != local[j].0
    ensures At(local, id).None? <==> forall i :: 0 <= i < |local| ==> local[i].0 != id
    ensures forall i :: 0 <= i < |local| && local[i].0 == id ==> At(local, id) == Some(i)
  {
    if local != [] {
      AtIs(local[1..], id);
      forall i | 0 <= i < |local| && local[i].0 == id
        ensures At(local, id) == Some(i)
      {
        if i > 0 {
          assert local[1..][i - 1] == local[i];
        }
      }
    }
  }

  /** What a pass collects: at least one item once it starts. */
  function Passed(mine: Local, start: int, max: Option<int>): Local {
    var from := Max(0, Min(|mine|, start));
    if max.Some? then mine[from..Min(|mine|, from + Max(1, max.value))] else mine[from..]
  }

  function LocalWindow(mine: Local, max: Option<int>, offset: int): Local {
    Passed(mine, if offset < 0 && max.Some? then |mine| - max.value else offset, max)
  }

  /** Rows of the shared history as a process would hold them in memory. */
  function InMemory(rows: H.Table): (r: Local)
    ensures |r| == |rows|
  {
    seq(|rows|, k requires 0 <= k < |rows| => (rows[k].promptId, rows[k].item))
  }

  /** A process without the shared history reads the same windows as one with it, except
      that it never asks for less than one item: they differ exactly for a maximum of zero
      before the end, and for a negative maximum (no limit there) two or more before it. */
  lemma WindowsAgreeExactly(rows: H.Table, max: Option<int>, offset: int)
    ensures LocalWindow(InMemory(rows), max, offset) == InMemory(H.Window(rows, max, offset))
            <==> (max.None? || max.value > 0 || offset < 0
                  || offset + (if max.value == 0 then 0 else 1) >= |rows|)
  {
    var mine, window := LocalWindow(InMemory(rows), max, offset), H.Window(rows, max, offset);
    if max.None? || max.value > 0 || offset < 0 || offset + (if max.value == 0 then 0 else 1) >= |rows| {
      SameWindow(rows, max, offset);
    } else {
      assert |mine| == 1 && |window| != 1;
    }
  }

  lemma SameWindow(rows: H.Table, max: Option<int>, offset: int)
    requires max.None? || max.value > 0 || offset < 0 || offset + (if max.value == 0 then 0 else 1) >= |rows|
    ensures LocalWindow(InMemory(rows), max, offset) == InMemory(H.Window(rows, max, offset))
  {
    var mine, window := LocalWindow(InMemory(rows), max, offset), H.Window(rows, max, offset);
    assert |mine| == |window|;
    forall k | 0 <= k < |mine|
      ensures mine[k] == InMemory(window)[k]
    {
    }
  }

  // ---- Reporting late ----------------------------------------------------------------

  lemma SavedItem(h: H.Table, id: string, item: H.Item, max: nat)
    requires H.Unique(h) && max > 0 && |h| <= max
    ensures H.Unique(H.SaveStep(h, id, item, max)) && H.ItemOf(H.SaveStep(h, id, item, max), id) == Some(item)
  {
    H.FindUpsert(h, id, item.userId, item, id);
    var g := H.Upsert(h, id, item.userId, item);
    if |g| > max {
      assert g[|g| - max..][max - 1] == g[|g| - 1];
      RecoverySafety.FindInSuffix(g, |g| - max, id);
    }
  }

  /** Only a scheduler step changes the queue. */
  lemma QueueUnless(w: R.World, e: R.Event)
    ensures R.Apply(w, e).queue == if e.step.Scheduler? then S.Apply(w.queue, S.Event(e.step.op, e.now, e.files)) else w.queue
  {
  }

  lemma RowStays(t: S.Tables, e: S.Event, i: nat)
    requires Safety.UniqueIds(t.jobs) && i < |t.jobs|
    ensures
      var u := S.Apply(t, e);
      && Safety.UniqueIds(u.jobs) && i < |u.jobs|
      && Safety.SameRow(t.jobs[i], u.jobs[i]) && Safety.Reaches(t.jobs[i].status, u.jobs[i].status)
  {
    Safety.StepKeepsLifecycle(t, e);
    Safety.EvolvesKeepsIds(t, S.Apply(t, e));
  }

  /** In the shared world, too, rows keep their places and only move along the lifecycle. */
  lemma {:induction false} RowsStay(w: R.World, events: seq<R.Event>, i: nat)
    requires Safety.UniqueIds(w.queue.jobs) && i < |w.queue.jobs|
    ensures
      var v := R.Run(w, events);
      && Safety.UniqueIds(v.queue.jobs) && i < |v.queue.jobs|
      && Safety.SameRow(w.queue.jobs[i], v.queue.jobs[i])
      && Safety.Reaches(w.queue.jobs[i].status, v.queue.jobs[i].status)
    decreases |events|
  {
    if events != [] {
      var e := events[0];
      QueueUnless(w, e);
      if e.step.Scheduler? {
        RowStays(w.queue, S.Event(e.step.op, e.now, e.files), i);
      }
      RowsStay(R.Apply(w, e), events[1..], i);
    }
  }

  lemma CompletionEnds(t: S.Tables, i: nat, id: string, port: int, log: string, files: LogLines.Files, now: int)
    requires Safety.UniqueIds(t.jobs) && i < |t.jobs| && t.jobs[i].item.promptId == id
    ensures
      var u := S.CompleteStep(t, id, port, true, log, files, now);
      && i < |u.jobs| && S.Find(u.jobs, id) == Some(i)
      && u.jobs[i].status == if t.jobs[i].status == S.Running || t.jobs[i].status == S.WorkerLost then S.Completed else t.jobs[i].status
  {
    Safety.FindIs(t.jobs, i);
    Safety.FindIs(S.CompleteStep(t, id, port, true, log, files, now).jobs, i);
  }

  /** The event that reports a job with this status object. */
  function Report(id: string, port: int, status: Option<H.RunStatus>, log: string, files: LogLines.Files, now: int): S.Event {
    S.Event(S.Complete(id, port, CountsAsSuccess(status), log), now, files)
  }

  /** The job with this id, if it was running or lost, is completed when it is reported with
      "success" or without a status object, and failed when not. */
  ghost predicate Recorded(t: S.Tables, u: S.Tables, id: string, status: Option<H.RunStatus>) {
    forall i :: 0 <= i < |t.jobs| && t.jobs[i].item.promptId == id && (t.jobs[i].status == S.Running || t.jobs[i].status == S.WorkerLost) ==>
      i < |u.jobs| && u.jobs[i].status == if status.None? || status.value.statusStr == "success" then S.Completed else S.Failed
  }

  lemma ReportedOutcomes(t: S.Tables, id: string, port: int, status: Option<H.RunStatus>, log: string, files: LogLines.Files, now: int)
    requires Safety.UniqueIds(t.jobs)
    ensures
      Recorded(t, S.CompleteStep(t, id, port, CountsAsSuccess(status), log, files, now), id, status)
  {
    forall i: nat | i < |t.jobs|
      ensures
        var u := S.CompleteStep(t, id, port, CountsAsSuccess(status), log, files, now);
        t.jobs[i].item.promptId == id && (t.jobs[i].status == S.Running || t.jobs[i].status == S.WorkerLost) ==>
          i < |u.jobs| && u.jobs[i].status == if CountsAsSuccess(status) then S.Completed else S.Failed
    {
      Effects.CompleteRecordsOutcome(t, Report(id, port, status, log, files, now), i);
    }
  }

  /** A job that its worker reports with the status "error" has failed, and one reported with
      "success" or without a status object is completed, whatever happens later. */
  lemma ReportedOutcomeStands(t: S.Tables, i: nat, port: int, status: Option<H.RunStatus>, log: string, files: LogLines.Files,
                              now: int, later: seq<S.Event>)
    requires Safety.UniqueIds(t.jobs) && i < |t.jobs| && (t.jobs[i].status == S.Running || t.jobs[i].status == S.WorkerLost)
    ensures
      var reported := S.CompleteStep(t, t.jobs[i].item.promptId, port, CountsAsSuccess(status), log, files, now);
      var end := S.Run(reported, later);
      && i < |end.jobs|
      && end.jobs[i].status == if status.Some? && status.value.statusStr != "success" then S.Failed else S.Completed
  {
    Effects.OutcomeStands(t, Report(t.jobs[i].item.promptId, port, status, log, files, now), i, later);
  }

  /** A worker that saved a success and was then declared lost still wins: whatever recovery
      and the scheduler do before it completes the job, its item is what the history holds,
      the job ends, and every recovery of it is given up. */
  lemma LateFinisherWins(w: R.World, id: string, item: H.Item, max: nat, i: nat, save: R.Event, events: seq<R.Event>, complete: R.Event)
    requires H.Unique(w.history) && 0 < max && |w.history| <= max && H.Succeeded(item)
    requires Safety.UniqueIds(w.queue.jobs) && i < |w.queue.jobs| && w.queue.jobs[i].item.promptId == id
    requires w.queue.jobs[i].status == S.Running || w.queue.jobs[i].status == S.WorkerLost
    requires save.step == R.SaveHistory(id, item, max)
    requires RecoverySafety.NeverReplaced(R.Apply(w, save), events, id)
    requires complete.step.Scheduler? && complete.step.op.Complete? && complete.step.op.id == id && complete.step.op.ok
    ensures
      var before := R.Run(R.Apply(w, save), events);
      var v := R.Apply(before, complete);
      && H.ItemOf(v.history, id) == Some(item)
      && i < |before.queue.jobs| && i < |v.queue.jobs|
      && v.queue.jobs[i].status == (if before.queue.jobs[i].status == S.Failed then S.Failed else S.Completed)
      && !R.Lost(v, id)
      && forall k :: 0 <= k < |v.recs| && v.recs[k].promptId == id ==> R.SweptRow(v.queue.jobs, v.recs[k]).state != H.Pending
  {
    var saved := R.Apply(w, save);
    SavedItem(w.history, id, item, max);
    RecoverySafety.SuccessWins(saved, events, id);
    RowsStay(saved, events, i);
    var before := R.Run(saved, events);
    CompletionEnds(before.queue, i, id, complete.step.op.port, complete.step.op.log, complete.files, complete.now);
  }
}
