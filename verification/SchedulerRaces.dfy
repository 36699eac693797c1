/** delete_matching is a read followed by one cancel transaction per matching row; other
    processes may claim or cancel rows between them. */
module SchedulerRaces {
  import opened Values
  import opened SchedulerModel
  import opened SchedulerSafety

  /** Try the matching rows in order until one cancel succeeds; `between[k]` is what other
      processes commit before attempt k. */
  ghost function DeleteMatching(t: Tables, ids: seq<string>, owner: string, admin: bool, between: seq<seq<Event>>, now: int)
    : (Tables, Option<string>)
    requires |between| == |ids|
    decreases |ids|
  {
    if ids == [] then (t, None)
    else
      var u := Run(t, between[0]);
      var (v, cancelled) := CancelStep(u, ids[0], owner, admin, now);
      if cancelled then (v, Some(ids[0])) else DeleteMatching(v, ids[1..], owner, admin, between[1..], now)
  }

  /** The caller may act on this row. */
  predicate Visible(t: Tables, id: string, owner: string, admin: bool) {
    var row := Find(t.jobs, id);
    row.Some? && (admin || t.jobs[row.value].owner == owner)
  }

  lemma VisibleExactly(t: Tables, id: string, owner: string, admin: bool)
    requires UniqueIds(t.jobs)
    ensures Visible(t, id, owner, admin)
            <==> exists i :: 0 <= i < |t.jobs| && t.jobs[i].item.promptId == id && (admin || t.jobs[i].owner == owner)
  {
    if i: nat :| i < |t.jobs| && t.jobs[i].item.promptId == id && (admin || t.jobs[i].owner == owner) {
      FindIs(t.jobs, i);
    }
  }

  lemma RunKeepsRow(t: Tables, events: seq<Event>, id: string)
    requires UniqueIds(t.jobs) && Find(t.jobs, id).Some?
    ensures UniqueIds(Run(t, events).jobs)
    ensures Find(Run(t, events).jobs, id) == Find(t.jobs, id)
    decreases |events|
  {
    if events != [] {
      StepKeepsLifecycle(t, events[0]);
      EvolvesKeepsIds(t, Apply(t, events[0]));
      RunKeepsRow(Apply(t, events[0]), events[1..], id);
    }
  }

  lemma RunKeepsUnique(t: Tables, events: seq<Event>)
    requires UniqueIds(t.jobs)
    ensures UniqueIds(Run(t, events).jobs)
    decreases |events|
  {
    if events != [] {
      StepKeepsLifecycle(t, events[0]);
      EvolvesKeepsIds(t, Apply(t, events[0]));
      RunKeepsUnique(Apply(t, events[0]), events[1..]);
    }
  }

  lemma RunKeepsVisible(t: Tables, events: seq<Event>, id: string, owner: string, admin: bool)
    requires UniqueIds(t.jobs) && Visible(t, id, owner, admin)
    ensures Visible(Run(t, events), id, owner, admin)
    ensures !HasStatus(t.jobs, id, Queued) ==> !HasStatus(Run(t, events).jobs, id, Queued)
  {
    RunKeepsRow(t, events, id);
    RunKeepsLifecycle(t, events);
  }

  /** Cancelling one row of the table leaves the others as they are. */
  lemma CancelKeeps(t: Tables, id: string, other: string, owner: string, admin: bool, now: int)
    requires UniqueIds(t.jobs)
    ensures var u := CancelStep(t, id, owner, admin, now).0;
            && UniqueIds(u.jobs)
            && (Visible(t, other, owner, admin) ==> Visible(u, other, owner, admin))
            && (!HasStatus(t.jobs, other, Queued) ==> !HasStatus(u.jobs, other, Queued))
            && (CancelStep(t, id, owner, admin, now).1 ==> HasStatus(u.jobs, id, Cancelled))
  {
    var u := CancelStep(t, id, owner, admin, now).0;
    FindSame(t.jobs, u.jobs, other);
    FindSame(t.jobs, u.jobs, id);
  }

  /** Whatever the others do in between: success means that one of the matching rows was
      cancelled, failure means that every one of them has left the queue for good. */
  lemma {:induction false} DeleteMatchingUnderRaces(t: Tables, ids: seq<string>, owner: string, admin: bool, between: seq<seq<Event>>, now: int)
    requires |between| == |ids| && UniqueIds(t.jobs)
    requires forall k :: 0 <= k < |ids| ==> Visible(t, ids[k], owner, admin)
    ensures
      var (after, hit) := DeleteMatching(t, ids, owner, admin, between, now);
      && (hit.Some? ==> hit.value in ids && HasStatus(after.jobs, hit.value, Cancelled))
      && (hit.None? ==> forall k :: 0 <= k < |ids| ==> !HasStatus(after.jobs, ids[k], Queued))
    decreases |ids|
  {
    if ids != [] {
      var u := Run(t, between[0]);
      var (v, cancelled) := CancelStep(u, ids[0], owner, admin, now);
      RunKeepsUnique(t, between[0]);
      forall k | 0 <= k < |ids|
        ensures Visible(u, ids[k], owner, admin) && Visible(v, ids[k], owner, admin)
      {
        RunKeepsVisible(t, between[0], ids[k], owner, admin);
        CancelKeeps(u, ids[0], ids[k], owner, admin, now);
      }
      CancelKeeps(u, ids[0], ids[0], owner, admin, now);
      if !cancelled {
        DeleteMatchingUnderRaces(v, ids[1..], owner, admin, between[1..], now);
        DeleteKeepsLeft(v, ids[0], ids[1..], owner, admin, between[1..], now);
      }
    }
  }

  lemma {:induction false} DeleteKeepsLeft(t: Tables, id: string, ids: seq<string>, owner: string, admin: bool, between: seq<seq<Event>>, now: int)
    requires |between| == |ids| && UniqueIds(t.jobs)
    requires Visible(t, id, owner, admin) && !HasStatus(t.jobs, id, Queued)
    ensures !HasStatus(DeleteMatching(t, ids, owner, admin, between, now).0.jobs, id, Queued)
    decreases |ids|
  {
    if ids != [] {
      var u := Run(t, between[0]);
      RunKeepsUnique(t, between[0]);
      RunKeepsVisible(t, between[0], id, owner, admin);
      CancelKeeps(u, ids[0], id, owner, admin, now);
      DeleteKeepsLeft(CancelStep(u, ids[0], owner, admin, now).0, id, ids[1..], owner, admin, between[1..], now);
    }
  }

  /** When nothing comes in between, exactly the first listed row that is queued is taken, and
      every other row stays. */
  lemma {:induction false} DeleteTakesFirst(t: Tables, ids: seq<string>, owner: string, admin: bool, between: seq<seq<Event>>, now: int, k: nat)
    requires |between| == |ids| && (forall j :: 0 <= j < |ids| ==> between[j] == []) && UniqueIds(t.jobs)
    requires forall j :: 0 <= j < |ids| ==> Visible(t, ids[j], owner, admin)
    requires k < |ids| && HasStatus(t.jobs, ids[k], Queued) && forall j :: 0 <= j < k ==> !HasStatus(t.jobs, ids[j], Queued)
    ensures
      var (u, hit) := DeleteMatching(t, ids, owner, admin, between, now);
      && hit == Some(ids[k]) && u.workers == t.workers && u.logs == t.logs && |u.jobs| == |t.jobs|
      && forall i :: 0 <= i < |t.jobs| ==>
           u.jobs[i] == if t.jobs[i].item.promptId == ids[k] then t.jobs[i].(status := Cancelled, finishedAt := Some(now)) else t.jobs[i]
    decreases |ids|
  {
    if k == 0 {
      forall i: nat | i < |t.jobs|
        ensures t.jobs[i].item.promptId == ids[0] <==> Find(t.jobs, ids[0]) == Some(i)
      {
        FindIs(t.jobs, i);
      }
    } else {
      assert !HasStatus(t.jobs, ids[0], Queued);
      assert CancelStep(Run(t, between[0]), ids[0], owner, admin, now) == (t, false);
      DeleteTakesFirst(t, ids[1..], owner, admin, between[1..], now, k - 1);
    }
  }
}
