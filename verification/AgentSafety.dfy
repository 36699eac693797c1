/** What every run of the Agent tables keeps: leases, fencing, the event log, and that
    paid work is not silently repeated. */
module AgentSafety {
  import opened Values
  import opened AgentModel

  // ---- Leases ------------------------------------------------------------------------

  ghost predicate TaskOk(a: Agents, i: nat)
    requires i < |a.tasks|
  {
    && (a.tasks[i].lease.Some? <==> Active(a.tasks[i].state))
    && (a.tasks[i].lease.Some? ==> a.tasks[i].lease.value < a.nextLease)
  }

  /** A lease exists exactly on running, delivering and cancel_requested tasks, no two tasks
      share one, and the limits hold globally and per owner. */
  ghost predicate LeasesOk(a: Agents, lim: Limits) {
    && (forall i: nat :: i < |a.tasks| ==> TaskOk(a, i))
    && (forall i: nat, j: nat :: i < j < |a.tasks| && a.tasks[i].lease.Some? ==> a.tasks[i].lease != a.tasks[j].lease)
    && |Leased(a)| <= lim.concurrency
    && (forall owner :: |LeasedBy(a, owner)| <= lim.perUser)
  }

  /** Rows keep their identity, and only a claim gives out leases. */
  ghost predicate NoNewLease(a: Agents, b: Agents) {
    && |a.tasks| <= |b.tasks| && a.nextLease == b.nextLease
    && (forall i :: 0 <= i < |a.tasks| ==> b.tasks[i].owner == a.tasks[i].owner
                                           && (b.tasks[i].lease == a.tasks[i].lease || b.tasks[i].lease.None?))
    && (forall i :: |a.tasks| <= i < |b.tasks| ==> b.tasks[i].lease.None?)
  }

  lemma FewerLeases(a: Agents, b: Agents, lim: Limits)
    requires LeasesOk(a, lim) && NoNewLease(a, b)
    ensures |Leased(b)| <= lim.concurrency
    ensures forall owner :: |LeasedBy(b, owner)| <= lim.perUser
    ensures forall i: nat, j: nat :: i < j < |b.tasks| && b.tasks[i].lease.Some? ==> b.tasks[i].lease != b.tasks[j].lease
  {
    SubsetSize(Leased(b), Leased(a));
    forall owner
      ensures |LeasedBy(b, owner)| <= lim.perUser
    {
      SubsetSize(LeasedBy(b, owner), LeasedBy(a, owner));
    }
  }

  lemma ExpireLeases(a: Agents, lim: Limits, now: int)
    requires LeasesOk(a, lim)
    ensures LeasesOk(Expire(a, now), lim)
  {
    FewerLeases(a, Expire(a, now), lim);
    forall i: nat | i < |a.tasks|
      ensures TaskOk(Expire(a, now), i)
    {
      assert TaskOk(a, i);
    }
  }

  /** Giving one more task a lease, below both limits, keeps them. */
  lemma OneMoreLease(b: Agents, c: Agents, lim: Limits, i: nat)
    requires |c.tasks| == |b.tasks| && i < |b.tasks|
    requires b.tasks[i].lease.None? && c.tasks[i].lease.Some?
    requires forall j :: 0 <= j < |b.tasks| ==> c.tasks[j].owner == b.tasks[j].owner
    requires forall j :: 0 <= j < |b.tasks| && j != i ==> c.tasks[j].lease == b.tasks[j].lease
    requires |Leased(b)| < lim.concurrency && |LeasedBy(b, b.tasks[i].owner)| < lim.perUser
    ensures |Leased(c)| <= lim.concurrency
    ensures |LeasedBy(c, b.tasks[i].owner)| <= lim.perUser
  {
    assert Leased(c) == Leased(b) + {i};
    assert LeasedBy(c, b.tasks[i].owner) == LeasedBy(b, b.tasks[i].owner) + {i};
  }

  lemma OtherOwnersKeep(b: Agents, c: Agents, i: nat, owner: string)
    requires |c.tasks| == |b.tasks| && i < |b.tasks| && owner != b.tasks[i].owner
    requires forall j :: 0 <= j < |b.tasks| ==> c.tasks[j].owner == b.tasks[j].owner
    requires forall j :: 0 <= j < |b.tasks| && j != i ==> c.tasks[j].lease == b.tasks[j].lease
    ensures LeasedBy(c, owner) == LeasedBy(b, owner)
  {
  }

  lemma ClaimLeases(a: Agents, lim: Limits, now: int)
    requires LeasesOk(a, lim)
    ensures LeasesOk(ClaimStep(a, lim, now).0, lim)
  {
    ExpireLeases(a, lim, now);
    var b := Expire(a, now);
    var (c, pick) := ClaimStep(a, lim, now);
    if pick.Some? {
      assert TaskOk(b, pick.value);
      OneMoreLease(b, c, lim, pick.value);
      forall owner
        ensures |LeasedBy(c, owner)| <= lim.perUser
      {
        if owner != b.tasks[pick.value].owner {
          OtherOwnersKeep(b, c, pick.value, owner);
        }
      }
      forall i: nat | i < |c.tasks|
        ensures TaskOk(c, i)
        ensures i != pick.value ==> c.tasks[i].lease == b.tasks[i].lease && c.tasks[i].lease != c.tasks[pick.value].lease
      {
        assert TaskOk(b, i);
      }
    }
  }

  lemma OnlyClaimsGiveLeases(a: Agents, lim: Limits, e: Event)
    requires !e.op.Claim?
    ensures NoNewLease(a, Apply(a, lim, e))
  {
  }

  lemma StepTasksOk(a: Agents, lim: Limits, e: Event, i: nat)
    requires !e.op.Claim? && i < |Apply(a, lim, e).tasks|
    requires i < |a.tasks| ==> TaskOk(a, i)
    ensures TaskOk(Apply(a, lim, e), i)
  {
  }

  lemma StepLeases(a: Agents, lim: Limits, e: Event)
    requires LeasesOk(a, lim)
    ensures LeasesOk(Apply(a, lim, e), lim)
  {
    var b := Apply(a, lim, e);
    if e.op.Claim? {
      ClaimLeases(a, lim, e.now);
    } else {
      OnlyClaimsGiveLeases(a, lim, e);
      FewerLeases(a, b, lim);
      forall i: nat | i < |b.tasks|
        ensures TaskOk(b, i)
      {
        StepTasksOk(a, lim, e, i);
      }
    }
  }

  lemma {:induction false} RunLeases(a: Agents, lim: Limits, events: seq<Event>)
    requires LeasesOk(a, lim)
    ensures LeasesOk(Run(a, lim, events), lim)
    decreases |events|
  {
    if events != [] {
      StepLeases(a, lim, events[0]);
      RunLeases(Apply(a, lim, events[0]), lim, events[1..]);
    }
  }

  // ---- Fencing and the event log -----------------------------------------------------

  /** Every entry was written under a lease given out so far, none of its task's later than
      the lease the task holds, and the entries of a task are in the order of its leases. */
  ghost predicate LogOk(a: Agents) {
    && (forall k :: 0 <= k < |a.events| ==>
          a.events[k].task < |a.tasks| && a.events[k].writer < a.nextLease
          && (a.tasks[a.events[k].task].lease.Some? ==> a.events[k].writer <= a.tasks[a.events[k].task].lease.value))
    && (forall j, k :: 0 <= j < k < |a.events| && a.events[j].task == a.events[k].task ==>
          a.events[j].writer <= a.events[k].writer)
  }

  lemma StepLog(a: Agents, lim: Limits, e: Event)
    requires LeasesOk(a, lim) && LogOk(a)
    ensures LogOk(Apply(a, lim, e))
  {
    if e.op.Update? {
      if HoldsLease(a, e.op.task, e.op.lease, e.now) {
        UpdateLog(a, e);
      }
    } else if !e.op.Claim? {
      OnlyClaimsGiveLeases(a, lim, e);
      OnlyUpdatesWrite(a, lim, e);
    }
  }

  lemma OnlyUpdatesWrite(a: Agents, lim: Limits, e: Event)
    requires !e.op.Update?
    ensures Apply(a, lim, e).events == a.events
  {
  }

  lemma UpdateLog(a: Agents, e: Event)
    requires LogOk(a) && e.op.Update?
    requires (forall i: nat :: i < |a.tasks| ==> TaskOk(a, i)) && HoldsLease(a, e.op.task, e.op.lease, e.now)
    ensures LogOk(UpdateStep(a, e.op.task, e.op.lease, e.op.events, e.op.checkpoint, e.op.asked, e.op.result, e.op.error, e.now).0)
  {
    assert TaskOk(a, e.op.task);
  }

  lemma {:induction false} RunLog(a: Agents, lim: Limits, events: seq<Event>)
    requires LeasesOk(a, lim) && LogOk(a)
    ensures LogOk(Run(a, lim, events))
    decreases |events|
  {
    if events != [] {
      StepLeases(a, lim, events[0]);
      StepLog(a, lim, events[0]);
      RunLog(Apply(a, lim, events[0]), lim, events[1..]);
    }
  }

  /** In a log that is in lease order, the entries of one claim of a task are contiguous. */
  lemma SegmentsAreContiguous(a: Agents, i: nat, j: nat, k: nat)
    requires LogOk(a) && i < j < k < |a.events|
    requires a.events[i].task == a.events[j].task == a.events[k].task
    requires a.events[i].writer == a.events[k].writer
    ensures a.events[j].writer == a.events[i].writer
  {
  }

  /** The lease has been given out and cannot be used at time `now` or later. */
  ghost predicate Dead(a: Agents, lease: nat, now: int) {
    && lease < a.nextLease
    && forall i: nat :: i < |a.tasks| && a.tasks[i].lease == Some(lease) ==> a.tasks[i].leaseUntil < now
  }

  lemma DeadStaysDead(a: Agents, lim: Limits, lease: nat, e: Event)
    requires LeasesOk(a, lim) && Dead(a, lease, e.now)
    ensures Dead(Apply(a, lim, e), lease, e.now)
  {
    var b := Apply(a, lim, e);
    forall i: nat | i < |b.tasks| && b.tasks[i].lease == Some(lease)
      ensures b.tasks[i].leaseUntil < e.now
    {
      assert i < |a.tasks| && a.tasks[i].lease == Some(lease);
    }
  }

  /** The updates of a run that were accepted from this lease. */
  ghost function AcceptedFrom(a: Agents, lim: Limits, lease: nat, events: seq<Event>): nat
    decreases |events|
  {
    if events == [] then 0
    else
      AcceptedFrom(Apply(a, lim, events[0]), lim, lease, events[1..])
      + if events[0].op.Update? && events[0].op.lease == lease
           && HoldsLease(a, events[0].op.task, lease, events[0].now) then 1 else 0
  }

  /** A superseded or expired lease never writes again, whatever the other processes do. */
  lemma {:induction false} DeadLeaseIsFenced(a: Agents, lim: Limits, lease: nat, now: int, events: seq<Event>)
    requires LeasesOk(a, lim) && Dead(a, lease, now) && Timely(now, events, When)
    ensures AcceptedFrom(a, lim, lease, events) == 0
    decreases |events|
  {
    if events != [] {
      assert Dead(a, lease, events[0].now);
      DeadStaysDead(a, lim, lease, events[0]);
      StepLeases(a, lim, events[0]);
      DeadLeaseIsFenced(Apply(a, lim, events[0]), lim, lease, events[0].now, events[1..]);
    }
  }

  // ---- Paid work ---------------------------------------------------------------------

  lemma CheckpointStays(a: Agents, lim: Limits, e: Event, i: nat)
    requires i < |a.tasks| && a.tasks[i].checkpoint.Some?
    ensures i < |Apply(a, lim, e).tasks| && Apply(a, lim, e).tasks[i].checkpoint.Some?
  {
  }

  /** This step starts the task's Agent from the beginning. */
  ghost predicate Starts(a: Agents, lim: Limits, e: Event, i: nat) {
    e.op.Claim? && ClaimStep(a, lim, e.now).1 == Some(i) && ClaimStep(a, lim, e.now).0.tasks[i].state == Running
  }

  ghost predicate Recovers(a: Agents, e: Event, i: nat) {
    e.op.Recover? && e.op.task == i && RecoverStep(a, i, e.op.owner, e.now).1.Ok?
  }

  ghost function StartCount(a: Agents, lim: Limits, events: seq<Event>, i: nat): nat
    decreases |events|
  {
    if events == [] then 0
    else StartCount(Apply(a, lim, events[0]), lim, events[1..], i) + if Starts(a, lim, events[0], i) then 1 else 0
  }

  ghost function RecoverCount(a: Agents, lim: Limits, events: seq<Event>, i: nat): nat
    decreases |events|
  {
    if events == [] then 0
    else RecoverCount(Apply(a, lim, events[0]), lim, events[1..], i) + if Recovers(a, events[0], i) then 1 else 0
  }

  /** Once a checkpoint is saved, no later claim runs the Agent again. */
  lemma {:induction false} CheckpointedNeverRestarts(a: Agents, lim: Limits, events: seq<Event>, i: nat)
    requires i < |a.tasks| && a.tasks[i].checkpoint.Some?
    ensures StartCount(a, lim, events, i) == 0
    decreases |events|
  {
    if events != [] {
      CheckpointStays(a, lim, events[0], i);
      CheckpointedNeverRestarts(Apply(a, lim, events[0]), lim, events[1..], i);
    }
  }

  /** An update that enters delivery without any checkpoint, neither given nor stored. */
  ghost predicate DeliversUnsaved(a: Agents, e: Event) {
    && e.op.Update? && HoldsLease(a, e.op.task, e.op.lease, e.now)
    && e.op.asked == Some(Delivering) && e.op.checkpoint.None? && a.tasks[e.op.task].checkpoint.None?
  }

  ghost predicate DeliveriesSaved(a: Agents) {
    forall i :: 0 <= i < |a.tasks| && a.tasks[i].state == Delivering ==> a.tasks[i].checkpoint.Some?
  }

  lemma DeliveriesStaySaved(a: Agents, lim: Limits, e: Event)
    requires DeliveriesSaved(a)
    ensures DeliveriesSaved(Apply(a, lim, e)) <==> !DeliversUnsaved(a, e)
  {
    var b := Apply(a, lim, e);
    if DeliversUnsaved(a, e) {
      assert b.tasks[e.op.task].state == Delivering && b.tasks[e.op.task].checkpoint.None?;
    }
  }

  /** Starts that are still open to a task: one while it is queued without a checkpoint. */
  ghost function StartsLeft(a: Agents, i: nat): nat {
    if i >= |a.tasks| || (a.tasks[i].state == Queued && a.tasks[i].checkpoint.None?) then 1 else 0
  }

  /** The step takes back the expired lease of a delivery that has nothing saved. */
  ghost predicate Relapses(a: Agents, e: Event, i: nat) {
    && i < |a.tasks| && a.tasks[i].state == Delivering && a.tasks[i].checkpoint.None? && a.tasks[i].leaseUntil < e.now
    && (e.op.Claim? || (e.op.Recover? && RecoverStep(a, e.op.task, e.op.owner, e.now).1.Ok?))
  }

  /** A step starts a task, or makes it startable again, without a recovery to account for
      it, exactly when it takes back a lost delivery with nothing saved. */
  lemma LostDeliveryRestartsExactly(a: Agents, lim: Limits, e: Event, i: nat)
    ensures StartsLeft(Apply(a, lim, e), i) + (if Starts(a, lim, e, i) then 1 else 0)
            <= StartsLeft(a, i) + (if Recovers(a, e, i) then 1 else 0)
            <==> !Relapses(a, e, i)
    ensures StartsLeft(Apply(a, lim, e), i) + (if Starts(a, lim, e, i) then 1 else 0)
            <= StartsLeft(a, i) + (if Recovers(a, e, i) then 1 else 0) + (if Relapses(a, e, i) then 1 else 0)
  {
  }

  ghost function RelapseCount(a: Agents, lim: Limits, events: seq<Event>, i: nat): nat
    decreases |events|
  {
    if events == [] then 0
    else (if Relapses(a, events[0], i) then 1 else 0) + RelapseCount(Apply(a, lim, events[0]), lim, events[1..], i)
  }

  /** Over any run, from any state: a task is started at most once, and once more for each
      successful recovery and for each lost delivery with nothing saved. */
  lemma {:induction false} StartsAreBounded(a: Agents, lim: Limits, events: seq<Event>, i: nat)
    ensures StartCount(a, lim, events, i) + StartsLeft(Run(a, lim, events), i)
            <= StartsLeft(a, i) + RecoverCount(a, lim, events, i) + RelapseCount(a, lim, events, i)
    decreases |events|
  {
    if events != [] {
      LostDeliveryRestartsExactly(a, lim, events[0], i);
      StartsAreBounded(Apply(a, lim, events[0]), lim, events[1..], i);
    }
  }

  ghost predicate SavesBeforeDelivery(a: Agents, lim: Limits, events: seq<Event>)
    decreases |events|
  {
    events != [] ==> !DeliversUnsaved(a, events[0]) && SavesBeforeDelivery(Apply(a, lim, events[0]), lim, events[1..])
  }

  /** If delivery is only entered with a checkpoint, no delivery relapses. */
  lemma {:induction false} SavedDeliveriesNeverRelapse(a: Agents, lim: Limits, events: seq<Event>, i: nat)
    requires DeliveriesSaved(a) && SavesBeforeDelivery(a, lim, events)
    ensures RelapseCount(a, lim, events, i) == 0
    decreases |events|
  {
    if events != [] {
      DeliveriesStaySaved(a, lim, events[0]);
      SavedDeliveriesNeverRelapse(Apply(a, lim, events[0]), lim, events[1..], i);
    }
  }

  function CreateFirst(now: int): Event {
    Event(Create("user", "key", "job"), now)
  }

  function Deliver(now: int): Event {
    Event(Update(0, 0, [], None, Some(Delivering), None, ""), now)
  }

  /** One row, claimed once. */
  function FirstTask(state: TaskState, now: int): Agents {
    Agents([Task("user", "key", "job", false, state, now, now, Some(0), now + LEASE_SECONDS, None, None, "")], [], [], 1)
  }

  lemma FirstClaim(lim: Limits, now: int)
    requires lim.concurrency > 0 && lim.perUser > 0 && lim.pendingPerUser > 0
    ensures Apply(Apply(EMPTY, lim, CreateFirst(now)), lim, Event(Claim, now)) == FirstTask(Running, now)
    ensures Starts(Apply(EMPTY, lim, CreateFirst(now)), lim, Event(Claim, now), 0)
  {
    assert PendingOf(EMPTY, "user") == {};
    var a := Apply(EMPTY, lim, CreateFirst(now));
    assert Leased(Expire(a, now)) == {} && LeasedBy(Expire(a, now), "user") == {};
    assert Claimable(Expire(a, now), 0, lim);
  }

  /** A reachable run that starts one task twice without a recovery: delivery is entered with
      nothing saved, and the lease runs out. */
  lemma UnsavedDeliveryStartsTwice(lim: Limits, now: int)
    requires lim.concurrency > 0 && lim.perUser > 0 && lim.pendingPerUser > 0
    ensures
      var events := [CreateFirst(now), Event(Claim, now), Deliver(now), Event(Claim, now + LEASE_SECONDS + 1)];
      StartCount(EMPTY, lim, events, 0) == 2 && RecoverCount(EMPTY, lim, events, 0) == 0
  {
    var e0, e1, e2, e3 := CreateFirst(now), Event(Claim, now), Deliver(now), Event(Claim, now + LEASE_SECONDS + 1);
    var r1, r2, r3 := [e1, e2, e3], [e2, e3], [e3];
    assert [e3] + [] == r3 && [e2] + r3 == r2 && [e1] + r2 == r1 && [e0] + r1 == [e0, e1, e2, e3];
    FirstClaim(lim, now);
    ClaimAgain(lim, now);
    var a, b, c := Apply(EMPTY, lim, e0), FirstTask(Running, now), FirstTask(Delivering, now);
    CountNext(c, lim, e3, [], 0);
    CountNext(b, lim, e2, r3, 0);
    CountNext(a, lim, e1, r2, 0);
    CountNext(EMPTY, lim, e0, r1, 0);
    assert StartCount(c, lim, r3, 0) == 1 && RecoverCount(c, lim, r3, 0) == 0;
    assert StartCount(b, lim, r2, 0) == 1 && RecoverCount(b, lim, r2, 0) == 0;
    assert StartCount(a, lim, r1, 0) == 2 && RecoverCount(a, lim, r1, 0) == 0;
  }

  lemma ClaimAgain(lim: Limits, now: int)
    requires lim.concurrency > 0 && lim.perUser > 0
    ensures Apply(FirstTask(Running, now), lim, Deliver(now)) == FirstTask(Delivering, now)
    ensures Starts(FirstTask(Delivering, now), lim, Event(Claim, now + LEASE_SECONDS + 1), 0)
  {
    var later := now + LEASE_SECONDS + 1;
    var c := FirstTask(Delivering, now);
    assert Apply(FirstTask(Running, now), lim, Deliver(now)).tasks == c.tasks;
    assert Leased(Expire(c, later)) == {} && LeasedBy(Expire(c, later), "user") == {};
    assert Claimable(Expire(c, later), 0, lim);
  }

  lemma CountNext(a: Agents, lim: Limits, e: Event, rest: seq<Event>, i: nat)
    ensures StartCount(a, lim, [e] + rest, i) == StartCount(Apply(a, lim, e), lim, rest, i) + if Starts(a, lim, e, i) then 1 else 0
    ensures RecoverCount(a, lim, [e] + rest, i) == RecoverCount(Apply(a, lim, e), lim, rest, i) + if Recovers(a, e, i) then 1 else 0
  {
    assert ([e] + rest)[1..] == rest;
  }

  // ---- Cancellation ------------------------------------------------------------------

  /** Cancelled, or on the way there; a cancelled task cannot be reported completed. */
  predicate Doomed(s: TaskState) {
    s.CancelRequested? || s.Cancelled? || s.Failed? || s.RecoveryRequired?
  }

  /** The two ways out: the worker asks for delivery, or the user for recovery. */
  ghost predicate Reprieve(a: Agents, e: Event, i: nat)
    requires i < |a.tasks|
  {
    || Recovers(a, e, i)
    || (e.op.Update? && e.op.task == i && HoldsLease(a, i, e.op.lease, e.now)
        && e.op.asked == Some(Delivering))
  }

  lemma DoomedUpdate(a: Agents, lim: Limits, e: Event, i: nat)
    requires LeasesOk(a, lim) && i < |a.tasks| && Doomed(a.tasks[i].state) && e.op.Update?
    ensures i < |Apply(a, lim, e).tasks|
    ensures Doomed(Apply(a, lim, e).tasks[i].state) <==> !Reprieve(a, e, i)
  {
    assert TaskOk(a, i);
  }

  lemma DoomedOtherwise(a: Agents, lim: Limits, e: Event, i: nat)
    requires LeasesOk(a, lim) && i < |a.tasks| && Doomed(a.tasks[i].state) && !e.op.Update?
    ensures i < |Apply(a, lim, e).tasks|
    ensures Doomed(Apply(a, lim, e).tasks[i].state) <==> !Reprieve(a, e, i)
  {
    assert TaskOk(a, i);
  }

  /** After a cancel request the task stays doomed in one step exactly when it is not reprieved. */
  lemma DoomedStep(a: Agents, lim: Limits, e: Event, i: nat)
    requires LeasesOk(a, lim) && i < |a.tasks| && Doomed(a.tasks[i].state)
    ensures i < |Apply(a, lim, e).tasks|
    ensures Doomed(Apply(a, lim, e).tasks[i].state) <==> !Reprieve(a, e, i)
  {
    if e.op.Update? {
      DoomedUpdate(a, lim, e, i);
    } else {
      DoomedOtherwise(a, lim, e, i);
    }
  }

  ghost predicate NeverReprieved(a: Agents, lim: Limits, events: seq<Event>, i: nat)
    decreases |events|
  {
    events != [] ==>
      && i < |a.tasks| && !Reprieve(a, events[0], i)
      && NeverReprieved(Apply(a, lim, events[0]), lim, events[1..], i)
  }

  ghost predicate AlwaysDoomed(a: Agents, lim: Limits, events: seq<Event>, i: nat)
    decreases |events|
  {
    && i < |a.tasks| && Doomed(a.tasks[i].state)
    && (events != [] ==> AlwaysDoomed(Apply(a, lim, events[0]), lim, events[1..], i))
  }

  /** A cancelled task is never reported completed, exactly as long as nobody reprieves it. */
  lemma {:induction false} CancelSticksExactly(a: Agents, lim: Limits, events: seq<Event>, i: nat)
    requires LeasesOk(a, lim) && i < |a.tasks| && Doomed(a.tasks[i].state)
    ensures AlwaysDoomed(a, lim, events, i) <==> NeverReprieved(a, lim, events, i)
    decreases |events|
  {
    if events != [] {
      DoomedStep(a, lim, events[0], i);
      StepLeases(a, lim, events[0]);
      if Doomed(Apply(a, lim, events[0]).tasks[i].state) {
        CancelSticksExactly(Apply(a, lim, events[0]), lim, events[1..], i);
      }
    }
  }

  /** A reachable run in which a cancelled task is delivering again at its end. */
  lemma DeliveryUndoesCancel(lim: Limits, now: int)
    requires lim.concurrency > 0 && lim.perUser > 0 && lim.pendingPerUser > 0
    ensures
      var cancelled := Apply(FirstTask(Running, now), lim, Event(Cancel(0, "user"), now));
      && Apply(Apply(EMPTY, lim, CreateFirst(now)), lim, Event(Claim, now)) == FirstTask(Running, now)
      && cancelled.tasks[0].state == CancelRequested
      && Apply(cancelled, lim, Deliver(now)).tasks[0].state == Delivering
      && !AlwaysDoomed(cancelled, lim, [Deliver(now)], 0)
  {
    FirstClaim(lim, now);
    var cancelled := Apply(FirstTask(Running, now), lim, Event(Cancel(0, "user"), now));
    var undone := Apply(cancelled, lim, Deliver(now));
    assert [Deliver(now)][1..] == [];
    assert !AlwaysDoomed(undone, lim, [], 0);
  }
}
