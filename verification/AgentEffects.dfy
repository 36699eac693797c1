/** What each Agent transaction does to each row, said of the rows themselves, and that what
    an Agent reports is what its client reads (utils/agent_tasks.py). */
module AgentEffects {
  import opened Values
  import opened AgentModel
  import opened AgentSafety
  import opened AgentStore

  // ---- Reports reach readers ---------------------------------------------------------

  /** The update is accepted: its lease is the row's, has not run out, and it asks for an end
      or for delivery, if for anything. */
  predicate Accepts(a: Agents, task: nat, lease: nat, asked: Option<TaskState>, now: int) {
    && task < |a.tasks| && a.tasks[task].lease == Some(lease) && a.tasks[task].leaseUntil >= now
    && (asked.None? || asked.value in {Completed, Failed, Cancelled, RecoveryRequired, Delivering})
  }

  /** The texts of the events of one row, in the order of the table. */
  function Texts(events: seq<Entry>, task: nat): seq<string> {
    if events == [] then []
    else Texts(events[..|events| - 1], task) + if events[|events| - 1].task == task then [events[|events| - 1].event] else []
  }

  /** What the accepted updates of one row report over a run, one list after the other. */
  ghost function Reported(a: Agents, lim: Limits, run: seq<Event>, task: nat): seq<string>
    decreases |run|
  {
    if run == [] then []
    else
      (if run[0].op.Update? && run[0].op.task == task && Accepts(a, task, run[0].op.lease, run[0].op.asked, run[0].now)
       then run[0].op.events else [])
      + Reported(Apply(a, lim, run[0]), lim, run[1..], task)
  }

  lemma {:induction false} TextsOfMore(events: seq<Entry>, more: seq<Entry>, task: nat)
    ensures Texts(events + more, task) == Texts(events, task) + Texts(more, task)
  {
    if more == [] {
      assert events + more == events;
    } else {
      assert (events + more)[..|events + more| - 1] == events + more[..|more| - 1];
      TextsOfMore(events, more[..|more| - 1], task);
    }
  }

  lemma {:induction false} TextsOfEntries(task: nat, lease: nat, texts: seq<string>, other: nat)
    ensures Texts(Entries(task, lease, texts), other) == if other == task then texts else []
  {
    if texts != [] {
      var n := |texts| - 1;
      assert Entries(task, lease, texts)[..n] == Entries(task, lease, texts[..n]);
      TextsOfEntries(task, lease, texts[..n], other);
      assert texts[..n] + [texts[n]] == texts;
    }
  }

  /** A step adds what it reports to the texts of its row, and nothing else to any row. */
  lemma StepRecords(a: Agents, lim: Limits, e: Event, task: nat)
    ensures
      Texts(Apply(a, lim, e).events, task)
      == Texts(a.events, task)
         + if e.op.Update? && e.op.task == task && Accepts(a, task, e.op.lease, e.op.asked, e.now) then e.op.events else []
  {
    if e.op.Update? {
      if Accepts(a, e.op.task, e.op.lease, e.op.asked, e.now) {
        TextsOfMore(a.events, Entries(e.op.task, e.op.lease, e.op.events), task);
        TextsOfEntries(e.op.task, e.op.lease, e.op.events, task);
      }
    } else {
      OnlyUpdatesWrite(a, lim, e);
    }
  }

  /** Over any run, the events of a row are exactly what its accepted updates reported, in
      order: none is lost, none is doubled, and a refused update adds none. */
  lemma {:induction false} RunRecords(a: Agents, lim: Limits, run: seq<Event>, task: nat)
    ensures Texts(Run(a, lim, run).events, task) == Texts(a.events, task) + Reported(a, lim, run, task)
    decreases |run|
  {
    if run != [] {
      StepRecords(a, lim, run[0], task);
      RunRecords(Apply(a, lim, run[0]), lim, run[1..], task);
    }
  }

  function Contents(page: seq<Numbered>): (r: seq<string>)
    ensures |r| == |page|
  {
    seq(|page|, k requires 0 <= k < |page| => page[k].event)
  }

  /** What comes after a number are the texts of the row's later entries. */
  lemma {:induction false} AfterIsTheRest(events: seq<Entry>, task: nat, after: nat)
    ensures Contents(After(events, task, after)) == Texts(events[Min(after, |events|)..], task)
  {
    if events != [] {
      var n := |events| - 1;
      AfterIsTheRest(events[..n], task, after);
      var rest := events[Min(after, |events|)..];
      if after <= n {
        assert rest[..|rest| - 1] == events[..n][Min(after, n)..];
      } else {
        assert events[..n][Min(after, n)..] == [] && rest == [];
      }
      var mine := After(events[..n], task, after);
      assert Contents(mine + [Numbered(|events|, events[n].event)]) == Contents(mine) + [events[n].event];
    }
  }

  /** A client that has read everything and then polls until nothing comes, reads exactly what
      the accepted updates of its row have reported since, in order. */
  lemma PollingReadsReports(a: Agents, lim: Limits, run: seq<Event>, task: nat, rounds: nat)
    requires rounds * 200 >= |Reported(a, lim, run, task)|
    ensures Contents(Poll(Run(a, lim, run).events, task, |a.events|, rounds)) == Reported(a, lim, run, task)
  {
    var end := Run(a, lim, run);
    EventsGrow(a, lim, run);
    RunRecords(a, lim, run, task);
    var rest := end.events[|a.events|..];
    assert end.events == a.events + rest;
    TextsOfMore(a.events, rest, task);
    SameRest(Texts(a.events, task), Texts(rest, task), Reported(a, lim, run, task));
    AfterIsTheRest(end.events, task, |a.events|);
    assert |Contents(After(end.events, task, |a.events|))| == |After(end.events, task, |a.events|)|;
    PollingReadsEachEventOnce(end.events, task, |a.events|, rounds);
  }

  lemma SameRest(s: seq<string>, t: seq<string>, u: seq<string>)
    requires s + t == s + u
    ensures t == u
  {
    assert (s + t)[|s|..] == t && (s + u)[|s|..] == u;
  }

  lemma {:induction false} EventsGrow(a: Agents, lim: Limits, run: seq<Event>)
    ensures a.events <= Run(a, lim, run).events
    decreases |run|
  {
    if run != [] {
      if !run[0].op.Update? {
        OnlyUpdatesWrite(a, lim, run[0]);
      }
      EventsGrow(Apply(a, lim, run[0]), lim, run[1..]);
    }
  }

  /** What is read are entries of this row, each under its place in the table counted from
      one, and above the number asked from. */
  lemma {:induction false} AfterHoldsEntries(events: seq<Entry>, task: nat, after: nat)
    ensures
      forall k :: 0 <= k < |After(events, task, after)| ==>
        var x := After(events, task, after)[k];
        after < x.number <= |events| && events[x.number - 1].task == task && events[x.number - 1].event == x.event
  {
    if events != [] {
      AfterHoldsEntries(events[..|events| - 1], task, after);
    }
  }

  /** One page has the first two hundred of them, or all when there are fewer. */
  lemma PageExactly(events: seq<Entry>, task: nat, after: nat)
    ensures
      var page, all := Page(events, task, after), After(events, task, after);
      page <= all && |page| == if |all| < 200 then |all| else 200
  {
  }

  // ---- Rows --------------------------------------------------------------------------

  /** An update is refused without a trace; an accepted one renews the lease for ninety
      seconds or gives it up at an end, saves what it brings, and keeps what it does not. */
  lemma UpdateExactly(a: Agents, task: nat, lease: nat, events: seq<string>, checkpoint: Option<string>,
                      asked: Option<TaskState>, result: Option<string>, error: string, now: int)
    ensures
      var (b, r) := UpdateStep(a, task, lease, events, checkpoint, asked, result, error, now);
      && (r.Ok? <==> Accepts(a, task, lease, asked, now))
      && (r.Err? ==> b == a && (r.error == LeaseLost <==> !Accepts(a, task, lease, None, now)))
      && (r.Ok? ==>
            var was, row := a.tasks[task], b.tasks[task];
            && |b.tasks| == |a.tasks| && b.children == a.children && b.nextLease == a.nextLease
            && (forall i :: 0 <= i < |a.tasks| && i != task ==> b.tasks[i] == a.tasks[i])
            && r.value == row.state
            && row.state == (if asked.None? then was.state
                             else if was.state == CancelRequested && asked.value == Completed then Cancelled else asked.value)
            && row.lease == (if row.state in {Completed, Failed, Cancelled, RecoveryRequired} then None else Some(lease))
            && row.leaseUntil == now + 90 && row.updated == now
            && row.checkpoint == (if checkpoint.Some? then checkpoint else was.checkpoint)
            && row.result == (if result.Some? then result else was.result)
            && row.error == (if |error| <= 1000 then error else error[..1000])
            && row == was.(state := row.state, lease := row.lease, leaseUntil := row.leaseUntil, updated := row.updated,
                           checkpoint := row.checkpoint, result := row.result, error := row.error))
  {
  }

  /** A lease runs out exactly when its time is past; a delivery then goes back to the queue,
      and anything else waits for a recovery. */
  lemma ExpireExactly(a: Agents, now: int, i: nat)
    requires i < |a.tasks|
    ensures
      var b, was := Expire(a, now), a.tasks[i];
      && b.events == a.events && b.children == a.children && b.nextLease == a.nextLease && |b.tasks| == |a.tasks|
      && if was.state in {Running, Delivering, CancelRequested} && was.leaseUntil < now
         then
           && b.tasks[i].error != ""
           && b.tasks[i] == was.(state := if was.state == Delivering then Queued else RecoveryRequired, lease := None, updated := now,
                                 error := b.tasks[i].error)
         else b.tasks[i] == was
  {
  }

  /** Row `i` can be claimed in these tables: it is queued and its owner holds fewer leases
      than one owner may. */
  ghost predicate Ready(tasks: seq<Task>, i: nat, perUser: nat) {
    && i < |tasks| && tasks[i].state == Queued
    && |set j: nat | j < |tasks| && tasks[j].lease.Some? && tasks[j].owner == tasks[i].owner| < perUser
  }

  lemma ReadyIs(a: Agents, lim: Limits)
    ensures forall i: nat :: i < |a.tasks| ==> (Ready(a.tasks, i, lim.perUser) <==> Claimable(a, i, lim))
  {
    forall i: nat | i < |a.tasks|
      ensures Ready(a.tasks, i, lim.perUser) <==> Claimable(a, i, lim)
    {
      assert LeasedBy(a, a.tasks[i].owner) == set j: nat | j < |a.tasks| && a.tasks[j].lease.Some? && a.tasks[j].owner == a.tasks[i].owner;
    }
  }

  /** After expired leases are taken back, a claim hands out a row exactly when the leases
      are fewer than the limit and some row is ready; it is an oldest ready one, it gets an
      unused lease for ninety seconds, and it delivers if it has a checkpoint, or starts. */
  lemma ClaimExactly(a: Agents, lim: Limits, now: int)
    ensures
      var (b, row) := ClaimStep(a, lim, now);
      var tasks := Expire(a, now).tasks;
      && b.events == a.events && b.children == a.children && |b.tasks| == |a.tasks|
      && (row.Some? <==>
            && |set i: nat | i < |tasks| && tasks[i].lease.Some?| < lim.concurrency
            && exists i: nat :: i < |tasks| && Ready(tasks, i, lim.perUser))
      && b.nextLease == (if row.Some? then a.nextLease + 1 else a.nextLease)
      && (row.Some? ==>
            && Ready(tasks, row.value, lim.perUser)
            && forall j: nat :: j < |tasks| && Ready(tasks, j, lim.perUser) ==> tasks[row.value].created <= tasks[j].created)
      && forall i: nat :: i < |tasks| ==>
           b.tasks[i] == if row == Some(i)
                         then tasks[i].(state := if tasks[i].checkpoint.Some? then Delivering else Running, lease := Some(a.nextLease),
                                        leaseUntil := now + 90, updated := now, error := "")
                         else tasks[i]
  {
    var b := Expire(a, now);
    ReadyIs(b, lim);
    assert Leased(b) == set i: nat | i < |b.tasks| && b.tasks[i].lease.Some?;
  }

  /** A submission is answered with the row of its owner and key if there is one; a new row
      is added, queued, unless the owner has as many unfinished ones as allowed. */
  lemma CreateExactly(a: Agents, lim: Limits, owner: string, key: string, job: string, now: int)
    ensures
      var (b, r) := CreateStep(a, lim, owner, key, job, now);
      var known := exists i :: 0 <= i < |a.tasks| && a.tasks[i].owner == owner && a.tasks[i].submissionKey == key;
      var pending := set i: nat | i < |a.tasks| && a.tasks[i].owner == owner
                                  && a.tasks[i].state in {Queued, Running, Delivering, CancelRequested};
      && (known ==> b == a && r.Ok? && r.value < |a.tasks| && a.tasks[r.value].owner == owner && a.tasks[r.value].submissionKey == key)
      && (!known && |pending| >= lim.pendingPerUser ==> b == a && r == Err(PendingLimit))
      && (!known && |pending| < lim.pendingPerUser ==>
            && r == Ok(|a.tasks|)
            && b == a.(tasks := a.tasks + [Task(owner, key, job, false, Queued, now, now, None, 0, None, None, "")]))
  {
    assert PendingOf(a, owner) == set i: nat | i < |a.tasks| && a.tasks[i].owner == owner
                                               && a.tasks[i].state in {Queued, Running, Delivering, CancelRequested};
  }

  ghost predicate DistinctKeys(a: Agents) {
    forall i, j :: 0 <= i < j < |a.tasks| ==> a.tasks[i].owner != a.tasks[j].owner || a.tasks[i].submissionKey != a.tasks[j].submissionKey
  }

  /** What a submission wrote into its row for good. */
  predicate SameSubmission(t: Task, u: Task) {
    u.owner == t.owner && u.submissionKey == t.submissionKey && u.job == t.job && u.created == t.created
  }

  lemma ClaimKeepsSubmission(a: Agents, lim: Limits, now: int, i: nat)
    requires i < |a.tasks|
    ensures SameSubmission(a.tasks[i], ClaimStep(a, lim, now).0.tasks[i])
  {
    ExpireExactly(a, now, i);
    ClaimExactly(a, lim, now);
  }

  lemma RecoverKeepsSubmission(a: Agents, task: nat, owner: string, now: int, i: nat)
    requires i < |a.tasks|
    ensures i < |RecoverStep(a, task, owner, now).0.tasks|
    ensures SameSubmission(a.tasks[i], RecoverStep(a, task, owner, now).0.tasks[i])
  {
    ExpireExactly(a, now, i);
    RecoverExactly(a, task, owner, now);
  }

  lemma RowKeepsSubmission(a: Agents, lim: Limits, e: Event, i: nat)
    requires i < |a.tasks|
    ensures i < |Apply(a, lim, e).tasks| && SameSubmission(a.tasks[i], Apply(a, lim, e).tasks[i])
  {
    if e.op.Claim? {
      ClaimKeepsSubmission(a, lim, e.now, i);
    } else if e.op.Recover? {
      RecoverKeepsSubmission(a, e.op.task, e.op.owner, e.now, i);
    } else {
      OtherKeepsSubmission(a, lim, e, i);
    }
  }

  lemma OtherKeepsSubmission(a: Agents, lim: Limits, e: Event, i: nat)
    requires i < |a.tasks| && !e.op.Claim? && !e.op.Recover?
    ensures i < |Apply(a, lim, e).tasks| && SameSubmission(a.tasks[i], Apply(a, lim, e).tasks[i])
  {
  }

  lemma NewRowIsNew(a: Agents, lim: Limits, e: Event)
    ensures |Apply(a, lim, e).tasks| <= |a.tasks| + 1
    ensures |Apply(a, lim, e).tasks| > |a.tasks| ==>
              var t := Apply(a, lim, e).tasks[|a.tasks|];
              forall i :: 0 <= i < |a.tasks| ==> a.tasks[i].owner != t.owner || a.tasks[i].submissionKey != t.submissionKey
  {
  }

  /** The row of a submission keeps its place, its owner and its key, and no other has both. */
  lemma StepKeepsKeys(a: Agents, lim: Limits, e: Event)
    requires DistinctKeys(a)
    ensures DistinctKeys(Apply(a, lim, e)) && |a.tasks| <= |Apply(a, lim, e).tasks|
    ensures forall i :: 0 <= i < |a.tasks| ==> SameSubmission(a.tasks[i], Apply(a, lim, e).tasks[i])
  {
    var b := Apply(a, lim, e);
    RowsKeepSubmissions(a, lim, e);
    NewRowIsNew(a, lim, e);
    forall i, j | 0 <= i < j < |b.tasks|
      ensures b.tasks[i].owner != b.tasks[j].owner || b.tasks[i].submissionKey != b.tasks[j].submissionKey
    {
      assert SameSubmission(a.tasks[i], b.tasks[i]);
      if j < |a.tasks| {
        assert SameSubmission(a.tasks[j], b.tasks[j]);
      }
    }
  }

  lemma RowsKeepSubmissions(a: Agents, lim: Limits, e: Event)
    ensures |a.tasks| <= |Apply(a, lim, e).tasks|
    ensures forall i :: 0 <= i < |a.tasks| ==> SameSubmission(a.tasks[i], Apply(a, lim, e).tasks[i])
  {
    if |a.tasks| > 0 {
      RowKeepsSubmission(a, lim, e, |a.tasks| - 1);
    }
    forall i | 0 <= i < |a.tasks|
      ensures SameSubmission(a.tasks[i], Apply(a, lim, e).tasks[i])
    {
      RowKeepsSubmission(a, lim, e, i);
    }
  }

  /** A submission repeated after any run is answered with the row it made the first time,
      and makes no second one. */
  lemma {:induction false} CreateIsIdempotent(a: Agents, lim: Limits, row: nat, run: seq<Event>, job: string, now: int)
    requires DistinctKeys(a) && row < |a.tasks|
    ensures
      var end := Run(a, lim, run);
      CreateStep(end, lim, a.tasks[row].owner, a.tasks[row].submissionKey, job, now) == (end, Ok(row))
    decreases |run|
  {
    if run == [] {
      var known := FindSubmission(a.tasks, a.tasks[row].owner, a.tasks[row].submissionKey);
      assert known.Some?;
      assert known.value == row;
    } else {
      StepKeepsKeys(a, lim, run[0]);
      CreateIsIdempotent(Apply(a, lim, run[0]), lim, row, run[1..], job, now);
    }
  }

  /** Only the owner can cancel; a queued row is cancelled at once, one under way is asked to
      stop and keeps its lease, anything else stays. */
  lemma CancelExactly(a: Agents, task: nat, owner: string, now: int, i: nat)
    requires i < |a.tasks|
    ensures
      var b, was := CancelStep(a, task, owner, now), a.tasks[i];
      && b == a.(tasks := b.tasks) && |b.tasks| == |a.tasks|
      && if i == task && was.owner == owner && was.state in {Queued, Running, Delivering}
         then b.tasks[i] == was.(state := if was.state == Queued then Cancelled else CancelRequested, updated := now)
         else b.tasks[i] == was
  {
  }

  /** The owner can queue a row again exactly when it is, or is just being, interrupted and
      has a checkpoint or a child; without a checkpoint it may only recover. A refusal changes
      nothing, an accepted call also takes back what has expired elsewhere. */
  lemma RecoverExactly(a: Agents, task: nat, owner: string, now: int)
    ensures
      var (b, r) := RecoverStep(a, task, owner, now);
      var tasks := Expire(a, now).tasks;
      var saved := task < |a.tasks|
                   && (a.tasks[task].checkpoint.Some? || exists c :: 0 <= c < |a.children| && a.children[c].task == task);
      var mine := task < |a.tasks| && a.tasks[task].owner == owner && tasks[task].state == RecoveryRequired;
      && (r.Ok? <==> mine && saved) && (r == Err(NothingSaved) <==> mine && !saved) && (r.Err? ==> b == a)
      && (r.Ok? ==>
            && b == a.(tasks := b.tasks) && |b.tasks| == |a.tasks|
            && (forall i :: 0 <= i < |a.tasks| && i != task ==> b.tasks[i] == tasks[i])
            && b.tasks[task] == tasks[task].(state := Queued, lease := None, error := "", updated := now,
                                             recoveryOnly := a.tasks[task].recoveryOnly || a.tasks[task].checkpoint.None?))
  {
  }

  /** A child is reserved exactly while its parent runs under a live lease: the same key and
      workflow give the same child, another workflow is refused, a new key adds a child. */
  lemma ReserveExactly(a: Agents, task: nat, key: string, fingerprint: string, promptId: string, now: int)
    requires forall c, d :: 0 <= c < d < |a.children| ==> (a.children[c].task, a.children[c].key) != (a.children[d].task, a.children[d].key)
    ensures
      var (b, r) := ReserveStep(a, task, key, fingerprint, promptId, now);
      var open := task < |a.tasks| && a.tasks[task].state == Running && a.tasks[task].leaseUntil >= now;
      && (r == Err(NotRunning) <==> !open)
      && (r.Err? ==> b == a)
      && (open ==>
            && (forall c :: 0 <= c < |a.children| && a.children[c].task == task && a.children[c].key == key ==>
                  b == a && r == if a.children[c].fingerprint == fingerprint then Ok((a.children[c], false)) else Err(KeyReused))
            && ((forall c :: 0 <= c < |a.children| ==> a.children[c].task != task || a.children[c].key != key) ==>
                  var child := Child(task, key, fingerprint, promptId, None);
                  b == a.(children := a.children + [child]) && r == Ok((child, true))))
  {
    var row := FindChild(a.children, task, key);
    forall c | 0 <= c < |a.children| && a.children[c].task == task && a.children[c].key == key
      ensures row == Some(c)
    {
      assert row.Some? && (a.children[row.value].task, a.children[row.value].key) == (a.children[c].task, a.children[c].key);
    }
  }

  /** An answer is recorded with the children of that prompt id, and with no other. */
  lemma RespondExactly(a: Agents, promptId: string, response: string, c: nat)
    requires c < |a.children|
    ensures
      var b := RespondStep(a, promptId, response);
      && b == a.(children := b.children) && |b.children| == |a.children|
      && b.children[c] == if a.children[c].promptId == promptId then a.children[c].(response := Some(response)) else a.children[c]
  {
  }
}
