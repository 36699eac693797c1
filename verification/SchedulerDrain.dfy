/** Progress of the queue: the drain order of an idle cluster, and what an admitted
    child job may count on (utils/task_sessions.py). */
module SchedulerDrain {
  import opened Values
  import opened LogLines
  import opened SchedulerModel
  import opened SchedulerSafety

  ghost predicate Idle(t: Tables) {
    forall i :: 0 <= i < |t.jobs| ==> t.jobs[i].status != Running
  }

  /** Who works in a round, how the job ends, and the clock and the files at its claim and at
      its completion. */
  datatype Turn = Turn(port: int, pid: int, log: string, ok: bool, claimed: int, before: Files, done: int, after: Files)

  /** One round of a default worker: claim a row and complete it. */
  ghost function Round(t: Tables, r: Turn): (Tables, Option<nat>) {
    var (claimed, row) := ClaimStep(t, r.port, r.pid, "default", r.log, r.before, r.claimed);
    if row.None? then (claimed, None)
    else (CompleteStep(claimed, claimed.jobs[row.value].item.promptId, r.port, r.ok, r.log, r.after, r.done), row)
  }

  /** The rows that the rounds hand out, in order. */
  ghost function Drain(t: Tables, turns: seq<Turn>): seq<Option<nat>>
    decreases |turns|
  {
    if turns == [] then []
    else
      var (u, row) := Round(t, turns[0]);
      [row] + Drain(u, turns[1..])
  }

  lemma IdleEligible(t: Tables, i: nat)
    requires Idle(t) && i < |t.jobs|
    ensures Eligible(t.jobs, i, "default") <==> t.jobs[i].status == Queued
  {
    assert RunningRows(t.jobs, t.jobs[i].owner, t.jobs[i].resource) == {};
  }

  /** With nothing running, a default worker is handed the first queued row. */
  lemma IdleClaimTakesFirst(t: Tables, port: int, pid: int, log: string, files: Files, now: int)
    requires Idle(t) && RowsWith(t.jobs, Queued) != {}
    ensures
      var (claimed, row) := ClaimStep(t, port, pid, "default", log, files, now);
      && row.Some? && row.value in RowsWith(t.jobs, Queued)
      && (forall j :: j in RowsWith(t.jobs, Queued) && j != row.value ==> Before(t.jobs, row.value, j))
      && claimed.jobs == t.jobs[row.value := ClaimedRow(t.jobs[row.value], port, log, files, now)]
  {
    forall i: nat | i < |t.jobs|
      ensures Eligible(t.jobs, i, "default") <==> t.jobs[i].status == Queued
    {
      IdleEligible(t, i);
    }
    var first :| first in RowsWith(t.jobs, Queued);
    assert Eligible(t.jobs, first, "default");
  }

  /** A round leaves the table as it was but for the status of the row it took. */
  lemma RoundFinishesRow(t: Tables, i: nat, r: Turn)
    requires Idle(t) && UniqueIds(t.jobs)
    requires ClaimStep(t, r.port, r.pid, "default", r.log, r.before, r.claimed).1 == Some(i)
    ensures
      var u := Round(t, r).0;
      && i < |t.jobs| && |u.jobs| == |t.jobs| && SameRow(t.jobs[i], u.jobs[i])
      && (u.jobs[i].status == Completed || u.jobs[i].status == Failed)
      && forall j :: 0 <= j < |t.jobs| && j != i ==> u.jobs[j] == t.jobs[j]
  {
    var claimed := ClaimStep(t, r.port, r.pid, "default", r.log, r.before, r.claimed).0;
    assert UniqueIds(claimed.jobs);
    FindIs(claimed.jobs, i);
  }

  lemma RoundTakesFirst(t: Tables, r: Turn)
    requires Idle(t) && UniqueIds(t.jobs) && RowsWith(t.jobs, Queued) != {}
    ensures
      var (u, row) := Round(t, r);
      && row.Some? && row.value in RowsWith(t.jobs, Queued)
      && (forall j :: j in RowsWith(t.jobs, Queued) && j != row.value ==> Before(t.jobs, row.value, j))
      && SameOrder(t, u)
      && RowsWith(u.jobs, Queued) == RowsWith(t.jobs, Queued) - {row.value}
  {
    IdleClaimTakesFirst(t, r.port, r.pid, r.log, r.before, r.claimed);
    var i := ClaimStep(t, r.port, r.pid, "default", r.log, r.before, r.claimed).1.value;
    RoundFinishesRow(t, i, r);
  }

  ghost predicate SameOrder(t: Tables, u: Tables) {
    && Idle(u) && UniqueIds(u.jobs) && |u.jobs| == |t.jobs|
    && forall j :: 0 <= j < |t.jobs| ==> u.jobs[j].item == t.jobs[j].item
  }

  ghost predicate StrictlyOrdered(jobs: seq<Job>, order: seq<Option<nat>>) {
    && (forall k :: 0 <= k < |order| ==> order[k].Some? && order[k].value < |jobs|)
    && (forall j, k :: 0 <= j < k < |order| ==> Before(jobs, order[j].value, order[k].value))
  }

  /** From any state with nothing running, default workers that take turns to claim and
      complete take all n queued jobs in n rounds, in strict (priority, sequence) order. */
  lemma {:induction false} DrainsInOrder(t: Tables, turns: seq<Turn>)
    requires Idle(t) && UniqueIds(t.jobs)
    requires |turns| == |RowsWith(t.jobs, Queued)|
    ensures
      var order := Drain(t, turns);
      && |order| == |turns|
      && StrictlyOrdered(t.jobs, order)
      && forall i :: i in RowsWith(t.jobs, Queued) <==> Some(i) in order
    decreases |turns|
  {
    if turns == [] {
      assert RowsWith(t.jobs, Queued) == {};
    } else {
      RoundTakesFirst(t, turns[0]);
      var (u, row) := Round(t, turns[0]);
      var rest := Drain(u, turns[1..]);
      DrainsInOrder(u, turns[1..]);
      OrderExtends(t, u, row.value, rest);
      assert Drain(t, turns) == [row] + rest;
    }
  }

  lemma OrderExtends(t: Tables, u: Tables, first: nat, rest: seq<Option<nat>>)
    requires SameOrder(t, u) && StrictlyOrdered(u.jobs, rest)
    requires first in RowsWith(t.jobs, Queued)
    requires forall j :: j in RowsWith(t.jobs, Queued) && j != first ==> Before(t.jobs, first, j)
    requires RowsWith(u.jobs, Queued) == RowsWith(t.jobs, Queued) - {first}
    requires forall i :: i in RowsWith(u.jobs, Queued) <==> Some(i) in rest
    ensures StrictlyOrdered(t.jobs, [Some(first)] + rest)
    ensures forall i :: i in RowsWith(t.jobs, Queued) <==> Some(i) in [Some(first)] + rest
  {
    var order := [Some(first)] + rest;
    forall k | 0 <= k < |rest|
      ensures rest[k].Some? && rest[k].value < |t.jobs| && Before(t.jobs, first, rest[k].value)
    {
      assert Some(rest[k].value) in rest;
    }
    forall j, k | 0 <= j < k < |order|
      ensures Before(t.jobs, order[j].value, order[k].value)
    {
      if j > 0 {
        assert Before(u.jobs, rest[j - 1].value, rest[k - 1].value);
      }
    }
  }

  // ---- Admission of child jobs -------------------------------------------------------

  /** idle_worker_ports: live, compatible workers whose active job is not running. */
  predicate IdleWorker(t: Tables, port: int, resource: string, cutoff: int) {
    && port in t.workers
    && t.workers[port].lastHeartbeat >= cutoff
    && !ActiveRuns(t, port)
    && (t.workers[port].resource == "default" || resource == "default" || t.workers[port].resource == resource)
  }

  predicate LiveWorker(t: Tables, port: int, cutoff: int) {
    port in t.workers && t.workers[port].lastHeartbeat >= cutoff
  }

  datatype Refusal = ParentNotRunning | NeedsAnotherWorker | ConcurrencyFull | NoFreeWorker

  /** The POST /prompt part of authorize, for a parent job running under `owner`. */
  ghost function Authorize(t: Tables, cfg: Config, parent: string, owner: string, admin: bool, item: Item, self: int, now: int)
    : (r: Result<set<int>, Refusal>)
  {
    var row := Find(t.jobs, parent);
    var cutoff := Cutoff(now, 60);
    var resource := Classify(cfg, item);
    var limit := LimitFor(cfg, admin, resource);
    var idle := (set p | p in t.workers && IdleWorker(t, p, resource, cutoff)) - {self};
    if row.None? || t.jobs[row.value].status != Running || t.jobs[row.value].owner != owner || owner == "" then Err(ParentNotRunning)
    else if |set p | p in t.workers && LiveWorker(t, p, cutoff)| < 2 then Err(NeedsAnotherWorker)
    else if limit != 0 && |RunningRows(t.jobs, owner, resource)| >= limit then Err(ConcurrencyFull)
    else if idle == {} then Err(NoFreeWorker)
    else Ok(idle)
  }

  /** An admitted child is under its limit in the state right after its enqueue, and on every
      idle port other than the parent's the next claim returns a job; such a port exists. */
  lemma AdmissionIsSound(t: Tables, cfg: Config, parent: string, owner: string, admin: bool, item: Item, self: int,
                         pid: int, log: string, files: Files, now: int)
    requires Find(t.jobs, item.promptId).None?
    ensures
      var answer := Authorize(t, cfg, parent, owner, admin, item, self, now);
      var u := Apply(t, Event(Enqueue(cfg, item, owner, admin, ""), now, files));
      answer.Ok? ==>
        && answer.value != {} && self !in answer.value
        && UnderLimit(u.jobs, |t.jobs|)
        && forall port :: port in answer.value ==>
             ClaimStep(u, port, pid, t.workers[port].resource, log, files, now).1.Some?
  {
    var answer := Authorize(t, cfg, parent, owner, admin, item, self, now);
    var u := Apply(t, Event(Enqueue(cfg, item, owner, admin, ""), now, files));
    if answer.Ok? {
      var child := |t.jobs|;
      var resource := Classify(cfg, item);
      assert RunningRows(u.jobs, owner, resource) == RunningRows(t.jobs, owner, resource);
      forall port | port in answer.value
        ensures ClaimStep(u, port, pid, t.workers[port].resource, log, files, now).1.Some?
      {
        assert IdleWorker(t, port, resource, Cutoff(now, 60));
        assert Eligible(u.jobs, child, ClassOrDefault(t.workers[port].resource));
        if t.workers[port].active.Some? {
          EnqueueFind(t, u, t.workers[port].active.value);
        }
      }
    }
  }

  lemma EnqueueFind(t: Tables, u: Tables, id: string)
    requires |u.jobs| == |t.jobs| + 1 && u.jobs[..|t.jobs|] == t.jobs && u.jobs[|t.jobs|].status == Queued
    ensures HasStatus(u.jobs, id, Running) ==> HasStatus(t.jobs, id, Running)
  {
    assert u.jobs[..|u.jobs| - 1] == t.jobs;
  }
}
