/** The two request handlers of utils/agent_task_routes.py that touch both stores, each a
    sequence of store calls, proved to be the steps of ChildProtocol one after the other. */
module AgentRoutes {
  import opened Values
  import A = AgentModel
  import S = SchedulerModel
  import Safety = SchedulerSafety
  import AStore = AgentStore
  import SStore = SchedulerStore
  import opened ChildProtocol
  import ChildSafety

  // ---- Cancelling a task -------------------------------------------------------------

  /** The queue after the listed children have been cancelled in turn. */
  function CancelAllOf(queue: S.Tables, ids: seq<string>, owner: string, now: int): S.Tables
    decreases |ids|
  {
    if ids == [] then queue else CancelAllOf(S.CancelStep(queue, ids[0], owner, false, now).0, ids[1..], owner, now)
  }

  /** A job that a worker is executing can be told to stop. */
  predicate Stoppable(queue: S.Tables, id: string) {
    var row := S.Find(queue.jobs, id);
    row.Some? && queue.jobs[row.value].status == S.Running
    && queue.jobs[row.value].workerPort.Some? && queue.jobs[row.value].workerPort.value != 0
  }

  /** The running ones among the listed children, which are told to stop. */
  function Interrupted(queue: S.Tables, ids: seq<string>, owner: string, now: int): seq<string>
    decreases |ids|
  {
    if ids == [] then []
    else
      var after := S.CancelStep(queue, ids[0], owner, false, now).0;
      (if Stoppable(after, ids[0]) then [ids[0]] else []) + Interrupted(after, ids[1..], owner, now)
  }

  /** What is left of going through the list from position `i` on: the queue at its end, and
      the children that will still be told to stop. */
  ghost function Remaining(queue: S.Tables, ids: seq<string>, i: nat, owner: string, now: int): (S.Tables, seq<string>)
    requires i <= |ids|
    decreases |ids| - i
  {
    if i == |ids| then (queue, [])
    else
      var after := S.CancelStep(queue, ids[i], owner, false, now).0;
      var rest := Remaining(after, ids, i + 1, owner, now);
      (rest.0, (if Stoppable(after, ids[i]) then [ids[i]] else []) + rest.1)
  }

  lemma {:induction false} RemainingIs(queue: S.Tables, ids: seq<string>, i: nat, owner: string, now: int)
    requires i <= |ids|
    ensures Remaining(queue, ids, i, owner, now) == (CancelAllOf(queue, ids[i..], owner, now), Interrupted(queue, ids[i..], owner, now))
    decreases |ids| - i
  {
    if i < |ids| {
      var after := S.CancelStep(queue, ids[i], owner, false, now).0;
      assert ids[i..][1..] == ids[i + 1..];
      RemainingIs(after, ids, i + 1, owner, now);
    }
  }

  lemma {:induction false} CancelAllEnds(queue: S.Tables, ids: seq<string>, owner: string, now: int, i: nat)
    requires Safety.UniqueIds(queue.jobs) && i < |queue.jobs|
    ensures
      var after := CancelAllOf(queue, ids, owner, now);
      && |after.jobs| == |queue.jobs| && Safety.UniqueIds(after.jobs)
      && after.jobs[i] == if queue.jobs[i].status == S.Queued && queue.jobs[i].owner == owner && queue.jobs[i].item.promptId in ids
                          then S.CancelledRow(queue.jobs[i], now) else queue.jobs[i]
    decreases |ids|
  {
    if ids != [] {
      var next := S.CancelStep(queue, ids[0], owner, false, now).0;
      Safety.FindIs(queue.jobs, i);
      forall j, k | 0 <= j < k < |next.jobs|
        ensures next.jobs[j].item.promptId != next.jobs[k].item.promptId
      {
        assert queue.jobs[j].item.promptId != queue.jobs[k].item.promptId;
      }
      CancelAllEnds(next, ids[1..], owner, now, i);
    }
  }

  /** The cancel steps of one call, with nothing else in between. */
  ghost function CancelRun(w: World, lim: A.Limits, call: nat, rounds: nat, e: Event): World
    decreases rounds
  {
    if rounds == 0 then w else CancelRun(Apply(w, lim, e.(step := CancelNext(call))), lim, call, rounds - 1, e)
  }

  lemma {:induction false} CancelRunIs(w: World, lim: A.Limits, call: nat, e: Event, ids: seq<string>)
    requires call < |w.cancels| && w.cancels[call].stage == Listed(ids)
    ensures
      var v := CancelRun(w, lim, call, |ids| + 1, e);
      && v.queue == CancelAllOf(w.queue, ids, w.cancels[call].owner, e.now) && v.agents == w.agents
      && call < |v.cancels| && v.cancels[call].stage == Finished
    decreases |ids|
  {
    var next := Apply(w, lim, e.(step := CancelNext(call)));
    if ids == [] {
      assert CancelRun(next, lim, call, 0, e) == next;
    } else {
      CancelRunIs(next, lim, call, e, ids[1..]);
    }
  }

  /** A cancel request that nobody interrupts is the run of its steps, to the end. */
  lemma CancelCallIsARun(w: World, lim: A.Limits, task: nat, owner: string, e: Event)
    requires Owns(w, task, owner)
    ensures
      var ids := ChildIds(w.agents.children, task);
      var listed := Apply(Apply(w, lim, e.(step := StartCancel(task, owner))), lim, e.(step := ListChildren(|w.cancels|)));
      var v := CancelRun(listed, lim, |w.cancels|, |ids| + 1, e);
      && v.agents == A.CancelStep(w.agents, task, owner, e.now) && v.queue == CancelAllOf(w.queue, ids, owner, e.now)
      && |v.cancels| > |w.cancels| && v.cancels[|w.cancels|].stage == Finished
  {
    var ids := ChildIds(w.agents.children, task);
    var listed := Apply(Apply(w, lim, e.(step := StartCancel(task, owner))), lim, e.(step := ListChildren(|w.cancels|)));
    CancelRunIs(listed, lim, |w.cancels|, e, ids);
  }

  // ---- Submitting a child ------------------------------------------------------------

  /** The tables of both stores. */
  datatype Stores = Stores(agents: A.Agents, queue: S.Tables)

  /** A submission request: who asks, the parsed workflow, what the downstream handler will do
      with it, and what other processes make of the stores in its gaps: after the gate, after
      the reservation, after the handler, after recording the answer, and after the last look
      at its parent. */
  datatype Request = Request(task: nat, owner: string, lease: nat, nested: bool, key: string, fingerprint: string,
                             promptId: string, accepted: bool, exempt: bool, number: real, nodeTypes: seq<string>,
                             response: string, checked: Stores -> Stores, reserved: Stores -> Stores,
                             handled: Stores -> Stores, saved: Stores -> Stores, looked: Stores -> Stores)

  datatype Reply = BadRequest | Answered(answer: Answer) | Raised

  /** What a submission that passed the gate does to both stores. */
  function Delegate(start: Stores, r: Request, cfg: S.Config, now: int): (Stores, Reply) {
    var met := r.checked(start);
    var (agents, child) := A.ReserveStep(met.agents, r.task, r.key, r.fingerprint, r.promptId, now);
    if child.Err? then (met, Answered(Conflict(child.error)))
    else
      var s := r.reserved(Stores(agents, met.queue));
      var known := child.value.0;
      if child.value.1 then HandedDown(s, known.promptId, r, cfg, now)
      else (s, Answered(
              if known.response.Some? then Recorded(known.response.value)
              else if S.Find(s.queue.jobs, known.promptId).Some? then SamePrompt(known.promptId)
              else OutcomeUnknown))
  }

  /** Enqueue, record the answer, and take the child back if its parent has stopped. */
  function HandedDown(start: Stores, id: string, r: Request, cfg: S.Config, now: int): (Stores, Reply) {
    var enqueued := S.EnqueueStep(start.queue, cfg, S.Item(r.number, id, r.nodeTypes), r.owner, r.exempt, "", now);
    if r.accepted && enqueued.Err? then (start, Raised)
    else
      var done := r.handled(Stores(start.agents, if r.accepted then enqueued.value else start.queue));
      var s := r.saved(Stores(A.RespondStep(done.agents, id, r.response), done.queue));
      if r.task < |s.agents.tasks| && s.agents.tasks[r.task].state == A.Running then (s, Answered(Fresh(r.response)))
      else
        var last := r.looked(s);
        (Stores(last.agents, S.CancelStep(last.queue, id, r.owner, false, now).0), Answered(Fresh(r.response)))
  }

  // ---- The request as a run ----------------------------------------------------------

  function StoresOf(w: World): Stores {
    Stores(w.agents, w.queue)
  }

  /** The steps of other processes in the five gaps. */
  datatype Gaps = Gaps(checked: seq<Event>, reserved: seq<Event>, handled: seq<Event>, saved: seq<Event>, looked: seq<Event>)

  /** No step of another process moves request `k`. */
  ghost predicate LeaveAlone(events: seq<Event>, k: nat) {
    forall i :: 0 <= i < |events| ==> !ChildSafety.Moves(events[i], k)
  }

  ghost predicate ByOthers(g: Gaps, k: nat) {
    && LeaveAlone(g.checked, k) && LeaveAlone(g.reserved, k) && LeaveAlone(g.handled, k)
    && LeaveAlone(g.saved, k) && LeaveAlone(g.looked, k)
  }

  /** A gap makes of the stores what these steps make of them. */
  ghost predicate Makes(gap: Stores -> Stores, w: World, lim: A.Limits, events: seq<Event>) {
    gap(StoresOf(w)) == StoresOf(Run(w, lim, events))
  }

  ghost function SubmitRun(w: World, lim: A.Limits, r: Request, e: Event): World {
    Apply(w, lim, e.(step := Submit(r.task, r.owner, r.lease, r.key, r.fingerprint)))
  }

  ghost function ReserveRun(w: World, lim: A.Limits, r: Request, e: Event, g: Gaps): World {
    Apply(Run(SubmitRun(w, lim, r, e), lim, g.checked), lim, e.(step := Reserve(|w.subs|, r.promptId)))
  }

  /** The duplicate's answer, or the handler. */
  ghost function HandleRun(w: World, lim: A.Limits, k: nat, r: Request, cfg: S.Config, e: Event): World {
    Apply(Apply(w, lim, e.(step := AnswerDuplicate(k))), lim,
          e.(step := Handle(k, r.accepted, cfg, r.exempt, r.number, r.nodeTypes, r.response)))
  }

  ghost function SaveRun(w: World, lim: A.Limits, k: nat, e: Event): World {
    Apply(w, lim, e.(step := Save(k)))
  }

  ghost function LookRun(w: World, lim: A.Limits, k: nat, e: Event): World {
    Apply(w, lim, e.(step := Look(k)))
  }

  /** The world in which a request that has got to the handler's door comes to its end. */
  ghost function HandlerEnd(w: World, lim: A.Limits, k: nat, r: Request, cfg: S.Config, e: Event, g: Gaps): World
    requires k < |w.subs|
  {
    var handled := HandleRun(w, lim, k, r, cfg, e);
    if k < |handled.subs| && !handled.subs[k].stage.Handled? then handled
    else
      var looked := LookRun(Run(SaveRun(Run(handled, lim, g.handled), lim, k, e), lim, g.saved), lim, k, e);
      if k < |looked.subs| && looked.subs[k].stage.Done? then looked
      else Apply(Run(looked, lim, g.looked), lim, e.(step := Withdraw(k)))
  }

  lemma {:induction false} OthersRun(w: World, lim: A.Limits, events: seq<Event>, k: nat)
    requires k < |w.subs| && LeaveAlone(events, k)
    ensures k < |Run(w, lim, events).subs| && Run(w, lim, events).subs[k] == w.subs[k]
    decreases |events|
  {
    if events != [] {
      ChildSafety.OthersStay(w, lim, events[0], k);
      OthersRun(Apply(w, lim, events[0]), lim, events[1..], k);
    }
  }

  lemma SubmitRunIs(w: World, lim: A.Limits, r: Request, e: Event)
    requires Admits(w, r.task, r.owner, r.lease, e.now)
    ensures
      var v := SubmitRun(w, lim, r, e);
      StoresOf(v) == StoresOf(w) && |v.subs| == |w.subs| + 1
      && v.subs[|w.subs|] == Submission(r.task, r.owner, r.key, r.fingerprint, Checked)
  {
  }

  lemma ReserveIs(w: World, lim: A.Limits, k: nat, r: Request, e: Event)
    requires k < |w.subs| && w.subs[k] == Submission(r.task, r.owner, r.key, r.fingerprint, Checked)
    ensures
      var v := Apply(w, lim, e.(step := Reserve(k, r.promptId)));
      var (agents, child) := A.ReserveStep(w.agents, r.task, r.key, r.fingerprint, r.promptId, e.now);
      && |v.subs| == |w.subs| && v.queue == w.queue && v.agents == (if child.Ok? then agents else w.agents)
      && v.subs[k] == w.subs[k].(stage :=
           if child.Err? then Done(Conflict(child.error))
           else if child.value.1 then Reserved(child.value.0.promptId) else Duplicate(child.value.0))
  {
  }

  lemma DuplicateIs(w: World, lim: A.Limits, k: nat, r: Request, cfg: S.Config, e: Event)
    requires k < |w.subs| && w.subs[k].stage.Duplicate?
    ensures
      var v := HandleRun(w, lim, k, r, cfg, e);
      var known := w.subs[k].stage.child;
      && StoresOf(v) == StoresOf(w) && |v.subs| == |w.subs|
      && v.subs[k].stage == Done(
           if known.response.Some? then Recorded(known.response.value)
           else if S.Find(w.queue.jobs, known.promptId).Some? then SamePrompt(known.promptId)
           else OutcomeUnknown)
  {
  }

  lemma HandleIs(w: World, lim: A.Limits, k: nat, r: Request, cfg: S.Config, e: Event)
    requires k < |w.subs| && w.subs[k].stage.Reserved? && w.subs[k].owner == r.owner
    ensures
      var v := HandleRun(w, lim, k, r, cfg, e);
      var id := w.subs[k].stage.promptId;
      var enqueued := S.EnqueueStep(w.queue, cfg, S.Item(r.number, id, r.nodeTypes), r.owner, r.exempt, "", e.now);
      && |v.subs| == |w.subs| && v.agents == w.agents
      && v.queue == (if r.accepted && enqueued.Ok? then enqueued.value else w.queue)
      && v.subs[k] == w.subs[k].(stage := if r.accepted && enqueued.Err? then Crashed else Handled(id, r.response))
  {
    assert Apply(w, lim, e.(step := AnswerDuplicate(k))) == w;
  }

  lemma SaveIs(w: World, lim: A.Limits, k: nat, e: Event)
    requires k < |w.subs| && w.subs[k].stage.Handled?
    ensures
      var v := SaveRun(w, lim, k, e);
      var st := w.subs[k].stage;
      && v.agents == A.RespondStep(w.agents, st.promptId, st.response) && v.queue == w.queue && |v.subs| == |w.subs|
      && v.subs[k] == w.subs[k].(stage := Saved(st.promptId, st.response))
  {
  }

  lemma LookIs(w: World, lim: A.Limits, k: nat, e: Event)
    requires k < |w.subs| && w.subs[k].stage.Saved?
    ensures
      var v := LookRun(w, lim, k, e);
      var st := w.subs[k].stage;
      && StoresOf(v) == StoresOf(w) && |v.subs| == |w.subs|
      && v.subs[k] == w.subs[k].(stage := if StillRunning(w, w.subs[k].task) then Done(Fresh(st.response))
                                          else Withdrawing(st.promptId, st.response))
  {
  }

  lemma WithdrawIs(w: World, lim: A.Limits, k: nat, e: Event)
    requires k < |w.subs| && w.subs[k].stage.Withdrawing?
    ensures
      var v := Apply(w, lim, e.(step := Withdraw(k)));
      var st := w.subs[k].stage;
      && v.agents == w.agents && v.queue == S.CancelStep(w.queue, st.promptId, w.subs[k].owner, false, e.now).0
      && |v.subs| == |w.subs| && v.subs[k].stage == Done(Fresh(st.response))
  {
  }

  /** The gaps of the handler's part are what these steps make of the stores. */
  ghost predicate HandlerGaps(w: World, lim: A.Limits, k: nat, r: Request, cfg: S.Config, e: Event, g: Gaps) {
    var handled := HandleRun(w, lim, k, r, cfg, e);
    var saved := SaveRun(Run(handled, lim, g.handled), lim, k, e);
    var looked := LookRun(Run(saved, lim, g.saved), lim, k, e);
    Makes(r.handled, handled, lim, g.handled) && Makes(r.saved, saved, lim, g.saved) && Makes(r.looked, looked, lim, g.looked)
  }

  /** The handler's part of a request, with anything in its gaps, is a run of the protocol. */
  lemma HandedDownIsARun(w: World, lim: A.Limits, k: nat, r: Request, cfg: S.Config, e: Event, g: Gaps)
    requires k < |w.subs| && ByOthers(g, k) && HandlerGaps(w, lim, k, r, cfg, e, g)
    requires w.subs[k].stage.Reserved? && w.subs[k].owner == r.owner && w.subs[k].task == r.task
    ensures
      var (stores, reply) := HandedDown(StoresOf(w), w.subs[k].stage.promptId, r, cfg, e.now);
      var end := HandlerEnd(w, lim, k, r, cfg, e, g);
      && StoresOf(end) == stores && k < |end.subs|
      && end.subs[k].stage == if reply.Answered? then Done(reply.answer) else Crashed
  {
    HandleIs(w, lim, k, r, cfg, e);
    var handled := HandleRun(w, lim, k, r, cfg, e);
    if handled.subs[k].stage.Handled? {
      OthersRun(handled, lim, g.handled, k);
      FinishIsARun(Run(handled, lim, g.handled), lim, k, r, e, g);
    }
  }

  /** Recording, looking and taking back. */
  lemma FinishIsARun(w: World, lim: A.Limits, k: nat, r: Request, e: Event, g: Gaps)
    requires k < |w.subs| && ByOthers(g, k) && w.subs[k].stage.Handled? && w.subs[k].task == r.task
    requires Makes(r.saved, SaveRun(w, lim, k, e), lim, g.saved)
    requires Makes(r.looked, LookRun(Run(SaveRun(w, lim, k, e), lim, g.saved), lim, k, e), lim, g.looked)
    ensures
      var st := w.subs[k].stage;
      var s := r.saved(Stores(A.RespondStep(w.agents, st.promptId, st.response), w.queue));
      var looked := LookRun(Run(SaveRun(w, lim, k, e), lim, g.saved), lim, k, e);
      && k < |looked.subs| && StoresOf(looked) == s
      && if r.task < |s.agents.tasks| && s.agents.tasks[r.task].state == A.Running then looked.subs[k].stage == Done(Fresh(st.response))
         else
           var end := Apply(Run(looked, lim, g.looked), lim, e.(step := Withdraw(k)));
           var last := r.looked(s);
           && !looked.subs[k].stage.Done? && k < |end.subs| && end.subs[k].stage == Done(Fresh(st.response))
           && StoresOf(end) == Stores(last.agents, S.CancelStep(last.queue, st.promptId, w.subs[k].owner, false, e.now).0)
  {
    SaveIs(w, lim, k, e);
    var saved := SaveRun(w, lim, k, e);
    OthersRun(saved, lim, g.saved, k);
    var met := Run(saved, lim, g.saved);
    LookIs(met, lim, k, e);
    var looked := LookRun(met, lim, k, e);
    if looked.subs[k].stage.Withdrawing? {
      OthersRun(looked, lim, g.looked, k);
      WithdrawIs(Run(looked, lim, g.looked), lim, k, e);
    }
  }

  /** The world in which a request that passed the gate comes to its end. */
  ghost function RequestEnd(w: World, lim: A.Limits, r: Request, cfg: S.Config, e: Event, g: Gaps): World {
    var k := |w.subs|;
    var reserved := ReserveRun(w, lim, r, e, g);
    if k < |reserved.subs| && reserved.subs[k].stage.Done? then reserved
    else
      var met := Run(reserved, lim, g.reserved);
      if k < |met.subs| && met.subs[k].stage.Reserved? then HandlerEnd(met, lim, k, r, cfg, e, g)
      else HandleRun(met, lim, k, r, cfg, e)
  }

  ghost predicate RequestGaps(w: World, lim: A.Limits, r: Request, cfg: S.Config, e: Event, g: Gaps) {
    var reserved := ReserveRun(w, lim, r, e, g);
    && Makes(r.checked, SubmitRun(w, lim, r, e), lim, g.checked)
    && Makes(r.reserved, reserved, lim, g.reserved)
    && HandlerGaps(Run(reserved, lim, g.reserved), lim, |w.subs|, r, cfg, e, g)
  }

  /** Every submission that passes the gate, fresh, repeated or refused, is a run of the
      protocol's steps with any steps of other processes in its five gaps: the same stores at
      its end, and the stage that stands for its answer. */
  lemma DelegateIsARun(w: World, lim: A.Limits, r: Request, cfg: S.Config, e: Event, g: Gaps)
    requires Admits(w, r.task, r.owner, r.lease, e.now)
    requires ByOthers(g, |w.subs|) && RequestGaps(w, lim, r, cfg, e, g)
    ensures
      var (stores, reply) := Delegate(StoresOf(w), r, cfg, e.now);
      var end := RequestEnd(w, lim, r, cfg, e, g);
      && StoresOf(end) == stores && |w.subs| < |end.subs|
      && end.subs[|w.subs|].stage == if reply.Answered? then Done(reply.answer) else Crashed
  {
    var k := |w.subs|;
    SubmitRunIs(w, lim, r, e);
    var submitted := SubmitRun(w, lim, r, e);
    OthersRun(submitted, lim, g.checked, k);
    ReserveIs(Run(submitted, lim, g.checked), lim, k, r, e);
    var reserved := ReserveRun(w, lim, r, e, g);
    if !reserved.subs[k].stage.Done? {
      OthersRun(reserved, lim, g.reserved, k);
      var met := Run(reserved, lim, g.reserved);
      if met.subs[k].stage.Reserved? {
        HandedDownIsARun(met, lim, k, r, cfg, e, g);
      } else {
        DuplicateIs(met, lim, k, r, cfg, e);
      }
    }
  }

  class AgentTaskRoutes {
    const store: AStore.AgentTaskStore
    const scheduler: SStore.SchedulerStore

    constructor (store: AStore.AgentTaskStore, scheduler: SStore.SchedulerStore)
      ensures this.store == store && this.scheduler == scheduler
    {
      this.store, this.scheduler := store, scheduler;
    }

    method ListChildren(task: nat) returns (ids: seq<string>)
      ensures ids == ChildIds(store.children, task)
    {
      ids := [];
      var children := store.children;
      for i := 0 to |children|
        invariant ids == ChildIds(children[..i], task)
      {
        assert children[..i + 1][..i] == children[..i];
        if children[i].task == task {
          ids := ids + [children[i].promptId];
        }
      }
      assert children[..|children|] == children;
    }

    method CancelChild(id: string, owner: string, now: int) returns (stop: bool)
      modifies scheduler
      ensures scheduler.Db() == S.CancelStep(old(scheduler.Db()), id, owner, false, now).0
      ensures stop == Stoppable(scheduler.Db(), id)
    {
      var _ := scheduler.Cancel(id, owner, false, now);
      var row := scheduler.FindRow(id);
      stop := row.Some? && scheduler.jobs[row.value].status == S.Running && scheduler.jobs[row.value].workerPort.Some?
              && scheduler.jobs[row.value].workerPort.value != 0;
    }

    /** Go through the list: cancel what is queued, tell what runs to stop. */
    method CancelChildren(ids: seq<string>, owner: string, now: int) returns (sent: seq<string>)
      modifies scheduler
      ensures scheduler.Db() == CancelAllOf(old(scheduler.Db()), ids, owner, now)
      ensures sent == Interrupted(old(scheduler.Db()), ids, owner, now)
    {
      sent := [];
      ghost var whole := Remaining(scheduler.Db(), ids, 0, owner, now);
      RemainingIs(scheduler.Db(), ids, 0, owner, now);
      assert ids[0..] == ids;
      for i := 0 to |ids|
        invariant whole.0 == Remaining(scheduler.Db(), ids, i, owner, now).0
        invariant whole.1 == sent + Remaining(scheduler.Db(), ids, i, owner, now).1
      {
        var stop := CancelChild(ids[i], owner, now);
        if stop {
          sent := sent + [ids[i]];
        }
      }
    }

    /** Mark the task, then cancel its queued children and tell the running ones to stop. */
    method Cancel(task: nat, owner: string, now: int) returns (interrupts: Option<seq<string>>)
      modifies store, scheduler
      ensures
        var w := World(old(store.Db()), old(scheduler.Db()), [], [], []);
        if Owns(w, task, owner) then
          var ids := ChildIds(w.agents.children, task);
          && store.Db() == A.CancelStep(w.agents, task, owner, now)
          && scheduler.Db() == CancelAllOf(w.queue, ids, owner, now)
          && interrupts == Some(Interrupted(w.queue, ids, owner, now))
        else store.Db() == w.agents && scheduler.Db() == w.queue && interrupts.None?
    {
      if task >= |store.tasks| || store.tasks[task].owner != owner {
        return None;
      }
      store.Cancel(task, owner, now);
      var ids := ListChildren(task);
      var sent := CancelChildren(ids, owner, now);
      interrupts := Some(sent);
    }

    /** Submit a child once: reserve it, hand it down, record the answer, and take it back if
        the task has stopped in the meantime. */
    method Delegated(r: Request, now: int) returns (reply: Reply)
      modifies store, scheduler
      ensures
        var w := World(old(store.Db()), old(scheduler.Db()), [], [], []);
        if !Admits(w, r.task, r.owner, r.lease, now) then
          store.Db() == w.agents && scheduler.Db() == w.queue && reply == Answered(Unauthorized)
        else if r.nested || r.key == "" then
          store.Db() == w.agents && scheduler.Db() == w.queue && reply == BadRequest
        else (Stores(store.Db(), scheduler.Db()), reply) == Delegate(StoresOf(w), r, scheduler.cfg, now)
    {
      if r.task >= |store.tasks| || store.tasks[r.task].owner != r.owner || store.tasks[r.task].lease != Some(r.lease)
         || store.tasks[r.task].leaseUntil < now
         || (store.tasks[r.task].state != A.Running && store.tasks[r.task].state != A.Delivering) {
        return Answered(Unauthorized);
      }
      if r.nested || r.key == "" {
        return BadRequest;
      }
      Meet(r.checked);
      var child := store.ReserveChild(r.task, r.key, r.fingerprint, r.promptId, now);
      if child.Err? {
        return Answered(Conflict(child.error));
      }
      Meet(r.reserved);
      var id := child.value.0.promptId;
      if !child.value.1 {
        if child.value.0.response.Some? {
          return Answered(Recorded(child.value.0.response.value));
        }
        var row := scheduler.FindRow(id);
        return Answered(if row.Some? then SamePrompt(id) else OutcomeUnknown);
      }
      reply := HandDown(id, r, now);
    }

    /** A gap: both stores are shared, and other processes change their tables. */
    method Meet(gap: Stores -> Stores)
      modifies store, scheduler
      ensures Stores(store.Db(), scheduler.Db()) == gap(Stores(old(store.Db()), old(scheduler.Db())))
    {
      var s := gap(Stores(A.Agents(store.tasks, store.events, store.children, store.nextLease),
                          S.Tables(scheduler.jobs, scheduler.workers, scheduler.logs)));
      store.tasks, store.events, store.children, store.nextLease := s.agents.tasks, s.agents.events, s.agents.children, s.agents.nextLease;
      scheduler.jobs, scheduler.workers, scheduler.logs := s.queue.jobs, s.queue.workers, s.queue.logs;
    }

    method HandDown(id: string, r: Request, now: int) returns (reply: Reply)
      modifies store, scheduler
      ensures (Stores(store.Db(), scheduler.Db()), reply)
              == HandedDown(Stores(old(store.Db()), old(scheduler.Db())), id, r, scheduler.cfg, now)
    {
      if r.accepted {
        var enqueued := scheduler.Enqueue(S.Item(r.number, id, r.nodeTypes), r.owner, r.exempt, "", now);
        if enqueued.Err? {
          return Raised;
        }
      }
      Meet(r.handled);
      store.ChildResponse(id, r.response);
      Meet(r.saved);
      if r.task >= |store.tasks| || store.tasks[r.task].state != A.Running {
        Meet(r.looked);
        var _ := scheduler.Cancel(id, r.owner, false, now);
      }
      reply := Answered(Fresh(r.response));
    }
  }
}
