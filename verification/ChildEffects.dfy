/** What the steps of a child submission and of a cancel request answer and write, said of
    the tables themselves (utils/agent_task_routes.py). */
module ChildEffects {
  import opened Values
  import A = AgentModel
  import S = SchedulerModel
  import SchedulerSafety
  import opened ChildProtocol
  import opened AgentRoutes

  // ---- The steps of a submission -----------------------------------------------------

  /** A request is let in exactly under the lease of a running or delivering row of its owner
      that has not run out; it is turned away with no other trace. */
  lemma SubmitExactly(w: World, lim: A.Limits, e: Event)
    requires e.step.Submit?
    ensures
      var v, s := Apply(w, lim, e), e.step;
      var open := s.task < |w.agents.tasks|
                  && (var t := w.agents.tasks[s.task];
                      t.owner == s.owner && t.lease == Some(s.lease) && t.leaseUntil >= e.now && t.state in {A.Running, A.Delivering});
      && v == w.(subs := v.subs)
      && v.subs == w.subs + [Submission(s.task, s.owner, s.key, s.fingerprint, if open then Checked else Done(Unauthorized))]
  {
  }

  /** A request that was let in reserves its child: a new one goes on to the handler, a known
      one is a repetition, and a refusal is the answer. */
  lemma ReserveExactly(w: World, lim: A.Limits, e: Event)
    requires e.step.Reserve? && e.step.sub < |w.subs| && w.subs[e.step.sub].stage == Checked
    ensures
      var v, sub := Apply(w, lim, e), w.subs[e.step.sub];
      var (agents, r) := A.ReserveStep(w.agents, sub.task, sub.key, sub.fingerprint, e.step.promptId, e.now);
      && v == w.(agents := agents, subs := v.subs) && |v.subs| == |w.subs|
      && (forall k :: 0 <= k < |w.subs| && k != e.step.sub ==> v.subs[k] == w.subs[k])
      && v.subs[e.step.sub] == sub.(stage := v.subs[e.step.sub].stage)
      && (r.Err? ==> v.subs[e.step.sub].stage == Done(Conflict(r.error)))
      && (r.Ok? && r.value.1 ==> v.subs[e.step.sub].stage == Reserved(r.value.0.promptId))
      && (r.Ok? && !r.value.1 ==> v.subs[e.step.sub].stage == Duplicate(r.value.0))
  {
  }

  /** A repeated request is answered with the recorded response; without one, with the prompt
      id of its child if that is in the queue, and as unknown if it is not. */
  lemma DuplicateAnswersExactly(w: World, lim: A.Limits, e: Event)
    requires e.step.AnswerDuplicate? && e.step.sub < |w.subs| && w.subs[e.step.sub].stage.Duplicate?
    ensures
      var v, k, child := Apply(w, lim, e), e.step.sub, w.subs[e.step.sub].stage.child;
      var queued := exists i :: 0 <= i < |w.queue.jobs| && w.queue.jobs[i].item.promptId == child.promptId;
      && v == w.(subs := v.subs) && |v.subs| == |w.subs|
      && v.subs[k].stage == Done(if child.response.Some? then Recorded(child.response.value)
                                 else if queued then SamePrompt(child.promptId) else OutcomeUnknown)
  {
  }

  /** The handler runs once for a reserved child: what it accepts is queued under the child's
      id for the owner of its task, unless that id is taken, which ends the request. */
  lemma HandleExactly(w: World, lim: A.Limits, e: Event)
    requires e.step.Handle? && e.step.sub < |w.subs| && w.subs[e.step.sub].stage.Reserved?
    ensures
      var v, sub, s := Apply(w, lim, e), w.subs[e.step.sub], e.step;
      var id := sub.stage.promptId;
      var taken := exists i :: 0 <= i < |w.queue.jobs| && w.queue.jobs[i].item.promptId == id;
      && v.agents == w.agents && v.cancels == w.cancels && v.handled == w.handled + [(sub.task, sub.key)]
      && |v.subs| == |w.subs|
      && v.subs[s.sub] == sub.(stage := if s.accepted && taken then Crashed else Handled(id, s.response))
      && (!s.accepted || taken ==> v.queue == w.queue)
      && (s.accepted && !taken ==>
            && |v.queue.jobs| == |w.queue.jobs| + 1 && v.queue == w.queue.(jobs := v.queue.jobs)
            && v.queue.jobs[..|w.queue.jobs|] == w.queue.jobs
            && var job := v.queue.jobs[|w.queue.jobs|];
               job.item == S.Item(s.number, id, s.nodeTypes) && job.owner == sub.owner && job.status == S.Queued)
  {
  }

  /** After the handler the response is recorded with the child; then the request is answered
      exactly when its task is still running, and otherwise the child is taken back, if it is
      still queued, before it is. */
  lemma EndingExactly(w: World, lim: A.Limits, e: Event, k: nat)
    requires k < |w.subs|
    ensures
      var v, st := Apply(w, lim, e), w.subs[k].stage;
      && (e.step == Save(k) && st.Handled? ==>
            v.queue == w.queue && v.agents == A.RespondStep(w.agents, st.promptId, st.response)
            && |v.subs| == |w.subs| && v.subs[k].stage == Saved(st.promptId, st.response))
      && (e.step == Look(k) && st.Saved? ==>
            var runs := w.subs[k].task < |w.agents.tasks| && w.agents.tasks[w.subs[k].task].state == A.Running;
            v == w.(subs := v.subs) && |v.subs| == |w.subs|
            && v.subs[k].stage == if runs then Done(Fresh(st.response)) else Withdrawing(st.promptId, st.response))
      && (e.step == Withdraw(k) && st.Withdrawing? ==>
            v.agents == w.agents && v.queue == S.CancelStep(w.queue, st.promptId, w.subs[k].owner, false, e.now).0
            && |v.subs| == |w.subs| && v.subs[k].stage == Done(Fresh(st.response)))
  {
  }

  // ---- The steps of a cancel request -------------------------------------------------

  /** The children of a row, each once and in their order. */
  ghost function ChildrenOf(children: seq<A.Child>, task: nat): set<nat> {
    set c: nat | c < |children| && children[c].task == task
  }

  function Ids(children: seq<A.Child>): (r: seq<string>)
    ensures |r| == |children|
  {
    seq(|children|, c requires 0 <= c < |children| => children[c].promptId)
  }

  lemma {:induction false} ChildIdsInOrder(children: seq<A.Child>, task: nat)
    ensures Chosen(Ids(children), ChildrenOf(children, task), ChildIds(children, task))
  {
    if children != [] {
      var n := |children| - 1;
      ChildIdsInOrder(children[..n], task);
      assert Below(ChildrenOf(children, task), n) == ChildrenOf(children[..n], task);
      assert Ids(children)[..n] == Ids(children[..n]);
      ChosenLast(Ids(children), ChildrenOf(children, task), ChildIds(children[..n], task));
    }
  }

  /** A cancel request of somebody else does nothing; the owner's marks the row, then lists
      its children, then takes them one by one, and is over when none is left. */
  lemma CancelStepsExactly(w: World, lim: A.Limits, e: Event, c: nat)
    ensures
      var v := Apply(w, lim, e);
      && (e.step.StartCancel? ==>
            if e.step.task < |w.agents.tasks| && w.agents.tasks[e.step.task].owner == e.step.owner
            then v == w.(agents := A.CancelStep(w.agents, e.step.task, e.step.owner, e.now),
                         cancels := w.cancels + [CancelCall(e.step.task, e.step.owner, Marked)])
            else v == w)
      && (e.step == ListChildren(c) && c < |w.cancels| && w.cancels[c].stage.Marked? ==>
            |v.cancels| == |w.cancels| && v == w.(cancels := v.cancels)
            && v.cancels[c].stage == Listed(ChildIds(w.agents.children, w.cancels[c].task)))
      && (e.step == CancelNext(c) && c < |w.cancels| && w.cancels[c].stage.Listed? ==>
            var pending := w.cancels[c].stage.pending;
            && |v.cancels| == |w.cancels| && v == w.(queue := v.queue, cancels := v.cancels)
            && v.cancels[c].stage == (if pending == [] then Finished else Listed(pending[1..]))
            && v.queue == if pending == [] then w.queue else S.CancelStep(w.queue, pending[0], w.cancels[c].owner, false, e.now).0)
  {
  }

  /** The job with this id is running at a port. */
  ghost predicate RunsSomewhere(queue: S.Tables, id: string) {
    exists i :: 0 <= i < |queue.jobs| && queue.jobs[i].item.promptId == id && queue.jobs[i].status == S.Running
                && queue.jobs[i].workerPort.Some? && queue.jobs[i].workerPort.value != 0
  }

  ghost function RunningOnes(queue: S.Tables, ids: seq<string>): seq<string> {
    if ids == [] then [] else (if RunsSomewhere(queue, ids[0]) then [ids[0]] else []) + RunningOnes(queue, ids[1..])
  }

  lemma StoppableIs(queue: S.Tables, id: string)
    requires SchedulerSafety.UniqueIds(queue.jobs)
    ensures Stoppable(queue, id) <==> RunsSomewhere(queue, id)
  {
    if i: nat :| i < |queue.jobs| && queue.jobs[i].item.promptId == id && queue.jobs[i].status == S.Running
                 && queue.jobs[i].workerPort.Some? && queue.jobs[i].workerPort.value != 0 {
      SchedulerSafety.FindIs(queue.jobs, i);
    }
  }

  /** Cancelling a queued job neither starts nor stops any. */
  lemma CancelLeavesRunning(queue: S.Tables, id: string, owner: string, now: int)
    requires SchedulerSafety.UniqueIds(queue.jobs)
    ensures
      var after := S.CancelStep(queue, id, owner, false, now).0;
      SchedulerSafety.UniqueIds(after.jobs) && forall other :: RunsSomewhere(after, other) <==> RunsSomewhere(queue, other)
  {
    var after := S.CancelStep(queue, id, owner, false, now).0;
    forall i, j | 0 <= i < j < |after.jobs|
      ensures after.jobs[i].item.promptId != after.jobs[j].item.promptId
    {
      assert queue.jobs[i].item.promptId != queue.jobs[j].item.promptId;
    }
    forall other
      ensures RunsSomewhere(after, other) <==> RunsSomewhere(queue, other)
    {
      if i: nat :| i < |queue.jobs| && queue.jobs[i].item.promptId == other && queue.jobs[i].status == S.Running
                   && queue.jobs[i].workerPort.Some? && queue.jobs[i].workerPort.value != 0 {
        assert after.jobs[i] == queue.jobs[i];
      }
      if i: nat :| i < |after.jobs| && after.jobs[i].item.promptId == other && after.jobs[i].status == S.Running
                   && after.jobs[i].workerPort.Some? && after.jobs[i].workerPort.value != 0 {
        assert after.jobs[i] == queue.jobs[i];
      }
    }
  }

  /** Exactly the listed children that were running at a port when the request came are told
      to stop, in the order of the list. */
  lemma {:induction false} InterruptsExactly(queue: S.Tables, ids: seq<string>, owner: string, now: int)
    requires SchedulerSafety.UniqueIds(queue.jobs)
    ensures Interrupted(queue, ids, owner, now) == RunningOnes(queue, ids)
    decreases |ids|
  {
    if ids != [] {
      var after := S.CancelStep(queue, ids[0], owner, false, now).0;
      CancelLeavesRunning(queue, ids[0], owner, now);
      StoppableIs(after, ids[0]);
      InterruptsExactly(after, ids[1..], owner, now);
      SameOnes(queue, after, ids[1..]);
    }
  }

  lemma {:induction false} SameOnes(queue: S.Tables, after: S.Tables, ids: seq<string>)
    requires forall id :: RunsSomewhere(after, id) <==> RunsSomewhere(queue, id)
    ensures RunningOnes(after, ids) == RunningOnes(queue, ids)
  {
    if ids != [] {
      SameOnes(queue, after, ids[1..]);
    }
  }
}
