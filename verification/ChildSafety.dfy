/** Theorems about child submissions: at most one run of the downstream handler per request
    key, consistent answers, and no child left queued behind a cancelled task. */
module ChildSafety {
  import opened Values
  import A = AgentModel
  import S = SchedulerModel
  import SchedulerSafety
  import opened ChildProtocol

  // ---- Each kind of change keeps the invariant ---------------------------------------

  /** Moving one request on, with tables as they are. */
  lemma StageChange(w: World, k: nat, stage: Stage)
    requires WorldOk(w) && k < |w.subs|
    requires SubOk(w, w.subs[k].(stage := stage))
    requires Working(stage) ==> Working(w.subs[k].stage)
    ensures WorldOk(At(w, k, stage))
  {
    var v := At(w, k, stage);
    forall j | 0 <= j < |v.subs|
      ensures SubOk(v, v.subs[j])
    {
      SameTables(w, v, v.subs[j]);
    }
    assert ChildrenOk(v);
  }

  lemma SameTables(w: World, v: World, s: Submission)
    requires SubOk(w, s) && v.agents == w.agents && v.queue == w.queue && v.handled == w.handled
    ensures SubOk(v, s)
  {
  }

  /** The queue moves along its lifecycle and gains no row with a child's id. */
  ghost predicate QueueMoves(w: World, queue: S.Tables) {
    && SchedulerSafety.StepEvolves(w.queue, queue)
    && (|queue.jobs| > |w.queue.jobs| ==>
          forall c :: 0 <= c < |w.agents.children| ==>
            w.agents.children[c].promptId != queue.jobs[|w.queue.jobs|].item.promptId)
  }

  lemma QueueFind(w: World, queue: S.Tables, c: nat)
    requires SchedulerSafety.UniqueIds(w.queue.jobs) && QueueMoves(w, queue) && c < |w.agents.children|
    ensures S.Find(queue.jobs, w.agents.children[c].promptId) == S.Find(w.queue.jobs, w.agents.children[c].promptId)
  {
    SchedulerSafety.EvolvesKeepsIds(w.queue, queue);
    var id := w.agents.children[c].promptId;
    var row := S.Find(queue.jobs, id);
    if row.Some? && row.value < |w.queue.jobs| {
      assert SchedulerSafety.SameRow(w.queue.jobs[row.value], queue.jobs[row.value]);
    }
  }

  lemma QueueChange(w: World, queue: S.Tables)
    requires WorldOk(w) && QueueMoves(w, queue)
    ensures WorldOk(w.(queue := queue))
  {
    var v := w.(queue := queue);
    SchedulerSafety.EvolvesKeepsIds(w.queue, queue);
    forall c | 0 <= c < |v.agents.children|
      ensures ChildOk(v, v.agents.children[c])
    {
      assert ChildOk(w, w.agents.children[c]);
      QueueFind(w, queue, c);
      var row := S.Find(w.queue.jobs, w.agents.children[c].promptId);
      assert row.Some? ==> SchedulerSafety.SameRow(w.queue.jobs[row.value], queue.jobs[row.value]);
    }
    forall k | 0 <= k < |v.subs|
      ensures SubOk(v, v.subs[k])
    {
      assert SubOk(w, w.subs[k]);
      var row := A.FindChild(w.agents.children, w.subs[k].task, w.subs[k].key);
      if row.Some? {
        QueueFind(w, queue, row.value);
      }
    }
  }

  /** Task rows change but keep their owners; the children stay. */
  ghost predicate TasksMove(a: A.Agents, b: A.Agents) {
    && |a.tasks| <= |b.tasks| && b.children == a.children
    && forall i :: 0 <= i < |a.tasks| ==> b.tasks[i].owner == a.tasks[i].owner
  }

  lemma TaskChange(w: World, agents: A.Agents)
    requires WorldOk(w) && TasksMove(w.agents, agents)
    ensures WorldOk(w.(agents := agents))
  {
    var v := w.(agents := agents);
    forall c | 0 <= c < |v.agents.children|
      ensures ChildOk(v, v.agents.children[c])
    {
      assert ChildOk(w, w.agents.children[c]);
    }
    forall k | 0 <= k < |v.subs|
      ensures SubOk(v, v.subs[k])
    {
      assert SubOk(w, w.subs[k]);
    }
  }

  lemma OtherAgentMoves(a: A.Agents, lim: A.Limits, e: A.Event)
    requires !e.op.Reserve? && !e.op.Respond?
    ensures TasksMove(a, A.Apply(a, lim, e))
  {
  }

  /** Appending a child with a new key leaves every other lookup as it was. */
  lemma FindAfterAppend(children: seq<A.Child>, child: A.Child, task: nat, key: string)
    ensures A.FindChild(children + [child], task, key)
            == if (child.task, child.key) == (task, key) then Some(|children|) else A.FindChild(children, task, key)
  {
    assert (children + [child])[..|children|] == children;
  }

  lemma ReserveFresh(w: World, k: nat, promptId: string)
    requires WorldOk(w) && k < |w.subs| && w.subs[k].stage.Checked? && !Taken(w, promptId)
    requires A.FindChild(w.agents.children, w.subs[k].task, w.subs[k].key).None?
    ensures
      var s := w.subs[k];
      var child := A.Child(s.task, s.key, s.fingerprint, promptId, None);
      WorldOk(At(w.(agents := w.agents.(children := w.agents.children + [child])), k, Reserved(promptId)))
  {
    var s := w.subs[k];
    var child := A.Child(s.task, s.key, s.fingerprint, promptId, None);
    var v := At(w.(agents := w.agents.(children := w.agents.children + [child])), k, Reserved(promptId));
    assert SubOk(w, s);
    forall c | 0 <= c < |v.agents.children|
      ensures ChildOk(v, v.agents.children[c])
      ensures c < |w.agents.children| ==> Distinct(v.agents.children[c], child)
    {
      if c < |w.agents.children| {
        assert ChildOk(w, w.agents.children[c]);
      }
    }
    forall j | 0 <= j < |v.subs|
      ensures SubOk(v, v.subs[j])
      ensures j != k ==> Exclusive(v.subs[j], v.subs[k]) && Exclusive(v.subs[k], v.subs[j])
    {
      assert SubOk(w, w.subs[j]);
      FindAfterAppend(w.agents.children, child, w.subs[j].task, w.subs[j].key);
      if j == k {
        assert (s.task, s.key) !in w.handled;
      }
    }
    forall i | 0 <= i < |v.handled|
      ensures A.FindChild(v.agents.children, v.handled[i].0, v.handled[i].1).Some?
    {
      FindAfterAppend(w.agents.children, child, w.handled[i].0, w.handled[i].1);
    }
  }

  lemma ReserveChange(w: World, k: nat, promptId: string, now: int)
    requires WorldOk(w) && k < |w.subs| && w.subs[k].stage.Checked? && !Taken(w, promptId)
    ensures WorldOk(ReserveStep(w, k, promptId, now))
  {
    var s := w.subs[k];
    assert SubOk(w, s);
    var (agents, r) := A.ReserveStep(w.agents, s.task, s.key, s.fingerprint, promptId, now);
    if r.Err? {
      StageChange(w, k, Done(Conflict(r.error)));
    } else if r.value.1 {
      ReserveFresh(w, k, promptId);
    } else {
      assert agents == w.agents;
      StageChange(w, k, Duplicate(r.value.0));
    }
  }

  /** Running the handler: logged once, and its job, if any, is the child's own. */
  lemma LogChange(w: World, k: nat, response: string)
    requires WorldOk(w) && k < |w.subs| && w.subs[k].stage.Reserved?
    ensures
      var s := w.subs[k];
      WorldOk(At(w.(handled := w.handled + [(s.task, s.key)]), k, Handled(s.stage.promptId, response)))
  {
    var s := w.subs[k];
    var v := At(w.(handled := w.handled + [(s.task, s.key)]), k, Handled(s.stage.promptId, response));
    assert SubOk(w, s);
    forall j | 0 <= j < |v.subs|
      ensures SubOk(v, v.subs[j])
    {
      assert SubOk(w, w.subs[j]);
      if j < k {
        assert Exclusive(w.subs[j], w.subs[k]);
      } else if k < j {
        assert Exclusive(w.subs[k], w.subs[j]);
      }
    }
    assert ChildrenOk(v);
    forall j, l | 0 <= j < l < |v.subs|
      ensures Exclusive(v.subs[j], v.subs[l])
    {
      assert Exclusive(w.subs[j], w.subs[l]);
    }
  }

  lemma ChildJobChange(w: World, k: nat, job: S.Job)
    requires WorldOk(w) && k < |w.subs| && w.subs[k].stage.Handled?
    requires S.Find(w.queue.jobs, w.subs[k].stage.promptId).None?
    requires job.item.promptId == w.subs[k].stage.promptId && job.owner == w.subs[k].owner && job.status == S.Queued
    ensures WorldOk(w.(queue := w.queue.(jobs := w.queue.jobs + [job])))
  {
    var v := w.(queue := w.queue.(jobs := w.queue.jobs + [job]));
    var s := w.subs[k];
    assert SubOk(w, s);
    assert v.queue.jobs[..|w.queue.jobs|] == w.queue.jobs;
    var row := A.FindChild(w.agents.children, s.task, s.key).value;
    forall c | 0 <= c < |v.agents.children|
      ensures ChildOk(v, v.agents.children[c])
    {
      assert ChildOk(w, w.agents.children[c]);
      assert c < row ==> Distinct(w.agents.children[c], w.agents.children[row]);
      assert row < c ==> Distinct(w.agents.children[row], w.agents.children[c]);
    }
    forall j | 0 <= j < |v.subs|
      ensures SubOk(v, v.subs[j])
    {
      assert SubOk(w, w.subs[j]);
      assert j < k ==> Exclusive(w.subs[j], w.subs[k]);
      assert k < j ==> Exclusive(w.subs[k], w.subs[j]);
      SameChild(w, w.subs[j], s);
    }
  }

  /** Requests whose children have the same prompt id are for the same key. */
  lemma SameChild(w: World, s: Submission, u: Submission)
    requires ChildrenOk(w)
    ensures ChildRow(w, s).Some? && ChildRow(w, u).Some? && ChildRow(w, s).value.promptId == ChildRow(w, u).value.promptId
            ==> (s.task, s.key) == (u.task, u.key)
  {
    var i, j := A.FindChild(w.agents.children, s.task, s.key), A.FindChild(w.agents.children, u.task, u.key);
    if i.Some? && j.Some? {
      assert i.value < j.value ==> Distinct(w.agents.children[i.value], w.agents.children[j.value]);
      assert j.value < i.value ==> Distinct(w.agents.children[j.value], w.agents.children[i.value]);
    }
  }

  lemma HandleChange(w: World, s: Step, now: int)
    requires WorldOk(w) && s.Handle? && s.sub < |w.subs| && w.subs[s.sub].stage.Reserved?
    ensures WorldOk(HandleStep(w, s, now))
    ensures HandleStep(w, s, now).subs[s.sub].stage == Handled(w.subs[s.sub].stage.promptId, s.response)
  {
    var sub := w.subs[s.sub];
    var id := sub.stage.promptId;
    assert SubOk(w, sub);
    LogChange(w, s.sub, s.response);
    if s.accepted {
      var logged := At(w.(handled := w.handled + [(sub.task, sub.key)]), s.sub, Handled(id, s.response));
      var job := S.NewJob(s.cfg, S.Item(s.number, id, s.nodeTypes), sub.owner, s.exempt, "", now);
      ChildJobChange(logged, s.sub, job);
    }
  }

  lemma {:induction false} RespondFind(a: A.Agents, promptId: string, response: string, task: nat, key: string, n: nat)
    requires n <= |a.children|
    ensures A.FindChild(A.RespondStep(a, promptId, response).children[..n], task, key) == A.FindChild(a.children[..n], task, key)
  {
    if n > 0 {
      var b := A.RespondStep(a, promptId, response);
      assert a.children[..n][..n - 1] == a.children[..n - 1] && b.children[..n][..n - 1] == b.children[..n - 1];
      RespondFind(a, promptId, response, task, key, n - 1);
    }
  }

  lemma SaveChange(w: World, k: nat)
    requires WorldOk(w) && k < |w.subs| && w.subs[k].stage.Handled?
    ensures WorldOk(SaveStep(w, k))
  {
    var v := SaveStep(w, k);
    var s := w.subs[k];
    var st := s.stage;
    assert SubOk(w, s);
    forall task: nat, key: string
      ensures A.FindChild(v.agents.children, task, key) == A.FindChild(w.agents.children, task, key)
    {
      RespondFind(w.agents, st.promptId, st.response, task, key, |w.agents.children|);
      assert w.agents.children[..|w.agents.children|] == w.agents.children;
      assert v.agents.children[..|v.agents.children|] == v.agents.children;
    }
    forall c | 0 <= c < |v.agents.children|
      ensures ChildOk(v, v.agents.children[c])
    {
      assert ChildOk(w, w.agents.children[c]);
    }
    forall c, d | 0 <= c < d < |v.agents.children|
      ensures Distinct(v.agents.children[c], v.agents.children[d])
    {
      assert Distinct(w.agents.children[c], w.agents.children[d]);
    }
    forall j | 0 <= j < |v.subs|
      ensures SubOk(v, v.subs[j])
    {
      assert SubOk(w, w.subs[j]);
      assert j < k ==> Exclusive(w.subs[j], w.subs[k]);
      assert k < j ==> Exclusive(w.subs[k], w.subs[j]);
      SameChild(w, w.subs[j], s);
    }
    forall j, l | 0 <= j < l < |v.subs|
      ensures Exclusive(v.subs[j], v.subs[l])
    {
      assert Exclusive(w.subs[j], w.subs[l]);
    }
  }

  lemma SubmitChange(w: World, s: Step, now: int)
    requires WorldOk(w) && s.Submit?
    ensures WorldOk(SubmitStep(w, s, now))
  {
    var v := SubmitStep(w, s, now);
    forall j | 0 <= j < |v.subs|
      ensures SubOk(v, v.subs[j])
    {
      if j < |w.subs| {
        SameTables(w, v, w.subs[j]);
      }
    }
    assert ChildrenOk(v);
  }

  lemma CancelMoves(w: World, id: string, owner: string, now: int)
    requires WorldOk(w)
    ensures QueueMoves(w, S.CancelStep(w.queue, id, owner, false, now).0)
  {
    SchedulerSafety.StepKeepsLifecycle(w.queue, S.Event(S.Cancel(id, owner, false), now, map[]));
  }

  lemma SubStepKeepsWorld(w: World, lim: A.Limits, e: Event)
    requires WorldOk(w) && Legal(w, e)
    requires e.step.AnswerDuplicate? || e.step.Look? || e.step.Crash? || e.step.Withdraw?
    ensures WorldOk(Apply(w, lim, e))
  {
    if e.step.sub < |w.subs| {
      var k := e.step.sub;
      assert SubOk(w, w.subs[k]);
      match e.step
      case AnswerDuplicate(_) =>
        if w.subs[k].stage.Duplicate? {
          StageChange(w, k, DuplicateStep(w, k).subs[k].stage);
        }
      case Look(_) =>
        if w.subs[k].stage.Saved? {
          StageChange(w, k, LookStep(w, k).subs[k].stage);
        }
      case Crash(_) =>
        if !w.subs[k].stage.Done? {
          StageChange(w, k, Crashed);
        }
      case Withdraw(_) =>
        if w.subs[k].stage.Withdrawing? {
          var st := w.subs[k].stage;
          CancelMoves(w, st.promptId, w.subs[k].owner, e.now);
          var v := w.(queue := S.CancelStep(w.queue, st.promptId, w.subs[k].owner, false, e.now).0);
          QueueChange(w, v.queue);
          assert SubOk(v, v.subs[k]);
          StageChange(v, k, Done(Fresh(st.response)));
        }
    }
  }

  lemma CallStepKeepsWorld(w: World, lim: A.Limits, e: Event)
    requires WorldOk(w) && Legal(w, e)
    requires e.step.StartCancel? || e.step.ListChildren? || e.step.CancelNext?
    ensures WorldOk(Apply(w, lim, e))
  {
    match e.step
    case StartCancel(task, owner) =>
      if Owns(w, task, owner) {
        TaskChange(w, A.CancelStep(w.agents, task, owner, e.now));
        CallsChange(w.(agents := A.CancelStep(w.agents, task, owner, e.now)), Apply(w, lim, e));
      }
    case ListChildren(_) => CallsChange(w, Apply(w, lim, e));
    case CancelNext(c) =>
      if c < |w.cancels| && w.cancels[c].stage.Listed? {
        var pending := w.cancels[c].stage.pending;
        if pending == [] {
          CallsChange(w, Apply(w, lim, e));
        } else {
          CancelMoves(w, pending[0], w.cancels[c].owner, e.now);
          var v := w.(queue := S.CancelStep(w.queue, pending[0], w.cancels[c].owner, false, e.now).0);
          QueueChange(w, v.queue);
          CallsChange(v, Apply(w, lim, e));
        }
      }
  }

  lemma CallsChange(w: World, v: World)
    requires WorldOk(w) && v == w.(cancels := v.cancels)
    requires forall c :: 0 <= c < |v.cancels| ==> Owns(w, v.cancels[c].task, v.cancels[c].owner)
    ensures WorldOk(v)
  {
    forall j | 0 <= j < |v.subs|
      ensures SubOk(v, v.subs[j])
    {
      SameTables(w, v, w.subs[j]);
    }
    assert ChildrenOk(v);
  }

  lemma EntryStepKeepsWorld(w: World, lim: A.Limits, e: Event)
    requires WorldOk(w) && Legal(w, e)
    requires e.step.Submit? || e.step.Reserve? || e.step.Handle? || e.step.Save?
    ensures WorldOk(Apply(w, lim, e))
  {
    match e.step
    case Submit(_, _, _, _, _) => SubmitChange(w, e.step, e.now);
    case Reserve(k, promptId) =>
      if k < |w.subs| && w.subs[k].stage.Checked? {
        ReserveChange(w, k, promptId, e.now);
      }
    case Handle(k, _, _, _, _, _, _) =>
      if k < |w.subs| && w.subs[k].stage.Reserved? {
        HandleChange(w, e.step, e.now);
      }
    case Save(k) =>
      if k < |w.subs| && w.subs[k].stage.Handled? {
        SaveChange(w, k);
      }
  }

  lemma OtherStepKeepsWorld(w: World, lim: A.Limits, e: Event)
    requires WorldOk(w) && Legal(w, e) && (e.step.OtherAgent? || e.step.OtherQueue?)
    ensures WorldOk(Apply(w, lim, e))
  {
    if e.step.OtherAgent? {
      OtherAgentMoves(w.agents, lim, A.Event(e.step.agentOp, e.now));
      TaskChange(w, A.Apply(w.agents, lim, A.Event(e.step.agentOp, e.now)));
    } else {
      OtherQueueMoves(w, e);
      QueueChange(w, S.Apply(w.queue, S.Event(e.step.queueOp, e.now, e.files)));
    }
  }

  lemma OtherQueueMoves(w: World, e: Event)
    requires WorldOk(w) && Legal(w, e) && e.step.OtherQueue?
    ensures QueueMoves(w, S.Apply(w.queue, S.Event(e.step.queueOp, e.now, e.files)))
  {
    var e' := S.Event(e.step.queueOp, e.now, e.files);
    SchedulerSafety.StepKeepsLifecycle(w.queue, e');
    SchedulerSafety.NewRowIsEnqueued(w.queue, e');
  }

  lemma StepKeepsWorld(w: World, lim: A.Limits, e: Event)
    requires WorldOk(w) && Legal(w, e)
    ensures WorldOk(Apply(w, lim, e))
  {
    if e.step.Submit? || e.step.Reserve? || e.step.Handle? || e.step.Save? {
      EntryStepKeepsWorld(w, lim, e);
    } else if e.step.OtherAgent? || e.step.OtherQueue? {
      OtherStepKeepsWorld(w, lim, e);
    } else if e.step.StartCancel? || e.step.ListChildren? || e.step.CancelNext? {
      CallStepKeepsWorld(w, lim, e);
    } else {
      SubStepKeepsWorld(w, lim, e);
    }
  }

  lemma {:induction false} RunKeepsWorld(w: World, lim: A.Limits, events: seq<Event>)
    requires WorldOk(w) && LegalRun(w, lim, events)
    ensures WorldOk(Run(w, lim, events))
    decreases |events|
  {
    if events != [] {
      StepKeepsWorld(w, lim, events[0]);
      RunKeepsWorld(Apply(w, lim, events[0]), lim, events[1..]);
    }
  }

  // ---- At most once ------------------------------------------------------------------

  /** Over any run, with any retries and crashes: the downstream handler runs at most once
      per task and request key; children have distinct prompt ids; and every answer carrying
      a response or a prompt id agrees with the child's row. */
  lemma SubmissionIsAtMostOnce(agents: A.Agents, queue: S.Tables, lim: A.Limits, events: seq<Event>)
    requires agents.children == [] && SchedulerSafety.UniqueIds(queue.jobs)
    requires LegalRun(World(agents, queue, [], [], []), lim, events)
    ensures
      var w := Run(World(agents, queue, [], [], []), lim, events);
      && NoRepeats(w.handled)
      && (forall c, d :: 0 <= c < d < |w.agents.children| ==> Distinct(w.agents.children[c], w.agents.children[d]))
      && (forall k :: 0 <= k < |w.subs| && w.subs[k].stage.Done? ==> AnswerOk(w, w.subs[k], w.subs[k].stage.answer))
  {
    var w0 := World(agents, queue, [], [], []);
    assert WorldOk(w0);
    RunKeepsWorld(w0, lim, events);
    var w := Run(w0, lim, events);
    forall k | 0 <= k < |w.subs| && w.subs[k].stage.Done?
      ensures AnswerOk(w, w.subs[k], w.subs[k].stage.answer)
    {
      assert SubOk(w, w.subs[k]);
    }
  }

  function ResponseOf(answer: Answer): Option<string> {
    match answer
    case Fresh(r) => Some(r)
    case Recorded(r) => Some(r)
    case _ => None
  }

  /** Two requests for one key that were both given a response were given the same one. */
  lemma DuplicatesAgree(w: World, j: nat, k: nat)
    requires WorldOk(w) && j < |w.subs| && k < |w.subs|
    requires w.subs[j].stage.Done? && w.subs[k].stage.Done?
    requires (w.subs[j].task, w.subs[j].key) == (w.subs[k].task, w.subs[k].key)
    requires ResponseOf(w.subs[j].stage.answer).Some? && ResponseOf(w.subs[k].stage.answer).Some?
    ensures ResponseOf(w.subs[j].stage.answer) == ResponseOf(w.subs[k].stage.answer)
  {
    assert SubOk(w, w.subs[j]) && SubOk(w, w.subs[k]);
  }

  // ---- Cancel and submit cannot miss each other --------------------------------------

  predicate QueuedChild(w: World, task: nat, c: nat)
    requires c < |w.agents.children|
  {
    w.agents.children[c].task == task && S.HasStatus(w.queue.jobs, w.agents.children[c].promptId, S.Queued)
  }

  predicate Following(st: Stage, id: string) {
    (st.Handled? || st.Saved? || st.Withdrawing?) && st.promptId == id
  }

  /** The cancel call is still going to cancel this prompt. */
  predicate Covers(w: World, call: nat, id: string) {
    call < |w.cancels| && (w.cancels[call].stage.Marked? || (w.cancels[call].stage.Listed? && id in w.cancels[call].stage.pending))
  }

  /** Someone is still going to cancel this prompt: the cancel call, or the request that
      enqueued it. */
  ghost predicate Pursued(w: World, call: nat, id: string) {
    Covers(w, call, id) || exists k :: 0 <= k < |w.subs| && Following(w.subs[k].stage, id)
  }

  ghost predicate Tidy(w: World, task: nat, call: nat) {
    && call < |w.cancels| && w.cancels[call].task == task
    && forall c: nat :: c < |w.agents.children| && QueuedChild(w, task, c) ==> Pursued(w, call, w.agents.children[c].promptId)
  }

  /** Request `k` owes the withdrawal of a queued job that the call does not cover any more. */
  predicate Owes(w: World, k: nat, task: nat, call: nat)
    requires k < |w.subs|
  {
    var st := w.subs[k].stage;
    && w.subs[k].task == task && (st.Handled? || st.Saved? || st.Withdrawing?)
    && S.HasStatus(w.queue.jobs, st.promptId, S.Queued) && !Covers(w, call, st.promptId)
  }

  /** The two ways to let go of a child that nobody else will cancel: the request that owes
      it dies, or finds its task running again. */
  predicate Strands(w: World, e: Event, task: nat, call: nat) {
    || (e.step.Crash? && e.step.sub < |w.subs| && Owes(w, e.step.sub, task, call))
    || (e.step.Look? && e.step.sub < |w.subs| && w.subs[e.step.sub].stage.Saved? && StillRunning(w, task) && Owes(w, e.step.sub, task, call))
  }

  /** A child that a step adds is not in the queue yet. */
  lemma NewChildren(w: World, lim: A.Limits, e: Event)
    requires WorldOk(w) && Legal(w, e)
    ensures
      var v := Apply(w, lim, e);
      && |w.agents.children| <= |v.agents.children|
      && (forall c :: 0 <= c < |w.agents.children| ==>
            v.agents.children[c].promptId == w.agents.children[c].promptId && v.agents.children[c].task == w.agents.children[c].task)
      && (forall c :: |w.agents.children| <= c < |v.agents.children| ==>
            !S.HasStatus(v.queue.jobs, v.agents.children[c].promptId, S.Queued))
  {
    if e.step.OtherAgent? {
      OtherAgentMoves(w.agents, lim, A.Event(e.step.agentOp, e.now));
    }
  }

  /** The row a step queues, if any, is followed by the request that queued it. */
  lemma NewlyQueued(w: World, lim: A.Limits, e: Event, c: nat)
    requires WorldOk(w) && Legal(w, e) && c < |w.agents.children|
    requires !S.HasStatus(w.queue.jobs, w.agents.children[c].promptId, S.Queued)
    requires S.HasStatus(Apply(w, lim, e).queue.jobs, w.agents.children[c].promptId, S.Queued)
    ensures e.step.Handle? && e.step.sub < |w.subs| && e.step.sub < |Apply(w, lim, e).subs|
    ensures Following(Apply(w, lim, e).subs[e.step.sub].stage, w.agents.children[c].promptId)
  {
    if e.step.Handle? {
      if e.step.sub < |w.subs| && w.subs[e.step.sub].stage.Reserved? {
        HandlerQueues(w, e.step, e.now, c);
      }
    } else {
      QueueMovesUnlessHandled(w, lim, e);
      QueueKeepsUnqueued(w, Apply(w, lim, e).queue, c);
    }
  }

  lemma QueueMovesUnlessHandled(w: World, lim: A.Limits, e: Event)
    requires WorldOk(w) && Legal(w, e) && !e.step.Handle?
    ensures QueueMoves(w, Apply(w, lim, e).queue)
  {
    match e.step
    case OtherQueue(op) => OtherQueueMoves(w, e);
    case Withdraw(k) =>
      if k < |w.subs| && w.subs[k].stage.Withdrawing? {
        CancelMoves(w, w.subs[k].stage.promptId, w.subs[k].owner, e.now);
      }
    case CancelNext(call) =>
      if call < |w.cancels| && w.cancels[call].stage.Listed? && w.cancels[call].stage.pending != [] {
        CancelMoves(w, w.cancels[call].stage.pending[0], w.cancels[call].owner, e.now);
      }
    case _ =>
  }

  lemma HandlerQueues(w: World, s: Step, now: int, c: nat)
    requires WorldOk(w) && s.Handle? && s.sub < |w.subs| && w.subs[s.sub].stage.Reserved? && c < |w.agents.children|
    requires !S.HasStatus(w.queue.jobs, w.agents.children[c].promptId, S.Queued)
    requires S.HasStatus(HandleStep(w, s, now).queue.jobs, w.agents.children[c].promptId, S.Queued)
    ensures Following(HandleStep(w, s, now).subs[s.sub].stage, w.agents.children[c].promptId)
  {
    HandleChange(w, s, now);
    var jobs := HandleStep(w, s, now).queue.jobs;
    if jobs != w.queue.jobs {
      assert jobs[..|w.queue.jobs|] == w.queue.jobs;
    }
  }

  lemma QueueKeepsUnqueued(w: World, queue: S.Tables, c: nat)
    requires WorldOk(w) && QueueMoves(w, queue) && c < |w.agents.children|
    ensures S.HasStatus(queue.jobs, w.agents.children[c].promptId, S.Queued)
            ==> S.HasStatus(w.queue.jobs, w.agents.children[c].promptId, S.Queued)
  {
    QueueFind(w, queue, c);
  }

  /** A job withdrawn for its owner is no longer queued. */
  lemma CancelUnqueues(w: World, c: nat, owner: string, now: int)
    requires WorldOk(w) && c < |w.agents.children| && Owns(w, w.agents.children[c].task, owner)
    ensures
      var id := w.agents.children[c].promptId;
      !S.HasStatus(S.CancelStep(w.queue, id, owner, false, now).0.jobs, id, S.Queued)
  {
    var id := w.agents.children[c].promptId;
    assert ChildOk(w, w.agents.children[c]);
    CancelMoves(w, id, owner, now);
    QueueFind(w, S.CancelStep(w.queue, id, owner, false, now).0, c);
  }

  /** Who pursued a queued child before a step, pursues it after, unless it was cancelled or
      let go. */
  lemma PursuitGoesOn(w: World, lim: A.Limits, e: Event, task: nat, call: nat, c: nat)
    requires WorldOk(w) && Legal(w, e) && Tidy(w, task, call) && !Strands(w, e, task, call)
    requires c < |w.agents.children| && w.agents.children[c].task == task
    requires S.HasStatus(w.queue.jobs, w.agents.children[c].promptId, S.Queued)
    requires S.HasStatus(Apply(w, lim, e).queue.jobs, w.agents.children[c].promptId, S.Queued)
    ensures Pursued(Apply(w, lim, e), call, w.agents.children[c].promptId)
  {
    var id := w.agents.children[c].promptId;
    assert QueuedChild(w, task, c);
    assert Pursued(w, call, id);
    if Covers(w, call, id) {
      CallGoesOn(w, lim, e, call, c);
    } else {
      var k: nat :| k < |w.subs| && Following(w.subs[k].stage, id);
      FollowerGoesOn(w, lim, e, task, call, c, k);
    }
  }

  /** The step moves request `k` on. */
  predicate Moves(e: Event, k: nat) {
    match e.step
    case Reserve(j, _) => j == k
    case AnswerDuplicate(j) => j == k
    case Handle(j, _, _, _, _, _, _) => j == k
    case Save(j) => j == k
    case Look(j) => j == k
    case Withdraw(j) => j == k
    case Crash(j) => j == k
    case _ => false
  }

  lemma OthersStay(w: World, lim: A.Limits, e: Event, k: nat)
    requires k < |w.subs| && !Moves(e, k)
    ensures k < |Apply(w, lim, e).subs| && Apply(w, lim, e).subs[k] == w.subs[k]
  {
  }

  lemma FollowerGoesOn(w: World, lim: A.Limits, e: Event, task: nat, call: nat, c: nat, k: nat)
    requires WorldOk(w) && Legal(w, e) && k < |w.subs| && !Strands(w, e, task, call)
    requires c < |w.agents.children| && w.agents.children[c].task == task
    requires Following(w.subs[k].stage, w.agents.children[c].promptId) && !Covers(w, call, w.agents.children[c].promptId)
    requires S.HasStatus(w.queue.jobs, w.agents.children[c].promptId, S.Queued)
    requires S.HasStatus(Apply(w, lim, e).queue.jobs, w.agents.children[c].promptId, S.Queued)
    ensures k < |Apply(w, lim, e).subs| && Following(Apply(w, lim, e).subs[k].stage, w.agents.children[c].promptId)
  {
    if !Moves(e, k) {
      OthersStay(w, lim, e, k);
    } else {
      assert SubOk(w, w.subs[k]);
      RowTask(w, w.subs[k], c);
      assert Owes(w, k, task, call);
      if e.step.Withdraw? && w.subs[k].stage.Withdrawing? {
        CancelUnqueues(w, c, w.subs[k].owner, e.now);
      }
    }
  }

  /** The child a request works on belongs to the request's task. */
  lemma RowTask(w: World, s: Submission, c: nat)
    requires WorldOk(w) && c < |w.agents.children|
    requires ChildRow(w, s).Some? && ChildRow(w, s).value.promptId == w.agents.children[c].promptId
    ensures w.agents.children[c].task == s.task
  {
    var r := A.FindChild(w.agents.children, s.task, s.key).value;
    assert r < c ==> Distinct(w.agents.children[r], w.agents.children[c]);
    assert c < r ==> Distinct(w.agents.children[c], w.agents.children[r]);
  }

  lemma CallGoesOn(w: World, lim: A.Limits, e: Event, call: nat, c: nat)
    requires WorldOk(w) && Legal(w, e) && call < |w.cancels| && c < |w.agents.children|
    requires w.cancels[call].task == w.agents.children[c].task
    requires w.cancels[call].stage.Marked?
             || (w.cancels[call].stage.Listed? && w.agents.children[c].promptId in w.cancels[call].stage.pending)
    requires S.HasStatus(Apply(w, lim, e).queue.jobs, w.agents.children[c].promptId, S.Queued)
    ensures Pursued(Apply(w, lim, e), call, w.agents.children[c].promptId)
  {
    var id := w.agents.children[c].promptId;
    assert Owns(w, w.cancels[call].task, w.cancels[call].owner);
    if e.step.CancelNext? && e.step.call == call && w.cancels[call].stage.Listed? && w.cancels[call].stage.pending[0] == id {
      CancelUnqueues(w, c, w.cancels[call].owner, e.now);
    }
  }

  lemma StepKeepsTidy(w: World, lim: A.Limits, e: Event, task: nat, call: nat)
    requires WorldOk(w) && Legal(w, e) && Tidy(w, task, call) && !Strands(w, e, task, call)
    ensures Tidy(Apply(w, lim, e), task, call)
  {
    var v := Apply(w, lim, e);
    NewChildren(w, lim, e);
    forall c: nat | c < |v.agents.children| && QueuedChild(v, task, c)
      ensures Pursued(v, call, v.agents.children[c].promptId)
    {
      assert c < |w.agents.children|;
      if S.HasStatus(w.queue.jobs, w.agents.children[c].promptId, S.Queued) {
        PursuitGoesOn(w, lim, e, task, call, c);
      } else {
        NewlyQueued(w, lim, e, c);
      }
    }
  }

  /** A child is followed by no request but one. */
  lemma NobodyElseFollows(w: World, j: nat, k: nat, id: string)
    requires WorldOk(w) && j < |w.subs| && k < |w.subs| && j != k
    requires Following(w.subs[k].stage, id)
    ensures !Following(w.subs[j].stage, id)
  {
    assert SubOk(w, w.subs[j]) && SubOk(w, w.subs[k]);
    SameChild(w, w.subs[j], w.subs[k]);
    assert if j < k then Exclusive(w.subs[j], w.subs[k]) else Exclusive(w.subs[k], w.subs[j]);
  }

  lemma StrandedIsUntidy(w: World, lim: A.Limits, e: Event, task: nat, call: nat)
    requires WorldOk(w) && Legal(w, e) && Tidy(w, task, call) && Strands(w, e, task, call)
    ensures !Tidy(Apply(w, lim, e), task, call)
  {
    var v, k := Apply(w, lim, e), e.step.sub;
    var id := w.subs[k].stage.promptId;
    assert SubOk(w, w.subs[k]);
    var c := A.FindChild(w.agents.children, w.subs[k].task, w.subs[k].key).value;
    assert QueuedChild(v, task, c) && !Covers(v, call, id);
    forall j | 0 <= j < |v.subs|
      ensures !Following(v.subs[j].stage, id)
    {
      if j != k {
        NobodyElseFollows(w, j, k, id);
      }
    }
    assert !Pursued(v, call, id);
  }

  /** After a step every queued child of the task is still going to be cancelled, exactly when
      the step does not let go of one. */
  lemma StepTidyExactly(w: World, lim: A.Limits, e: Event, task: nat, call: nat)
    requires WorldOk(w) && Legal(w, e) && Tidy(w, task, call)
    ensures Tidy(Apply(w, lim, e), task, call) <==> !Strands(w, e, task, call)
  {
    if Strands(w, e, task, call) {
      StrandedIsUntidy(w, lim, e, task, call);
    } else {
      StepKeepsTidy(w, lim, e, task, call);
    }
  }

  ghost predicate NeverStrands(w: World, lim: A.Limits, events: seq<Event>, task: nat, call: nat)
    decreases |events|
  {
    events != [] ==> !Strands(w, events[0], task, call) && NeverStrands(Apply(w, lim, events[0]), lim, events[1..], task, call)
  }

  /** Every state along the run is tidy. */
  ghost predicate AlwaysTidy(w: World, lim: A.Limits, events: seq<Event>, task: nat, call: nat)
    decreases |events|
  {
    Tidy(w, task, call) && (events != [] ==> AlwaysTidy(Apply(w, lim, events[0]), lim, events[1..], task, call))
  }

  /** Over whole runs, and in their last state. */
  lemma {:induction false} TidyExactly(w: World, lim: A.Limits, events: seq<Event>, task: nat, call: nat)
    requires WorldOk(w) && LegalRun(w, lim, events) && Tidy(w, task, call)
    ensures AlwaysTidy(w, lim, events, task, call) <==> NeverStrands(w, lim, events, task, call)
    ensures NeverStrands(w, lim, events, task, call) ==> Tidy(Run(w, lim, events), task, call)
    decreases |events|
  {
    if events != [] {
      StepKeepsWorld(w, lim, events[0]);
      StepTidyExactly(w, lim, events[0], task, call);
      if Tidy(Apply(w, lim, events[0]), task, call) {
        TidyExactly(Apply(w, lim, events[0]), lim, events[1..], task, call);
      }
    }
  }

  /** Every request for the task has returned or died. */
  ghost predicate AllReturned(w: World, task: nat) {
    forall k :: 0 <= k < |w.subs| && w.subs[k].task == task ==> w.subs[k].stage.Done? || w.subs[k].stage.Crashed?
  }

  /** Cancelling marks the task in such a way that it is no longer running. */
  lemma CancelStopsTask(w: World, lim: A.Limits, task: nat, owner: string, now: int)
    requires Owns(w, task, owner)
    ensures
      var v := Apply(w, lim, Event(StartCancel(task, owner), now, map[]));
      !StillRunning(v, task) && Tidy(v, task, |w.cancels|)
  {
  }

  ghost predicate NoneQueued(w: World, task: nat) {
    forall c: nat :: c < |w.agents.children| ==> !QueuedChild(w, task, c)
  }

  /** When the call is over and every request has returned, tidy means that nothing is queued. */
  lemma OverMeansNoneQueued(w: World, task: nat, call: nat)
    requires WorldOk(w) && call < |w.cancels| && w.cancels[call].task == task
    requires w.cancels[call].stage.Finished? && AllReturned(w, task)
    ensures Tidy(w, task, call) <==> NoneQueued(w, task)
  {
    forall c: nat | c < |w.agents.children| && QueuedChild(w, task, c)
      ensures !Pursued(w, call, w.agents.children[c].promptId)
    {
      var id := w.agents.children[c].promptId;
      forall k | 0 <= k < |w.subs|
        ensures !Following(w.subs[k].stage, id)
      {
        assert SubOk(w, w.subs[k]);
        if Following(w.subs[k].stage, id) {
          RowTask(w, w.subs[k], c);
        }
      }
    }
  }

  /** In every interleaving of a cancel with any number of child submissions, crashes and
      returns to running: as long as no step lets go of a child, once all requests have
      returned none is still queued: it was cancelled, or a worker had already claimed it. */
  lemma CancelMissesNoChild(w: World, lim: A.Limits, task: nat, owner: string, now: int, events: seq<Event>)
    requires WorldOk(w) && Owns(w, task, owner)
    requires
      var marked := Apply(w, lim, Event(StartCancel(task, owner), now, map[]));
      LegalRun(marked, lim, events)
    ensures
      var call := |w.cancels|;
      var marked := Apply(w, lim, Event(StartCancel(task, owner), now, map[]));
      var end := Run(marked, lim, events);
      && (AlwaysTidy(marked, lim, events, task, call) <==> NeverStrands(marked, lim, events, task, call))
      && (NeverStrands(marked, lim, events, task, call) ==>
            call < |end.cancels| && (end.cancels[call].stage.Finished? && AllReturned(end, task) ==> NoneQueued(end, task)))
  {
    var e := Event(StartCancel(task, owner), now, map[]);
    var marked := Apply(w, lim, e);
    CancelStopsTask(w, lim, task, owner, now);
    StepKeepsWorld(w, lim, e);
    RunKeepsWorld(marked, lim, events);
    TidyExactly(marked, lim, events, task, |w.cancels|);
    var end := Run(marked, lim, events);
    if NeverStrands(marked, lim, events, task, |w.cancels|) && end.cancels[|w.cancels|].stage.Finished? && AllReturned(end, task) {
      OverMeansNoneQueued(end, task, |w.cancels|);
    }
  }
}
