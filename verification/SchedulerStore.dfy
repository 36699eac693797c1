/** The store object of utils/scheduler_store.py: each method is one transaction on the
    shared tables and is proved to be the step of the same name. */
module SchedulerStore {
  import opened Values
  import opened LogLines
  import opened SchedulerModel
  import opened SchedulerSafety
  import opened SchedulerDrain

  predicate NoDuplicates(s: seq<string>) {
    forall i, j :: 0 <= i < j < |s| ==> s[i] != s[j]
  }

  /** Losing one more job is losing the set of jobs with that one added. */
  lemma LoseOneMore(jobs: seq<Job>, ids: set<string>, id: string, files: Files, now: int)
    requires UniqueIds(jobs)
    ensures MarkLost(LoseRows(jobs, ids, files, now), id, files, now) == LoseRows(jobs, ids + {id}, files, now)
  {
    var before := LoseRows(jobs, ids, files, now);
    FindSame(jobs, before, id);
    if Find(jobs, id).Some? {
      FindIs(jobs, Find(jobs, id).value);
    }
  }

  class SchedulerStore {
    const cfg: Config
    const lines: LineCache
    var jobs: seq<Job>
    var workers: map<int, Worker>
    var logs: map<string, JobLog>

    ghost function Db(): Tables
      reads this
    {
      Tables(jobs, workers, logs)
    }

    /** The UNIQUE constraint on prompt ids, and a line cache that fits the files. */
    ghost predicate Valid(files: Files)
      reads this, lines
    {
      UniqueIds(jobs) && Agrees(lines.entries, files)
    }

    /** Open the tables; queued rows of the default class are classified again. */
    constructor (cfg: Config, tables: Tables)
      requires UniqueIds(tables.jobs)
      ensures this.cfg == cfg && fresh(lines)
      ensures Db() == ReclassifyStep(tables, cfg)
      ensures forall files :: Valid(files)
    {
      this.cfg := cfg;
      this.lines := new LineCache();
      this.jobs := tables.jobs;
      this.workers := tables.workers;
      this.logs := tables.logs;
      new;
      ClassifyLegacyQueuedJobs();
    }

    method ClassifyLegacyQueuedJobs()
      modifies this`jobs
      ensures Db() == ReclassifyStep(old(Db()), cfg)
    {
      if cfg.gpuTypes == {} {
        assert jobs == ReclassifyStep(Db(), cfg).jobs;
        return;
      }
      ghost var before := jobs;
      for i := 0 to |jobs|
        invariant |jobs| == |before|
        invariant forall k :: 0 <= k < i ==> jobs[k] == ReclassifyStep(old(Db()), cfg).jobs[k]
        invariant forall k :: i <= k < |jobs| ==> jobs[k] == before[k]
      {
        if jobs[i].status == Queued && jobs[i].resource == "default" {
          jobs := jobs[i := ReclassifiedRow(cfg, jobs[i])];
        }
      }
      assert jobs == ReclassifyStep(old(Db()), cfg).jobs;
    }

    method LogPositionNow(files: Files, file: string) returns (path: Option<string>, offset: Option<nat>, line: Option<nat>)
      requires Agrees(lines.entries, files)
      modifies lines
      ensures (path, offset, line) == LogPosition(files, file)
      ensures Agrees(lines.entries, files)
    {
      if file == "" {
        return None, None, None;
      }
      if file !in files {
        return Some(file), Some(0), Some(1);
      }
      AgreesAfterQuery(lines.entries, files, file, |files[file]|);
      var at := lines.LineAtOffset(files, file, |files[file]|);
      path, offset, line := Some(file), Some(|files[file]|), Some(at);
    }

    method FindRow(id: string) returns (row: Option<nat>)
      ensures row == Find(jobs, id)
    {
      var i := |jobs|;
      assert jobs[..i] == jobs;
      while i > 0
        invariant 0 <= i <= |jobs|
        invariant Find(jobs, id) == Find(jobs[..i], id)
      {
        if jobs[i - 1].item.promptId == id {
          return Some(i - 1);
        }
        assert jobs[..i][..i - 1] == jobs[..i - 1];
        i := i - 1;
      }
      row := None;
    }

    method ClassifyItem(item: Item) returns (resource: string)
      ensures resource == Classify(cfg, item)
    {
      if cfg.gpuTypes == {} {
        return "default";
      }
      for k := 0 to |item.nodeTypes|
        invariant forall j :: 0 <= j < k ==> item.nodeTypes[j] !in cfg.gpuTypes
      {
        if item.nodeTypes[k] in cfg.gpuTypes {
          return "gpu";
        }
      }
      resource := "api";
    }

    /** Insert a queued row; a known prompt id is rejected and changes nothing. */
    method Enqueue(item: Item, owner: string, exempt: bool, resource: string, now: int) returns (r: Result<(), QueueError>)
      modifies this
      ensures var step := EnqueueStep(old(Db()), cfg, item, owner, exempt, resource, now);
              r.Ok? == step.Ok? && Db() == if step.Ok? then step.value else old(Db())
    {
      var resourceClass := resource;
      if resourceClass == "" {
        resourceClass := ClassifyItem(item);
      }
      var row := FindRow(item.promptId);
      if row.Some? {
        return Err(DuplicatePromptId);
      }
      jobs := jobs + [Job(item, owner, Queued, LimitFor(cfg, exempt, resourceClass), resourceClass, now,
                          None, None, None, None, None, None, None, None)];
      r := Ok(());
    }

    method MarkRowLost(id: string, files: Files, now: int) returns (updated: bool)
      requires Valid(files)
      modifies this`jobs, lines
      ensures jobs == MarkLost(old(jobs), id, files, now)
      ensures updated == HasStatus(old(jobs), id, Running)
      ensures Agrees(lines.entries, files)
    {
      var row := FindRow(id);
      var file := "";
      if row.Some? && jobs[row.value].logFile.Some? {
        file := jobs[row.value].logFile.value;
      }
      var _, offset, line := LogPositionNow(files, file);
      updated := row.Some? && jobs[row.value].status == Running;
      if updated {
        jobs := jobs[row.value := jobs[row.value].(status := WorkerLost, finishedAt := Some(now), logEnd := offset, endLine := line)];
      }
    }

    method RegisterWorker(port: int, pid: int, resource: string, files: Files, now: int)
      requires Valid(files)
      modifies this, lines
      ensures Db() == RegisterStep(old(Db()), port, pid, resource, files, now)
      ensures Agrees(lines.entries, files)
    {
      if port in workers && workers[port].pid != pid && Truthy(workers[port].active) {
        var _ := MarkRowLost(workers[port].active.value, files, now);
      }
      workers := workers[port := Worker(pid, None, now, ClassOrDefault(resource))];
    }

    /** Refresh one worker and mark the jobs of silent workers lost; `lost` lists exactly the
        jobs whose status changed, each once. */
    method Heartbeat(port: int, pid: int, staleSeconds: int, resource: string, files: Files, now: int) returns (lost: seq<string>)
      requires Valid(files)
      modifies this, lines
      ensures Db() == HeartbeatStep(old(Db()), port, pid, staleSeconds, resource, files, now)
      ensures Agrees(lines.entries, files)
      ensures NoDuplicates(lost)
      ensures forall i :: 0 <= i < |jobs| ==> (jobs[i].item.promptId in lost <==> jobs[i].status != old(jobs)[i].status)
    {
      workers := workers[port := Worker(pid, if port in workers then workers[port].active else None, now, ClassOrDefault(resource))];
      lost := LoseStaleWorkers(now - Max(1, staleSeconds), files, now);
      forall i | 0 <= i < |jobs|
        ensures jobs[i].item.promptId in lost <==> jobs[i].status != old(jobs)[i].status
      {
        FindIs(old(jobs), i);
      }
    }

    /** Lose the job of one silent worker and release it. */
    method LoseWorker(port: int, id: string, files: Files, now: int) returns (updated: bool)
      requires Valid(files) && port in workers
      modifies this, lines
      ensures jobs == MarkLost(old(jobs), id, files, now) && updated == HasStatus(old(jobs), id, Running)
      ensures workers == old(workers)[port := old(workers)[port].(active := None)] && logs == old(logs)
      ensures Agrees(lines.entries, files)
    {
      updated := MarkRowLost(id, files, now);
      workers := workers[port := workers[port].(active := None)];
    }

    /** The loop over workers silent since `cutoff`. */
    method LoseStaleWorkers(cutoff: int, files: Files, now: int) returns (lost: seq<string>)
      requires Valid(files)
      modifies this, lines
      ensures jobs == LoseRows(old(jobs), StaleIds(old(workers), cutoff), files, now)
      ensures workers == ReleaseStale(old(workers), cutoff) && logs == old(logs)
      ensures Agrees(lines.entries, files) && NoDuplicates(lost)
      ensures forall id :: id in lost <==> id in StaleIds(old(workers), cutoff) && HasStatus(old(jobs), id, Running)
    {
      ghost var jobs0 := jobs;
      var seen := workers;
      var stale := set p | p in seen && Stale(seen[p], cutoff);
      var todo := stale;
      ghost var ids: set<string> := {};
      lost := [];
      assert LoseRows(jobs0, {}, files, now) == jobs0;
      while todo != {}
        invariant todo <= stale && logs == old(logs) && Agrees(lines.entries, files)
        invariant ids == IdsAt(seen, stale - todo)
        invariant jobs == LoseRows(jobs0, ids, files, now)
        invariant workers == Released(seen, stale - todo)
        invariant NoDuplicates(lost)
        invariant forall id :: id in lost <==> id in ids && HasStatus(jobs0, id, Running)
      {
        EmptyOrMember(todo);
        var p :| p in todo;
        var id := seen[p].active.value;
        LoseOneMore(jobs0, ids, id, files, now);
        StillRunning(jobs0, ids, id, files, now);
        ReleaseOneMore(seen, stale, todo, p);
        var updated := LoseWorker(p, id, files, now);
        if updated {
          lost := lost + [id];
        }
        ids := ids + {id};
        todo := todo - {p};
      }
      assert stale - todo == stale;
      assert ids == StaleIds(seen, cutoff);
      assert workers == ReleaseStale(seen, cutoff);
    }

    /** SELECT COUNT(*) over the running rows of one owner and class. */
    method CountRunning(owner: string, resource: string) returns (n: nat)
      ensures n == |RunningRows(jobs, owner, resource)|
    {
      n := 0;
      ghost var rows := RunningRows(jobs, owner, resource);
      BelowAll(rows, |jobs|);
      for i := 0 to |jobs|
        invariant n == |Below(rows, i)|
      {
        BelowNext(rows, i);
        if jobs[i].status == Running && jobs[i].owner == owner && jobs[i].resource == resource {
          n := n + 1;
        }
      }
    }

    /** SELECT … ORDER BY priority, sequence LIMIT 1: the first eligible row, if any. */
    method SelectCandidate(resource: string) returns (best: Option<nat>)
      ensures best == Pick(jobs, resource)
      ensures best.Some? ==> best.value < |jobs|
    {
      best := None;
      for i := 0 to |jobs|
        invariant best == PickBelow(jobs, resource, i)
      {
        if jobs[i].status == Queued && Compatible(resource, jobs[i].resource) {
          var running := CountRunning(jobs[i].owner, jobs[i].resource);
          if (jobs[i].limit == 0 || running < jobs[i].limit) && (best.None? || Before(jobs, i, best.value)) {
            best := Some(i);
          }
        }
      }
    }

    /** Hand out the first eligible job, or nothing to a busy worker or when none exists. */
    method Claim(port: int, pid: int, resource: string, log: string, files: Files, now: int) returns (claimed: Option<(Item, string)>)
      requires Valid(files)
      modifies this, lines
      ensures var (after, row) := ClaimStep(old(Db()), port, pid, resource, log, files, now);
              && Db() == after
              && claimed == if row.Some? then Some((jobs[row.value].item, jobs[row.value].owner)) else None
      ensures Agrees(lines.entries, files)
    {
      var resourceClass := ClassOrDefault(resource);
      var path, offset, line := LogPositionNow(files, log);
      if port in workers && Truthy(workers[port].active) {
        var active := FindRow(workers[port].active.value);
        if active.Some? && jobs[active.value].status == Running {
          return None;
        }
      }
      var row := SelectCandidate(resourceClass);
      if row.None? {
        workers := workers[port := Worker(pid, if port in workers then workers[port].active else None, now, resourceClass)];
        return None;
      }
      var job := jobs[row.value];
      jobs := jobs[row.value := job.(status := Running, workerPort := Some(port), startedAt := Some(now),
                                     logFile := path, logStart := offset, logEnd := None,
                                     startLine := line, endLine := None)];
      workers := workers[port := Worker(pid, Some(job.item.promptId), now, resourceClass)];
      claimed := Some((job.item, job.owner));
    }

    /** Keep the bytes that the job has logged since its claim. */
    method KeepExcerpt(id: string, port: int, log: string, files: Files)
      requires Valid(files)
      modifies this`logs, lines
      ensures
        var excerpt := Excerpt(old(Db()), id, port, log, files);
        logs == if excerpt.Some? then old(logs)[id := excerpt.value] else old(logs)
      ensures Agrees(lines.entries, files)
    {
      var path, offset, line := LogPositionNow(files, log);
      var row := FindRow(id);
      if path.Some? && log in files && row.Some? && jobs[row.value].logStart.Some? {
        var start := jobs[row.value].logStart.value;
        var content := if start <= |files[log]| then files[log][start..start + Max(0, offset.value - start)] else [];
        assert start <= |files[log]| ==> content == files[log][start..];
        logs := logs[id := JobLog(port, log, start, offset.value, jobs[row.value].startLine, line, content)];
      }
    }

    /** Record the outcome of a running or lost job and keep its log excerpt. */
    method Complete(id: string, port: int, succeeded: bool, log: string, files: Files, now: int)
      requires Valid(files)
      modifies this, lines
      ensures Db() == CompleteStep(old(Db()), id, port, succeeded, log, files, now)
      ensures Agrees(lines.entries, files)
    {
      KeepExcerpt(id, port, log, files);
      var path, offset, line := LogPositionNow(files, log);
      var row := FindRow(id);
      if row.Some? && (jobs[row.value].status == Running || jobs[row.value].status == WorkerLost) {
        var job := jobs[row.value];
        jobs := jobs[row.value := job.(status := if succeeded then Completed else Failed, finishedAt := Some(now),
                                       logFile := if job.logFile.Some? then job.logFile else path,
                                       logEnd := offset, endLine := line)];
      }
      if port in workers && workers[port].active == Some(id) {
        workers := workers[port := workers[port].(active := None, lastHeartbeat := now)];
      }
    }

    /** Cancel a queued job that the caller may see. */
    method Cancel(id: string, owner: string, admin: bool, now: int) returns (cancelled: bool)
      modifies this`jobs
      ensures (Db(), cancelled) == CancelStep(old(Db()), id, owner, admin, now)
    {
      var row := FindRow(id);
      if row.None? || jobs[row.value].status != Queued || (!admin && jobs[row.value].owner != owner) {
        return false;
      }
      jobs := jobs[row.value := jobs[row.value].(status := Cancelled, finishedAt := Some(now))];
      cancelled := true;
    }

    method CancelAll(owner: string, admin: bool, now: int) returns (count: nat)
      modifies this`jobs
      ensures Db() == CancelAllStep(old(Db()), owner, admin, now)
      ensures count == |RowsWith(old(jobs), Queued)| - |RowsWith(jobs, Queued)|
    {
      ghost var before, target := jobs, CancelAllStep(Db(), owner, admin, now).jobs;
      count := 0;
      for i := 0 to |jobs|
        invariant |jobs| == |before|
        invariant forall k :: 0 <= k < i ==> jobs[k] == target[k]
        invariant forall k :: i <= k < |jobs| ==> jobs[k] == before[k]
        invariant count == |RowsWith(before, Queued)| - |RowsWith(jobs, Queued)|
      {
        if jobs[i].status == Queued && (admin || jobs[i].owner == owner) {
          ghost var was := jobs;
          jobs := jobs[i := jobs[i].(status := Cancelled, finishedAt := Some(now))];
          assert RowsWith(jobs, Queued) == RowsWith(was, Queued) - {i};
          count := count + 1;
        }
      }
      assert jobs == target;
    }

    /** The live, compatible workers that have no running job. */
    method IdleWorkerPorts(resource: string, staleSeconds: int, now: int) returns (ports: set<int>)
      ensures ports == set p | p in workers && IdleWorker(Db(), p, resource, Cutoff(now, staleSeconds))
    {
      ports := {};
      var cutoff := now - Max(1, staleSeconds);
      var todo := workers.Keys;
      while todo != {}
        invariant todo <= workers.Keys
        invariant ports == set p | p in workers && p !in todo && IdleWorker(Db(), p, resource, cutoff)
      {
        EmptyOrMember(todo);
        var p :| p in todo;
        todo := todo - {p};
        var worker := workers[p];
        var running := false;
        if worker.active.Some? {
          var row := FindRow(worker.active.value);
          running := row.Some? && jobs[row.value].status == Running;
        }
        if worker.lastHeartbeat >= cutoff && !running
           && (worker.resource == "default" || resource == "default" || worker.resource == resource) {
          ports := ports + {p};
        }
      }
    }
  }

  /** The jobs recorded as active at some ports. */
  ghost function IdsAt(workers: map<int, Worker>, ports: set<int>): set<string> {
    set p | p in ports && p in workers && workers[p].active.Some? :: workers[p].active.value
  }

  ghost function Released(workers: map<int, Worker>, ports: set<int>): map<int, Worker> {
    map p | p in workers :: if p in ports then workers[p].(active := None) else workers[p]
  }

  /** Releasing one more of the stale workers. */
  lemma ReleaseOneMore(workers: map<int, Worker>, stale: set<int>, todo: set<int>, p: int)
    requires todo <= stale <= workers.Keys && p in todo && workers[p].active.Some?
    requires forall q :: q in stale ==> workers[q].active.Some?
    ensures IdsAt(workers, stale - (todo - {p})) == IdsAt(workers, stale - todo) + {workers[p].active.value}
    ensures p in Released(workers, stale - todo)
    ensures Released(workers, stale - (todo - {p}))
            == Released(workers, stale - todo)[p := Released(workers, stale - todo)[p].(active := None)]
  {
    IdsAtOneMore(workers, stale - todo, p);
    assert stale - (todo - {p}) == (stale - todo) + {p};
  }

  lemma IdsAtOneMore(workers: map<int, Worker>, ports: set<int>, p: int)
    requires p in workers && workers[p].active.Some?
    ensures IdsAt(workers, ports + {p}) == IdsAt(workers, ports) + {workers[p].active.value}
  {
  }

  lemma StillRunning(jobs: seq<Job>, ids: set<string>, id: string, files: Files, now: int)
    requires UniqueIds(jobs)
    ensures HasStatus(LoseRows(jobs, ids, files, now), id, Running) <==> HasStatus(jobs, id, Running) && id !in ids
    ensures UniqueIds(LoseRows(jobs, ids, files, now))
  {
    assert UniqueIds(LoseRows(jobs, ids, files, now));
    FindSame(jobs, LoseRows(jobs, ids, files, now), id);
  }
}
