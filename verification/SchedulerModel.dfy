/** The shared scheduler tables and what one committed transaction does to them
    (utils/scheduler_store.py). Several server processes issue these steps in any order;
    a run is a sequence of events applied one after another. */
module SchedulerModel {
  import opened Values
  import opened LogLines

  datatype Status = Queued | Running | Completed | Failed | Cancelled | WorkerLost

  /** A submitted workflow: its queue number, its id and the class types of its nodes. */
  datatype Item = Item(number: real, promptId: string, nodeTypes: seq<string>)

  /** A row of scheduler_jobs; its autoincrement sequence is its index in the table. */
  datatype Job = Job(
    item: Item,
    owner: string,
    status: Status,
    limit: nat,
    resource: string,
    submittedAt: int,
    workerPort: Option<int>,
    startedAt: Option<int>,
    finishedAt: Option<int>,
    logFile: Option<string>,
    logStart: Option<nat>,
    logEnd: Option<nat>,
    startLine: Option<nat>,
    endLine: Option<nat>)

  datatype Worker = Worker(pid: int, active: Option<string>, lastHeartbeat: int, resource: string)

  /** A stored log excerpt. */
  datatype JobLog = JobLog(port: int, file: string, start: nat, end: nat,
                           startLine: Option<nat>, endLine: Option<nat>, content: Bytes)

  datatype Tables = Tables(jobs: seq<Job>, workers: map<int, Worker>, logs: map<string, JobLog>)

  const EMPTY := Tables([], map[], map[])

  /** The settings of one store object. */
  datatype Config = Config(maxPerUser: nat, adminLimit: nat, limits: map<string, nat>, gpuTypes: set<string>)

  // ---- Reading the tables ------------------------------------------------------------

  /** The row with this prompt id; ids are unique, so the last match is the only one. */
  function Find(jobs: seq<Job>, id: string): (r: Option<nat>)
    ensures r.Some? ==> r.value < |jobs| && jobs[r.value].item.promptId == id
    ensures r.None? ==> forall i :: 0 <= i < |jobs| ==> jobs[i].item.promptId != id
  {
    if jobs == [] then None
    else if jobs[|jobs| - 1].item.promptId == id then Some(|jobs| - 1)
    else Find(jobs[..|jobs| - 1], id)
  }

  predicate HasStatus(jobs: seq<Job>, id: string, status: Status) {
    var row := Find(jobs, id);
    row.Some? && jobs[row.value].status == status
  }

  /** The running rows of one owner and resource class. */
  ghost function RunningRows(jobs: seq<Job>, owner: string, resource: string): set<nat> {
    set i: nat | i < |jobs| && jobs[i].status == Running && jobs[i].owner == owner && jobs[i].resource == resource
  }

  ghost function RowsWith(jobs: seq<Job>, status: Status): set<nat> {
    set i: nat | i < |jobs| && jobs[i].status == status
  }

  /** A worker of class `worker` may take a job of class `job`. */
  predicate Compatible(worker: string, job: string) {
    worker == "default" || job == "default" || job == worker
  }

  ghost predicate UnderLimit(jobs: seq<Job>, i: nat)
    requires i < |jobs|
  {
    jobs[i].limit == 0 || |RunningRows(jobs, jobs[i].owner, jobs[i].resource)| < jobs[i].limit
  }

  ghost predicate Eligible(jobs: seq<Job>, i: nat, resource: string)
    requires i < |jobs|
  {
    jobs[i].status == Queued && Compatible(resource, jobs[i].resource) && UnderLimit(jobs, i)
  }

  /** The (priority, sequence) order of the queue. */
  predicate Before(jobs: seq<Job>, i: nat, j: nat)
    requires i < |jobs| && j < |jobs|
  {
    jobs[i].item.number < jobs[j].item.number || (jobs[i].item.number == jobs[j].item.number && i < j)
  }

  /** Row `i` comes first among the eligible rows below `n`. */
  ghost predicate First(jobs: seq<Job>, i: nat, resource: string, n: nat)
    requires n <= |jobs|
  {
    && i < n
    && Eligible(jobs, i, resource)
    && forall j: nat :: j < n && j != i && Eligible(jobs, j, resource) ==> Before(jobs, i, j)
  }

  ghost function PickBelow(jobs: seq<Job>, resource: string, n: nat): (r: Option<nat>)
    requires n <= |jobs|
    ensures r.Some? ==> First(jobs, r.value, resource, n)
    ensures r.None? ==> forall j: nat :: j < n ==> !Eligible(jobs, j, resource)
  {
    if n == 0 then None
    else
      var r := PickBelow(jobs, resource, n - 1);
      if Eligible(jobs, n - 1, resource) && (r.None? || Before(jobs, n - 1, r.value)) then Some(n - 1) else r
  }

  /** The row the claim query selects. */
  ghost function Pick(jobs: seq<Job>, resource: string): (r: Option<nat>)
    ensures r.Some? ==> First(jobs, r.value, resource, |jobs|)
    ensures r.None? ==> forall j: nat :: j < |jobs| ==> !Eligible(jobs, j, resource)
  {
    PickBelow(jobs, resource, |jobs|)
  }

  /** `if worker["active_prompt_id"]`: NULL and the empty string both count as idle. */
  predicate Truthy(id: Option<string>) {
    id.Some? && id.value != ""
  }

  /** The worker's active job, taken literally, is running. */
  predicate ActiveRuns(t: Tables, port: int) {
    port in t.workers && t.workers[port].active.Some? && HasStatus(t.jobs, t.workers[port].active.value, Running)
  }

  predicate Busy(t: Tables, port: int) {
    ActiveRuns(t, port) && Truthy(t.workers[port].active)
  }

  /** `str(resource_class or "default")`. */
  function ClassOrDefault(resource: string): string {
    if resource == "" then "default" else resource
  }

  /** Path, size and line of a log file at this moment; an unreadable file counts as empty. */
  function LogPosition(files: Files, file: string): (Option<string>, Option<nat>, Option<nat>) {
    if file == "" then (None, None, None)
    else if file in files then (Some(file), Some(|files[file]|), Some(LineOf(files[file], |files[file]|)))
    else (Some(file), Some(0), Some(1))
  }

  function Classify(cfg: Config, item: Item): string {
    if cfg.gpuTypes == {} then "default"
    else if exists k :: 0 <= k < |item.nodeTypes| && item.nodeTypes[k] in cfg.gpuTypes then "gpu"
    else "api"
  }

  function LimitFor(cfg: Config, exempt: bool, resource: string): nat {
    if exempt then cfg.adminLimit
    else if resource in cfg.limits then cfg.limits[resource]
    else cfg.maxPerUser
  }

  // ---- Row updates -------------------------------------------------------------------

  function LostRow(job: Job, files: Files, now: int): Job {
    var pos := LogPosition(files, if job.logFile.Some? then job.logFile.value else "");
    job.(status := WorkerLost, finishedAt := Some(now), logEnd := pos.1, endLine := pos.2)
  }

  function ClaimedRow(job: Job, port: int, log: string, files: Files, now: int): Job {
    var pos := LogPosition(files, log);
    job.(status := Running, workerPort := Some(port), startedAt := Some(now),
    logFile := pos.0, logStart := pos.1, logEnd := None, startLine := pos.2, endLine := None)
  }

  function DoneRow(job: Job, ok: bool, log: string, files: Files, now: int): Job {
    var pos := LogPosition(files, log);
    job.(status := if ok then Completed else Failed, finishedAt := Some(now),
    logFile := if job.logFile.Some? then job.logFile else pos.0, logEnd := pos.1, endLine := pos.2)
  }

  function CancelledRow(job: Job, now: int): Job {
    job.(status := Cancelled, finishedAt := Some(now))
  }

  function ReclassifiedRow(cfg: Config, job: Job): Job {
    var resource := Classify(cfg, job.item);
    job.(resource := resource,
    limit := if job.limit != 0 && resource in cfg.limits then cfg.limits[resource] else job.limit)
  }

  /** Replace one worker row, keeping its active job. */
  function Seen(workers: map<int, Worker>, port: int, pid: int, resource: string, now: int): map<int, Worker> {
    workers[port := Worker(pid, if port in workers then workers[port].active else None, now, ClassOrDefault(resource))]
  }

  // ---- Transactions ------------------------------------------------------------------

  datatype QueueError = DuplicatePromptId

  function NewJob(cfg: Config, item: Item, owner: string, exempt: bool, resource: string, now: int): Job {
    var resourceClass := if resource == "" then Classify(cfg, item) else resource;
    Job(item, owner, Queued, LimitFor(cfg, exempt, resourceClass), resourceClass, now,
        None, None, None, None, None, None, None, None)
  }

  function EnqueueStep(t: Tables, cfg: Config, item: Item, owner: string, exempt: bool, resource: string, now: int)
    : Result<Tables, QueueError>
  {
    if Find(t.jobs, item.promptId).Some? then Err(DuplicatePromptId)
    else Ok(t.(jobs := t.jobs + [NewJob(cfg, item, owner, exempt, resource, now)]))
  }

  /** UPDATE … SET status = 'worker_lost' … WHERE prompt_id = ? AND status = 'running'. */
  function MarkLost(jobs: seq<Job>, id: string, files: Files, now: int): seq<Job> {
    var row := Find(jobs, id);
    if row.Some? && jobs[row.value].status == Running
    then jobs[row.value := LostRow(jobs[row.value], files, now)] else jobs
  }

  function RegisterStep(t: Tables, port: int, pid: int, resource: string, files: Files, now: int): Tables {
    var restarted := port in t.workers && t.workers[port].pid != pid && Truthy(t.workers[port].active);
    t.(jobs := if restarted then MarkLost(t.jobs, t.workers[port].active.value, files, now) else t.jobs,
    workers := t.workers[port := Worker(pid, None, now, ClassOrDefault(resource))])
  }

  predicate Stale(w: Worker, cutoff: int) {
    w.lastHeartbeat < cutoff && w.active.Some?
  }

  /** The jobs that workers silent since `cutoff` were executing. */
  function StaleIds(workers: map<int, Worker>, cutoff: int): set<string> {
    set p | p in workers && Stale(workers[p], cutoff) :: workers[p].active.value
  }

  function LoseRows(jobs: seq<Job>, ids: set<string>, files: Files, now: int): (r: seq<Job>)
    ensures |r| == |jobs|
  {
    seq(|jobs|, i requires 0 <= i < |jobs| =>
      if jobs[i].status == Running && jobs[i].item.promptId in ids then LostRow(jobs[i], files, now) else jobs[i])
  }

  function ReleaseStale(workers: map<int, Worker>, cutoff: int): map<int, Worker> {
    map p | p in workers :: if Stale(workers[p], cutoff) then workers[p].(active := None) else workers[p]
  }

  function Cutoff(now: int, staleSeconds: int): int {
    now - Max(1, staleSeconds)
  }

  function HeartbeatStep(t: Tables, port: int, pid: int, stale: int, resource: string, files: Files, now: int): Tables {
    var workers := Seen(t.workers, port, pid, resource, now);
    var cutoff := Cutoff(now, stale);
    t.(jobs := LoseRows(t.jobs, StaleIds(workers, cutoff), files, now), workers := ReleaseStale(workers, cutoff))
  }

  /** The claim transaction and the row it hands out. */
  ghost function ClaimStep(t: Tables, port: int, pid: int, resource: string, log: string, files: Files, now: int)
    : (r: (Tables, Option<nat>))
    ensures r.1.Some? ==> r.1.value < |t.jobs|
  {
    var resourceClass := ClassOrDefault(resource);
    var pick := Pick(t.jobs, resourceClass);
    if Busy(t, port) then (t, None)
    else if pick.None? then (t.(workers := Seen(t.workers, port, pid, resource, now)), None)
    else
      var row := t.jobs[pick.value];
      (t.(jobs := t.jobs[pick.value := ClaimedRow(row, port, log, files, now)],
       workers := t.workers[port := Worker(pid, Some(row.item.promptId), now, resourceClass)]),
       pick)
  }

  /** The bytes of the log from the claim of the job to now, when they can be read. */
  function Excerpt(t: Tables, id: string, port: int, log: string, files: Files): Option<JobLog> {
    var row := Find(t.jobs, id);
    var pos := LogPosition(files, log);
    if log in files && log != "" && row.Some? && t.jobs[row.value].logStart.Some? then
      var start := t.jobs[row.value].logStart.value;
      Some(JobLog(port, log, start, pos.1.value, t.jobs[row.value].startLine, pos.2,
                  if start <= |files[log]| then files[log][start..] else []))
    else None
  }

  function CompleteStep(t: Tables, id: string, port: int, ok: bool, log: string, files: Files, now: int): Tables {
    var row := Find(t.jobs, id);
    var excerpt := Excerpt(t, id, port, log, files);
    Tables(
      if row.Some? && (t.jobs[row.value].status == Running || t.jobs[row.value].status == WorkerLost)
      then t.jobs[row.value := DoneRow(t.jobs[row.value], ok, log, files, now)] else t.jobs,
      if port in t.workers && t.workers[port].active == Some(id)
      then t.workers[port := t.workers[port].(active := None, lastHeartbeat := now)] else t.workers,
      if excerpt.Some? then t.logs[id := excerpt.value] else t.logs)
  }

  function CancelStep(t: Tables, id: string, owner: string, admin: bool, now: int): (Tables, bool) {
    var row := Find(t.jobs, id);
    if row.Some? && t.jobs[row.value].status == Queued && (admin || t.jobs[row.value].owner == owner)
    then (t.(jobs := t.jobs[row.value := CancelledRow(t.jobs[row.value], now)]), true)
    else (t, false)
  }

  function CancelAllStep(t: Tables, owner: string, admin: bool, now: int): Tables {
    t.(jobs := seq(|t.jobs|, i requires 0 <= i < |t.jobs| =>
      if t.jobs[i].status == Queued && (admin || t.jobs[i].owner == owner)
      then CancelledRow(t.jobs[i], now) else t.jobs[i]))
  }

  /** Opening a store reclassifies queued rows of the default class. */
  function ReclassifyStep(t: Tables, cfg: Config): Tables {
    t.(jobs := seq(|t.jobs|, i requires 0 <= i < |t.jobs| =>
      if cfg.gpuTypes != {} && t.jobs[i].status == Queued && t.jobs[i].resource == "default"
      then ReclassifiedRow(cfg, t.jobs[i]) else t.jobs[i]))
  }

  // ---- Runs --------------------------------------------------------------------------

  datatype Op =
    | Enqueue(cfg: Config, item: Item, owner: string, exempt: bool, resource: string)
    | Register(port: int, pid: int, resource: string)
    | Heartbeat(port: int, pid: int, stale: int, resource: string)
    | Claim(port: int, pid: int, resource: string, log: string)
    | Complete(id: string, port: int, ok: bool, log: string)
    | Cancel(id: string, owner: string, admin: bool)
    | CancelAll(owner: string, admin: bool)
    | Reclassify(cfg: Config)

  /** An operation, with the clock and the log files as it finds them. */
  datatype Event = Event(op: Op, now: int, files: Files)

  ghost function Apply(t: Tables, e: Event): Tables {
    match e.op
    case Enqueue(cfg, item, owner, exempt, resource) =>
      var r := EnqueueStep(t, cfg, item, owner, exempt, resource, e.now);
      if r.Ok? then r.value else t
    case Register(port, pid, resource) => RegisterStep(t, port, pid, resource, e.files, e.now)
    case Heartbeat(port, pid, stale, resource) => HeartbeatStep(t, port, pid, stale, resource, e.files, e.now)
    case Claim(port, pid, resource, log) => ClaimStep(t, port, pid, resource, log, e.files, e.now).0
    case Complete(id, port, ok, log) => CompleteStep(t, id, port, ok, log, e.files, e.now)
    case Cancel(id, owner, admin) => CancelStep(t, id, owner, admin, e.now).0
    case CancelAll(owner, admin) => CancelAllStep(t, owner, admin, e.now)
    case Reclassify(cfg) => ReclassifyStep(t, cfg)
  }

  ghost function Run(t: Tables, events: seq<Event>): Tables
    decreases |events|
  {
    if events == [] then t else Run(Apply(t, events[0]), events[1..])
  }

  lemma {:induction false} RunAppend(t: Tables, events: seq<Event>, e: Event)
    ensures Run(t, events + [e]) == Apply(Run(t, events), e)
    decreases |events|
  {
    if events == [] {
      assert [e][1..] == [];
      assert Run(Apply(t, e), []) == Apply(t, e);
      assert events + [e] == [e];
    } else {
      assert (events + [e])[1..] == events[1..] + [e];
      RunAppend(Apply(t, events[0]), events[1..], e);
    }
  }
}
