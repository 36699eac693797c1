/** Crash-safe recovery of submitted API results (utils/api_recovery.py), interleaved with
    the scheduler and with workers that save their results late (utils/access_control.py). */
module RecoveryModel {
  import opened Values
  import S = SchedulerModel
  import LogLines
  import H = History

  /** A row of scheduler_api_recovery. `acts` counts the iterations that reached the final
      update of the row; the table does not keep it. */
  datatype Rec = Rec(
    id: string,
    promptId: string,
    nodeId: string,
    provider: string,
    taskId: string,
    credentials: Option<string>,
    state: H.RecoveryState,
    createdAt: int,
    nextCheck: int,
    failures: nat,
    message: string,
    acts: nat)

  const MAX_AGE := 7 * 86400
  const MAX_FAILURES := 20

  function Pow2(n: nat): nat {
    if n == 0 then 1 else 2 * Pow2(n - 1)
  }

  /** min(1800, 30 * 2 ** min(failures, 6)). */
  function Delay(failures: nat): int {
    Min(1800, 30 * Pow2(Min(failures, 6)))
  }

  /** Why a provider does not answer for a task any more: the credentials are not accepted
      (401, 403), or it does not know the task (404, 410). */
  datatype Rejection = NoAccess | NotFound

  function TextOf(rejection: Rejection): string {
    if rejection.NoAccess? then "no access" else "not found"
  }

  /** What the provider, or the attempt to ask it, came to. */
  datatype Outcome = Ready(urls: seq<string>) | Refused | InProgress | QueryRejected(rejection: Rejection) | Trouble

  /** What an iteration has decided to write. */
  datatype Decision = Decision(state: H.RecoveryState, message: string, videos: seq<string>, failures: nat)

  /** How far the running iteration has come; `now` is the clock it read when it started. */
  datatype Runner =
    | Chosen(rec: nat, now: int)
    | Downloading(rec: nat, now: int)
    | Decided(rec: nat, now: int, decision: Decision)
    | Published(rec: nat, now: int, decision: Decision)

  /** The tables, the iteration holding the recovery lock, if any, and the latest clock. */
  datatype World = World(queue: S.Tables, history: H.Table, recs: seq<Rec>, runner: Option<Runner>, clock: int)

  datatype Step =
    | Scheduler(op: S.Op)
    | SaveHistory(id: string, item: H.Item, max: nat)
    | DeleteHistory(id: string)
    | Observe(rec: Rec)
    | Sweep
    | Choose(row: nat)
    | Fetch(outcome: Outcome)
    | Download(videos: Option<seq<string>>)
    | Publish(prompt: string, createTime: Option<int>)
    | Acknowledge
    | CrashRunner

  datatype Event = Event(step: Step, now: int, files: LogLines.Files)

  predicate Lost(w: World, promptId: string) {
    S.HasStatus(w.queue.jobs, promptId, S.WorkerLost)
  }

  predicate KnownId(recs: seq<Rec>, id: string) {
    exists k :: 0 <= k < |recs| && recs[k].id == id
  }

  /** INSERT OR IGNORE … SELECT … WHERE status = 'running'. */
  function ObserveStep(w: World, rec: Rec, now: int): World {
    if rec.credentials.Some? && !KnownId(w.recs, rec.id) && S.HasStatus(w.queue.jobs, rec.promptId, S.Running)
    then w.(recs := w.recs + [rec.(state := H.Pending, createdAt := now, nextCheck := 0, failures := 0, message := "", acts := 0)])
    else w
  }

  /** Pending recoveries of jobs that ended by themselves are given up. */
  predicate Moot(jobs: seq<S.Job>, rec: Rec) {
    && rec.state == H.Pending
    && (S.HasStatus(jobs, rec.promptId, S.Completed) || S.HasStatus(jobs, rec.promptId, S.Cancelled) || S.HasStatus(jobs, rec.promptId, S.Failed))
  }

  function SweptRow(jobs: seq<S.Job>, rec: Rec): Rec {
    if Moot(jobs, rec) then rec.(state := H.Ignored, credentials := None) else rec
  }

  function SweepStep(w: World): World {
    w.(recs := seq(|w.recs|, k requires 0 <= k < |w.recs| => SweptRow(w.queue.jobs, w.recs[k])))
  }

  predicate DueRow(jobs: seq<S.Job>, rec: Rec, now: int) {
    rec.state == H.Pending && rec.nextCheck <= now && S.HasStatus(jobs, rec.promptId, S.WorkerLost)
  }

  /** ORDER BY next_check, created_at LIMIT 1: a due row such that none comes before it. */
  ghost predicate FirstDue(jobs: seq<S.Job>, recs: seq<Rec>, k: nat, now: int) {
    && k < |recs| && DueRow(jobs, recs[k], now)
    && forall j :: 0 <= j < |recs| && DueRow(jobs, recs[j], now) ==>
         recs[k].nextCheck < recs[j].nextCheck || (recs[k].nextCheck == recs[j].nextCheck && recs[k].createdAt <= recs[j].createdAt)
  }

  const EXPIRED := "expired"
  const FINISHED := "superseded"

  /** The next attempt after trouble; the twentieth in a row is the last. */
  function AfterTrouble(rec: Rec): Decision {
    if rec.failures + 1 >= MAX_FAILURES then Decision(H.Failed, "gave up", [], rec.failures + 1)
    else Decision(H.Pending, "retrying", [], rec.failures + 1)
  }

  /** After the query, up to the download: the age limit, the answer, and the check that the
      job is still lost. */
  function FetchRunner(w: World, k: nat, now: int, outcome: Outcome): Runner
    requires k < |w.recs|
  {
    var rec := w.recs[k];
    if now - rec.createdAt > MAX_AGE then Decided(k, now, Decision(H.Failed, EXPIRED, [], rec.failures))
    else if outcome.QueryRejected? then Decided(k, now, Decision(H.Failed, TextOf(outcome.rejection), [], rec.failures))
    else if outcome.Trouble? then Decided(k, now, AfterTrouble(rec))
    else if !Lost(w, rec.promptId) then Decided(k, now, Decision(H.Ignored, FINISHED, [], rec.failures))
    else if outcome.Ready? then Downloading(k, now)
    else if outcome.Refused? then Decided(k, now, Decision(H.Failed, "refused", [], rec.failures))
    else Decided(k, now, Decision(H.Pending, "in progress", [], 0))
  }

  function DownloadRunner(w: World, k: nat, now: int, videos: Option<seq<string>>): Runner
    requires k < |w.recs|
  {
    var rec := w.recs[k];
    if videos.None? then Decided(k, now, AfterTrouble(rec))
    else if !Lost(w, rec.promptId) then Decided(k, now, Decision(H.Ignored, FINISHED, [], rec.failures))
    else Decided(k, now, Decision(H.Recovered, "recovered", videos.value, rec.failures))
  }

  function TaskOf(w: World, rec: Rec, prompt: string, createTime: Option<int>): H.RecoveryTask {
    var row := S.Find(w.queue.jobs, rec.promptId);
    H.RecoveryTask(rec.id, rec.promptId, if row.Some? then w.queue.jobs[row.value].owner else "", rec.nodeId, rec.provider,
                   rec.taskId, prompt, createTime, if row.Some? then w.queue.jobs[row.value].submittedAt else 0)
  }

  /** Merge into the history while the job is still lost; an owner mismatch aborts the
      iteration, and a merge that is not wanted any more turns it into an ignored one. */
  function PublishStep(w: World, k: nat, started: int, d: Decision, prompt: string, createTime: Option<int>, now: int): World
    requires k < |w.recs|
  {
    if d.state == H.Ignored then w.(runner := Some(Published(k, started, d)))
    else if !Lost(w, w.recs[k].promptId) then w.(runner := Some(Published(k, started, d.(state := H.Ignored))))
    else
      var (history, r) := H.MergeStep(w.history, TaskOf(w, w.recs[k], prompt, createTime), d.state, d.message, d.videos, now);
      match r
      case Err(_) => w.(runner := None)
      case Ok(true) => w.(history := history, runner := Some(Published(k, started, d)))
      case Ok(false) => w.(runner := Some(Published(k, started, d.(state := H.Ignored))))
  }

  function AcknowledgedRow(rec: Rec, started: int, d: Decision): Rec {
    rec.(state := d.state, message := d.message, nextCheck := started + Delay(d.failures), failures := d.failures,
    credentials := if d.state == H.Pending then rec.credentials else None, acts := rec.acts + 1)
  }

  function AcknowledgeStep(w: World, k: nat, started: int, d: Decision): World
    requires k < |w.recs|
  {
    w.(recs := w.recs[k := AcknowledgedRow(w.recs[k], started, d)], runner := None)
  }

  ghost function Remove(h: H.Table, id: string): H.Table {
    var row := H.Find(h, id);
    if row.Some? then h[..row.value] + h[row.value + 1..] else h
  }

  /** One committed step; a step that does not apply changes nothing but the clock. */
  ghost function Apply(w0: World, e: Event): World {
    var w := w0.(clock := Max(w0.clock, e.now));
    match e.step
    case Scheduler(op) => w.(queue := S.Apply(w.queue, S.Event(op, e.now, e.files)))
    case SaveHistory(id, item, max) => w.(history := H.SaveStep(w.history, id, item, max))
    case DeleteHistory(id) => w.(history := Remove(w.history, id))
    case Observe(rec) => ObserveStep(w, rec, e.now)
    case Sweep => if w.runner.None? then SweepStep(w) else w
    case Choose(k) =>
      if w.runner.None? && FirstDue(w.queue.jobs, w.recs, k, e.now) then w.(runner := Some(Chosen(k, e.now))) else w
    case Fetch(outcome) =>
      if w.runner.Some? && w.runner.value.Chosen? && w.runner.value.rec < |w.recs|
      then w.(runner := Some(FetchRunner(w, w.runner.value.rec, w.runner.value.now, outcome))) else w
    case Download(videos) =>
      if w.runner.Some? && w.runner.value.Downloading? && w.runner.value.rec < |w.recs|
      then w.(runner := Some(DownloadRunner(w, w.runner.value.rec, w.runner.value.now, videos))) else w
    case Publish(prompt, createTime) =>
      if w.runner.Some? && w.runner.value.Decided? && w.runner.value.rec < |w.recs|
      then PublishStep(w, w.runner.value.rec, w.runner.value.now, w.runner.value.decision, prompt, createTime, e.now) else w
    case Acknowledge =>
      if w.runner.Some? && w.runner.value.Published? && w.runner.value.rec < |w.recs|
      then AcknowledgeStep(w, w.runner.value.rec, w.runner.value.now, w.runner.value.decision) else w
    case CrashRunner => w.(runner := None)
  }

  ghost function Run(w: World, events: seq<Event>): World
    decreases |events|
  {
    if events == [] then w else Run(Apply(w, events[0]), events[1..])
  }

  function When(e: Event): int {
    e.now
  }
}
