/** The maintenance_jobs table and the effect of every transaction on it.

    Each function below is one committed transaction (or one single-statement
    UPDATE) of maintenance_queue.py, maintenance_dispatch.py, maintenance.py or
    maintenance_native.py, on a table seen as a map from job id to row.
  */
module MaintenanceJobs {
  import opened Options

  datatype Status = Queued | Starting | Running | Ok | Error | Cancelled

  // The fifteen actions a caller may enqueue, then the two retired ones that an
  // upgrade may still find queued, then any other text.
  datatype Action =
    | Retention | Vacuum | DeleteHistory | DeleteCompact | ClearMonitoringData | ResetAppData
    | ConfigurationBackup | ConfigurationRestore | FullBackup | FullBackupVerify
    | PurgeNodes | PurgeNodeVms | PurgeVms | ClearApiLogs | ClearApiData
    | ClearLiveCache | Checkpoint
    | OtherAction

  type JobId = nat

  datatype Job = Job(
    action: Action,
    status: Status,
    createdAt: int,
    startedAt: Option<int>,
    finishedAt: Option<int>,
    heartbeatAt: Option<int>,
    progress: int,
    attempt: int,
    cancelRequested: bool)

  type Table = map<JobId, Job>

  const STARTING_STALE_SECONDS := 120
  const RUNNING_HEARTBEAT_STALE_SECONDS := 300

  predicate Allowed(a: Action) {
    !Legacy(a) && a != OtherAction
  }

  predicate Legacy(a: Action) {
    a == ClearLiveCache || a == Checkpoint
  }

  // The actions whose body writes progress rows with status 'running' and no
  // expected status.
  predicate WritesProgress(a: Action) {
    a in {PurgeNodes, PurgeNodeVms, PurgeVms, DeleteCompact, ConfigurationRestore, ResetAppData}
  }

  predicate Active(s: Status) {
    s == Starting || s == Running
  }

  predicate Unfinished(s: Status) {
    s == Queued || Active(s)
  }

  // The unique index uq_maintenance_jobs_one_worker: at most one active row.
  predicate OneWorker(t: Table) {
    forall j, k :: j in t && k in t && Active(t[j].status) && Active(t[k].status) ==> j == k
  }

  // Those of them that swallow an error of such a write and go on.
  predicate SwallowsErrors(a: Action) {
    a in {PurgeNodes, PurgeNodeVms, PurgeVms, DeleteCompact}
  }

  // Python's `a or b` on integers, where 0 counts as missing.
  function Or(a: int, b: int): int {
    if a != 0 then a else b
  }

  function Coalesce(o: Option<int>, default: int): int {
    match o case None => default case Some(v) => v
  }

  // ---------------------------------------------------------------- ordering

  lemma LeastExists(ids: set<JobId>)
    requires ids != {}
    ensures exists m :: m in ids && forall k :: k in ids ==> m <= k
  {
    var x :| x in ids;
    var below := set k | k in ids && k < x;
    if below != {} {
      assert x !in below && below < ids;
      LeastExists(below);
      var m :| m in below && forall k :: k in below ==> m <= k;
      forall k | k in ids ensures m <= k {
        if k < x { assert k in below; }
      }
    } else {
      forall k | k in ids ensures x <= k {
        assert k < x <==> k in below;
      }
    }
  }

  // ORDER BY id LIMIT 1
  function Least(ids: set<JobId>): (m: JobId)
    requires ids != {}
    ensures m in ids
    ensures forall k :: k in ids ==> m <= k
  {
    LeastExists(ids);
    var m :| m in ids && forall k :: k in ids ==> m <= k;
    m
  }

  // ORDER BY id
  function Ascending(ids: set<JobId>): (order: seq<JobId>)
    ensures forall k :: k in order <==> k in ids
    ensures forall i, j :: 0 <= i < j < |order| ==> order[i] < order[j]
    decreases |ids|
  {
    if ids == {} then []
    else
      var m := Least(ids);
      var rest := Ascending(ids - {m});
      assert forall k :: k in ids ==> k == m || k in ids - {m};
      [m] + rest
  }

  // ---------------------------------------------------------------- enqueue

  datatype EnqueueResult =
    | Accepted(id: JobId)
    | UnsupportedAction
    | ResetInProgress(blocker: JobId)
    | QueueNotEmpty(busy: JobId)

  function UnfinishedResets(t: Table): set<JobId> {
    set j | j in t && t[j].action == ResetAppData && Unfinished(t[j].status)
  }

  function UnfinishedJobs(t: Table): set<JobId> {
    set j | j in t && Unfinished(t[j].status)
  }

  function NewJob(action: Action, now: int): Job {
    Job(action, Queued, now, None, None, None, 0, 0, false)
  }

  function EnqueueVerdict(t: Table, action: Action, exclusive: bool, id: JobId): EnqueueResult {
    if !Allowed(action) then UnsupportedAction
    else if UnfinishedResets(t) != {} && !exclusive then ResetInProgress(Least(UnfinishedResets(t)))
    else if exclusive && UnfinishedJobs(t) != {} then QueueNotEmpty(Least(UnfinishedJobs(t)))
    else Accepted(id)
  }

  function Enqueue(t: Table, action: Action, exclusive: bool, id: JobId, now: int): Table {
    if EnqueueVerdict(t, action, exclusive, id).Accepted? then t[id := NewJob(action, now)] else t
  }

  function CancelQueued(t: Table, id: JobId, now: int): Table {
    if id in t && t[id].status == Queued
    then t[id := t[id].(status := Cancelled, finishedAt := Some(now), progress := 100)]
    else t
  }

  // ---------------------------------------------------------------- dispatcher

  function CancelledLegacy(j: Job, now: int): Job {
    if Legacy(j.action) && Unfinished(j.status)
    then j.(status := Cancelled, finishedAt := Some(now), progress := 100)
    else j
  }

  function CancelLegacy(t: Table, now: int): Table {
    map id | id in t :: CancelledLegacy(t[id], now)
  }

  function ActiveIds(t: Table): set<JobId> {
    set j | j in t && Active(t[j].status)
  }

  // Whether the snapshot row looks dead at time `now`, unit check aside.
  predicate Stale(j: Job, now: int) {
    var age := now - Or(Coalesce(j.startedAt, 0), Or(j.createdAt, now));
    var heartbeatAge :=
      now - Or(Coalesce(j.heartbeatAt, 0), Or(Coalesce(j.startedAt, 0), Or(j.createdAt, now)));
    || (j.status == Starting && age >= STARTING_STALE_SECONDS)
    || (j.status == Running && heartbeatAge >= RUNNING_HEARTBEAT_STALE_SECONDS)
  }

  function Failed(j: Job, now: int): Job {
    j.(status := Error, finishedAt := Some(now), progress := 100)
  }

  // UPDATE ... SET status='error' ... WHERE id=? AND status=?
  function FailIf(t: Table, id: JobId, expected: Status, now: int): Table {
    if id in t && t[id].status == expected then t[id := Failed(t[id], now)] else t
  }

  function Claimable(t: Table): set<JobId> {
    set j | j in t && t[j].status == Queued && !t[j].cancelRequested
  }

  function NextClaim(t: Table): Option<JobId> {
    if ActiveIds(t) != {} || Claimable(t) == {} then None else Some(Least(Claimable(t)))
  }

  function StartingJob(j: Job, now: int): Job {
    j.(status := Starting, startedAt := Some(Coalesce(j.startedAt, now)),
       heartbeatAt := Some(now), attempt := j.attempt + 1)
  }

  function Claim(t: Table, now: int): Table {
    match NextClaim(t)
    case None => t
    case Some(id) =>
      assert id in Claimable(t);
      t[id := StartingJob(t[id], now)]
  }

  // ---------------------------------------------------------------- worker

  function Clamp(p: int): int {
    if p < 0 then 0 else if p > 100 then 100 else p
  }

  function Updated(j: Job, status: Status, started: bool, finished: bool, heartbeat: bool,
                   progress: Option<int>, now: int): Job
  {
    j.(status := status,
       startedAt := if started then Some(Coalesce(j.startedAt, now)) else j.startedAt,
       finishedAt := if finished then Some(now) else j.finishedAt,
       heartbeatAt := if heartbeat || Active(status) then Some(now) else j.heartbeatAt,
       progress := if progress.Some? then Clamp(progress.value) else j.progress)
  }

  predicate Matches(t: Table, id: JobId, expected: Option<Status>) {
    id in t && (expected.Some? ==> t[id].status == expected.value)
  }

  // The write would make a second row active, so the unique index raises.
  predicate Refused(t: Table, id: JobId, status: Status, expected: Option<Status>) {
    Matches(t, id, expected) && Active(status) && exists k :: k in t && k != id && Active(t[k].status)
  }

  // update_job: compare-and-swap when `expected` is given, unconditional otherwise.
  function UpdateJob(t: Table, id: JobId, status: Status, started: bool, finished: bool,
                     heartbeat: bool, progress: Option<int>, expected: Option<Status>, now: int): Table
  {
    if Matches(t, id, expected) && !Refused(t, id, status, expected)
    then t[id := Updated(t[id], status, started, finished, heartbeat, progress, now)]
    else t
  }

  // With the refusals no write breaks the index.
  lemma UpdateKeepsIndex(t: Table, id: JobId, status: Status, started: bool, finished: bool,
                         heartbeat: bool, progress: Option<int>, expected: Option<Status>, now: int)
    requires OneWorker(t)
    ensures OneWorker(UpdateJob(t, id, status, started, finished, heartbeat, progress, expected, now))
  {
    hide OneWorker;
    if Matches(t, id, expected) && !Refused(t, id, status, expected) {
      RowKeepsIndex(t, id, Updated(t[id], status, started, finished, heartbeat, progress, now));
    }
  }

  lemma RowKeepsIndex(t: Table, id: JobId, j: Job)
    requires OneWorker(t) && id in t
    requires Active(j.status) ==> forall k :: k in t && k != id ==> !Active(t[k].status)
    ensures OneWorker(t[id := j])
  {
  }

  function ClaimRunning(t: Table, id: JobId, seen: Status, now: int): Table {
    UpdateJob(t, id, Running, true, false, true, Some(1), Some(seen), now)
  }

  function ReportProgress(t: Table, id: JobId, heartbeat: bool, progress: Option<int>, now: int): Table {
    UpdateJob(t, id, Running, false, false, heartbeat, progress, None, now)
  }

  function Report(t: Table, id: JobId, status: Status, now: int): Table {
    UpdateJob(t, id, status, false, true, false, Some(100), None, now)
  }

  function Heartbeat(t: Table, id: JobId, now: int): Table {
    if id in t && t[id].status == Running then t[id := t[id].(heartbeatAt := Some(now))] else t
  }

  // The guard and the effect of the reset transaction on this table: every row
  // but the current job is deleted.
  predicate ResetAllowed(t: Table, id: JobId) {
    id in t && t[id].action == ResetAppData && Active(t[id].status)
  }

  function ResetTable(t: Table, id: JobId): Table {
    map k | k in t && k == id :: t[k]
  }

  // Rows that retention may delete: old, and neither queued nor running.
  function Prunable(t: Table, cutoff: int): set<JobId> {
    set j | j in t && t[j].status !in {Queued, Running} && Coalesce(t[j].finishedAt, t[j].createdAt) < cutoff
  }
}
