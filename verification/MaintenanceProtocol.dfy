/** The FIFO maintenance queue as an interleaved protocol.

    Every committed transaction, lock operation, unit check, unit start and
    process death is one step over the shared state.  `Enabled` and `Apply`
    describe the steps the programs can take on their own; which unit starts and
    unit checks the environment performs is restricted separately, by
    `UnitsFromDispatcher` and `SoundCheck`, only where a property needs it.
  */
module MaintenanceProtocol {
  import opened Options
  import opened MaintenanceJobs

  type Pid = nat

  // Who owns the exclusive lock on LOCK_PATH.
  datatype Owner = Nobody | Worker(pid: Pid) | RetentionRun(pid: Pid)

  /** Where a worker process stands in maintenance.py's main(). */
  datatype WorkerPhase =
    | Booting                 // before acquire_lock
    | Locked                  // owns the lock, has not read its row
    | Loaded(seen: Status)    // read_job returned `seen`
    | Executing               // the compare-and-swap to 'running' succeeded
    | Reported                // wrote 'ok'
    | Failing                 // an exception is on its way to the handler
    | Closing                 // in the finally block

  datatype WorkerProcess = WorkerProcess(job: JobId, phase: WorkerPhase, action: Action, holdsLock: bool)

  datatype RetentionPhase = RetentionBooting | RetentionLocked | RetentionPurging

  datatype SnapshotRow = SnapshotRow(id: JobId, job: Job)

  /** Where a dispatcher process stands in maintenance_dispatch.py's main(). */
  datatype DispatcherPhase =
    | Recovering(rows: seq<SnapshotRow>, now: int)
    | Condemning(row: SnapshotRow, rows: seq<SnapshotRow>, now: int)
    | Claimed(job: JobId)
    | StartRefused(job: JobId)

  datatype State = State(
    jobs: Table,
    nextId: JobId,
    owner: Owner,
    workers: map<Pid, WorkerProcess>,
    retentions: map<Pid, RetentionPhase>,
    dispatchers: map<Pid, DispatcherPhase>,
    pendingStarts: set<JobId>,   // unit starts systemd has accepted
    started: set<JobId>)         // history: units that have been started at least once

  datatype Step =
    | EnqueueStep(action: Action, exclusive: bool, id: JobId, now: int)
    | CancelStep(id: JobId, now: int)
    | DispatcherBegins(d: Pid, now: int)
    | DispatcherChecks(d: Pid, unitActive: bool)
    | DispatcherCondemns(d: Pid)
    | DispatcherClaims(d: Pid, now: int)
    | DispatcherStarts(d: Pid)
    | DispatcherRefused(d: Pid)
    | DispatcherMarksError(d: Pid, now: int)
    | DispatcherDies(d: Pid)
    | UnitStarts(id: JobId, pid: Pid)
    | WorkerLocks(pid: Pid)
    | WorkerReads(pid: Pid)
    | WorkerClaims(pid: Pid, now: int)
    | WorkerProgress(pid: Pid, heartbeat: bool, progress: Option<int>, now: int)
    | WorkerHeartbeat(pid: Pid, now: int)
    | WorkerDeletes(pid: Pid, ids: set<JobId>, cutoff: int)
    | WorkerResets(pid: Pid)
    | WorkerReportsOk(pid: Pid, now: int)
    | WorkerRaises(pid: Pid)
    | WorkerReportsError(pid: Pid, now: int)
    | WorkerExits(pid: Pid)
    | WorkerDies(pid: Pid)
    | RetentionBegins(pid: Pid)
    | RetentionLocks(pid: Pid)
    | RetentionChecks(pid: Pid)
    | RetentionDeletes(pid: Pid, ids: set<JobId>, cutoff: int)
    | RetentionExits(pid: Pid)

  // ---------------------------------------------------------------- helpers

  function SnapshotOf(t: Table, order: seq<JobId>): (rows: seq<SnapshotRow>)
    requires forall k :: k in order ==> k in t
    ensures |rows| == |order|
    ensures forall i :: 0 <= i < |rows| ==> rows[i] == SnapshotRow(order[i], t[order[i]])
  {
    if order == [] then [] else [SnapshotRow(order[0], t[order[0]])] + SnapshotOf(t, order[1..])
  }

  // SELECT ... WHERE status IN ('starting','running') ORDER BY id
  function ActiveSnapshot(t: Table): (rows: seq<SnapshotRow>)
    ensures forall r :: r in rows ==> r.id in t && r.job == t[r.id] && Active(r.job.status)
  {
    SnapshotOf(t, Ascending(ActiveIds(t)))
  }

  lemma SnapshotOfNone(t: Table)
    requires ActiveIds(t) == {}
    ensures ActiveSnapshot(t) == []
  {
  }

  lemma SnapshotOfOne(t: Table, j: JobId)
    requires ActiveIds(t) == {j}
    ensures ActiveSnapshot(t) == [SnapshotRow(j, t[j])]
  {
    assert {j} - {j} == {};
    assert Ascending({j}) == [j] + Ascending({j} - {j});
  }

  predicate UnitAlive(s: State, id: JobId) {
    exists pid :: pid in s.workers && s.workers[pid].job == id
  }

  function WithPhase(s: State, pid: Pid, phase: WorkerPhase): State
    requires pid in s.workers
  {
    s.(workers := s.workers[pid := s.workers[pid].(phase := phase)])
  }

  function LockReleased(s: State, pid: Pid): Owner
    requires pid in s.workers
  {
    if s.workers[pid].holdsLock then Nobody else s.owner
  }

  function Without<K, V>(m: map<K, V>, k: K): map<K, V> {
    map x | x in m && x != k :: m[x]
  }

  // ---------------------------------------------------------------- steps

  predicate AtDispatcher(s: State, d: Pid) {
    d in s.dispatchers
  }

  predicate AtWorker(s: State, pid: Pid, phase: WorkerPhase) {
    pid in s.workers && s.workers[pid].phase == phase
  }

  predicate Enabled(s: State, a: Step) {
    match a
    case EnqueueStep(action, exclusive, id, _) =>
      id >= s.nextId && EnqueueVerdict(s.jobs, action, exclusive, id).Accepted?
    case CancelStep(_, _) => true
    case DispatcherBegins(d, _) => d !in s.dispatchers
    case DispatcherChecks(d, _) =>
      AtDispatcher(s, d) && s.dispatchers[d].Recovering? && s.dispatchers[d].rows != []
    case DispatcherCondemns(d) => AtDispatcher(s, d) && s.dispatchers[d].Condemning?
    case DispatcherClaims(d, _) =>
      AtDispatcher(s, d) && s.dispatchers[d].Recovering? && s.dispatchers[d].rows == []
    case DispatcherStarts(d) => AtDispatcher(s, d) && s.dispatchers[d].Claimed?
    case DispatcherRefused(d) => AtDispatcher(s, d) && s.dispatchers[d].Claimed?
    case DispatcherMarksError(d, _) => AtDispatcher(s, d) && s.dispatchers[d].StartRefused?
    case DispatcherDies(d) => AtDispatcher(s, d)
    case UnitStarts(_, pid) => pid !in s.workers
    case WorkerLocks(pid) => AtWorker(s, pid, Booting)
    case WorkerReads(pid) => AtWorker(s, pid, Locked)
    case WorkerClaims(pid, _) => pid in s.workers && s.workers[pid].phase.Loaded?
    case WorkerProgress(pid, _, _, _) =>
      AtWorker(s, pid, Executing) && WritesProgress(s.workers[pid].action)
    case WorkerHeartbeat(pid, _) =>
      pid in s.workers && s.workers[pid].phase in {Executing, Reported, Failing, Closing}
    case WorkerDeletes(pid, ids, cutoff) =>
      AtWorker(s, pid, Executing) && s.workers[pid].action == Retention && ids <= Prunable(s.jobs, cutoff)
    case WorkerResets(pid) =>
      && AtWorker(s, pid, Executing) && s.workers[pid].action == ResetAppData
      && ResetAllowed(s.jobs, s.workers[pid].job)
    case WorkerReportsOk(pid, _) => AtWorker(s, pid, Executing)
    case WorkerRaises(pid) => pid in s.workers && s.workers[pid].phase !in {Failing, Closing}
    case WorkerReportsError(pid, _) => AtWorker(s, pid, Failing)
    case WorkerExits(pid) => pid in s.workers && s.workers[pid].phase in {Reported, Failing, Closing}
    case WorkerDies(pid) => pid in s.workers
    case RetentionBegins(pid) => pid !in s.retentions
    case RetentionLocks(pid) => pid in s.retentions && s.retentions[pid] == RetentionBooting
    case RetentionChecks(pid) => pid in s.retentions && s.retentions[pid] == RetentionLocked
    case RetentionDeletes(pid, ids, cutoff) =>
      pid in s.retentions && s.retentions[pid] == RetentionPurging && ids <= Prunable(s.jobs, cutoff)
    case RetentionExits(pid) => pid in s.retentions
  }

  function Checked(p: DispatcherPhase, unitActive: bool): DispatcherPhase
    requires p.Recovering? && p.rows != []
  {
    var row, rest := p.rows[0], p.rows[1..];
    if !unitActive && Stale(row.job, p.now) then Condemning(row, rest, p.now) else Recovering(rest, p.now)
  }

  function AfterRead(s: State, w: WorkerProcess): WorkerProcess {
    if w.job in s.jobs && s.jobs[w.job].status in {Starting, Queued}
    then w.(phase := Loaded(s.jobs[w.job].status), action := s.jobs[w.job].action)
    else w.(phase := Failing)
  }

  function Apply(s: State, a: Step): State
    requires Enabled(s, a)
  {
    match a
    case EnqueueStep(action, exclusive, id, now) =>
      s.(jobs := Enqueue(s.jobs, action, exclusive, id, now), nextId := id + 1)
    case CancelStep(id, now) => s.(jobs := CancelQueued(s.jobs, id, now))
    case DispatcherBegins(d, now) =>
      var t := CancelLegacy(s.jobs, now);
      s.(jobs := t, dispatchers := s.dispatchers[d := Recovering(ActiveSnapshot(t), now)])
    case DispatcherChecks(d, unitActive) =>
      s.(dispatchers := s.dispatchers[d := Checked(s.dispatchers[d], unitActive)])
    case DispatcherCondemns(d) =>
      var p := s.dispatchers[d];
      s.(jobs := FailIf(s.jobs, p.row.id, p.row.job.status, p.now),
         dispatchers := s.dispatchers[d := Recovering(p.rows, p.now)])
    case DispatcherClaims(d, now) =>
      (match NextClaim(s.jobs)
       case None => s.(dispatchers := Without(s.dispatchers, d))
       case Some(id) => s.(jobs := Claim(s.jobs, now), dispatchers := s.dispatchers[d := Claimed(id)]))
    case DispatcherStarts(d) =>
      s.(pendingStarts := s.pendingStarts + {s.dispatchers[d].job},
         dispatchers := Without(s.dispatchers, d))
    case DispatcherRefused(d) =>
      s.(dispatchers := s.dispatchers[d := StartRefused(s.dispatchers[d].job)])
    case DispatcherMarksError(d, now) =>
      s.(jobs := FailIf(s.jobs, s.dispatchers[d].job, Starting, now),
         dispatchers := Without(s.dispatchers, d))
    case DispatcherDies(d) => s.(dispatchers := Without(s.dispatchers, d))
    case UnitStarts(id, pid) =>
      s.(pendingStarts := s.pendingStarts - {id}, started := s.started + {id},
         workers := s.workers[pid := WorkerProcess(id, Booting, OtherAction, false)])
    case WorkerLocks(pid) =>
      if s.owner == Nobody
      then s.(owner := Worker(pid),
              workers := s.workers[pid := s.workers[pid].(phase := Locked, holdsLock := true)])
      else WithPhase(s, pid, Failing)
    case WorkerReads(pid) => s.(workers := s.workers[pid := AfterRead(s, s.workers[pid])])
    case WorkerClaims(pid, now) =>
      var w := s.workers[pid];
      if Matches(s.jobs, w.job, Some(w.phase.seen)) && !Refused(s.jobs, w.job, Running, Some(w.phase.seen))
      then WithPhase(s, pid, Executing).(jobs := ClaimRunning(s.jobs, w.job, w.phase.seen, now))
      else WithPhase(s, pid, Failing)
    case WorkerProgress(pid, heartbeat, progress, now) =>
      var w := s.workers[pid];
      if !Refused(s.jobs, w.job, Running, None)
      then s.(jobs := ReportProgress(s.jobs, w.job, heartbeat, progress, now))
      else if SwallowsErrors(w.action) then s
      else WithPhase(s, pid, Failing)
    case WorkerHeartbeat(pid, now) => s.(jobs := Heartbeat(s.jobs, s.workers[pid].job, now))
    case WorkerDeletes(pid, ids, _) => s.(jobs := s.jobs - ids)
    case WorkerResets(pid) => s.(jobs := ResetTable(s.jobs, s.workers[pid].job))
    case WorkerReportsOk(pid, now) =>
      WithPhase(s, pid, Reported).(jobs := Report(s.jobs, s.workers[pid].job, Ok, now))
    case WorkerRaises(pid) => WithPhase(s, pid, Failing)
    case WorkerReportsError(pid, now) =>
      WithPhase(s, pid, Closing).(jobs := Report(s.jobs, s.workers[pid].job, Error, now))
    case WorkerExits(pid) => s.(owner := LockReleased(s, pid), workers := Without(s.workers, pid))
    case WorkerDies(pid) => s.(owner := LockReleased(s, pid), workers := Without(s.workers, pid))
    case RetentionBegins(pid) => s.(retentions := s.retentions[pid := RetentionBooting])
    case RetentionLocks(pid) =>
      if s.owner == Nobody
      then s.(owner := RetentionRun(pid), retentions := s.retentions[pid := RetentionLocked])
      else s.(retentions := Without(s.retentions, pid))
    case RetentionChecks(pid) =>
      if UnfinishedJobs(s.jobs) == {}
      then s.(retentions := s.retentions[pid := RetentionPurging])
      else s.(owner := Nobody, retentions := Without(s.retentions, pid))
    case RetentionDeletes(pid, ids, _) => s.(jobs := s.jobs - ids)
    case RetentionExits(pid) =>
      s.(owner := if s.retentions[pid] == RetentionBooting then s.owner else Nobody,
         retentions := Without(s.retentions, pid))
  }

  // ---------------------------------------------------------------- runs

  predicate Quiet(s: State) {
    && s.owner == Nobody && s.workers == map[] && s.retentions == map[] && s.dispatchers == map[]
    && s.pendingStarts == {}
    && (forall j :: j in s.jobs ==> j < s.nextId) && OneWorker(s.jobs)
  }

  // The unique index refuses what the step tries to write.
  predicate Refuses(s: State, a: Step)
    requires Enabled(s, a)
  {
    || (a.WorkerClaims? && var w := s.workers[a.pid]; Refused(s.jobs, w.job, Running, Some(w.phase.seen)))
    || (a.WorkerProgress? && Refused(s.jobs, s.workers[a.pid].job, Running, None))
  }

  // A run from a quiet system: no process is alive; the table may hold anything that the
  // unique index admits.
  ghost predicate Run(states: seq<State>, steps: seq<Step>) {
    && |states| == |steps| + 1
    && Quiet(states[0])
    && forall i {:trigger steps[i]} :: 0 <= i < |steps| ==>
         Enabled(states[i], steps[i]) && states[i + 1] == Apply(states[i], steps[i])
  }

  // ---------------------------------------------------------------- environment

  // Only the dispatcher starts worker units, once per accepted start.
  predicate UnitsFromDispatcher(s: State, a: Step) {
    a.UnitStarts? ==> a.id in s.pendingStarts
  }

  // Recovery does not take a live worker for dead: a stale running row whose
  // unit is reported inactive has no process.
  predicate SoundCheck(s: State, a: Step) {
    a.DispatcherChecks? && Enabled(s, a) && !a.unitActive ==>
      var p := s.dispatchers[a.d];
      p.rows[0].job.status == Running && Stale(p.rows[0].job, p.now) ==> !UnitAlive(s, p.rows[0].id)
  }

  // systemctl is-active answers exactly whether the unit has a process.
  predicate TruthfulCheck(s: State, a: Step) {
    a.DispatcherChecks? && Enabled(s, a) ==>
      (a.unitActive <==> UnitAlive(s, s.dispatchers[a.d].rows[0].id))
  }

  // When a dispatcher takes its snapshot, a running row of a live worker has a
  // heartbeat younger than the staleness bound.
  predicate FreshHeartbeats(s: State, a: Step) {
    a.DispatcherBegins? ==>
      forall j :: j in s.jobs && s.jobs[j].status == Running && UnitAlive(s, j) ==> !Stale(s.jobs[j], a.now)
  }

  predicate ResetsExclusive(a: Step) {
    a.EnqueueStep? && a.action == ResetAppData ==> a.exclusive
  }
}
