/** At most one job row is 'starting' or 'running': the unique index sees to it in
    every run.  When it has to refuse a write, and when it never has to.

    That nothing is refused rests on two facts about the environment which the
    lock, the compare-and-swap and the index do not give: worker units are started
    only by the dispatcher, and recovery never takes a live worker for dead.
  */
module MaintenanceExclusion {
  import opened Options
  import opened MaintenanceJobs
  import opened MaintenanceProtocol
  import opened MaintenanceOnce

  ghost predicate OneActive(s: State) {
    OneWorker(s.jobs)
  }

  ghost predicate NotQueued(s: State, j: JobId) {
    j < s.nextId && (j in s.jobs ==> s.jobs[j].status != Queued)
  }

  // Which units ran before the run began: that of every running row, and of no waiting one.
  ghost predicate Remembers(s: State) {
    && (forall j :: j in s.started ==> NotQueued(s, j))
    && (forall j :: j in s.jobs && s.jobs[j].status == Running ==> j in s.started)
  }

  // A run in which only the dispatcher starts units.  The table it begins with may hold an
  // active row, left behind by processes that are gone.
  ghost predicate DispatchedRun(states: seq<State>, steps: seq<Step>) {
    && Run(states, steps) && Remembers(states[0])
    && forall i {:trigger steps[i]} :: 0 <= i < |steps| ==> UnitsFromDispatcher(states[i], steps[i])
  }

  // One in which recovery is sound as well.
  ghost predicate SoundRun(states: seq<State>, steps: seq<Step>) {
    && DispatchedRun(states, steps)
    && forall i {:trigger steps[i]} :: 0 <= i < |steps| ==> SoundCheck(states[i], steps[i])
  }

  // ---------------------------------------------------------------- invariant

  // A unit is requested at most once, and only for a claimed job.
  ghost predicate UnitsInv(s: State) {
    && (forall j :: j in s.started || j in s.pendingStarts ==> NotQueued(s, j))
    && s.started !! s.pendingStarts
    && (forall d :: d in s.dispatchers && s.dispatchers[d].Claimed? ==>
          && NotQueued(s, s.dispatchers[d].job)
          && s.dispatchers[d].job !in s.started && s.dispatchers[d].job !in s.pendingStarts)
    && (forall d, e ::
          (d in s.dispatchers && e in s.dispatchers && s.dispatchers[d].Claimed?
           && s.dispatchers[d] == s.dispatchers[e]) ==> d == e)
  }

  // One process per job, and only for started units.
  ghost predicate ProcessInv(s: State) {
    && (forall pid :: pid in s.workers ==> s.workers[pid].job in s.started)
    && (forall p, q :: p in s.workers && q in s.workers && s.workers[p].job == s.workers[q].job ==> p == q)
    && (forall j :: j in s.jobs && s.jobs[j].status == Running ==> j in s.started)
  }

  ghost predicate LoadedRow(s: State, w: WorkerProcess) {
    && (w.phase.Loaded? ==> w.phase.seen == Starting)
    && (w.phase.Loaded? || w.phase.Executing? ==>
          w.job in s.jobs ==> s.jobs[w.job].action == w.action)
  }

  // A worker that may still claim has read 'starting', and remembers its action.
  ghost predicate LoadedRows(s: State) {
    forall pid :: pid in s.workers ==> LoadedRow(s, s.workers[pid])
  }

  // The invariant that holds whatever the unit checks answer.
  ghost predicate Base(s: State) {
    IdsBounded(s) && UnitsInv(s) && ProcessInv(s) && LoadedRows(s)
  }

  ghost predicate RunningRow(s: State, w: WorkerProcess) {
    w.phase.Executing? && WritesProgress(w.action) ==>
      w.job in s.jobs ==> s.jobs[w.job].status == Running
  }

  // The row of a worker that may still write 'running' says 'running'.
  ghost predicate RunningRows(s: State) {
    forall pid :: pid in s.workers ==> RunningRow(s, s.workers[pid])
  }

  ghost predicate SnapshotInv(s: State, p: DispatcherPhase) {
    && (p.Recovering? ==> forall r :: r in p.rows && r.job.status == Running ==> r.id in s.started)
    && (p.Condemning? ==>
          && (forall r :: r in p.rows && r.job.status == Running ==> r.id in s.started)
          && (p.row.job.status == Running ==>
                && p.row.id in s.started
                && forall pid :: pid in s.workers ==> s.workers[pid].job != p.row.id))
  }

  // A row condemned as dead 'running' has no process and never will.
  ghost predicate CondemnedInv(s: State) {
    forall d :: d in s.dispatchers ==> SnapshotInv(s, s.dispatchers[d])
  }

  ghost predicate Inv(s: State) {
    Base(s) && OneActive(s) && RunningRows(s) && CondemnedInv(s)
  }

  // ---------------------------------------------------------------- preservation

  // What such a step does to the processes.
  ghost predicate SilentEffect(s: State, a: Step, t: State) {
    && (a.UnitStarts? || t.started == s.started)
    && forall pid :: pid in t.workers ==>
         || (a.UnitStarts? && pid == a.pid && t.workers[pid].job == a.id && t.workers[pid].phase.Booting?)
         || (&& pid in s.workers && t.workers[pid].job == s.workers[pid].job
             && (t.workers[pid].phase.Executing? ==> t.workers[pid] == s.workers[pid])
             && (t.workers[pid].phase.Loaded? ==>
                   || t.workers[pid] == s.workers[pid]
                   || (var j := t.workers[pid].job;
                       j in s.jobs && s.jobs[j].status in {Starting, Queued}
                       && t.workers[pid].phase.seen == s.jobs[j].status && t.workers[pid].action == s.jobs[j].action)))
  }

  lemma SilentProcesses(s: State, a: Step)
    requires Enabled(s, a) && !WorkerWrites(a) && !QueueWrites(a)
    ensures SilentEffect(s, a, Apply(s, a))
  {
    if a.UnitStarts? || a.WorkerReads? || a.WorkerLocks? || a.WorkerRaises? || a.WorkerExits? || a.WorkerDies? {
      SilentWorker(s, a);
    }
  }

  lemma SilentWorker(s: State, a: Step)
    requires Enabled(s, a)
    requires a.UnitStarts? || a.WorkerReads? || a.WorkerLocks? || a.WorkerRaises? || a.WorkerExits? || a.WorkerDies?
    ensures SilentEffect(s, a, Apply(s, a))
  {
    hide UpdateJob, Claim, CancelLegacy, Enqueue, FailIf, ActiveSnapshot;
  }

  lemma ProcessesKept(s: State, a: Step)
    requires Enabled(s, a) && !a.UnitStarts?
    ensures forall pid :: pid in Apply(s, a).workers ==>
              pid in s.workers && Apply(s, a).workers[pid].job == s.workers[pid].job
    ensures Apply(s, a).started == s.started
  {
    hide Apply;
    if QueueWrites(a) {
      QueueProcesses(s, a);
    } else if WorkerWrites(a) {
      WorkerRow(s, a, 0);
    } else {
      SilentProcesses(s, a);
    }
  }

  lemma QueueProcesses(s: State, a: Step)
    requires Enabled(s, a) && QueueWrites(a)
    ensures Apply(s, a).workers == s.workers && Apply(s, a).started == s.started
  {
  }

  lemma NotQueuedStep(s: State, a: Step, j: JobId)
    requires IdsBounded(s) && Enabled(s, a) && NotQueued(s, j)
    ensures NotQueued(Apply(s, a), j)
  {
    hide Apply;
    if QueueWrites(a) {
      QueueRow(s, a, j);
    } else if WorkerWrites(a) {
      WorkerRow(s, a, j);
    } else {
      SilentSteps(s, a);
    }
  }

  lemma UnitsStep(s: State, a: Step)
    requires Base(s) && Enabled(s, a) && UnitsFromDispatcher(s, a)
    ensures UnitsInv(Apply(s, a))
  {
    forall j | NotQueued(s, j) ensures NotQueued(Apply(s, a), j) {
      NotQueuedStep(s, a, j);
    }
    if a.DispatcherClaims? {
      UnitsStepClaim(s, a);
    } else if a.DispatcherStarts? || a.UnitStarts? {
      UnitsStepStart(s, a);
    } else {
      UnitsStepOther(s, a);
    }
  }

  lemma UnitsStepOther(s: State, a: Step)
    requires Base(s) && Enabled(s, a)
    requires !a.DispatcherClaims? && !a.DispatcherStarts? && !a.UnitStarts?
    requires forall j :: NotQueued(s, j) ==> NotQueued(Apply(s, a), j)
    ensures UnitsInv(Apply(s, a))
  {
    ClaimsKept(s, a);
  }

  lemma ClaimsKept(s: State, a: Step)
    requires Enabled(s, a)
    requires !a.DispatcherClaims? && !a.DispatcherStarts? && !a.UnitStarts?
    ensures Apply(s, a).started == s.started && Apply(s, a).pendingStarts == s.pendingStarts
    ensures forall d :: d in Apply(s, a).dispatchers && Apply(s, a).dispatchers[d].Claimed? ==>
              d in s.dispatchers && s.dispatchers[d] == Apply(s, a).dispatchers[d]
  {
    hide Apply, Enabled;
    if WorkerWrites(a) {
      EnabledWorker(s, a);
      WorkerRow(s, a, 0);
    } else {
      ClaimsKeptOther(s, a);
    }
  }

  lemma ClaimsKeptOther(s: State, a: Step)
    requires Enabled(s, a) && !WorkerWrites(a)
    requires !a.DispatcherClaims? && !a.DispatcherStarts? && !a.UnitStarts?
    ensures Apply(s, a).started == s.started && Apply(s, a).pendingStarts == s.pendingStarts
    ensures forall d :: d in Apply(s, a).dispatchers && Apply(s, a).dispatchers[d].Claimed? ==>
              d in s.dispatchers && s.dispatchers[d] == Apply(s, a).dispatchers[d]
  {
    hide CancelLegacy, Enqueue, FailIf, ActiveSnapshot;
  }

  lemma UnitsStepStart(s: State, a: Step)
    requires Base(s) && Enabled(s, a) && UnitsFromDispatcher(s, a) && (a.DispatcherStarts? || a.UnitStarts?)
    ensures UnitsInv(Apply(s, a))
  {
    var t := Apply(s, a);
    assert forall j :: NotQueued(s, j) ==> NotQueued(t, j);
    if a.DispatcherStarts? {
      assert forall d :: d in t.dispatchers ==> d in s.dispatchers && t.dispatchers[d] == s.dispatchers[d];
    }
  }

  lemma UnitsStepClaim(s: State, a: Step)
    requires Base(s) && Enabled(s, a) && a.DispatcherClaims?
    requires forall j :: NotQueued(s, j) ==> NotQueued(Apply(s, a), j)
    ensures UnitsInv(Apply(s, a))
  {
    if NextClaim(s.jobs).Some? {
      var id := NextClaim(s.jobs).value;
      assert id in Claimable(s.jobs);
      assert !NotQueued(s, id);
    }
  }

  lemma RunningStarted(s: State, a: Step, j: JobId)
    requires Base(s) && Enabled(s, a)
    requires j in Apply(s, a).jobs && Apply(s, a).jobs[j].status == Running
    ensures j in s.started
  {
    hide Apply;
    if QueueWrites(a) {
      QueueRow(s, a, j);
    } else if WorkerWrites(a) {
      WorkerRow(s, a, j);
    } else {
      SilentSteps(s, a);
    }
  }

  lemma ProcessStep(s: State, a: Step)
    requires Base(s) && Enabled(s, a) && UnitsFromDispatcher(s, a)
    ensures ProcessInv(Apply(s, a))
  {
    hide Apply, Enabled;
    var t := Apply(s, a);
    if a.UnitStarts? {
      UnitStarted(s, a);
    } else {
      ProcessesKept(s, a);
    }
    forall j | j in t.jobs && t.jobs[j].status == Running ensures j in t.started {
      RunningStarted(s, a, j);
    }
  }

  // A new process is the first for its job.
  lemma UnitStarted(s: State, a: Step)
    requires Base(s) && Enabled(s, a) && a.UnitStarts? && UnitsFromDispatcher(s, a)
    ensures var t := Apply(s, a);
            && t.started == s.started + {a.id} && a.pid in t.workers && t.workers[a.pid].job == a.id
            && (forall pid :: pid in t.workers && pid != a.pid ==> pid in s.workers && t.workers[pid] == s.workers[pid])
            && a.id !in s.started
  {
  }

  lemma LoadedStep(s: State, a: Step)
    requires Base(s) && Enabled(s, a)
    ensures LoadedRows(Apply(s, a))
  {
    hide Apply;
    var t := Apply(s, a);
    forall pid | pid in t.workers ensures LoadedRow(t, t.workers[pid]) {
      if QueueWrites(a) {
        QueueRow(s, a, t.workers[pid].job);
        assert LoadedRow(s, s.workers[pid]) && NotQueued(s, s.workers[pid].job);
      } else if WorkerWrites(a) {
        WorkerRow(s, a, t.workers[pid].job);
        assert LoadedRow(s, s.workers[pid]);
      } else {
        LoadedSilent(s, a, pid);
      }
    }
  }

  lemma LoadedSilent(s: State, a: Step, pid: Pid)
    requires Base(s) && Enabled(s, a) && !WorkerWrites(a) && !QueueWrites(a)
    requires pid in Apply(s, a).workers
    ensures LoadedRow(Apply(s, a), Apply(s, a).workers[pid])
  {
    hide Apply;
    SilentSteps(s, a);
    SilentProcesses(s, a);
    if pid in s.workers {
      assert LoadedRow(s, s.workers[pid]) && NotQueued(s, s.workers[pid].job);
    }
  }

  lemma BaseStep(s: State, a: Step)
    requires Base(s) && Enabled(s, a) && UnitsFromDispatcher(s, a)
    ensures Base(Apply(s, a))
  {
    IdsBoundedStep(s, a);
    UnitsStep(s, a);
    ProcessStep(s, a);
    LoadedStep(s, a);
  }

  lemma RunningRowsStep(s: State, a: Step)
    requires Inv(s) && Enabled(s, a)
    ensures RunningRows(Apply(s, a))
  {
    var t := Apply(s, a);
    forall pid | pid in t.workers ensures RunningRow(t, t.workers[pid]) {
      if QueueWrites(a) {
        RunningRowQueue(s, a, pid);
      } else if WorkerWrites(a) {
        RunningRowWorker(s, a, pid);
      } else {
        RunningRowSilent(s, a, pid);
      }
    }
  }

  lemma RunningRowWorker(s: State, a: Step, pid: Pid)
    requires Inv(s) && Enabled(s, a) && WorkerWrites(a) && pid in Apply(s, a).workers
    ensures RunningRow(Apply(s, a), Apply(s, a).workers[pid])
  {
    hide Apply, Enabled, UnitsInv, IdsBounded, OneActive, CondemnedInv, RunningRow, WorkerEffect;
    EnabledWorker(s, a);
    WorkerRow(s, a, 0);
    WorkerKeepsOthers(s, a, Apply(s, a), 0);
    if pid == a.pid {
      RunningRowOwn(s, a);
    } else {
      assert RunningRow(s, s.workers[pid]);
      RunningRowOther(s, a, pid);
    }
  }

  lemma WorkerKeepsOthers(s: State, a: Step, t: State, j: JobId)
    requires WorkerWrites(a) && a.pid in s.workers && WorkerEffect(s, a, t, j)
    ensures t.workers.Keys == s.workers.Keys
    ensures forall p :: p in s.workers && p != a.pid ==> t.workers[p] == s.workers[p]
    ensures t.started == s.started && t.dispatchers == s.dispatchers
    ensures forall p :: p in s.workers ==> t.workers[p].job == s.workers[p].job
  {
  }

  lemma RunningRowOther(s: State, a: Step, pid: Pid)
    requires ProcessInv(s) && Enabled(s, a) && WorkerWrites(a)
    requires pid in s.workers && pid != a.pid && RunningRow(s, s.workers[pid])
    ensures pid in Apply(s, a).workers && RunningRow(Apply(s, a), Apply(s, a).workers[pid])
  {
    hide Apply, Enabled;
    EnabledWorker(s, a);
    WorkerRow(s, a, s.workers[pid].job);
  }

  lemma RunningRowOwn(s: State, a: Step)
    requires Inv(s) && Enabled(s, a) && WorkerWrites(a)
    ensures a.pid in Apply(s, a).workers && RunningRow(Apply(s, a), Apply(s, a).workers[a.pid])
  {
    hide Apply, Enabled, UnitsInv, IdsBounded, OneActive, CondemnedInv, ProcessInv;
    EnabledWorker(s, a);
    WorkerRow(s, a, s.workers[a.pid].job);
    assert RunningRow(s, s.workers[a.pid]) && LoadedRow(s, s.workers[a.pid]);
  }

  lemma RunningRowSilent(s: State, a: Step, pid: Pid)
    requires Inv(s) && Enabled(s, a) && !WorkerWrites(a) && !QueueWrites(a) && pid in Apply(s, a).workers
    ensures RunningRow(Apply(s, a), Apply(s, a).workers[pid])
  {
    hide Apply;
    SilentSteps(s, a);
    SilentProcesses(s, a);
    if pid in s.workers { assert RunningRow(s, s.workers[pid]); }
  }

  lemma RunningRowQueue(s: State, a: Step, pid: Pid)
    requires Inv(s) && Enabled(s, a) && QueueWrites(a) && pid in Apply(s, a).workers
    ensures RunningRow(Apply(s, a), Apply(s, a).workers[pid])
  {
    hide Apply;
    var w := Apply(s, a).workers[pid];
    QueueRow(s, a, w.job);
    assert RunningRow(s, w) && LoadedRow(s, w) && NotQueued(s, w.job);
    if a.DispatcherCondemns? {
      assert SnapshotInv(s, s.dispatchers[a.d]);
    }
  }

  lemma CondemnedStep(s: State, a: Step)
    requires Inv(s) && Enabled(s, a) && UnitsFromDispatcher(s, a) && SoundCheck(s, a)
    ensures CondemnedInv(Apply(s, a))
  {
    hide Apply, SnapshotInv, Inv;
    var t := Apply(s, a);
    forall d | d in t.dispatchers ensures SnapshotInv(t, t.dispatchers[d]) {
      if a.DispatcherBegins? && d == a.d {
        SnapshotBegins(s, a);
      } else if a.DispatcherChecks? && d == a.d {
        SnapshotChecks(s, a);
      } else if a.DispatcherClaims? {
        SnapshotClaims(s, a, d);
      } else if QueueWrites(a) {
        SnapshotQueue(s, a, d);
      } else if WorkerWrites(a) {
        SnapshotWorker(s, a, d);
      } else {
        SnapshotSilent(s, a, d);
      }
    }
  }

  lemma SnapshotQueue(s: State, a: Step, d: Pid)
    requires Inv(s) && Enabled(s, a) && QueueWrites(a) && !a.DispatcherClaims? && d in Apply(s, a).dispatchers
    requires a.DispatcherBegins? ==> d != a.d
    ensures SnapshotInv(Apply(s, a), Apply(s, a).dispatchers[d])
  {
    hide CancelLegacy, Enqueue, FailIf, ActiveSnapshot;
    QueueProcesses(s, a);
    assert SnapshotInv(s, s.dispatchers[d]);
  }

  // A snapshot depends on which units were started and which have a process.
  lemma SnapshotKept(s: State, t: State, p: DispatcherPhase)
    requires SnapshotInv(s, p) && s.started <= t.started
    requires forall pid :: pid in t.workers ==> pid in s.workers && t.workers[pid].job == s.workers[pid].job
    ensures SnapshotInv(t, p)
  {
  }

  lemma SnapshotWorker(s: State, a: Step, d: Pid)
    requires Inv(s) && Enabled(s, a) && WorkerWrites(a) && d in Apply(s, a).dispatchers
    ensures SnapshotInv(Apply(s, a), Apply(s, a).dispatchers[d])
  {
    hide Apply, Enabled, Base, OneActive, RunningRows, WorkerEffect, SnapshotInv;
    EnabledWorker(s, a);
    WorkerRow(s, a, 0);
    WorkerKeepsOthers(s, a, Apply(s, a), 0);
    SnapshotKept(s, Apply(s, a), s.dispatchers[d]);
  }

  lemma SnapshotBegins(s: State, a: Step)
    requires Inv(s) && Enabled(s, a) && a.DispatcherBegins?
    ensures SnapshotInv(Apply(s, a), Apply(s, a).dispatchers[a.d])
  {
    hide CancelLegacy, ActiveSnapshot, UnitsInv, LoadedRows, IdsBounded;
    forall r | r in ActiveSnapshot(CancelLegacy(s.jobs, a.now)) && r.job.status == Running ensures r.id in s.started {
      SnapshotRunning(s.jobs, a.now, r);
    }
  }

  lemma SnapshotRunning(t: Table, now: int, r: SnapshotRow)
    requires r in ActiveSnapshot(CancelLegacy(t, now)) && r.job.status == Running
    ensures r.id in t && t[r.id].status == Running
  {
  }

  lemma SnapshotChecks(s: State, a: Step)
    requires Inv(s) && Enabled(s, a) && a.DispatcherChecks? && SoundCheck(s, a)
    ensures SnapshotInv(Apply(s, a), Apply(s, a).dispatchers[a.d])
  {
    var p := s.dispatchers[a.d];
    assert SnapshotInv(s, p);
    assert p.rows[0] in p.rows;
    assert forall r :: r in p.rows[1..] ==> r in p.rows;
  }

  lemma SnapshotClaims(s: State, a: Step, d: Pid)
    requires Inv(s) && Enabled(s, a) && a.DispatcherClaims? && d in Apply(s, a).dispatchers
    ensures SnapshotInv(Apply(s, a), Apply(s, a).dispatchers[d])
  {
    if d != a.d {
      assert SnapshotInv(s, s.dispatchers[d]);
    }
  }

  lemma SnapshotSilent(s: State, a: Step, d: Pid)
    requires Inv(s) && Enabled(s, a) && UnitsFromDispatcher(s, a)
    requires !WorkerWrites(a) && !QueueWrites(a) && d in Apply(s, a).dispatchers
    requires a.DispatcherChecks? ==> d != a.d
    ensures SnapshotInv(Apply(s, a), Apply(s, a).dispatchers[d])
  {
    DispatcherKept(s, a, d);
    assert SnapshotInv(s, s.dispatchers[d]);
    if a.UnitStarts? {
      assert a.id !in s.started;
    } else {
      ProcessesKept(s, a);
    }
  }

  lemma DispatcherKept(s: State, a: Step, d: Pid)
    requires Enabled(s, a) && !WorkerWrites(a) && !QueueWrites(a) && d in Apply(s, a).dispatchers
    requires a.DispatcherChecks? ==> d != a.d
    ensures d in s.dispatchers
    ensures Apply(s, a).dispatchers[d] == s.dispatchers[d] || Apply(s, a).dispatchers[d].StartRefused?
  {
  }

  // ---------------------------------------------------------------- the index

  // No step breaks the unique index, whoever starts units and whatever unit checks answer.
  lemma IndexStep(s: State, a: Step)
    requires IdsBounded(s) && OneActive(s) && Enabled(s, a)
    ensures OneActive(Apply(s, a))
  {
    if a.WorkerClaims? || a.WorkerProgress? || a.WorkerReportsOk? || a.WorkerReportsError? {
      IndexStepWrite(s, a);
    } else if a.DispatcherClaims? {
      IndexStepClaim(s, a);
    } else {
      IndexStepOther(s, a);
    }
  }

  lemma IndexStepWrite(s: State, a: Step)
    requires OneActive(s) && Enabled(s, a)
    requires a.WorkerClaims? || a.WorkerProgress? || a.WorkerReportsOk? || a.WorkerReportsError?
    ensures OneActive(Apply(s, a))
  {
    hide OneWorker, UpdateJob, Refused;
    var w := s.workers[a.pid];
    match a
    case WorkerClaims(_, now) =>
      UpdateKeepsIndex(s.jobs, w.job, Running, true, false, true, Some(1), Some(w.phase.seen), now);
    case WorkerProgress(_, heartbeat, progress, now) =>
      UpdateKeepsIndex(s.jobs, w.job, Running, false, false, heartbeat, progress, None, now);
    case WorkerReportsOk(_, now) =>
      UpdateKeepsIndex(s.jobs, w.job, Ok, false, true, false, Some(100), None, now);
    case WorkerReportsError(_, now) =>
      UpdateKeepsIndex(s.jobs, w.job, Error, false, true, false, Some(100), None, now);
  }

  lemma IndexStepClaim(s: State, a: Step)
    requires OneActive(s) && Enabled(s, a) && a.DispatcherClaims?
    ensures OneActive(Apply(s, a))
  {
    if NextClaim(s.jobs).Some? {
      var t := Apply(s, a).jobs;
      forall j | j in t && Active(t[j].status) ensures j == NextClaim(s.jobs).value {
        assert j !in ActiveIds(s.jobs);
      }
    }
  }

  lemma IndexStepOther(s: State, a: Step)
    requires IdsBounded(s) && OneActive(s) && Enabled(s, a) && !a.DispatcherClaims?
    requires !(a.WorkerClaims? || a.WorkerProgress? || a.WorkerReportsOk? || a.WorkerReportsError?)
    ensures OneActive(Apply(s, a))
  {
    var t := Apply(s, a).jobs;
    forall j | j in t && Active(t[j].status) ensures j in s.jobs && Active(s.jobs[j].status) {
      NothingActivated(s, a, j);
    }
  }

  lemma NothingActivated(s: State, a: Step, j: JobId)
    requires IdsBounded(s) && Enabled(s, a) && !a.DispatcherClaims?
    requires !(a.WorkerClaims? || a.WorkerProgress? || a.WorkerReportsOk? || a.WorkerReportsError?)
    requires j in Apply(s, a).jobs && Active(Apply(s, a).jobs[j].status)
    ensures j in s.jobs && Active(s.jobs[j].status)
  {
    hide Apply, Enabled;
    if QueueWrites(a) {
      QueueRow(s, a, j);
    } else if WorkerWrites(a) {
      EnabledWorker(s, a);
      WorkerRow(s, a, j);
    } else {
      SilentSteps(s, a);
    }
  }

  lemma {:induction false} IndexHolds(states: seq<State>, steps: seq<Step>, n: nat)
    requires Run(states, steps) && n <= |steps|
    ensures OneActive(states[n])
  {
    if n > 0 {
      IndexHolds(states, steps, n - 1);
      IdsBoundedHolds(states, steps, n - 1);
      assert states[n - 1 + 1] == Apply(states[n - 1], steps[n - 1]);
      IndexStep(states[n - 1], steps[n - 1]);
    }
  }

  // A worker writes progress over a row that is no longer active while another
  // row is.
  ghost predicate Resurrects(s: State, a: Step) {
    && a.WorkerProgress? && a.pid in s.workers
    && (var j := s.workers[a.pid].job;
        && j in s.jobs && !Active(s.jobs[j].status)
        && exists k :: k in s.jobs && Active(s.jobs[k].status))
  }

  // Where units come from the dispatcher, such a write is exactly what the index refuses.
  lemma RefusesExactlyResurrections(s: State, a: Step)
    requires Base(s) && OneActive(s) && Enabled(s, a)
    ensures Refuses(s, a) <==> Resurrects(s, a)
  {
    if a.WorkerClaims? {
      var w := s.workers[a.pid];
      assert LoadedRow(s, w);
    } else if a.WorkerProgress? && Resurrects(s, a) {
      var k :| k in s.jobs && Active(s.jobs[k].status);
      assert k != s.workers[a.pid].job;
    }
  }

  lemma InvRefusesNothing(s: State, a: Step)
    requires Inv(s) && Enabled(s, a)
    ensures !Refuses(s, a)
  {
    RefusesExactlyResurrections(s, a);
    if a.WorkerProgress? {
      assert RunningRow(s, s.workers[a.pid]);
    }
  }

  lemma InvStep(s: State, a: Step)
    requires Inv(s) && Enabled(s, a) && UnitsFromDispatcher(s, a) && SoundCheck(s, a)
    ensures Inv(Apply(s, a))
  {
    BaseStep(s, a);
    IndexStep(s, a);
    RunningRowsStep(s, a);
    CondemnedStep(s, a);
  }

  lemma {:induction false} InvHolds(states: seq<State>, steps: seq<Step>, n: nat)
    requires SoundRun(states, steps) && n <= |steps|
    ensures Inv(states[n])
  {
    if n > 0 {
      InvHolds(states, steps, n - 1);
      assert states[n - 1 + 1] == Apply(states[n - 1], steps[n - 1]);
      InvStep(states[n - 1], steps[n - 1]);
    }
  }

  // ---------------------------------------------------------------- main results

  // In every reachable state of every run at most one row is 'starting' or 'running'.
  lemma AtMostOneActive(states: seq<State>, steps: seq<Step>, n: nat)
    requires Run(states, steps) && n < |states|
    ensures var t := states[n].jobs;
            forall j, k :: j in t && k in t && Active(t[j].status) && Active(t[k].status) ==> j == k
  {
    IndexHolds(states, steps, n);
  }

  lemma {:induction false} BaseHolds(states: seq<State>, steps: seq<Step>, n: nat)
    requires DispatchedRun(states, steps) && n <= |steps|
    ensures Base(states[n])
  {
    if n > 0 {
      BaseHolds(states, steps, n - 1);
      assert states[n - 1 + 1] == Apply(states[n - 1], steps[n - 1]);
      BaseStep(states[n - 1], steps[n - 1]);
    }
  }

  // In every dispatched run the index refuses a write exactly when it would make a row that
  // is no longer active active again beside another active row.
  lemma RefusedExactly(states: seq<State>, steps: seq<Step>, n: nat)
    requires DispatchedRun(states, steps) && n < |steps|
    ensures Enabled(states[n], steps[n]) && (Refuses(states[n], steps[n]) <==> Resurrects(states[n], steps[n]))
  {
    BaseHolds(states, steps, n);
    IndexHolds(states, steps, n);
    RefusesExactlyResurrections(states[n], steps[n]);
  }

  // While recovery spares live workers, no write is ever refused.
  lemma NothingRefused(states: seq<State>, steps: seq<Step>, n: nat)
    requires SoundRun(states, steps) && n < |steps|
    ensures Enabled(states[n], steps[n]) && !Refuses(states[n], steps[n])
  {
    InvHolds(states, steps, n);
    InvRefusesNothing(states[n], steps[n]);
  }

  // An exact answer to every unit check is one way for recovery to do so.
  lemma NothingRefusedIfChecksTruthful(states: seq<State>, steps: seq<Step>, n: nat)
    requires DispatchedRun(states, steps) && n < |steps|
    requires forall i {:trigger steps[i]} :: 0 <= i < |steps| ==> TruthfulCheck(states[i], steps[i])
    ensures Enabled(states[n], steps[n]) && !Refuses(states[n], steps[n])
  {
    NothingRefused(states, steps, n);
  }

  // A refused write is always preceded by a unit check that took a live worker for dead.
  lemma RefusalNeedsUnsoundCheck(states: seq<State>, steps: seq<Step>, n: nat) returns (i: nat)
    requires DispatchedRun(states, steps) && n < |steps| && Refuses(states[n], steps[n])
    ensures i < n && !SoundCheck(states[i], steps[i])
  {
    if forall i {:trigger steps[i]} :: 0 <= i < n ==> SoundCheck(states[i], steps[i]) {
      InvUpTo(states, steps, n);
      InvRefusesNothing(states[n], steps[n]);
      assert false;
    }
    i :| 0 <= i < n && !SoundCheck(states[i], steps[i]);
  }

  lemma {:induction false} InvUpTo(states: seq<State>, steps: seq<Step>, n: nat)
    requires DispatchedRun(states, steps) && n <= |steps|
    requires forall i {:trigger steps[i]} :: 0 <= i < n ==> SoundCheck(states[i], steps[i])
    ensures Inv(states[n])
  {
    if n > 0 {
      InvUpTo(states, steps, n - 1);
      assert states[n - 1 + 1] == Apply(states[n - 1], steps[n - 1]);
      InvStep(states[n - 1], steps[n - 1]);
    }
  }
}
