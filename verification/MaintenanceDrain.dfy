/** From every reachable state the queue can be emptied: some continuation, within the
    same rules, lets every live worker end its job, ends every dead row and runs every waiting job.
  */
module MaintenanceDrain {
  import opened Options
  import opened MaintenanceJobs
  import opened MaintenanceProtocol
  import opened MaintenanceOnce
  import opened MaintenanceExclusion

  // ---------------------------------------------------------------- the lock has a live owner

  ghost predicate OwnerAlive(s: State) {
    match s.owner
    case Nobody => true
    case Worker(pid) => pid in s.workers && s.workers[pid].holdsLock
    case RetentionRun(pid) => pid in s.retentions && s.retentions[pid] != RetentionBooting
  }

  lemma OwnerAliveStep(s: State, a: Step)
    requires OwnerAlive(s) && LockInv(s) && Enabled(s, a)
    ensures OwnerAlive(Apply(s, a))
  {
    hide Apply, Enabled;
    if LockStep(a) {
      OwnerAliveLock(s, a);
    } else {
      LockUntouched(s, a);
    }
  }

  lemma OwnerAliveLock(s: State, a: Step)
    requires OwnerAlive(s) && LockInv(s) && Enabled(s, a) && LockStep(a)
    ensures OwnerAlive(Apply(s, a))
  {
    hide UpdateJob, Claim, NextClaim, CancelLegacy, Enqueue, FailIf, ActiveSnapshot, Refused, Matches;
  }

  lemma {:induction false} OwnerAliveHolds(states: seq<State>, steps: seq<Step>, n: nat)
    requires Run(states, steps) && n <= |steps|
    ensures OwnerAlive(states[n])
  {
    if n > 0 {
      OwnerAliveHolds(states, steps, n - 1);
      LockInvHolds(states, steps, n - 1);
      assert states[n - 1 + 1] == Apply(states[n - 1], steps[n - 1]);
      OwnerAliveStep(states[n - 1], steps[n - 1]);
    }
  }

  // A process that has not reached the lock does not have it.
  ghost predicate BootingFree(s: State) {
    forall pid :: pid in s.workers && s.workers[pid].phase.Booting? ==> !s.workers[pid].holdsLock
  }

  lemma BootingFreeStep(s: State, a: Step)
    requires BootingFree(s) && Enabled(s, a)
    ensures BootingFree(Apply(s, a))
  {
    hide UpdateJob, Claim, NextClaim, CancelLegacy, Enqueue, FailIf, ActiveSnapshot, Refused, Matches;
    var t := Apply(s, a);
    forall pid | pid in t.workers && t.workers[pid].phase.Booting? ensures !t.workers[pid].holdsLock {
      assert pid in s.workers || a.UnitStarts?;
    }
  }

  lemma {:induction false} BootingFreeHolds(states: seq<State>, steps: seq<Step>, n: nat)
    requires Run(states, steps) && n <= |steps|
    ensures BootingFree(states[n])
  {
    hide Apply, Enabled, BootingFree;
    if n > 0 {
      BootingFreeHolds(states, steps, n - 1);
      assert Enabled(states[n - 1], steps[n - 1]) && states[n - 1 + 1] == Apply(states[n - 1], steps[n - 1]);
      BootingFreeStep(states[n - 1], steps[n - 1]);
    } else {
      NobodyBoots(states[0]);
    }
  }

  lemma NobodyBoots(s: State)
    requires s.workers == map[]
    ensures BootingFree(s)
  {
  }

  lemma EndsWell(states: seq<State>, steps: seq<Step>)
    requires DispatchedRun(states, steps)
    ensures |states| == |steps| + 1
    ensures var s := states[|steps|]; OneWorker(s.jobs) && OwnerAlive(s) && BootingFree(s) && Base(s)
  {
    IndexHolds(states, steps, |steps|);
    OwnerAliveHolds(states, steps, |steps|);
    BootingFreeHolds(states, steps, |steps|);
    BaseHolds(states, steps, |steps|);
  }

  // ---------------------------------------------------------------- continuations

  // The later run continues the earlier one without enqueueing or cancelling anything; no
  // worker dies in it, and its unit checks take no live worker for dead.
  ghost predicate Continues(states: seq<State>, steps: seq<Step>, states': seq<State>, steps': seq<Step>) {
    && steps <= steps' && states <= states' && |states'| == |steps'| + 1
    && forall i {:trigger steps'[i]} :: |steps| <= i < |steps'| ==>
         && !steps'[i].EnqueueStep? && !steps'[i].CancelStep? && !steps'[i].WorkerDies?
         && SoundCheck(states'[i], steps'[i])
  }

  lemma Onward(states: seq<State>, steps: seq<Step>, a: Step) returns (states': seq<State>, steps': seq<Step>)
    requires DispatchedRun(states, steps) && !a.EnqueueStep? && !a.CancelStep? && !a.WorkerDies?
    requires var s := states[|steps|]; Enabled(s, a) && UnitsFromDispatcher(s, a) && SoundCheck(s, a)
    ensures DispatchedRun(states', steps') && Continues(states, steps, states', steps')
    ensures states'[|steps'|] == Apply(states[|steps|], a)
  {
    hide Apply, Enabled, SoundCheck, UnitsFromDispatcher;
    states', steps' := states + [Apply(states[|steps|], a)], steps + [a];
    forall i | 0 <= i < |steps'|
      ensures Enabled(states'[i], steps'[i]) && states'[i + 1] == Apply(states'[i], steps'[i])
      ensures UnitsFromDispatcher(states'[i], steps'[i])
    {
      if i < |steps| { assert steps'[i] == steps[i]; }
    }
  }

  lemma ContinuesOn(states: seq<State>, steps: seq<Step>, u: seq<State>, p: seq<Step>, v: seq<State>, q: seq<Step>)
    requires Continues(states, steps, u, p) && Continues(u, p, v, q)
    ensures Continues(states, steps, v, q)
  {
    hide SoundCheck;
    forall i | |steps| <= i < |q|
      ensures !q[i].EnqueueStep? && !q[i].CancelStep? && !q[i].WorkerDies? && SoundCheck(v[i], q[i])
    {
      if i < |p| { assert q[i] == p[i] && v[i] == u[i]; }
    }
  }

  lemma RunEnds(states: seq<State>, steps: seq<Step>)
    requires DispatchedRun(states, steps)
    ensures |states| == |steps| + 1 && Continues(states, steps, states, steps)
  {
  }

  lemma Fewer<K, V>(m: map<K, V>, k: K)
    requires k in m
    ensures |Without(m, k)| < |m|
  {
    assert Without(m, k).Keys == m.Keys - {k};
    assert |Without(m, k).Keys| == |m.Keys| - 1;
  }

  // ---------------------------------------------------------------- the live processes end

  // No process is left.
  predicate Still(s: State) {
    s.workers == map[] && s.retentions == map[] && s.dispatchers == map[] && s.owner == Nobody
  }

  // Dispatchers and retention runs may end at any moment.
  lemma {:induction false} OthersGone(states: seq<State>, steps: seq<Step>)
    returns (states': seq<State>, steps': seq<Step>)
    requires DispatchedRun(states, steps)
    ensures DispatchedRun(states', steps') && Continues(states, steps, states', steps')
    ensures var s, t := states[|steps|], states'[|steps'|];
            t.jobs == s.jobs && t.workers == s.workers && t.retentions == map[] && t.dispatchers == map[]
    decreases |states[|steps|].retentions| + |states[|steps|].dispatchers|
  {
    hide DispatchedRun, Continues;
    RunEnds(states, steps);
    var s := states[|steps|];
    if s.retentions == map[] && s.dispatchers == map[] {
      states', steps' := states, steps;
    } else {
      var a := OneLess(s);
      var u, p := Onward(states, steps, a);
      RunEnds(u, p);
      states', steps' := OthersGone(u, p);
      RunEnds(states', steps');
      ContinuesOn(states, steps, u, p, states', steps');
    }
  }

  lemma OneLess(s: State) returns (a: Step)
    requires !(s.retentions == map[] && s.dispatchers == map[])
    ensures a.RetentionExits? || a.DispatcherDies?
    ensures Enabled(s, a) && Apply(s, a).jobs == s.jobs && Apply(s, a).workers == s.workers
    ensures var t := Apply(s, a); |t.retentions| + |t.dispatchers| < |s.retentions| + |s.dispatchers|
  {
    if s.retentions != map[] {
      var pid :| pid in s.retentions;
      a := RetentionExits(pid);
      Fewer(s.retentions, pid);
    } else {
      var d :| d in s.dispatchers;
      a := DispatcherDies(d);
      Fewer(s.dispatchers, d);
    }
  }

  // What a worker does next when nothing goes wrong.
  function NextOf(w: WorkerProcess, pid: Pid, now: int): Step {
    match w.phase
    case Booting => WorkerLocks(pid)
    case Locked => WorkerReads(pid)
    case Loaded(_) => WorkerClaims(pid, now)
    case Executing => WorkerReportsOk(pid, now)
    case Failing => WorkerReportsError(pid, now)
    case Reported => WorkerExits(pid)
    case Closing => WorkerExits(pid)
  }

  // How many steps it has before it at most.
  function Rank(p: WorkerPhase): nat {
    match p
    case Booting => 6
    case Locked => 5
    case Loaded(_) => 4
    case Executing => 3
    case Failing => 2
    case Reported => 1
    case Closing => 1
  }

  // The worker is in its body, or on its way there with its row as the dispatcher left it.
  predicate OnCourse(s: State, w: WorkerProcess) {
    && w.job in s.jobs
    && (w.phase.Executing?
        || (s.jobs[w.job].status == Starting && (w.phase.Booting? || w.phase.Locked? || w.phase == Loaded(Starting))))
  }

  // One step of a worker that may have the lock.
  ghost predicate WorkerMoves(s: State, pid: Pid, t: State)
    requires pid in s.workers
  {
    var w := s.workers[pid];
    && t.retentions == s.retentions && t.dispatchers == s.dispatchers
    && (pid !in t.workers ==> w.phase.Reported? || w.phase.Closing?)
    && Without(t.workers, pid) == Without(s.workers, pid)
    && (pid in t.workers ==> t.workers[pid].job == w.job && Rank(t.workers[pid].phase) < Rank(w.phase))
    && t.jobs.Keys == s.jobs.Keys && (forall j :: j in s.jobs && j != w.job ==> t.jobs[j] == s.jobs[j])
    && (w.phase.Reported? || w.phase.Closing? ==> t.jobs == s.jobs)
    && (OnCourse(s, w) && !w.phase.Executing? ==> pid in t.workers && OnCourse(t, t.workers[pid]))
    && (OnCourse(s, w) && w.phase.Executing? ==>
          t.jobs[w.job].status == Ok && pid in t.workers && t.workers[pid].phase.Reported?)
    && (pid in t.workers && (t.workers[pid].phase.Reported? || t.workers[pid].phase.Closing?) && w.job in s.jobs ==>
          !Unfinished(t.jobs[w.job].status))
  }

  lemma NextMoves(s: State, pid: Pid, now: int)
    requires pid in s.workers && OneWorker(s.jobs)
    requires s.owner == Nobody || (s.owner == Worker(pid) && !s.workers[pid].phase.Booting?)
    ensures var a := NextOf(s.workers[pid], pid, now);
            MovesBy(s, pid, a)
  {
    hide Apply, Enabled, WorkerMoves, SoundCheck, UnitsFromDispatcher;
    match s.workers[pid].phase
    case Booting => LockMoves(s, pid);
    case Locked => LockMoves(s, pid);
    case Loaded(_) => ClaimMoves(s, pid, now);
    case Executing => ReportMoves(s, pid, now);
    case Failing => ReportMoves(s, pid, now);
    case Reported => ExitMoves(s, pid);
    case Closing => ExitMoves(s, pid);
  }

  // The step is one the worker can take, and it has the effect.
  ghost predicate MovesBy(s: State, pid: Pid, a: Step)
    requires pid in s.workers
  {
    && Enabled(s, a) && UnitsFromDispatcher(s, a) && SoundCheck(s, a)
    && WorkerMoves(s, pid, Apply(s, a)) && Apply(s, a).owner in {Nobody, Worker(pid)}
  }

  lemma LockMoves(s: State, pid: Pid)
    requires pid in s.workers && (s.workers[pid].phase.Booting? || s.workers[pid].phase.Locked?)
    requires s.owner == Nobody || (s.owner == Worker(pid) && !s.workers[pid].phase.Booting?)
    ensures MovesBy(s, pid, if s.workers[pid].phase.Booting? then WorkerLocks(pid) else WorkerReads(pid))
  {
  }

  lemma ReportMoves(s: State, pid: Pid, now: int)
    requires pid in s.workers && (s.workers[pid].phase.Executing? || s.workers[pid].phase.Failing?)
    requires s.owner in {Nobody, Worker(pid)}
    ensures MovesBy(s, pid, NextOf(s.workers[pid], pid, now))
  {
  }

  lemma ExitMoves(s: State, pid: Pid)
    requires pid in s.workers && (s.workers[pid].phase.Reported? || s.workers[pid].phase.Closing?)
    requires s.owner in {Nobody, Worker(pid)}
    ensures MovesBy(s, pid, WorkerExits(pid))
  {
  }

  lemma ClaimMoves(s: State, pid: Pid, now: int)
    requires pid in s.workers && s.workers[pid].phase.Loaded? && OneWorker(s.jobs) && s.owner in {Nobody, Worker(pid)}
    ensures MovesBy(s, pid, WorkerClaims(pid, now))
  {
  }

  // The worker is gone, and its row is finished unless it had nothing left to write.
  ghost predicate WorkerEnds(s: State, pid: Pid, t: State)
    requires pid in s.workers
  {
    var w := s.workers[pid];
    && t.retentions == s.retentions && t.dispatchers == s.dispatchers && t.workers == Without(s.workers, pid)
    && t.jobs.Keys == s.jobs.Keys && (forall j :: j in s.jobs && j != w.job ==> t.jobs[j] == s.jobs[j])
    && (w.phase.Reported? || w.phase.Closing? ==> t.jobs == s.jobs)
    && (w.job in s.jobs && !w.phase.Reported? && !w.phase.Closing? ==> !Unfinished(t.jobs[w.job].status))
    && (OnCourse(s, w) ==> t.jobs[w.job].status == Ok)
  }

  lemma MovesThenEnds(s: State, pid: Pid, t: State, e: State)
    requires pid in s.workers && pid in t.workers && WorkerMoves(s, pid, t) && WorkerEnds(t, pid, e)
    ensures WorkerEnds(s, pid, e)
  {
  }

  lemma LastMoveEnds(s: State, pid: Pid, t: State)
    requires pid in s.workers && pid !in t.workers && WorkerMoves(s, pid, t)
    ensures WorkerEnds(s, pid, t)
  {
    assert Without(t.workers, pid) == t.workers;
  }

  lemma MovesShrink(s: State, pid: Pid, t: State)
    requires pid in s.workers && WorkerMoves(s, pid, t)
    ensures pid in t.workers ==> Rank(t.workers[pid].phase) < Rank(s.workers[pid].phase)
  {
  }

  lemma OwnStep(w: WorkerProcess, pid: Pid, now: int)
    ensures var a := NextOf(w, pid, now); !a.EnqueueStep? && !a.CancelStep? && !a.WorkerDies?
  {
  }

  lemma OwnerMayMove(s: State, pid: Pid)
    requires OwnerAlive(s) && BootingFree(s) && pid in s.workers && s.owner in {Nobody, Worker(pid)}
    ensures s.owner == Nobody || (s.owner == Worker(pid) && !s.workers[pid].phase.Booting?)
  {
  }

  // Left to itself it ends; what it was doing ends well.
  lemma {:induction false} WorkerFinishes(states: seq<State>, steps: seq<Step>, pid: Pid, now: int)
    returns (states': seq<State>, steps': seq<Step>)
    requires DispatchedRun(states, steps) && pid in states[|steps|].workers
    requires states[|steps|].owner in {Nobody, Worker(pid)}
    ensures DispatchedRun(states', steps') && Continues(states, steps, states', steps')
    ensures WorkerEnds(states[|steps|], pid, states'[|steps'|])
    decreases Rank(states[|steps|].workers[pid].phase)
  {
    hide DispatchedRun, Continues, WorkerMoves, WorkerEnds, NextOf, Apply, Enabled;
    RunEnds(states, steps);
    var s := states[|steps|];
    var a := NextOf(s.workers[pid], pid, now);
    EndsWell(states, steps);
    OwnerMayMove(s, pid);
    NextMoves(s, pid, now);
    OwnStep(s.workers[pid], pid, now);
    var u, p := Onward(states, steps, a);
    RunEnds(u, p);
    var t := u[|p|];
    MovesShrink(s, pid, t);
    if pid in t.workers {
      states', steps' := WorkerFinishes(u, p, pid, now);
      RunEnds(states', steps');
      ContinuesOn(states, steps, u, p, states', steps');
      MovesThenEnds(s, pid, t, states'[|steps'|]);
    } else {
      states', steps' := u, p;
      LastMoveEnds(s, pid, t);
    }
  }

  // What became of the jobs of live workers.
  ghost predicate AllEnd(s: State, t: State) {
    && Still(t) && t.jobs.Keys == s.jobs.Keys
    && (forall j :: j in s.jobs ==> t.jobs[j] == s.jobs[j] || (UnitAlive(s, j) && !Unfinished(t.jobs[j].status)))
    && (forall pid :: pid in s.workers && OnCourse(s, s.workers[pid]) ==> t.jobs[s.workers[pid].job].status == Ok)
  }

  lemma OneThenAll(s: State, pid: Pid, t: State, e: State)
    requires Base(s) && pid in s.workers && WorkerEnds(s, pid, t) && AllEnd(t, e)
    ensures AllEnd(s, e)
  {
    hide Unfinished;
    forall q | q in s.workers && q != pid ensures q in t.workers && t.workers[q] == s.workers[q] {}
    forall j | j in s.jobs ensures e.jobs[j] == s.jobs[j] || (UnitAlive(s, j) && !Unfinished(e.jobs[j].status)) {
      if UnitAlive(t, j) {
        var q :| q in t.workers && t.workers[q].job == j;
        assert q in s.workers && s.workers[q].job == j;
      }
    }
    forall q | q in s.workers && OnCourse(s, s.workers[q]) ensures e.jobs[s.workers[q].job].status == Ok {
      if q != pid {
        assert s.workers[q].job != s.workers[pid].job;
        assert OnCourse(t, t.workers[q]);
      } else {
        assert !UnitAlive(t, s.workers[pid].job);
      }
    }
  }

  // One worker after the other, the one that has the lock first.
  lemma {:induction false} AllFinish(states: seq<State>, steps: seq<Step>, now: int)
    returns (states': seq<State>, steps': seq<Step>)
    requires DispatchedRun(states, steps)
    requires states[|steps|].retentions == map[] && states[|steps|].dispatchers == map[]
    ensures DispatchedRun(states', steps') && Continues(states, steps, states', steps')
    ensures AllEnd(states[|steps|], states'[|steps'|])
    decreases |states[|steps|].workers|
  {
    hide DispatchedRun, Continues, WorkerEnds, Base, AllEnd;
    RunEnds(states, steps);
    var s := states[|steps|];
    EndsWell(states, steps);
    if s.workers == map[] {
      states', steps' := states, steps;
      NoneEnd(s);
    } else {
      var pid :| pid in s.workers && (s.owner.Worker? ==> pid == s.owner.pid);
      var u, p := WorkerFinishes(states, steps, pid, now);
      RunEnds(u, p);
      EndsShrink(s, pid, u[|p|]);
      states', steps' := AllFinish(u, p, now);
      RunEnds(states', steps');
      ContinuesOn(states, steps, u, p, states', steps');
      OneThenAll(s, pid, u[|p|], states'[|steps'|]);
    }
  }

  lemma NoneEnd(s: State)
    requires s.workers == map[] && s.retentions == map[] && s.dispatchers == map[] && OwnerAlive(s)
    ensures AllEnd(s, s)
  {
  }

  lemma EndsShrink(s: State, pid: Pid, t: State)
    requires pid in s.workers && WorkerEnds(s, pid, t)
    ensures |t.workers| < |s.workers| && t.retentions == s.retentions && t.dispatchers == s.dispatchers
  {
    Fewer(s.workers, pid);
  }

  // ---------------------------------------------------------------- recovery

  // The stamp that staleness counts from, 0 when the row has none.
  function LastSign(j: Job): int {
    if j.status == Running then Or(Coalesce(j.heartbeatAt, 0), Or(Coalesce(j.startedAt, 0), j.createdAt))
    else Or(Coalesce(j.startedAt, 0), j.createdAt)
  }

  // Active rows carry a real time stamp.
  ghost predicate Stamped(t: Table) {
    forall j :: j in t && Active(t[j].status) ==> LastSign(t[j]) != 0
  }

  lemma StaleInTime(j: Job)
    requires Active(j.status) && LastSign(j) != 0
    ensures Stale(j, LastSign(j) + RUNNING_HEARTBEAT_STALE_SECONDS)
  {
  }

  // Nothing runs, nothing is active, and no retired action waits.
  ghost predicate Idle(s: State) {
    && Still(s) && ActiveIds(s.jobs) == {}
    && forall j :: j in s.jobs && Unfinished(s.jobs[j].status) ==> !Legacy(s.jobs[j].action)
  }

  // The waiting and the finished rows, which recovery must keep.
  ghost predicate KeepsWaiting(t: Table, u: Table) {
    forall j :: j in t && ((t[j].status == Queued && !Legacy(t[j].action)) || !Unfinished(t[j].status)) ==>
      j in u && u[j] == t[j]
  }

  lemma NoneLeft(t: Table, j: JobId, now: int)
    requires ActiveIds(t) == {j}
    ensures j in t && ActiveIds(t[j := Failed(t[j], now)]) == {}
  {
    assert j in ActiveIds(t);
    var u := t[j := Failed(t[j], now)];
    assert ActiveIds(u) <= ActiveIds(t);
  }

  // When the active row, if any, looks stale.
  function StaleFrom(t: Table): int {
    if ActiveIds(t) == {} then 0 else LastSign(t[Least(ActiveIds(t))]) + RUNNING_HEARTBEAT_STALE_SECONDS
  }

  lemma CancelledTable(t: Table, now: int)
    ensures var u := CancelLegacy(t, now);
            && ActiveIds(u) <= ActiveIds(t) && (forall j :: j in ActiveIds(u) ==> u[j] == t[j])
            && KeepsWaiting(t, u) && forall j :: j in u && Unfinished(u[j].status) ==> !Legacy(u[j].action)
  {
  }

  // A dispatcher that comes long enough after the last sign of life ends the active row.
  lemma Recovered(states: seq<State>, steps: seq<Step>) returns (states': seq<State>, steps': seq<Step>)
    requires DispatchedRun(states, steps) && Still(states[|steps|]) && Stamped(states[|steps|].jobs)
    ensures DispatchedRun(states', steps') && Continues(states, steps, states', steps')
    ensures Idle(states'[|steps'|]) && KeepsWaiting(states[|steps|].jobs, states'[|steps'|].jobs)
  {
    hide DispatchedRun, CancelLegacy, Stale, LastSign;
    RunEnds(states, steps);
    var s := states[|steps|];
    var now := StaleFrom(s.jobs);
    var t := CancelLegacy(s.jobs, now);
    CancelledTable(s.jobs, now);
    var u, p := Begun(states, steps, now);
    RunEnds(u, p);
    if ActiveIds(t) == {} {
      states', steps' := GoneHome(u, p);
    } else {
      var j := Least(ActiveIds(t));
      TheOneActive(states, steps, t, j);
      SnapshotOfOne(t, j);
      StaleInTime(t[j]);
      states', steps' := Condemned(u, p, j, now);
    }
    RunEnds(states', steps');
    ContinuesOn(states, steps, u, p, states', steps');
  }

  lemma TheOneActive(states: seq<State>, steps: seq<Step>, t: Table, j: JobId)
    requires DispatchedRun(states, steps) && ActiveIds(t) <= ActiveIds(states[|steps|].jobs) && j in ActiveIds(t)
    ensures ActiveIds(t) == ActiveIds(states[|steps|].jobs) == {j} && StaleFrom(states[|steps|].jobs)
         == LastSign(states[|steps|].jobs[j]) + RUNNING_HEARTBEAT_STALE_SECONDS
  {
    AtMostOneActive(states, steps, |steps|);
    var s := states[|steps|];
    forall k | k in ActiveIds(s.jobs) ensures k == j {
      assert k in s.jobs && j in s.jobs && Active(s.jobs[k].status) && Active(s.jobs[j].status);
    }
    assert ActiveIds(s.jobs) == {j};
  }

  lemma Begun(states: seq<State>, steps: seq<Step>, now: int)
    returns (states': seq<State>, steps': seq<Step>)
    requires DispatchedRun(states, steps) && Still(states[|steps|])
    ensures DispatchedRun(states', steps') && Continues(states, steps, states', steps')
    ensures var s := states[|steps|];
            var t := CancelLegacy(s.jobs, now);
            states'[|steps'|] == s.(jobs := t, dispatchers := map[0 := Recovering(ActiveSnapshot(t), now)])
  {
    hide CancelLegacy, ActiveSnapshot;
    states', steps' := Onward(states, steps, DispatcherBegins(0, now));
  }

  // Nothing was found active.
  lemma GoneHome(states: seq<State>, steps: seq<Step>) returns (states': seq<State>, steps': seq<Step>)
    requires DispatchedRun(states, steps)
    requires var s := states[|steps|]; s.dispatchers.Keys == {0} && Idle(s.(dispatchers := map[]))
    ensures DispatchedRun(states', steps') && Continues(states, steps, states', steps')
    ensures states'[|steps'|] == states[|steps|].(dispatchers := map[])
  {
    states', steps' := Onward(states, steps, DispatcherDies(0));
    assert Without(states[|steps|].dispatchers, 0) == map[];
  }

  lemma Condemned(states: seq<State>, steps: seq<Step>, j: JobId, now: int)
    returns (states': seq<State>, steps': seq<Step>)
    requires DispatchedRun(states, steps)
    requires var s := states[|steps|];
             && s.workers == map[] && s.retentions == map[] && s.owner == Nobody
             && ActiveIds(s.jobs) == {j} && Stale(s.jobs[j], now)
             && s.dispatchers == map[0 := Recovering([SnapshotRow(j, s.jobs[j])], now)]
             && forall k :: k in s.jobs && Unfinished(s.jobs[k].status) ==> !Legacy(s.jobs[k].action)
    ensures DispatchedRun(states', steps') && Continues(states, steps, states', steps')
    ensures Idle(states'[|steps'|])
    ensures states'[|steps'|].jobs == states[|steps|].jobs[j := Failed(states[|steps|].jobs[j], now)]
  {
    var s := states[|steps|];
    hide Stale, CancelLegacy, ActiveSnapshot, NextClaim;
    NoneLeft(s.jobs, j, now);
    assert j in ActiveIds(s.jobs);
    var row := SnapshotRow(j, s.jobs[j]);
    assert [row][1..] == [];
    var u, p := Onward(states, steps, DispatcherChecks(0, false));
    assert u[|p|] == s.(dispatchers := map[0 := Condemning(row, [], now)]);
    var v, q := Onward(u, p, DispatcherCondemns(0));
    ContinuesOn(states, steps, u, p, v, q);
    assert v[|q|] == s.(jobs := s.jobs[j := Failed(s.jobs[j], now)], dispatchers := map[0 := Recovering([], now)]);
    states', steps' := Onward(v, q, DispatcherDies(0));
    ContinuesOn(states, steps, v, q, states', steps');
    assert states'[|steps'|] == s.(jobs := s.jobs[j := Failed(s.jobs[j], now)], dispatchers := map[]);
  }

  // ---------------------------------------------------------------- one job

  // From idle, the oldest waiting job is dispatched, its unit starts, and it is in its body.
  lemma Dispatched(states: seq<State>, steps: seq<Step>, now: int)
    returns (states': seq<State>, steps': seq<Step>)
    requires DispatchedRun(states, steps) && Idle(states[|steps|]) && Claimable(states[|steps|].jobs) != {}
    ensures DispatchedRun(states', steps') && Continues(states, steps, states', steps')
    ensures var s, t := states[|steps|], states'[|steps'|];
            var id := Least(Claimable(s.jobs));
            && id in s.jobs
            && t.jobs == s.jobs[id := StartingJob(s.jobs[id], now)]
            && t.workers == map[0 := WorkerProcess(id, Booting, OtherAction, false)]
            && t.retentions == map[] && t.dispatchers == map[] && t.owner == Nobody
  {
    var s := states[|steps|];
    var id := Least(Claimable(s.jobs));
    assert id in Claimable(s.jobs);
    assert CancelLegacy(s.jobs, now) == s.jobs;
    SnapshotOfNone(s.jobs);
    var u, p := Onward(states, steps, DispatcherBegins(0, now));
    assert u[|p|] == s.(dispatchers := map[0 := Recovering([], now)]);
    var v, q := Onward(u, p, DispatcherClaims(0, now));
    ContinuesOn(states, steps, u, p, v, q);
    var claimed := s.jobs[id := StartingJob(s.jobs[id], now)];
    assert v[|q|] == s.(jobs := claimed, dispatchers := map[0 := Claimed(id)]);
    var w, r := Onward(v, q, DispatcherStarts(0));
    ContinuesOn(states, steps, v, q, w, r);
    assert w[|r|] == s.(jobs := claimed, pendingStarts := s.pendingStarts + {id});
    states', steps' := Onward(w, r, UnitStarts(id, 0));
    ContinuesOn(states, steps, w, r, states', steps');
  }

  lemma Worked(states: seq<State>, steps: seq<Step>, id: JobId, now: int)
    returns (states': seq<State>, steps': seq<Step>)
    requires DispatchedRun(states, steps)
    requires var s := states[|steps|];
             && id in s.jobs && s.jobs[id].status == Starting
             && (forall k :: k in s.jobs && k != id ==> !Active(s.jobs[k].status))
             && s.workers == map[0 := WorkerProcess(id, Booting, OtherAction, false)]
             && s.retentions == map[] && s.dispatchers == map[] && s.owner == Nobody
    ensures DispatchedRun(states', steps') && Continues(states, steps, states', steps')
    ensures var s, t := states[|steps|], states'[|steps'|];
            && id in t.jobs && t.jobs == s.jobs[id := t.jobs[id]] && t.jobs[id].status == Running
            && t.jobs[id].action == s.jobs[id].action
            && t.workers == map[0 := WorkerProcess(id, Executing, s.jobs[id].action, true)]
            && t.retentions == map[] && t.dispatchers == map[] && t.owner == Worker(0)
  {
    var s := states[|steps|];
    var action := s.jobs[id].action;
    var u, p := Onward(states, steps, WorkerLocks(0));
    assert u[|p|] == s.(owner := Worker(0), workers := map[0 := WorkerProcess(id, Locked, OtherAction, true)]);
    var v, q := Onward(u, p, WorkerReads(0));
    ContinuesOn(states, steps, u, p, v, q);
    assert v[|q|] == s.(owner := Worker(0), workers := map[0 := WorkerProcess(id, Loaded(Starting), action, true)]);
    states', steps' := Onward(v, q, WorkerClaims(0, now));
    ContinuesOn(states, steps, v, q, states', steps');
  }

  lemma Ended(states: seq<State>, steps: seq<Step>, id: JobId, now: int)
    returns (states': seq<State>, steps': seq<Step>)
    requires DispatchedRun(states, steps)
    requires var s := states[|steps|];
             && id in s.jobs && s.workers.Keys == {0}
             && s.workers[0].job == id && s.workers[0].phase == Executing && s.workers[0].holdsLock
             && s.retentions == map[] && s.dispatchers == map[] && s.owner == Worker(0)
    ensures DispatchedRun(states', steps') && Continues(states, steps, states', steps')
    ensures var s, t := states[|steps|], states'[|steps'|];
            Still(t) && id in t.jobs && t.jobs == s.jobs[id := t.jobs[id]] && t.jobs[id].status == Ok
  {
    var u, p := Onward(states, steps, WorkerReportsOk(0, now));
    states', steps' := Onward(u, p, WorkerExits(0));
    ContinuesOn(states, steps, u, p, states', steps');
    assert states'[|steps'|].workers == map[];
  }

  // One more job has run to its end; nothing else moved.
  lemma Served(states: seq<State>, steps: seq<Step>, now: int)
    returns (states': seq<State>, steps': seq<Step>)
    requires DispatchedRun(states, steps) && Idle(states[|steps|]) && Claimable(states[|steps|].jobs) != {}
    ensures DispatchedRun(states', steps') && Continues(states, steps, states', steps') && Idle(states'[|steps'|])
    ensures var s, t := states[|steps|], states'[|steps'|];
            var id := Least(Claimable(s.jobs));
            && id in s.jobs && id in t.jobs
            && t.jobs == s.jobs[id := t.jobs[id]] && t.jobs[id].status == Ok
            && Claimable(t.jobs) == Claimable(s.jobs) - {id}
  {
    hide DispatchedRun;
    RunEnds(states, steps);
    var s := states[|steps|];
    var id := Least(Claimable(s.jobs));
    var u, p := Dispatched(states, steps, now);
    RunEnds(u, p);
    forall k | k in u[|p|].jobs && k != id ensures !Active(u[|p|].jobs[k].status) {
      assert k !in ActiveIds(s.jobs);
    }
    var v, q := Worked(u, p, id, now);
    RunEnds(v, q);
    ContinuesOn(states, steps, u, p, v, q);
    states', steps' := Ended(v, q, id, now);
    RunEnds(states', steps');
    ContinuesOn(states, steps, v, q, states', steps');
    var t := states'[|steps'|];
    forall k ensures k !in ActiveIds(t.jobs) {
      assert k !in ActiveIds(s.jobs);
    }
    assert Claimable(t.jobs) == Claimable(s.jobs) - {id};
  }

  // Every waiting job, one after the other.
  lemma {:induction false} AllServed(states: seq<State>, steps: seq<Step>, now: int)
    returns (states': seq<State>, steps': seq<Step>)
    requires DispatchedRun(states, steps) && Idle(states[|steps|])
    ensures DispatchedRun(states', steps') && Continues(states, steps, states', steps') && Idle(states'[|steps'|])
    ensures var s, t := states[|steps|], states'[|steps'|];
            && Claimable(t.jobs) == {}
            && (forall j :: j in Claimable(s.jobs) ==> j in t.jobs && t.jobs[j].status == Ok)
            && (forall j :: j in s.jobs && j !in Claimable(s.jobs) ==> j in t.jobs && t.jobs[j] == s.jobs[j])
            && t.jobs.Keys == s.jobs.Keys
    decreases |Claimable(states[|steps|].jobs)|
  {
    hide DispatchedRun;
    RunEnds(states, steps);
    var s := states[|steps|];
    if Claimable(s.jobs) == {} {
      states', steps' := states, steps;
    } else {
      var id := Least(Claimable(s.jobs));
      var u, p := Served(states, steps, now);
      RunEnds(u, p);
      states', steps' := AllServed(u, p, now);
      RunEnds(states', steps');
      ContinuesOn(states, steps, u, p, states', steps');
    }
  }

  // ---------------------------------------------------------------- the drain

  // From every reachable state whose active row, if any, carries a real time stamp, some
  // continuation without new work leaves no process and no active row.  Every worker that is
  // in its body, or on its way there, ends well in it, and so does every job that waits;
  // whatever is still unfinished was asked to be cancelled.
  lemma QueueCanEmpty(states: seq<State>, steps: seq<Step>, now: int)
    returns (states': seq<State>, steps': seq<Step>)
    requires DispatchedRun(states, steps) && Stamped(states[|steps|].jobs)
    ensures DispatchedRun(states', steps') && Continues(states, steps, states', steps')
    ensures var s, t := states[|steps|], states'[|steps'|];
            && Still(t) && ActiveIds(t.jobs) == {}
            && (forall pid :: pid in s.workers && OnCourse(s, s.workers[pid]) ==>
                  s.workers[pid].job in t.jobs && t.jobs[s.workers[pid].job].status == Ok)
            && (forall j <- Claimable(s.jobs) ::
                  j in s.jobs && !Legacy(s.jobs[j].action) ==> j in t.jobs && t.jobs[j].status == Ok)
            && (forall j :: j in t.jobs && Unfinished(t.jobs[j].status) ==> t.jobs[j].cancelRequested)
  {
    hide DispatchedRun, Continues, LastSign, Base, AllEnd;
    RunEnds(states, steps);
    var s := states[|steps|];
    EndsWell(states, steps);
    var u, p := OthersGone(states, steps);
    RunEnds(u, p);
    var v, q := AllFinish(u, p, now);
    RunEnds(v, q);
    ContinuesOn(states, steps, u, p, v, q);
    FinishKeeps(s, u[|p|], v[|q|]);
    var w, r := Recovered(v, q);
    RunEnds(w, r);
    ContinuesOn(states, steps, v, q, w, r);
    states', steps' := AllServed(w, r, now);
    RunEnds(states', steps');
    ContinuesOn(states, steps, w, r, states', steps');
    var e, f, t := v[|q|].jobs, w[|r|].jobs, states'[|steps'|].jobs;
    forall j | j in Claimable(s.jobs) && !Legacy(s.jobs[j].action) ensures j in t && t[j].status == Ok {
      assert j in Claimable(f);
    }
    forall pid | pid in s.workers && OnCourse(s, s.workers[pid])
      ensures s.workers[pid].job in t && t[s.workers[pid].job].status == Ok
    {
      var j := s.workers[pid].job;
      assert e[j].status == Ok && f[j] == e[j] && j !in Claimable(f);
    }
    forall j | j in t && Unfinished(t[j].status) ensures t[j].cancelRequested {
      assert j !in ActiveIds(t) && j !in Claimable(t);
    }
  }

  lemma AliveNotQueued(s: State, j: JobId)
    requires Base(s)
    ensures UnitAlive(s, j) ==> NotQueued(s, j)
  {
  }

  // Waiting rows belong to no live worker, and no row became active.
  lemma FinishKeeps(s: State, t: State, e: State)
    requires Base(s) && t.jobs == s.jobs && t.workers == s.workers && AllEnd(t, e) && Stamped(s.jobs)
    ensures Still(e) && Stamped(e.jobs)
    ensures forall j :: j in s.jobs && s.jobs[j].status == Queued ==> j in e.jobs && e.jobs[j] == s.jobs[j]
    ensures forall pid :: pid in s.workers && OnCourse(s, s.workers[pid]) ==>
              s.workers[pid].job in e.jobs && e.jobs[s.workers[pid].job].status == Ok
  {
    hide LastSign;
    forall j | j in s.jobs && s.jobs[j].status == Queued ensures e.jobs[j] == s.jobs[j] {
      AliveNotQueued(s, j);
      assert UnitAlive(t, j) ==> UnitAlive(s, j);
    }
    forall pid | pid in s.workers && OnCourse(s, s.workers[pid])
      ensures e.jobs[s.workers[pid].job].status == Ok
    {
      assert OnCourse(t, t.workers[pid]);
    }
  }
}
