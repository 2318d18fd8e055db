/** When the unique index has to refuse a write.

    The worker unit is a oneshot service, so a unit check may well call a live
    worker inactive.  Heartbeats alone then keep every write admissible; with
    neither, a concrete run ends in a refused one.
  */
module MaintenanceHeartbeats {
  import opened Options
  import opened MaintenanceJobs
  import opened MaintenanceProtocol
  import opened MaintenanceOnce
  import opened MaintenanceExclusion

  function RowsOf(p: DispatcherPhase): seq<SnapshotRow> {
    match p
    case Recovering(rows, _) => rows
    case Condemning(_, rows, _) => rows
    case _ => []
  }

  ghost predicate FreshRow(s: State, p: DispatcherPhase, r: SnapshotRow) {
    (p.Recovering? || p.Condemning?) && r.job.status == Running && Stale(r.job, p.now) ==> !UnitAlive(s, r.id)
  }

  // A row of any snapshot that looks stale and running has no process.
  ghost predicate FreshInv(s: State) {
    forall d, r :: d in s.dispatchers && r in RowsOf(s.dispatchers[d]) ==> FreshRow(s, s.dispatchers[d], r)
  }

  lemma DeadStaysDead(s: State, a: Step, j: JobId)
    requires Base(s) && Enabled(s, a) && UnitsFromDispatcher(s, a)
    requires j in s.started && !UnitAlive(s, j)
    ensures !UnitAlive(Apply(s, a), j)
  {
    if a.UnitStarts? {
      assert a.id !in s.started;
    } else {
      ProcessesKept(s, a);
    }
  }

  // Rows waiting in a snapshot after a step were waiting before it, under the same
  // clock, or come from the snapshot the step has just taken.
  lemma WaitingRows(s: State, a: Step, d: Pid, r: SnapshotRow)
    requires Enabled(s, a) && d in Apply(s, a).dispatchers && r in RowsOf(Apply(s, a).dispatchers[d])
    ensures var p := Apply(s, a).dispatchers[d];
            || (a.DispatcherBegins? && d == a.d && p == Recovering(RowsOf(p), a.now)
                && r.id in s.jobs && (r.job.status == Running ==> r.job == s.jobs[r.id]))
            || (d in s.dispatchers && r in RowsOf(s.dispatchers[d]) && s.dispatchers[d].now == p.now)
  {
    if a.DispatcherBegins? && d == a.d {
      assert r in ActiveSnapshot(CancelLegacy(s.jobs, a.now));
    } else if a.DispatcherChecks? && d == a.d {
      assert forall q :: q in s.dispatchers[d].rows[1..] ==> q in s.dispatchers[d].rows;
    } else if WorkerWrites(a) {
      WorkerRow(s, a, 0);
    } else if !QueueWrites(a) {
      DispatcherKept(s, a, d);
    }
  }

  lemma FreshStep(s: State, a: Step)
    requires Inv(s) && FreshInv(s) && Enabled(s, a) && UnitsFromDispatcher(s, a) && FreshHeartbeats(s, a)
    ensures FreshInv(Apply(s, a))
  {
    var t := Apply(s, a);
    forall d, r | d in t.dispatchers && r in RowsOf(t.dispatchers[d]) ensures FreshRow(t, t.dispatchers[d], r) {
      WaitingRows(s, a, d, r);
      if (t.dispatchers[d].Recovering? || t.dispatchers[d].Condemning?) && r.job.status == Running
         && Stale(r.job, t.dispatchers[d].now)
      {
        FreshBefore(s, a, d, r);
        DeadStaysDead(s, a, r.id);
      }
    }
  }

  lemma FreshBefore(s: State, a: Step, d: Pid, r: SnapshotRow)
    requires Inv(s) && FreshInv(s) && Enabled(s, a) && FreshHeartbeats(s, a)
    requires d in Apply(s, a).dispatchers && r in RowsOf(Apply(s, a).dispatchers[d])
    requires r.job.status == Running && Stale(r.job, Apply(s, a).dispatchers[d].now)
    ensures r.id in s.started && !UnitAlive(s, r.id)
  {
    WaitingRows(s, a, d, r);
    if d in s.dispatchers && r in RowsOf(s.dispatchers[d]) {
      assert SnapshotInv(s, s.dispatchers[d]) && FreshRow(s, s.dispatchers[d], r);
    } else {
      assert s.jobs[r.id].status == Running;
    }
  }

  lemma {:induction false} FreshRunHolds(states: seq<State>, steps: seq<Step>, n: nat)
    requires DispatchedRun(states, steps) && n <= |steps|
    requires forall i {:trigger steps[i]} :: 0 <= i < |steps| ==> FreshHeartbeats(states[i], steps[i])
    ensures Inv(states[n]) && FreshInv(states[n])
  {
    if n > 0 {
      FreshRunHolds(states, steps, n - 1);
      var s, a := states[n - 1], steps[n - 1];
      assert states[n - 1 + 1] == Apply(s, a);
      FreshIsSound(s, a);
      InvStep(s, a);
      FreshStep(s, a);
    }
  }

  lemma FreshIsSound(s: State, a: Step)
    requires FreshInv(s)
    ensures SoundCheck(s, a)
  {
    if a.DispatcherChecks? && Enabled(s, a) {
      var p := s.dispatchers[a.d];
      assert p.rows[0] in RowsOf(p);
      assert FreshRow(s, p, p.rows[0]);
    }
  }

  // If running rows of live workers have young heartbeats whenever a snapshot is
  // taken, no write is ever refused, whatever systemd says about the units.
  lemma NothingRefusedIfHeartbeatsFresh(states: seq<State>, steps: seq<Step>, n: nat)
    requires DispatchedRun(states, steps) && n < |steps|
    requires forall i {:trigger steps[i]} :: 0 <= i < |steps| ==> FreshHeartbeats(states[i], steps[i])
    ensures Enabled(states[n], steps[n]) && !Refuses(states[n], steps[n])
  {
    FreshRunHolds(states, steps, n);
    InvRefusesNothing(states[n], steps[n]);
  }

  // ---------------------------------------------------------------- counterexample

  // The step takes one state to the other.
  predicate Goes(s: State, a: Step, t: State) {
    Enabled(s, a) && UnitsFromDispatcher(s, a) && Apply(s, a) == t
  }

  // Extends a run by one step.
  lemma Extend(states: seq<State>, steps: seq<Step>, a: Step, t: State)
    returns (states': seq<State>, steps': seq<Step>)
    requires DispatchedRun(states, steps) && Goes(states[|steps|], a, t)
    ensures DispatchedRun(states', steps') && |states'| == |steps'| + 1
    ensures steps' == steps + [a] && states' == states + [t] && states'[|steps'|] == t
  {
    hide Apply, Enabled;
    states', steps' := states + [t], steps + [a];
    forall i | 0 <= i < |steps'|
      ensures Enabled(states'[i], steps'[i]) && states'[i + 1] == Apply(states'[i], steps'[i])
      ensures UnitsFromDispatcher(states'[i], steps'[i])
    {
      if i < |steps| { assert steps'[i] == steps[i]; }
    }
  }

  // The later run continues the earlier one without enqueueing.
  ghost predicate Onwards(steps: seq<Step>, later: seq<Step>) {
    steps <= later && forall i {:trigger later[i]} :: |steps| <= i < |later| ==> !later[i].EnqueueStep?
  }

  // Job 1 waits before the rest of the queue.
  predicate Behind(rest: Table) {
    forall k :: k in rest ==> k > 1 && rest[k].status == Queued && !Legacy(rest[k].action)
  }

  function Waiting(action: Action, rest: Table, nextId: JobId): State {
    State(rest[1 := NewJob(action, 10)], nextId, Nobody, map[], map[], map[], {}, {})
  }

  function Own(action: Action, status: Status, beat: int): Job {
    Job(action, status, 10, Some(101), None, Some(beat), if status == Running then 1 else 0, 1, false)
  }

  // Where its worker stands.
  function WorkerAt(phase: WorkerPhase, action: Action, lock: bool): map<Pid, WorkerProcess> {
    map[0 := WorkerProcess(1, phase, action, lock)]
  }

  lemma Unscathed(t: Table, now: int)
    requires forall k :: k in t ==> !Legacy(t[k].action)
    ensures CancelLegacy(t, now) == t
  {
  }

  lemma NothingActive(t: Table)
    requires forall j :: j in t ==> !Active(t[j].status)
    ensures ActiveIds(t) == {} && ActiveSnapshot(t) == []
  {
    assert ActiveIds(t) == {};
    SnapshotOfNone(t);
  }

  // The job is claimed by a dispatcher that finds nothing to recover.
  lemma ScanGoes(action: Action, rest: Table, nextId: JobId)
    requires Behind(rest) && !Legacy(action)
    ensures var s := Waiting(action, rest, nextId);
            Goes(s, DispatcherBegins(0, 100), s.(dispatchers := map[0 := Recovering([], 100)]))
  {
    hide ActiveSnapshot, CancelLegacy;
    var t := rest[1 := NewJob(action, 10)];
    NothingActive(t);
    Unscathed(t, 100);
  }

  lemma ClaimGoes(s: State, jobs: Table, j: JobId, now: int)
    requires s.dispatchers.Keys == {0} && s.dispatchers[0].Recovering? && s.dispatchers[0].rows == []
    requires ActiveIds(s.jobs) == {} && j in Claimable(s.jobs) && forall k :: k in Claimable(s.jobs) ==> j <= k
    requires jobs == s.jobs[j := StartingJob(s.jobs[j], now)]
    ensures Goes(s, DispatcherClaims(0, now), s.(jobs := jobs, dispatchers := map[0 := Claimed(j)]))
  {
    hide StartingJob;
    assert Least(Claimable(s.jobs)) == j;
    assert s.dispatchers[0 := Claimed(j)] == map[0 := Claimed(j)];
  }

  lemma OldestClaimed(action: Action, rest: Table, nextId: JobId)
    requires Behind(rest) && !Legacy(action)
    ensures var s := Waiting(action, rest, nextId).(dispatchers := map[0 := Recovering([], 100)]);
            Goes(s, DispatcherClaims(0, 101),
                 s.(jobs := rest[1 := Own(action, Starting, 101)], dispatchers := map[0 := Claimed(1)]))
  {
    hide Goes;
    var s := Waiting(action, rest, nextId).(dispatchers := map[0 := Recovering([], 100)]);
    assert ActiveIds(s.jobs) == {} && 1 in Claimable(s.jobs);
    assert Own(action, Starting, 101) == StartingJob(s.jobs[1], 101);
    assert s.jobs[1 := Own(action, Starting, 101)] == rest[1 := Own(action, Starting, 101)];
    ClaimGoes(s, rest[1 := Own(action, Starting, 101)], 1, 101);
  }

  // Its unit starts, takes the lock and reads the row.
  lemma StartGoes(jobs: Table, nextId: JobId)
    ensures var s := State(jobs, nextId, Nobody, map[], map[], map[0 := Claimed(1)], {}, {});
            var t := s.(dispatchers := map[], pendingStarts := {1});
            && Goes(s, DispatcherStarts(0), t)
            && Goes(t, UnitStarts(1, 0),
                    t.(pendingStarts := {}, started := {1}, workers := WorkerAt(Booting, OtherAction, false)))
  {
  }

  lemma LoadGoes(jobs: Table, nextId: JobId)
    requires 1 in jobs && jobs[1].status == Starting
    ensures var s := State(jobs, nextId, Nobody, WorkerAt(Booting, OtherAction, false), map[], map[], {}, {1});
            var t := s.(owner := Worker(0), workers := WorkerAt(Locked, OtherAction, true));
            && Goes(s, WorkerLocks(0), t)
            && Goes(t, WorkerReads(0), t.(workers := WorkerAt(Loaded(Starting), jobs[1].action, true)))
  {
  }

  // It enters its body.
  lemma EnterGoes(action: Action, rest: Table, nextId: JobId)
    requires Behind(rest)
    ensures var s := State(rest[1 := Own(action, Starting, 101)], nextId, Worker(0),
                           WorkerAt(Loaded(Starting), action, true), map[], map[], {}, {1});
            Goes(s, WorkerClaims(0, 102),
                 s.(jobs := rest[1 := Own(action, Running, 102)], workers := WorkerAt(Executing, action, true)))
  {
    hide ClaimRunning, Refused, Behind;
    EnterRow(action, rest);
  }

  lemma EnterRow(action: Action, rest: Table)
    requires Behind(rest)
    ensures var t := rest[1 := Own(action, Starting, 101)];
            && !Refused(t, 1, Running, Some(Starting))
            && ClaimRunning(t, 1, Starting, 102) == rest[1 := Own(action, Running, 102)]
  {
    var t := rest[1 := Own(action, Starting, 101)];
    assert !Refused(t, 1, Running, Some(Starting));
  }

  // A dispatcher takes its snapshot 398 seconds after the last heartbeat, is told that the
  // live unit is inactive, and condemns the row.
  lemma SnapshotGoes(s: State, action: Action, rest: Table)
    requires Behind(rest) && !Legacy(action) && s.jobs == rest[1 := Own(action, Running, 102)] && s.dispatchers == map[]
    ensures Goes(s, DispatcherBegins(0, 500),
                 s.(dispatchers := map[0 := Recovering([SnapshotRow(1, s.jobs[1])], 500)]))
  {
    hide ActiveSnapshot, CancelLegacy;
    Unscathed(s.jobs, 500);
    assert ActiveIds(s.jobs) == {1};
    SnapshotOfOne(s.jobs, 1);
  }

  lemma CondemnGoes(s: State, row: SnapshotRow)
    requires s.dispatchers == map[0 := Recovering([row], 500)]
    requires row.job.status == Running && Stale(row.job, 500) && row.id in s.jobs && s.jobs[row.id].status == Running
    ensures var t := s.(dispatchers := map[0 := Condemning(row, [], 500)]);
            && Goes(s, DispatcherChecks(0, false), t)
            && Goes(t, DispatcherCondemns(0),
                    s.(jobs := s.jobs[row.id := Failed(s.jobs[row.id], 500)],
                       dispatchers := map[0 := Recovering([], 500)]))
  {
    assert [row][1..] == [];
  }

  // A waiting job gets its process.
  lemma JobStarts(states: seq<State>, steps: seq<Step>, action: Action, rest: Table, nextId: JobId)
    returns (states': seq<State>, steps': seq<Step>)
    requires DispatchedRun(states, steps) && Behind(rest) && !Legacy(action)
    requires states[|steps|] == Waiting(action, rest, nextId)
    ensures DispatchedRun(states', steps') && Onwards(steps, steps')
    ensures |states'| == |steps'| + 1 && states <= states'
    ensures states'[|steps'|] ==
            State(rest[1 := Own(action, Starting, 101)], nextId, Nobody, WorkerAt(Booting, OtherAction, false),
                  map[], map[], {}, {1})
  {
    hide DispatchedRun, Goes, Behind, WorkerAt, Own;
    var jobs := rest[1 := Own(action, Starting, 101)];
    ScanGoes(action, rest, nextId);
    OldestClaimed(action, rest, nextId);
    StartGoes(jobs, nextId);
    var s := Waiting(action, rest, nextId);
    s := s.(dispatchers := map[0 := Recovering([], 100)]);
    states', steps' := Extend(states, steps, DispatcherBegins(0, 100), s);
    s := s.(jobs := jobs, dispatchers := map[0 := Claimed(1)]);
    states', steps' := Extend(states', steps', DispatcherClaims(0, 101), s);
    s := s.(dispatchers := map[], pendingStarts := {1});
    states', steps' := Extend(states', steps', DispatcherStarts(0), s);
    s := s.(pendingStarts := {}, started := {1}, workers := WorkerAt(Booting, OtherAction, false));
    states', steps' := Extend(states', steps', UnitStarts(1, 0), s);
  }

  // And is taken into its body.
  lemma JobRuns(states: seq<State>, steps: seq<Step>, action: Action, rest: Table, nextId: JobId)
    returns (states': seq<State>, steps': seq<Step>)
    requires DispatchedRun(states, steps) && Behind(rest) && !Legacy(action)
    requires states[|steps|] == Waiting(action, rest, nextId)
    ensures DispatchedRun(states', steps') && Onwards(steps, steps')
    ensures |states'| == |steps'| + 1 && states <= states'
    ensures states'[|steps'|] ==
            State(rest[1 := Own(action, Running, 102)], nextId, Worker(0), WorkerAt(Executing, action, true),
                  map[], map[], {}, {1})
  {
    hide DispatchedRun, Goes, Behind, WorkerAt;
    var jobs := rest[1 := Own(action, Starting, 101)];
    LoadGoes(jobs, nextId);
    EnterGoes(action, rest, nextId);
    states', steps' := JobStarts(states, steps, action, rest, nextId);
    var s := states'[|steps'|].(owner := Worker(0), workers := WorkerAt(Locked, OtherAction, true));
    states', steps' := Extend(states', steps', WorkerLocks(0), s);
    s := s.(workers := WorkerAt(Loaded(Starting), action, true));
    states', steps' := Extend(states', steps', WorkerReads(0), s);
    s := s.(jobs := rest[1 := Own(action, Running, 102)], workers := WorkerAt(Executing, action, true));
    states', steps' := Extend(states', steps', WorkerClaims(0, 102), s);
  }

  // And its row is condemned while its worker executes on.
  lemma LiveJobCondemned(states: seq<State>, steps: seq<Step>, action: Action, rest: Table, nextId: JobId)
    returns (states': seq<State>, steps': seq<Step>)
    requires DispatchedRun(states, steps) && Behind(rest) && !Legacy(action)
    requires states[|steps|] == Waiting(action, rest, nextId)
    ensures DispatchedRun(states', steps') && Onwards(steps, steps')
    ensures |states'| == |steps'| + 1 && states <= states'
    ensures states'[|steps'|] ==
            State(rest[1 := Failed(Own(action, Running, 102), 500)], nextId, Worker(0),
                  WorkerAt(Executing, action, true), map[], map[0 := Recovering([], 500)], {}, {1})
  {
    hide DispatchedRun, Goes, Behind, WorkerAt;
    states', steps' := JobRuns(states, steps, action, rest, nextId);
    var s := states'[|steps'|];
    var row := SnapshotRow(1, s.jobs[1]);
    SnapshotGoes(s, action, rest);
    s := s.(dispatchers := map[0 := Recovering([row], 500)]);
    CondemnGoes(s, row);
    states', steps' := Extend(states', steps', DispatcherBegins(0, 500), s);
    var t := s.(dispatchers := map[0 := Condemning(row, [], 500)]);
    states', steps' := Extend(states', steps', DispatcherChecks(0, false), t);
    s := s.(jobs := s.jobs[1 := Failed(s.jobs[1], 500)], dispatchers := map[0 := Recovering([], 500)]);
    states', steps' := Extend(states', steps', DispatcherCondemns(0), s);
  }

  // The worker writes its progress.
  lemma RefusalGoes(t: State)
    requires 1 in t.jobs && 2 in t.jobs && Active(t.jobs[2].status)
    requires t.workers == WorkerAt(Executing, PurgeNodes, true)
    ensures var a := WorkerProgress(0, true, None, 502);
            Goes(t, a, t) && Enabled(t, a) && Refuses(t, a)
  {
    assert Refused(t.jobs, 1, Running, None);
  }

  lemma NextClaimGoes(s: State, failed: Job)
    requires s.jobs == map[1 := failed, 2 := NewJob(Vacuum, 20)] && failed.status == Error
    requires s.dispatchers == map[0 := Recovering([], 500)]
    ensures Goes(s, DispatcherClaims(0, 501),
                 s.(jobs := map[1 := failed, 2 := StartingJob(NewJob(Vacuum, 20), 501)],
                    dispatchers := map[0 := Claimed(2)]))
  {
    hide Goes, StartingJob;
    assert ActiveIds(s.jobs) == {} && 2 in Claimable(s.jobs);
    ClaimGoes(s, map[1 := failed, 2 := StartingJob(NewJob(Vacuum, 20), 501)], 2, 501);
  }

  // With a unit check that calls a live worker dead, and no heartbeat for 300
  // seconds, a run reaches a progress write that the index refuses: the job executes
  // on under a row that says it failed, while the next job has been claimed.
  lemma WriteRefusedIfCheckLies() returns (states: seq<State>, steps: seq<Step>, n: nat)
    ensures DispatchedRun(states, steps) && n + 1 == |steps|
    ensures Enabled(states[n], steps[n]) && Refuses(states[n], steps[n])
    ensures states[n + 1] == states[n]
    ensures AtWorker(states[n], 0, Executing) && states[n].workers[0].job == 1
    ensures 1 in states[n].jobs && states[n].jobs[1].status == Error
    ensures 2 in states[n].jobs && states[n].jobs[2].status == Starting
  {
    hide DispatchedRun, Goes, Refuses, Apply, Enabled, Waiting;
    var rest: Table := map[2 := NewJob(Vacuum, 20)];
    VacuumBehind(rest);
    var s, t, failed := Beginnings(rest);
    states, steps := LiveJobCondemned([Waiting(PurgeNodes, rest, 3)], [], PurgeNodes, rest, 3);
    assert states[|steps|] == s;
    NextClaimGoes(s, failed);
    RefusalGoes(t);
    n := |steps| + 1;
    states, steps := Extend(states, steps, DispatcherClaims(0, 501), t);
    states, steps := Extend(states, steps, WorkerProgress(0, true, None, 502), t);
  }

  lemma VacuumBehind(rest: Table)
    requires rest == map[2 := NewJob(Vacuum, 20)]
    ensures DispatchedRun([Waiting(PurgeNodes, rest, 3)], []) && Behind(rest)
  {
  }

  // The states before and after that claim.
  lemma Beginnings(rest: Table) returns (s: State, t: State, failed: Job)
    requires rest == map[2 := NewJob(Vacuum, 20)]
    ensures failed == Failed(Own(PurgeNodes, Running, 102), 500)
    ensures s == State(rest[1 := failed], 3, Worker(0), WorkerAt(Executing, PurgeNodes, true), map[],
                       map[0 := Recovering([], 500)], {}, {1})
    ensures s.jobs == map[1 := failed, 2 := NewJob(Vacuum, 20)]
    ensures t == s.(jobs := map[1 := failed, 2 := StartingJob(NewJob(Vacuum, 20), 501)],
                    dispatchers := map[0 := Claimed(2)])
  {
    hide Own, Failed, StartingJob, NewJob, WorkerAt;
    failed := Failed(Own(PurgeNodes, Running, 102), 500);
    s := State(rest[1 := failed], 3, Worker(0), WorkerAt(Executing, PurgeNodes, true), map[],
               map[0 := Recovering([], 500)], {}, {1});
    t := s.(jobs := map[1 := failed, 2 := StartingJob(NewJob(Vacuum, 20), 501)],
            dispatchers := map[0 := Claimed(2)]);
  }
}
