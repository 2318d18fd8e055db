/** A condemned reset that comes back: every reset is enqueued as exclusive, and yet the
    commit of one destroys a waiting job.
  */
module MaintenanceRevival {
  import opened Options
  import opened MaintenanceJobs
  import opened MaintenanceProtocol
  import opened MaintenanceOnce
  import opened MaintenanceExclusion
  import opened MaintenanceHeartbeats
  import opened MaintenanceReset

  ghost predicate AllExclusive(steps: seq<Step>) {
    forall i {:trigger steps[i]} :: 0 <= i < |steps| ==> ResetsExclusive(steps[i])
  }

  lemma OnwardsExclusive(steps: seq<Step>, later: seq<Step>)
    requires AllExclusive(steps) && Onwards(steps, later)
    ensures AllExclusive(later)
  {
    forall i | 0 <= i < |later| ensures ResetsExclusive(later[i]) {
      if i < |steps| { assert later[i] == steps[i]; }
    }
  }

  // The reset is enqueued on an empty queue.
  lemma ResetEnqueued() returns (states: seq<State>, steps: seq<Step>)
    ensures DispatchedRun(states, steps) && |states| == |steps| + 1 && AllExclusive(steps) && ResetAlone(states[0])
    ensures states[|steps|] == Waiting(ResetAppData, map[], 2)
  {
    var s := State(map[], 1, Nobody, map[], map[], map[], {}, {});
    assert UnfinishedJobs(s.jobs) == {} && UnfinishedResets(s.jobs) == {};
    states, steps := Extend([s], [], EnqueueStep(ResetAppData, true, 1, 10), Waiting(ResetAppData, map[], 2));
  }

  // A vacuum is accepted because the failed reset counts as finished.
  lemma VacuumGoes(s: State, failed: Job)
    requires s.jobs == map[1 := failed] && failed.status == Error && s.nextId == 2
    ensures Goes(s, EnqueueStep(Vacuum, false, 2, 502), s.(jobs := s.jobs[2 := NewJob(Vacuum, 502)], nextId := 3))
  {
    assert UnfinishedResets(s.jobs) == {};
  }

  // The reset's unconditional progress write brings its row back.
  lemma RevivalGoes(s: State, failed: Job)
    requires s.jobs == map[1 := failed, 2 := NewJob(Vacuum, 502)]
    requires failed.status == Error && failed.action == ResetAppData
    requires s.workers == WorkerAt(Executing, ResetAppData, true)
    ensures var a := WorkerProgress(0, true, Some(70), 503);
            var row := Updated(failed, Running, false, false, true, Some(70), 503);
            Goes(s, a, s.(jobs := s.jobs[1 := row])) && Revives(s, a, 1) && RevivesBeside(s, a)
  {
    assert !Refused(s.jobs, 1, Running, None);
    assert 2 in s.jobs && Unfinished(s.jobs[2].status);
  }

  // Its commit deletes the waiting vacuum.
  lemma DestructionGoes(t: State)
    requires 1 in t.jobs && t.jobs[1].action == ResetAppData && t.jobs[1].status == Running
    requires t.workers == WorkerAt(Executing, ResetAppData, true)
    ensures Goes(t, WorkerResets(0), t.(jobs := map[1 := t.jobs[1]]))
  {
    assert ResetTable(t.jobs, 1) == map[1 := t.jobs[1]];
  }

  lemma VacuumAccepted() returns (states: seq<State>, steps: seq<Step>)
    ensures DispatchedRun(states, steps) && |states| == |steps| + 1 && AllExclusive(steps) && ResetAlone(states[0])
    ensures var s := states[|steps|];
            && s.workers == WorkerAt(Executing, ResetAppData, true)
            && 1 in s.jobs && s.jobs == map[1 := s.jobs[1], 2 := NewJob(Vacuum, 502)]
            && s.jobs[1].status == Error && s.jobs[1].action == ResetAppData
  {
    hide DispatchedRun, ResetAlone, Goes, WorkerAt, Apply, Enabled;
    states, steps := ResetEnqueued();
    var first := states[0];
    var p: seq<Step>;
    states, p := LiveJobCondemned(states, steps, ResetAppData, map[], 2);
    OnwardsExclusive(steps, p);
    var s := states[|p|];
    var failed := s.jobs[1];
    assert s.jobs == map[1 := failed];
    VacuumGoes(s, failed);
    s := s.(jobs := s.jobs[2 := NewJob(Vacuum, 502)], nextId := 3);
    states, steps := Extend(states, p, EnqueueStep(Vacuum, false, 2, 502), s);
    assert states[0] == first;
  }

  lemma RevivedResetDestroys() returns (states: seq<State>, steps: seq<Step>, n: nat)
    ensures DispatchedRun(states, steps) && n + 2 == |steps|
    ensures ResetAlone(states[0]) && forall i {:trigger steps[i]} :: 0 <= i < |steps| ==> ResetsExclusive(steps[i])
    ensures Revives(states[n], steps[n], 1) && RevivesBeside(states[n], steps[n])
    ensures steps[n + 1].WorkerResets?
    ensures 2 in states[n + 1].jobs && states[n + 1].jobs[2].status == Queued && 2 !in states[n + 2].jobs
  {
    hide DispatchedRun, ResetAlone, Goes, Revives, RevivesBeside, Apply, Enabled;
    states, steps := VacuumAccepted();
    n := |steps|;
    var s := states[n];
    var row := Updated(s.jobs[1], Running, false, false, true, Some(70), 503);
    var t := s.(jobs := s.jobs[1 := row]);
    RevivalGoes(s, s.jobs[1]);
    DestructionGoes(t);
    states, steps := Extend(states, steps, WorkerProgress(0, true, Some(70), 503), t);
    states, steps := Extend(states, steps, WorkerResets(0), t.(jobs := map[1 := row]));
  }
}
