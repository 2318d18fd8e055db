/** The exclusive reset: when a finished row can come back, when an unfinished reset stops
    being alone, and what its commit then destroys.
  */
module MaintenanceReset {
  import opened Options
  import opened MaintenanceJobs
  import opened MaintenanceProtocol
  import opened MaintenanceOnce
  import opened MaintenanceExclusion

  // An unfinished reset is the only unfinished job.
  ghost predicate ResetAlone(s: State) {
    forall r, k ::
      (r in s.jobs && s.jobs[r].action == ResetAppData && Unfinished(s.jobs[r].status)
       && k in s.jobs && Unfinished(s.jobs[k].status)) ==> k == r
  }

  // ---------------------------------------------------------------- finished rows

  // A progress write, unconditional as it is, that finds the row of job j finished and is
  // not refused.
  predicate Revives(s: State, a: Step, j: JobId) {
    && a.WorkerProgress? && a.pid in s.workers && s.workers[a.pid].job == j
    && j in s.jobs && !Unfinished(s.jobs[j].status) && !Refused(s.jobs, j, Running, None)
  }

  // That is the one way for a finished row to become unfinished.
  lemma RevivedExactly(s: State, a: Step, j: JobId)
    requires Base(s) && Enabled(s, a)
    requires j in s.jobs && !Unfinished(s.jobs[j].status) && j in Apply(s, a).jobs
    ensures Unfinished(Apply(s, a).jobs[j].status) <==> Revives(s, a, j)
  {
    hide Apply, Enabled;
    if a.WorkerProgress? {
      ProgressRow(s, a, j);
    } else if QueueWrites(a) {
      QueueRow(s, a, j);
    } else if WorkerWrites(a) {
      EnabledWorker(s, a);
      WorkerRow(s, a, j);
      assert LoadedRow(s, s.workers[a.pid]);
    } else {
      SilentSteps(s, a);
    }
  }

  lemma ProgressRow(s: State, a: Step, j: JobId)
    requires Enabled(s, a) && a.WorkerProgress? && j in s.jobs
    ensures a.pid in s.workers && Apply(s, a).jobs.Keys == s.jobs.Keys
    ensures Apply(s, a).jobs[j].action == s.jobs[j].action
    ensures var own := s.workers[a.pid].job == j && !Refused(s.jobs, j, Running, None);
            Apply(s, a).jobs[j].status == if own then Running else s.jobs[j].status
  {
  }

  // Over every run in which units come from the dispatcher a finished row stays finished
  // until a progress write revives it, and a deleted id never comes back.
  lemma {:induction false} FinishedUntilRevived(states: seq<State>, steps: seq<Step>, i: nat, n: nat, j: JobId)
    requires DispatchedRun(states, steps) && i <= n <= |steps|
    requires j in states[i].jobs && !Unfinished(states[i].jobs[j].status)
    requires forall m {:trigger steps[m]} :: i <= m < n ==> !Revives(states[m], steps[m], j)
    ensures j in states[n].jobs ==> !Unfinished(states[n].jobs[j].status)
    ensures j < states[n].nextId
    decreases n
  {
    hide Apply, Enabled, Unfinished, Revives;
    BaseHolds(states, steps, n);
    if i < n {
      FinishedUntilRevived(states, steps, i, n - 1, j);
      BaseHolds(states, steps, n - 1);
      var s, a := states[n - 1], steps[n - 1];
      assert states[n - 1 + 1] == Apply(s, a);
      IdsBoundedStep(s, a);
      if j in s.jobs && j in states[n].jobs {
        RevivedExactly(s, a, j);
      } else if j in states[n].jobs {
        RowOrigin(s, a, j);
      }
    }
  }

  // Where recovery spares live workers nothing is revived.
  lemma NothingRevived(states: seq<State>, steps: seq<Step>, n: nat, j: JobId)
    requires SoundRun(states, steps) && n < |steps|
    ensures !Revives(states[n], steps[n], j)
  {
    InvHolds(states, steps, n);
    assert Enabled(states[n], steps[n]);
    if steps[n].WorkerProgress? {
      assert RunningRow(states[n], states[n].workers[steps[n].pid]);
    }
  }

  lemma RowOrigin(s: State, a: Step, j: JobId)
    requires IdsBounded(s) && Enabled(s, a) && j in Apply(s, a).jobs
    ensures || (j in s.jobs && s.jobs[j].action == Apply(s, a).jobs[j].action)
            || (a.EnqueueStep? && j == a.id && j >= s.nextId && Apply(s, a).jobs == s.jobs[j := NewJob(a.action, a.now)])
  {
    if QueueWrites(a) {
      QueueRow(s, a, j);
    } else if WorkerWrites(a) {
      WorkerRow(s, a, j);
    } else {
      SilentSteps(s, a);
    }
  }

  // ---------------------------------------------------------------- the reset alone

  // An accepted enqueue finds no unfinished reset, and an accepted reset finds no
  // unfinished job.
  lemma EnqueueGuard(s: State, a: Step)
    requires Enabled(s, a) && a.EnqueueStep?
    ensures forall r :: r in s.jobs && s.jobs[r].action == ResetAppData ==> !Unfinished(s.jobs[r].status)
    ensures a.exclusive || UnfinishedJobs(s.jobs) == {} ==> forall k :: k in s.jobs ==> !Unfinished(s.jobs[k].status)
  {
    forall k | k in s.jobs && Unfinished(s.jobs[k].status)
      ensures !a.exclusive && UnfinishedJobs(s.jobs) != {} && s.jobs[k].action != ResetAppData
    {
      assert k in UnfinishedJobs(s.jobs);
      assert s.jobs[k].action == ResetAppData ==> k in UnfinishedResets(s.jobs);
    }
  }

  // A reset is enqueued, not exclusively, while some job is unfinished.
  predicate JoinsOthers(s: State, a: Step) {
    a.EnqueueStep? && a.action == ResetAppData && !a.exclusive && UnfinishedJobs(s.jobs) != {}
  }

  // A progress write revives a row beside an unfinished one, and one of the two is a reset.
  predicate RevivesBeside(s: State, a: Step) {
    && a.WorkerProgress? && a.pid in s.workers
    && (var j := s.workers[a.pid].job;
        && Revives(s, a, j)
        && exists k :: k in s.jobs && Unfinished(s.jobs[k].status)
                       && (s.jobs[j].action == ResetAppData || s.jobs[k].action == ResetAppData))
  }

  lemma ResetAloneStep(s: State, a: Step)
    requires Base(s) && ResetAlone(s) && Enabled(s, a) && !JoinsOthers(s, a) && !RevivesBeside(s, a)
    ensures ResetAlone(Apply(s, a))
  {
    hide Apply, Enabled, Base;
    var t := Apply(s, a);
    forall r, k | r in t.jobs && t.jobs[r].action == ResetAppData && Unfinished(t.jobs[r].status)
                  && k in t.jobs && Unfinished(t.jobs[k].status)
      ensures k == r
    {
      UnfinishedOrigin(s, a, r);
      UnfinishedOrigin(s, a, k);
      if a.EnqueueStep? { EnqueueGuard(s, a); }
    }
  }

  // An unfinished row was unfinished before, has just been enqueued, or was revived.
  lemma UnfinishedOrigin(s: State, a: Step, j: JobId)
    requires Base(s) && Enabled(s, a) && j in Apply(s, a).jobs && Unfinished(Apply(s, a).jobs[j].status)
    ensures || (j in s.jobs && s.jobs[j].action == Apply(s, a).jobs[j].action
                && (Unfinished(s.jobs[j].status) || Revives(s, a, j)))
            || (a.EnqueueStep? && j == a.id && j !in s.jobs && Apply(s, a).jobs[j].action == a.action)
  {
    hide Apply, Enabled;
    RowOrigin(s, a, j);
    if j in s.jobs && !Unfinished(s.jobs[j].status) { RevivedExactly(s, a, j); }
  }

  // An unfinished reset stops being alone exactly by being enqueued beside other work or by a
  // progress write that revives a row.
  lemma ResetAloneLostExactly(s: State, a: Step)
    requires Base(s) && ResetAlone(s) && Enabled(s, a)
    ensures ResetAlone(Apply(s, a)) <==> !JoinsOthers(s, a) && !RevivesBeside(s, a)
  {
    hide Apply, Enabled;
    if JoinsOthers(s, a) {
      JoinedNotAlone(s, a);
    } else if RevivesBeside(s, a) {
      RevivedNotAlone(s, a);
    } else {
      ResetAloneStep(s, a);
    }
  }

  lemma JoinedNotAlone(s: State, a: Step)
    requires IdsBounded(s) && Enabled(s, a) && JoinsOthers(s, a)
    ensures !ResetAlone(Apply(s, a))
  {
    var t := Apply(s, a);
    var k :| k in UnfinishedJobs(s.jobs);
    assert k != a.id && t.jobs[a.id] == NewJob(ResetAppData, a.now) && t.jobs[k] == s.jobs[k];
    assert a.id in t.jobs && k in t.jobs;
  }

  lemma RevivedNotAlone(s: State, a: Step)
    requires Enabled(s, a) && RevivesBeside(s, a)
    ensures !ResetAlone(Apply(s, a))
  {
    hide Apply, Enabled;
    var j, t := s.workers[a.pid].job, Apply(s, a);
    var k :| k in s.jobs && Unfinished(s.jobs[k].status)
             && (s.jobs[j].action == ResetAppData || s.jobs[k].action == ResetAppData);
    ProgressRow(s, a, j);
    ProgressRow(s, a, k);
    assert j in t.jobs && k in t.jobs && Unfinished(t.jobs[j].status) && Unfinished(t.jobs[k].status);
  }

  // Over every run in which units come from the dispatcher an unfinished reset is alone as
  // long as no step joins it with other work or revives a row beside one, and no longer.
  lemma {:induction false} ResetAloneExactly(states: seq<State>, steps: seq<Step>, n: nat)
    requires DispatchedRun(states, steps) && n <= |steps| && ResetAlone(states[0])
    ensures (forall m :: 0 <= m <= n ==> ResetAlone(states[m])) <==>
              forall m {:trigger steps[m]} :: 0 <= m < n ==>
                !JoinsOthers(states[m], steps[m]) && !RevivesBeside(states[m], steps[m])
  {
    hide ResetAlone, JoinsOthers, RevivesBeside, Apply, Enabled;
    if n > 0 {
      ResetAloneExactly(states, steps, n - 1);
      BaseHolds(states, steps, n - 1);
      var s, a := states[n - 1], steps[n - 1];
      assert Enabled(s, a) && states[n - 1 + 1] == Apply(s, a);
      if ResetAlone(s) { ResetAloneLostExactly(s, a); }
      if forall m :: 0 <= m <= n ==> ResetAlone(states[m]) {
        assert ResetAlone(states[n - 1]) && ResetAlone(states[n]);
      }
    }
  }

  // With exclusive resets and sound recovery that is always.
  lemma ResetAloneHolds(states: seq<State>, steps: seq<Step>, n: nat)
    requires SoundRun(states, steps) && n <= |steps| && ResetAlone(states[0])
    requires forall i {:trigger steps[i]} :: 0 <= i < |steps| ==> ResetsExclusive(steps[i])
    ensures ResetAlone(states[n])
  {
    hide ResetAlone, RevivesBeside, JoinsOthers, Revives;
    forall m | 0 <= m < n ensures !JoinsOthers(states[m], steps[m]) && !RevivesBeside(states[m], steps[m]) {
      ExclusiveJoinsNone(states[m], steps[m]);
      if RevivesBeside(states[m], steps[m]) {
        BesideRevives(states[m], steps[m]);
        NothingRevived(states, steps, m, states[m].workers[steps[m].pid].job);
      }
    }
    ResetAloneExactly(states, steps, n);
  }

  lemma ExclusiveJoinsNone(s: State, a: Step)
    requires ResetsExclusive(a)
    ensures !JoinsOthers(s, a)
  {
  }

  lemma BesideRevives(s: State, a: Step)
    requires RevivesBeside(s, a)
    ensures a.pid in s.workers && Revives(s, a, s.workers[a.pid].job)
  {
  }

  // Until then the committed reset removes finished rows only and leaves exactly its own.
  lemma ResetDeletesOnlyFinished(states: seq<State>, steps: seq<Step>, n: nat)
    requires DispatchedRun(states, steps) && ResetAlone(states[0]) && n < |steps| && steps[n].WorkerResets?
    requires forall m {:trigger steps[m]} :: 0 <= m < n ==>
               !JoinsOthers(states[m], steps[m]) && !RevivesBeside(states[m], steps[m])
    ensures Enabled(states[n], steps[n])
    ensures var j := states[n].workers[steps[n].pid].job;
            && j in states[n].jobs && states[n + 1].jobs == map[j := states[n].jobs[j]]
            && forall k :: k in states[n].jobs && k != j ==> !Unfinished(states[n].jobs[k].status)
  {
    hide RevivesBeside, JoinsOthers;
    ResetAloneExactly(states, steps, n);
    assert Enabled(states[n], steps[n]) && states[n + 1] == Apply(states[n], steps[n]);
  }

  // The reset keeps its own row alone, so what it destroys of the waiting work is every other
  // unfinished job: none exactly while the reset is alone.
  lemma ResetDestroysExactly(s: State, a: Step)
    requires Enabled(s, a) && a.WorkerResets?
    ensures UnfinishedJobs(s.jobs) - UnfinishedJobs(Apply(s, a).jobs)
         == UnfinishedJobs(s.jobs) - {s.workers[a.pid].job}
    ensures UnfinishedJobs(s.jobs) - UnfinishedJobs(Apply(s, a).jobs) == {} <==> ResetAlone(s)
  {
    var j, t := s.workers[a.pid].job, Apply(s, a);
    assert UnfinishedJobs(t.jobs) == {j};
    assert j in UnfinishedJobs(s.jobs);
    if UnfinishedJobs(s.jobs) - {j} == {} {
      forall k | k in s.jobs && Unfinished(s.jobs[k].status) ensures k == j {
        assert k in UnfinishedJobs(s.jobs);
        assert k !in UnfinishedJobs(s.jobs) - {j};
      }
    } else {
      var k :| k in UnfinishedJobs(s.jobs) - {j};
      assert k in s.jobs && Unfinished(s.jobs[k].status);
    }
  }
}
