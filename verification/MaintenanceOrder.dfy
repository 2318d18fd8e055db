/** First in, first out, end to end: bodies are entered in ascending id order. */
module MaintenanceOrder {
  import opened MaintenanceJobs
  import opened MaintenanceProtocol
  import opened MaintenanceOnce
  import opened MaintenanceExclusion

  // The unit of job j has been claimed for, asked for, or runs.
  ghost predicate Requested(s: State, j: JobId) {
    || j in s.pendingStarts
    || (exists d :: d in s.dispatchers && s.dispatchers[d] == Claimed(j))
    || UnitAlive(s, j)
  }

  // A claimed, not yet running job is older than everything still waiting.
  ghost predicate StartingFirst(s: State) {
    forall j :: j in s.jobs && s.jobs[j].status == Starting && Requested(s, j) ==> ClaimableAbove(s, j)
  }

  lemma StartingOrigin(s: State, a: Step, j: JobId)
    requires IdsBounded(s) && LoadedRows(s) && Enabled(s, a)
    requires j in Apply(s, a).jobs && Apply(s, a).jobs[j].status == Starting
    ensures (j in s.jobs && s.jobs[j].status == Starting) || Claims(s, a, j)
  {
    hide Apply;
    RowOf(s, a, j);
  }

  // Only a claim makes a new request.
  lemma RequestedOrigin(s: State, a: Step, j: JobId)
    requires Enabled(s, a) && UnitsFromDispatcher(s, a) && Requested(Apply(s, a), j)
    ensures Requested(s, j) || Claims(s, a, j)
  {
    hide Apply, Enabled, Requested;
    if a.DispatcherClaims? {
      RequestedClaim(s, a, j);
    } else if a.DispatcherStarts? || a.UnitStarts? {
      RequestedStart(s, a, j);
    } else {
      RequestedOther(s, a, j);
    }
  }

  lemma RequestedClaim(s: State, a: Step, j: JobId)
    requires Enabled(s, a) && a.DispatcherClaims? && Requested(Apply(s, a), j)
    ensures Requested(s, j) || Claims(s, a, j)
  {
  }

  lemma RequestedStart(s: State, a: Step, j: JobId)
    requires Enabled(s, a) && UnitsFromDispatcher(s, a) && (a.DispatcherStarts? || a.UnitStarts?)
    requires Requested(Apply(s, a), j)
    ensures Requested(s, j)
  {
  }

  lemma RequestedOther(s: State, a: Step, j: JobId)
    requires Enabled(s, a) && !a.DispatcherClaims? && !a.DispatcherStarts? && !a.UnitStarts?
    requires Requested(Apply(s, a), j)
    ensures Requested(s, j)
  {
    hide Apply, Enabled;
    ClaimsKept(s, a);
    ProcessesKept(s, a);
  }

  lemma StartingFirstStep(s: State, a: Step)
    requires Base(s) && StartingFirst(s) && Enabled(s, a) && UnitsFromDispatcher(s, a)
    ensures StartingFirst(Apply(s, a))
  {
    hide Apply, Enabled, Requested, ClaimableAbove, UnitsInv, ProcessInv, UnitsFromDispatcher;
    var t := Apply(s, a);
    forall j | j in t.jobs && t.jobs[j].status == Starting && Requested(t, j) ensures ClaimableAbove(t, j) {
      StartingOrigin(s, a, j);
      RequestedOrigin(s, a, j);
      if Claims(s, a, j) {
        ClaimLeavesAbove(s, a, j);
      } else {
        ClaimableAboveStep(s, a, j);
      }
    }
  }

  lemma {:induction false} StartingFirstHolds(states: seq<State>, steps: seq<Step>, n: nat)
    requires DispatchedRun(states, steps) && n <= |steps|
    ensures StartingFirst(states[n])
  {
    hide Apply, Enabled;
    if n > 0 {
      StartingFirstHolds(states, steps, n - 1);
      BaseHolds(states, steps, n - 1);
      assert states[n - 1 + 1] == Apply(states[n - 1], steps[n - 1]);
      StartingFirstStep(states[n - 1], steps[n - 1]);
    }
  }

  // Everything that may still be entered is younger than j.
  ghost predicate AllLater(s: State, j: JobId) {
    ClaimableAbove(s, j) && forall k :: k in s.jobs && s.jobs[k].status == Starting && Requested(s, k) ==> j < k
  }

  lemma AllLaterStep(s: State, a: Step, j: JobId)
    requires Base(s) && AllLater(s, j) && Enabled(s, a) && UnitsFromDispatcher(s, a)
    ensures AllLater(Apply(s, a), j)
  {
    hide Apply, Enabled, Requested, UnitsInv, ProcessInv, UnitsFromDispatcher;
    var t := Apply(s, a);
    ClaimableAboveStep(s, a, j);
    forall k | k in t.jobs && t.jobs[k].status == Starting && Requested(t, k) ensures j < k {
      StartingOrigin(s, a, k);
      RequestedOrigin(s, a, k);
      if Claims(s, a, k) {
        assert k in Claimable(s.jobs);
      }
    }
  }

  lemma {:induction false} AllLaterHolds(states: seq<State>, steps: seq<Step>, i: nat, n: nat, j: JobId)
    requires DispatchedRun(states, steps) && i <= n <= |steps|
    requires AllLater(states[i], j)
    ensures AllLater(states[n], j)
    decreases n
  {
    hide Apply, Enabled;
    if i < n {
      AllLaterHolds(states, steps, i, n - 1, j);
      BaseHolds(states, steps, n - 1);
      assert states[n - 1 + 1] == Apply(states[n - 1], steps[n - 1]);
      AllLaterStep(states[n - 1], steps[n - 1], j);
    }
  }

  lemma EntryFromStarting(s: State, a: Step, j: JobId)
    requires LoadedRows(s) && Enters(s, a, j)
    ensures j in s.jobs && s.jobs[j].status == Starting && Requested(s, j)
  {
    assert LoadedRow(s, s.workers[a.pid]);
  }

  lemma EntryLeavesLater(s: State, a: Step, j: JobId)
    requires Base(s) && OneActive(s) && StartingFirst(s) && Enters(s, a, j)
    ensures AllLater(Apply(s, a), j)
  {
    hide Apply, UnitsInv, ProcessInv;
    EntryFromStarting(s, a, j);
    ClaimableAboveStep(s, a, j);
    WorkerRow(s, a, j);
    forall k | k in Apply(s, a).jobs ensures Apply(s, a).jobs[k].status != Starting {
      if Apply(s, a).jobs[k].status == Starting {
        StartingOrigin(s, a, k);
        assert false;
      }
    }
  }

  // Jobs enter execute_action in strictly ascending id order, whatever unit checks answer.
  lemma EntriesInOrder(states: seq<State>, steps: seq<Step>, i: nat, k: nat, j: JobId, j': JobId)
    requires DispatchedRun(states, steps) && i < k < |steps|
    requires Enters(states[i], steps[i], j) && Enters(states[k], steps[k], j')
    ensures j < j'
  {
    BaseHolds(states, steps, i);
    IndexHolds(states, steps, i);
    StartingFirstHolds(states, steps, i);
    EntryLeavesLater(states[i], steps[i], j);
    assert states[i + 1] == Apply(states[i], steps[i]);
    AllLaterHolds(states, steps, i + 1, k, j);
    BaseHolds(states, steps, k);
    EntryFromStarting(states[k], steps[k], j');
  }
}
