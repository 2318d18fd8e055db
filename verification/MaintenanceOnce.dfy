/** What the lock and the compare-and-swap alone guarantee.

    Nothing here restricts the environment: any unit may be started any number
    of times by anyone, any number of dispatchers may run, and the unit check may
    answer anything.
  */
module MaintenanceOnce {
  import opened Options
  import opened MaintenanceJobs
  import opened MaintenanceProtocol

  // ---------------------------------------------------------------- the lock

  predicate LockedPhase(p: WorkerPhase) {
    p.Locked? || p.Loaded? || p.Executing? || p.Reported?
  }

  ghost predicate HolderOwns(s: State) {
    forall pid :: pid in s.workers && s.workers[pid].holdsLock ==> s.owner == Worker(pid)
  }

  ghost predicate LockedPhasesHold(s: State) {
    forall pid :: pid in s.workers && LockedPhase(s.workers[pid].phase) ==> s.workers[pid].holdsLock
  }

  ghost predicate RetentionOwns(s: State) {
    forall pid :: pid in s.retentions && s.retentions[pid] != RetentionBooting ==>
      s.owner == RetentionRun(pid)
  }

  ghost predicate LockInv(s: State) {
    HolderOwns(s) && LockedPhasesHold(s) && RetentionOwns(s)
  }

  lemma LockedPhasesStep(s: State, a: Step)
    requires LockedPhasesHold(s) && Enabled(s, a)
    ensures LockedPhasesHold(Apply(s, a))
  {
    var t := Apply(s, a);
    forall pid | pid in t.workers && LockedPhase(t.workers[pid].phase) ensures t.workers[pid].holdsLock {
      assert pid in s.workers;
    }
  }

  // The steps that take or release the lock, or begin or end a process that may.
  predicate LockStep(a: Step) {
    a.UnitStarts? || a.WorkerLocks? || a.WorkerExits? || a.WorkerDies? || a.RetentionBegins? || a.RetentionLocks?
    || a.RetentionChecks? || a.RetentionExits?
  }

  // Every other step leaves the lock and those who hold it as they are.
  lemma LockUntouched(s: State, a: Step)
    requires Enabled(s, a) && !LockStep(a)
    ensures var t := Apply(s, a);
            && t.owner == s.owner && t.retentions == s.retentions && t.workers.Keys == s.workers.Keys
            && forall pid :: pid in s.workers ==> t.workers[pid].holdsLock == s.workers[pid].holdsLock
  {
    hide Apply, Enabled;
    if WorkerStep(a) {
      WorkerKeepsLock(s, a);
    } else {
      OthersKeepLock(s, a);
    }
  }

  // The steps of a worker between taking the lock and releasing it.
  predicate WorkerStep(a: Step) {
    WorkerWrites(a) || a.WorkerReads? || a.WorkerRaises?
  }

  lemma WorkerKeepsLock(s: State, a: Step)
    requires Enabled(s, a) && WorkerStep(a)
    ensures var t := Apply(s, a);
            && t.owner == s.owner && t.retentions == s.retentions && t.workers.Keys == s.workers.Keys
            && a.pid in s.workers && t.workers[a.pid].holdsLock == s.workers[a.pid].holdsLock
            && forall pid :: pid in s.workers && pid != a.pid ==> t.workers[pid] == s.workers[pid]
  {
    hide Apply, Enabled;
    if WorkerWrites(a) {
      EnabledWorker(s, a);
      WorkerRow(s, a, 0);
    } else {
      ReadKeepsLock(s, a);
    }
  }

  lemma ReadKeepsLock(s: State, a: Step)
    requires Enabled(s, a) && (a.WorkerReads? || a.WorkerRaises?)
    ensures var t := Apply(s, a);
            && t.owner == s.owner && t.retentions == s.retentions && t.workers.Keys == s.workers.Keys
            && a.pid in s.workers && t.workers[a.pid].holdsLock == s.workers[a.pid].holdsLock
            && forall pid :: pid in s.workers && pid != a.pid ==> t.workers[pid] == s.workers[pid]
  {
  }

  lemma OthersKeepLock(s: State, a: Step)
    requires Enabled(s, a) && !LockStep(a) && !WorkerStep(a)
    ensures var t := Apply(s, a); t.owner == s.owner && t.retentions == s.retentions && t.workers == s.workers
  {
    hide Claim, NextClaim, CancelLegacy, Enqueue, FailIf, ActiveSnapshot;
  }

  lemma HolderOwnsStep(s: State, a: Step)
    requires LockInv(s) && Enabled(s, a)
    ensures HolderOwns(Apply(s, a))
  {
    hide Apply, Enabled;
    if LockStep(a) {
      HolderOwnsLock(s, a);
    } else {
      LockUntouched(s, a);
    }
  }

  lemma HolderOwnsLock(s: State, a: Step)
    requires LockInv(s) && Enabled(s, a) && LockStep(a)
    ensures HolderOwns(Apply(s, a))
  {
    hide UpdateJob, Claim, NextClaim, CancelLegacy, Enqueue, FailIf, ActiveSnapshot, Refused, Matches;
    var t := Apply(s, a);
    forall pid | pid in t.workers && t.workers[pid].holdsLock ensures t.owner == Worker(pid) {
      assert pid in s.workers || a.UnitStarts?;
    }
  }

  lemma RetentionOwnsStep(s: State, a: Step)
    requires LockInv(s) && Enabled(s, a)
    ensures RetentionOwns(Apply(s, a))
  {
    hide Apply, Enabled;
    if LockStep(a) {
      RetentionOwnsLock(s, a);
    } else {
      LockUntouched(s, a);
    }
  }

  lemma RetentionOwnsLock(s: State, a: Step)
    requires LockInv(s) && Enabled(s, a) && LockStep(a)
    ensures RetentionOwns(Apply(s, a))
  {
    hide UpdateJob, Claim, NextClaim, CancelLegacy, Enqueue, FailIf, ActiveSnapshot, Refused, Matches;
    var t := Apply(s, a);
    forall pid | pid in t.retentions && t.retentions[pid] != RetentionBooting
      ensures t.owner == RetentionRun(pid)
    {
      assert pid in s.retentions;
    }
  }

  lemma LockInvStep(s: State, a: Step)
    requires LockInv(s) && Enabled(s, a)
    ensures LockInv(Apply(s, a))
  {
    LockedPhasesStep(s, a);
    HolderOwnsStep(s, a);
    RetentionOwnsStep(s, a);
  }

  lemma {:induction false} LockInvHolds(states: seq<State>, steps: seq<Step>, n: nat)
    requires Run(states, steps) && n <= |steps|
    ensures LockInv(states[n])
  {
    if n > 0 {
      LockInvHolds(states, steps, n - 1);
      assert states[n - 1 + 1] == Apply(states[n - 1], steps[n - 1]);
      LockInvStep(states[n - 1], steps[n - 1]);
    }
  }

  // A process inside execute_action or run_retention.
  datatype Body = ActionBody(pid: Pid) | RetentionBody(pid: Pid)

  predicate InBody(s: State, b: Body) {
    match b
    case ActionBody(pid) => pid in s.workers && s.workers[pid].phase == Executing
    case RetentionBody(pid) => pid in s.retentions && s.retentions[pid] == RetentionPurging
  }

  // Two bodies never overlap.
  lemma BodiesNeverOverlap(states: seq<State>, steps: seq<Step>, n: nat, b: Body, c: Body)
    requires Run(states, steps) && n < |states|
    requires InBody(states[n], b) && InBody(states[n], c)
    ensures b == c
  {
    LockInvHolds(states, steps, n);
  }

  // ---------------------------------------------------------------- what a step does to a row

  ghost predicate IdsBounded(s: State) {
    forall j :: j in s.jobs ==> j < s.nextId
  }

  // Which table transactions are worker writes, and which are not.
  predicate WorkerWrites(a: Step) {
    a.WorkerClaims? || a.WorkerProgress? || a.WorkerHeartbeat? || a.WorkerResets? || a.WorkerReportsOk?
    || a.WorkerReportsError?
  }

  predicate QueueWrites(a: Step) {
    a.EnqueueStep? || a.CancelStep? || a.DispatcherBegins? || a.DispatcherCondemns? || a.DispatcherClaims?
    || a.DispatcherMarksError?
  }

  // Every other step changes no row; retention deletes some.
  lemma SilentSteps(s: State, a: Step)
    requires Enabled(s, a) && !WorkerWrites(a) && !QueueWrites(a)
    ensures Apply(s, a).nextId == s.nextId
    ensures forall j :: j in Apply(s, a).jobs ==> j in s.jobs && Apply(s, a).jobs[j] == s.jobs[j]
  {
  }

  // What a transaction of the queue or the dispatcher can do to row j.
  ghost predicate QueueEffect(s: State, a: Step, t: State, j: JobId)
    requires Enabled(s, a)
  {
    && t.workers == s.workers && t.started == s.started && t.pendingStarts == s.pendingStarts
    && s.nextId <= t.nextId
    && (j in t.jobs <==> j in s.jobs || (a.EnqueueStep? && j == a.id))
    && (j in t.jobs && j !in s.jobs ==> t.jobs[j].status == Queued && s.nextId <= j < t.nextId)
    && (j in s.jobs ==>
          && t.jobs[j].action == s.jobs[j].action
          && (|| t.jobs[j] == s.jobs[j]
              || (s.jobs[j].status == Queued && t.jobs[j].status == Cancelled)
              || (Legacy(s.jobs[j].action) && t.jobs[j].status == Cancelled)
              || (a.DispatcherCondemns? && j == s.dispatchers[a.d].row.id
                  && s.jobs[j].status == s.dispatchers[a.d].row.job.status && t.jobs[j].status == Error)
              || (s.jobs[j].status == Starting && t.jobs[j].status == Error)
              || (a.DispatcherClaims? && NextClaim(s.jobs) == Some(j)
                  && s.jobs[j].status == Queued && t.jobs[j].status == Starting)))
  }

  lemma QueueRow(s: State, a: Step, j: JobId)
    requires IdsBounded(s) && Enabled(s, a) && QueueWrites(a)
    ensures QueueEffect(s, a, Apply(s, a), j)
  {
    if a.DispatcherClaims? && NextClaim(s.jobs).Some? {
      assert NextClaim(s.jobs).value in Claimable(s.jobs);
    }
  }

  // What a worker's transaction can do to row j.
  ghost predicate WorkerEffect(s: State, a: Step, t: State, j: JobId)
    requires WorkerWrites(a) && a.pid in s.workers
  {
    && t.nextId == s.nextId && t.started == s.started && t.pendingStarts == s.pendingStarts
    && t.dispatchers == s.dispatchers && t.owner == s.owner && t.retentions == s.retentions
    && t.workers.Keys == s.workers.Keys
    && (forall p :: p in s.workers && p != a.pid ==> t.workers[p] == s.workers[p])
    && t.workers[a.pid].job == s.workers[a.pid].job && t.workers[a.pid].action == s.workers[a.pid].action
    && t.workers[a.pid].holdsLock == s.workers[a.pid].holdsLock
    && (t.workers[a.pid].phase.Loaded? ==> t.workers[a.pid] == s.workers[a.pid])
    && (t.workers[a.pid].phase.Executing? ==>
          s.workers[a.pid].phase.Executing? || (a.WorkerClaims? && s.workers[a.pid].phase.Loaded?))
    && (j in t.jobs ==>
          j in s.jobs && t.jobs[j].action == s.jobs[j].action && t.jobs[j].cancelRequested == s.jobs[j].cancelRequested)
    && (j in t.jobs && j != s.workers[a.pid].job ==> t.jobs[j] == s.jobs[j])
    && (j in t.jobs && j == s.workers[a.pid].job ==>
          || t.jobs[j].status == s.jobs[j].status
          || (a.WorkerClaims? && s.workers[a.pid].phase == Loaded(s.jobs[j].status) && t.jobs[j].status == Running)
          || (a.WorkerProgress? && AtWorker(s, a.pid, Executing) && WritesProgress(s.workers[a.pid].action)
              && t.jobs[j].status == Running)
          || (!t.workers[a.pid].phase.Executing? && !t.workers[a.pid].phase.Loaded?
              && !Unfinished(t.jobs[j].status)))
    && (j in t.jobs && j == s.workers[a.pid].job && a.WorkerClaims? && t.workers[a.pid].phase.Executing? ==>
          t.jobs[j].status == Running)
  }

  lemma WorkerRow(s: State, a: Step, j: JobId)
    requires Enabled(s, a) && WorkerWrites(a)
    ensures WorkerEffect(s, a, Apply(s, a), j)
  {
    if a.WorkerClaims? {
      WorkerRowClaims(s, a, j);
    } else if a.WorkerProgress? {
      WorkerRowProgress(s, a, j);
    }
  }

  lemma WorkerRowClaims(s: State, a: Step, j: JobId)
    requires Enabled(s, a) && a.WorkerClaims?
    ensures WorkerEffect(s, a, Apply(s, a), j)
  {
  }

  lemma WorkerRowProgress(s: State, a: Step, j: JobId)
    requires Enabled(s, a) && a.WorkerProgress?
    ensures WorkerEffect(s, a, Apply(s, a), j)
  {
  }

  lemma EnabledWorker(s: State, a: Step)
    requires Enabled(s, a) && WorkerWrites(a)
    ensures a.pid in s.workers
  {
  }

  // ---------------------------------------------------------------- at most once

  lemma IdsBoundedStep(s: State, a: Step)
    requires IdsBounded(s) && Enabled(s, a)
    ensures IdsBounded(Apply(s, a)) && Apply(s, a).nextId >= s.nextId
  {
    hide Apply, Enabled;
    var t := Apply(s, a);
    RowOf(s, a, 0);
    forall j | j in t.jobs ensures j < t.nextId {
      RowOf(s, a, j);
    }
  }

  // How row j may change: unless it is new, it is as it was, or its status moved on.
  ghost predicate RowEffect(s: State, a: Step, t: State, j: JobId) {
    && s.nextId <= t.nextId
    && (j in t.jobs && j !in s.jobs ==> s.nextId <= j < t.nextId && t.jobs[j].status == Queued)
    && (j in t.jobs && j in s.jobs ==>
          || (t.jobs[j].status == s.jobs[j].status && t.jobs[j].cancelRequested == s.jobs[j].cancelRequested)
          || t.jobs[j].status !in {Queued, Starting}
          || (a.DispatcherClaims? && NextClaim(s.jobs) == Some(j)
              && s.jobs[j].status == Queued && t.jobs[j].status == Starting))
  }

  lemma RowOf(s: State, a: Step, j: JobId)
    requires IdsBounded(s) && Enabled(s, a)
    ensures RowEffect(s, a, Apply(s, a), j)
  {
    hide Apply, Enabled;
    if QueueWrites(a) {
      QueueRow(s, a, j);
    } else if WorkerWrites(a) {
      EnabledWorker(s, a);
      WorkerRow(s, a, j);
    } else {
      SilentSteps(s, a);
    }
  }

  lemma {:induction false} IdsBoundedHolds(states: seq<State>, steps: seq<Step>, n: nat)
    requires Run(states, steps) && n <= |steps|
    ensures IdsBounded(states[n])
  {
    if n > 0 {
      IdsBoundedHolds(states, steps, n - 1);
      assert states[n - 1 + 1] == Apply(states[n - 1], steps[n - 1]);
      IdsBoundedStep(states[n - 1], steps[n - 1]);
    }
  }

  // The id has been issued and its row, if any, can no longer be claimed.
  ghost predicate Past(s: State, j: JobId) {
    j < s.nextId && (j in s.jobs ==> s.jobs[j].status !in {Queued, Starting})
  }

  // No transition returns a row to 'queued' or 'starting', and no id is reused.
  lemma PastStep(s: State, a: Step, j: JobId)
    requires IdsBounded(s) && Past(s, j) && Enabled(s, a)
    ensures Past(Apply(s, a), j)
  {
    hide Apply, Enabled;
    RowOf(s, a, j);
  }

  lemma {:induction false} PastHolds(states: seq<State>, steps: seq<Step>, i: nat, n: nat, j: JobId)
    requires Run(states, steps) && i <= n <= |steps|
    requires Past(states[i], j)
    ensures Past(states[n], j)
    decreases n
  {
    if i < n {
      PastHolds(states, steps, i, n - 1, j);
      IdsBoundedHolds(states, steps, n - 1);
      assert states[n - 1 + 1] == Apply(states[n - 1], steps[n - 1]);
      PastStep(states[n - 1], steps[n - 1], j);
    }
  }

  // The step takes job j into execute_action.
  ghost predicate Enters(s: State, a: Step, j: JobId) {
    && a.WorkerClaims? && Enabled(s, a) && s.workers[a.pid].job == j
    && Apply(s, a).workers[a.pid].phase == Executing
  }

  ghost predicate LoadedInv(s: State) {
    forall pid :: pid in s.workers && s.workers[pid].phase.Loaded? ==>
      s.workers[pid].phase.seen in {Starting, Queued}
  }

  lemma {:induction false} LoadedInvHolds(states: seq<State>, steps: seq<Step>, n: nat)
    requires Run(states, steps) && n <= |steps|
    ensures LoadedInv(states[n])
  {
    if n > 0 {
      LoadedInvHolds(states, steps, n - 1);
      assert states[n - 1 + 1] == Apply(states[n - 1], steps[n - 1]);
      assert Enabled(states[n - 1], steps[n - 1]);
    }
  }

  // Each job enters execute_action at most once over a whole run.
  lemma EntersOnce(states: seq<State>, steps: seq<Step>, i: nat, k: nat, j: JobId)
    requires Run(states, steps) && i < |steps| && k < |steps|
    requires Enters(states[i], steps[i], j) && Enters(states[k], steps[k], j)
    ensures i == k
  {
    if i < k {
      SecondEntryImpossible(states, steps, i, k, j);
    } else if k < i {
      SecondEntryImpossible(states, steps, k, i, j);
    }
  }

  lemma SecondEntryImpossible(states: seq<State>, steps: seq<Step>, i: nat, k: nat, j: JobId)
    requires Run(states, steps) && i < k < |steps|
    requires Enters(states[i], steps[i], j)
    ensures !Enters(states[k], steps[k], j)
  {
    IdsBoundedHolds(states, steps, i);
    assert states[i + 1] == Apply(states[i], steps[i]);
    assert Past(states[i + 1], j);
    PastHolds(states, steps, i + 1, k, j);
    LoadedInvHolds(states, steps, k);
  }

  // ---------------------------------------------------------------- FIFO

  // The step claims job j for the dispatcher.
  ghost predicate Claims(s: State, a: Step, j: JobId) {
    a.DispatcherClaims? && Enabled(s, a) && NextClaim(s.jobs) == Some(j)
  }

  ghost predicate ClaimableAbove(s: State, j: JobId) {
    j < s.nextId && forall k :: k in Claimable(s.jobs) ==> j < k
  }

  lemma ClaimableAboveStep(s: State, a: Step, j: JobId)
    requires IdsBounded(s) && ClaimableAbove(s, j) && Enabled(s, a)
    ensures ClaimableAbove(Apply(s, a), j)
  {
    hide Apply, Enabled;
    var t := Apply(s, a);
    RowOf(s, a, 0);
    forall k | k in Claimable(t.jobs) ensures j < k {
      RowOf(s, a, k);
      assert k in s.jobs ==> k in Claimable(s.jobs);
    }
  }

  lemma {:induction false} ClaimableAboveHolds(states: seq<State>, steps: seq<Step>, i: nat, n: nat, j: JobId)
    requires Run(states, steps) && i <= n <= |steps|
    requires ClaimableAbove(states[i], j)
    ensures ClaimableAbove(states[n], j)
    decreases n
  {
    if i < n {
      ClaimableAboveHolds(states, steps, i, n - 1, j);
      IdsBoundedHolds(states, steps, n - 1);
      assert states[n - 1 + 1] == Apply(states[n - 1], steps[n - 1]);
      ClaimableAboveStep(states[n - 1], steps[n - 1], j);
    }
  }

  lemma ClaimLeavesAbove(s: State, a: Step, j: JobId)
    requires IdsBounded(s) && Claims(s, a, j)
    ensures ClaimableAbove(Apply(s, a), j)
  {
    var t := Apply(s, a);
    assert j in Claimable(s.jobs);
    forall k | k in Claimable(t.jobs) ensures j < k {
      assert k in Claimable(s.jobs);
    }
  }

  // Over any run the claimed job ids are strictly increasing.
  lemma ClaimsIncrease(states: seq<State>, steps: seq<Step>, i: nat, k: nat, j: JobId, j': JobId)
    requires Run(states, steps) && i < k < |steps|
    requires Claims(states[i], steps[i], j) && Claims(states[k], steps[k], j')
    ensures j < j'
  {
    IdsBoundedHolds(states, steps, i);
    assert states[i + 1] == Apply(states[i], steps[i]);
    ClaimLeavesAbove(states[i], steps[i], j);
    ClaimableAboveHolds(states, steps, i + 1, k, j);
    assert j' in Claimable(states[k].jobs);
  }
}
