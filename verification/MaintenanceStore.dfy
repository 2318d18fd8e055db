/** The programs themselves, each call seen from its own connection: the table is
    a field that the transactions replace.
  */
module MaintenanceStore {
  import opened Options
  import opened MaintenanceJobs

  // What one undisturbed recovery pass does to a row: retired actions are
  // cancelled first, then a stale row without an active unit is failed.
  function Verdict(id: JobId, j: Job, now: int, alive: set<JobId>): Job {
    if id !in alive && Stale(j, now) then Failed(j, now) else j
  }

  function RecoveredRow(id: JobId, j: Job, now: int, alive: set<JobId>): Job {
    Verdict(id, CancelledLegacy(j, now), now, alive)
  }

  function Recovered(t: Table, now: int, alive: set<JobId>): Table {
    map id | id in t :: RecoveredRow(id, t[id], now, alive)
  }

  datatype WriteResult = NoMatch | Written | UniqueViolation

  class Store {
    var jobs: Table
    var nextId: JobId

    ghost predicate Valid()
      reads this
    {
      forall j :: j in jobs ==> j < nextId
    }

    constructor ()
      ensures Valid() && jobs == map[] && nextId == 1
    {
      jobs, nextId := map[], 1;
    }

    method EnqueueJob(action: Action, exclusive: bool, now: int) returns (r: EnqueueResult)
      requires Valid()
      modifies this
      ensures Valid()
      ensures r.UnsupportedAction? <==> !Allowed(action)
      ensures r.ResetInProgress? ==>
                !exclusive && r.blocker in UnfinishedResets(old(jobs))
                && forall k :: k in UnfinishedResets(old(jobs)) ==> r.blocker <= k
      ensures r.QueueNotEmpty? ==>
                exclusive && r.busy in UnfinishedJobs(old(jobs))
                && forall k :: k in UnfinishedJobs(old(jobs)) ==> r.busy <= k
      ensures r.Accepted? ==>
                && UnfinishedResets(old(jobs)) == {}
                && (exclusive ==> UnfinishedJobs(old(jobs)) == {})
                && r.id == old(nextId) && nextId == r.id + 1
                && jobs == old(jobs)[r.id := NewJob(action, now)]
      ensures !r.Accepted? ==> jobs == old(jobs) && nextId == old(nextId)
      ensures r == EnqueueVerdict(old(jobs), action, exclusive, old(nextId))
      ensures jobs == Enqueue(old(jobs), action, exclusive, old(nextId), now)
    {
      if !Allowed(action) {
        return UnsupportedAction;
      }
      var nuclear := UnfinishedResets(jobs);
      if nuclear != {} && !exclusive {
        return ResetInProgress(Least(nuclear));
      }
      if exclusive {
        var active := UnfinishedJobs(jobs);
        assert nuclear <= active;
        if active != {} {
          return QueueNotEmpty(Least(active));
        }
      }
      var id := nextId;
      jobs := jobs[id := NewJob(action, now)];
      nextId := nextId + 1;
      r := Accepted(id);
    }

    method CancelQueuedJob(id: JobId, now: int) returns (changed: bool)
      modifies this`jobs
      ensures changed <==> id in old(jobs) && old(jobs)[id].status == Queued
      ensures jobs == CancelQueued(old(jobs), id, now)
    {
      changed := id in jobs && jobs[id].status == Queued;
      if changed {
        jobs := jobs[id := jobs[id].(status := Cancelled, finishedAt := Some(now), progress := 100)];
      }
    }

    // `alive` holds the jobs whose unit systemd reports active.
    method RecoverStaleRows(now: int, alive: set<JobId>)
      modifies this`jobs
      ensures jobs == Recovered(old(jobs), now, alive)
    {
      jobs := CancelLegacy(jobs, now);
      ghost var t := jobs;
      var rows := Ascending(ActiveIds(jobs));
      forall k | 0 <= k < |rows| ensures rows[k] in jobs {
        assert rows[k] in rows;
      }
      FailStale(rows, now, alive);
      forall id | id in t ensures jobs[id] == Verdict(id, t[id], now, alive) {
        assert id in rows <==> id in ActiveIds(t);
      }
    }

    // The loop over the snapshot: one compare-and-swap per dead row.
    method FailStale(rows: seq<JobId>, now: int, alive: set<JobId>)
      requires forall i, j :: 0 <= i < j < |rows| ==> rows[i] < rows[j]
      requires forall k :: 0 <= k < |rows| ==> rows[k] in jobs
      modifies this`jobs
      ensures jobs.Keys == old(jobs).Keys
      ensures forall id :: id in jobs ==>
                jobs[id] == if id in rows then Verdict(id, old(jobs)[id], now, alive) else old(jobs)[id]
    {
      ghost var done: set<JobId> := {};
      var i := 0;
      while i < |rows|
        invariant 0 <= i <= |rows|
        invariant forall k :: 0 <= k < |rows| ==> (rows[k] in done <==> k < i)
        invariant forall id :: id in done ==> id in rows
        invariant jobs.Keys == old(jobs).Keys
        invariant forall id :: id in jobs ==>
                    jobs[id] == if id in done then Verdict(id, old(jobs)[id], now, alive) else old(jobs)[id]
      {
        var id := rows[i];
        var row := jobs[id];
        if id !in alive && Stale(row, now) {
          jobs := FailIf(jobs, id, row.status, now);
        }
        done := done + {id};
        i := i + 1;
      }
    }

    method ClaimNext(now: int) returns (claimed: Option<JobId>)
      modifies this`jobs
      ensures claimed.Some? <==> ActiveIds(old(jobs)) == {} && Claimable(old(jobs)) != {}
      ensures claimed.Some? ==>
                && claimed.value in Claimable(old(jobs))
                && (forall k :: k in Claimable(old(jobs)) ==> claimed.value <= k)
                && jobs == old(jobs)[claimed.value := StartingJob(old(jobs)[claimed.value], now)]
      ensures claimed.None? ==> jobs == old(jobs)
      ensures jobs == Claim(old(jobs), now) && claimed == NextClaim(old(jobs))
    {
      if ActiveIds(jobs) != {} {
        return None;
      }
      var queued := Claimable(jobs);
      if queued == {} {
        return None;
      }
      var id := Least(queued);
      jobs := jobs[id := StartingJob(jobs[id], now)];
      claimed := Some(id);
    }

    method MarkStartError(id: JobId, now: int)
      modifies this`jobs
      ensures jobs == FailIf(old(jobs), id, Starting, now)
    {
      if id in jobs && jobs[id].status == Starting {
        jobs := jobs[id := Failed(jobs[id], now)];
      }
    }

    // One dispatcher run.  `starts` is systemd's answer to the start request.
    method DispatcherMain(now: int, claimTime: int, alive: set<JobId>, starts: bool, errorTime: int)
      returns (claimed: Option<JobId>, exitCode: int)
      modifies this`jobs
      ensures claimed == NextClaim(Recovered(old(jobs), now, alive))
      ensures exitCode == 0 <==> claimed.None? || starts
      ensures exitCode == 0 ==> jobs == Claim(Recovered(old(jobs), now, alive), claimTime)
      ensures exitCode != 0 ==>
                && exitCode == 1
                && claimed.value in Recovered(old(jobs), now, alive)
                && jobs == Recovered(old(jobs), now, alive)[claimed.value :=
                     Failed(StartingJob(Recovered(old(jobs), now, alive)[claimed.value], claimTime), errorTime)]
    {
      RecoverStaleRows(now, alive);
      claimed := ClaimNext(claimTime);
      if claimed.None? {
        return claimed, 0;
      }
      if !starts {
        MarkStartError(claimed.value, errorTime);
        return claimed, 1;
      }
      exitCode := 0;
    }

    // A write that would make a second row active raises, and changes nothing.
    method UpdateRow(id: JobId, status: Status, started: bool, finished: bool, heartbeat: bool,
                     progress: Option<int>, expected: Option<Status>, now: int)
      returns (written: WriteResult)
      requires OneWorker(jobs)
      modifies this`jobs
      ensures OneWorker(jobs)
      ensures written.NoMatch? <==> !Matches(old(jobs), id, expected)
      ensures written.UniqueViolation? <==>
                Matches(old(jobs), id, expected) && Active(status)
                && exists k :: k in old(jobs) && k != id && Active(old(jobs)[k].status)
      ensures !written.Written? ==> jobs == old(jobs)
      ensures written.Written? ==>
                && id in jobs && jobs == old(jobs)[id := jobs[id]] && jobs[id].status == status
                && (heartbeat || Active(status) ==> jobs[id].heartbeatAt == Some(now))
                && (progress.Some? ==> 0 <= jobs[id].progress <= 100)
      ensures jobs == UpdateJob(old(jobs), id, status, started, finished, heartbeat, progress, expected, now)
    {
      hide OneWorker;
      UpdateKeepsIndex(jobs, id, status, started, finished, heartbeat, progress, expected, now);
      if !Matches(jobs, id, expected) {
        return NoMatch;
      }
      var row := jobs[id].(status := status);
      if started {
        row := row.(startedAt := Some(Coalesce(row.startedAt, now)));
      }
      if finished {
        row := row.(finishedAt := Some(now));
      }
      if heartbeat || status == Starting || status == Running {
        row := row.(heartbeatAt := Some(now));
      }
      if progress.Some? {
        row := row.(progress := Clamp(progress.value));
      }
      if Active(status) && exists k :: k in jobs && k != id && Active(jobs[k].status) {
        return UniqueViolation;
      }
      jobs := jobs[id := row];
      written := Written;
    }

    // The reset transaction, on this table; false when it aborts.
    method ResetAppData(id: JobId) returns (committed: bool)
      modifies this`jobs
      ensures committed <==> id in old(jobs) && old(jobs)[id].action == MaintenanceJobs.ResetAppData
                             && Active(old(jobs)[id].status)
      ensures committed ==> jobs == map[id := old(jobs)[id]]
      ensures !committed ==> jobs == old(jobs)
      ensures committed ==> jobs == ResetTable(old(jobs), id)
    {
      committed := ResetAllowed(jobs, id);
      if committed {
        jobs := ResetTable(jobs, id);
      }
    }
  }
}
