/** The queue makes progress: a dispatcher run clears dead rows and claims the
    oldest job, rounds serve the queue in id order, and no status change of an
    unfinished row can go on forever.
  */
module MaintenanceProgress {
  import opened Options
  import opened MaintenanceJobs
  import opened MaintenanceStore
  import opened MaintenanceProtocol
  import opened MaintenanceOnce
  import opened MaintenanceExclusion
  import opened MaintenanceReset

  // ---------------------------------------------------------------- one run

  // Every time stamp of the row is real and at least 300 seconds old.
  predicate LongSilent(j: Job, now: int) {
    && 0 < j.createdAt <= now - RUNNING_HEARTBEAT_STALE_SECONDS
    && (j.startedAt.Some? ==> 0 < j.startedAt.value <= now - RUNNING_HEARTBEAT_STALE_SECONDS)
    && (j.heartbeatAt.Some? ==> 0 < j.heartbeatAt.value <= now - RUNNING_HEARTBEAT_STALE_SECONDS)
  }

  // Recovery ends every such row; a row that was not active is as it was, unless its action
  // is retired.
  lemma RecoveredDead(t: Table, now: int, alive: set<JobId>)
    requires forall j :: j in t && Active(t[j].status) ==> j !in alive && LongSilent(t[j], now)
    ensures var r := Recovered(t, now, alive);
            && r.Keys == t.Keys && ActiveIds(r) == {}
            && (forall k :: k in t && Active(t[k].status) ==> r[k].status in {Error, Cancelled})
            && (forall k :: k in t && !Active(t[k].status) && !Legacy(t[k].action) ==> r[k] == t[k])
            && (forall k :: k in Claimable(r) ==>
                  t[k].status == Queued && !t[k].cancelRequested && !Legacy(t[k].action))
  {
    var r := Recovered(t, now, alive);
    forall j | j in t ensures !Active(r[j].status) {}
  }

  // A claim makes the oldest waiting row the only active one.
  lemma ClaimOldest(r: Table, claimTime: int)
    requires ActiveIds(r) == {} && Claimable(r) != {}
    ensures NextClaim(r) == Some(Least(Claimable(r))) && Least(Claimable(r)) in r
    ensures var c := Least(Claimable(r)); var u := Claim(r, claimTime);
            && u.Keys == r.Keys && ActiveIds(u) == {c} && u[c].status == Starting
            && forall k :: k in r && k != c ==> u[k] == r[k]
  {
    var c := Least(Claimable(r));
    var u := Claim(r, claimTime);
    assert c in Claimable(r);
    assert forall k :: k in r && Active(r[k].status) ==> k in ActiveIds(r);
  }

  // From any table whose active rows are dead and 300 seconds old, one dispatcher
  // run ends every one of them and claims the oldest live queued job.
  lemma DispatcherRunProgress(t: Table, now: int, claimTime: int, alive: set<JobId>)
    requires forall j :: j in t && Active(t[j].status) ==> j !in alive && LongSilent(t[j], now)
    requires exists q :: q in t && t[q].status == Queued && !t[q].cancelRequested && !Legacy(t[q].action)
    ensures var r := Recovered(t, now, alive);
            && ActiveIds(r) == {} && NextClaim(r).Some?
            && (var c := NextClaim(r).value; var u := Claim(r, claimTime);
                && c in t && t[c].status == Queued && !t[c].cancelRequested && !Legacy(t[c].action)
                && (forall q :: q in t && t[q].status == Queued && !t[q].cancelRequested && !Legacy(t[q].action) ==>
                      c <= q)
                && u.Keys == t.Keys && ActiveIds(u) == {c} && u[c].status == Starting
                && (forall k :: k in t && Active(t[k].status) ==> u[k].status in {Error, Cancelled})
                && (forall k :: k in t && k != c && !Active(t[k].status) && !Legacy(t[k].action) ==> u[k] == t[k]))
  {
    hide Recovered, NextClaim, Claim, LongSilent, Legacy;
    var r := Recovered(t, now, alive);
    RecoveredDead(t, now, alive);
    var q :| q in t && t[q].status == Queued && !t[q].cancelRequested && !Legacy(t[q].action);
    assert r[q] == t[q] && q in Claimable(r);
    ClaimOldest(r, claimTime);
    var c := Least(Claimable(r));
    assert c in Claimable(r);
    forall k | k in t && t[k].status == Queued && !t[k].cancelRequested && !Legacy(t[k].action) ensures c <= k {
      assert r[k] == t[k] && k in Claimable(r);
    }
  }

  // ---------------------------------------------------------------- rounds

  // Claim, let the worker end with any report, claim again: the ids served.
  function Rounds(t: Table, reports: seq<Status>, now: int): seq<JobId>
    decreases reports
  {
    if reports == [] then []
    else match NextClaim(t)
         case None => []
         case Some(id) => [id] + Rounds(Report(Claim(t, now), id, reports[0], now), reports[1..], now)
  }

  lemma RoundEffect(t: Table, report: Status, now: int)
    requires ActiveIds(t) == {} && Claimable(t) != {} && report in {Ok, Error}
    ensures var id := Least(Claimable(t)); var u := Report(Claim(t, now), id, report, now);
            && NextClaim(t) == Some(id) && ActiveIds(u) == {} && Claimable(u) == Claimable(t) - {id}
            && u.Keys == t.Keys && u[id].status == report
  {
    var id := Least(Claimable(t));
    var u := Report(Claim(t, now), id, report, now);
    assert forall k :: k in t && k != id ==> u[k] == t[k];
    forall k | k in u ensures !Active(u[k].status) {
      if k != id { assert k !in ActiveIds(t); }
    }
    assert Claimable(u) == Claimable(t) - {id};
  }

  // Enough rounds serve exactly the waiting jobs, in ascending id order.
  lemma {:induction false} RoundsServeInOrder(t: Table, reports: seq<Status>, now: int)
    requires ActiveIds(t) == {}
    requires |reports| >= |Claimable(t)|
    requires forall r :: r in reports ==> r in {Ok, Error}
    ensures Rounds(t, reports, now) == Ascending(Claimable(t))
    decreases reports
  {
    if Claimable(t) == {} {
    } else {
      assert |Claimable(t)| >= 1 by { assert Least(Claimable(t)) in Claimable(t); }
      assert reports[0] in reports;
      RoundEffect(t, reports[0], now);
      var id := Least(Claimable(t));
      var u := Report(Claim(t, now), id, reports[0], now);
      assert |Claimable(u)| == |Claimable(t)| - 1;
      assert forall r :: r in reports[1..] ==> r in reports;
      RoundsServeInOrder(u, reports[1..], now);
    }
  }

  // ---------------------------------------------------------------- drain

  function Weight(s: Status): nat {
    match s
    case Queued => 3
    case Starting => 2
    case Running => 1
    case _ => 0
  }

  function Work(t: Table): nat
    decreases |t.Keys|
  {
    if t.Keys == {} then 0
    else
      var m := Least(t.Keys);
      var rest := map k | k in t && k != m :: t[k];
      assert rest.Keys == t.Keys - {m};
      Weight(t[m].status) + Work(rest)
  }

  // Work is monotone in every row, strictly where one row is strictly lighter.
  lemma {:induction false} WorkMonotone(t: Table, u: Table)
    requires u.Keys <= t.Keys
    requires forall k :: k in u ==> Weight(u[k].status) <= Weight(t[k].status)
    ensures Work(u) <= Work(t)
    ensures (exists k :: k in t && Weight(if k in u then u[k].status else Ok) < Weight(t[k].status)) ==> Work(u) < Work(t)
    decreases |t.Keys|
  {
    if t.Keys == {} {
    } else {
      var m := Least(t.Keys);
      var t1 := map k | k in t && k != m :: t[k];
      var u1 := map k | k in u && k != m :: u[k];
      assert t1.Keys == t.Keys - {m};
      WorkMonotone(t1, u1);
      WorkSplit(u, m);
      if k :| k in t && Weight(if k in u then u[k].status else Ok) < Weight(t[k].status) {
        if k != m { assert k in t1; }
      }
    }
  }

  // Any row can be taken out of the sum first.
  lemma {:induction false} WorkSplit(t: Table, m: JobId)
    ensures Work(t) == (if m in t then Weight(t[m].status) else 0) + Work(map k | k in t && k != m :: t[k])
    decreases |t.Keys|
  {
    hide Weight;
    var t1 := map k | k in t && k != m :: t[k];
    if m !in t {
      assert t1 == t;
    } else {
      var l := Least(t.Keys);
      if l != m {
        var t2 := map k | k in t && k != l :: t[k];
        assert t2.Keys == t.Keys - {l};
        WorkSplit(t2, m);
        var t3 := map k | k in t2 && k != m :: t2[k];
        var t4 := map k | k in t1 && k != l :: t1[k];
        assert t3 == t4;
        assert l in t1;
        assert Least(t1.Keys) == l;
      }
    }
  }

  // The row lost weight if it was unfinished and moved, and gained none.
  ghost predicate Lighter(t: Table, u: Table, j: JobId) {
    j in u ==>
      && j in t && Weight(u[j].status) <= Weight(t[j].status)
      && (Unfinished(t[j].status) && u[j].status != t[j].status ==> Weight(u[j].status) < Weight(t[j].status))
  }

  lemma RowLighter(s: State, a: Step, j: JobId)
    requires Base(s) && Enabled(s, a) && !a.EnqueueStep? && !Revives(s, a, j)
    ensures Lighter(s.jobs, Apply(s, a).jobs, j)
  {
    hide Apply, Enabled, Revives, UnitsInv, ProcessInv;
    if j in s.jobs && !Unfinished(s.jobs[j].status) && j in Apply(s, a).jobs {
      RevivedExactly(s, a, j);
    }
    if QueueWrites(a) {
      QueueRow(s, a, j);
    } else if WorkerWrites(a) {
      EnabledWorker(s, a);
      WorkerRow(s, a, j);
      assert LoadedRow(s, s.workers[a.pid]);
    } else {
      SilentSteps(s, a);
    }
  }

  // Between the two tables an unfinished row moved or was deleted.
  ghost predicate Advances(t: Table, u: Table) {
    exists j :: j in t && Unfinished(t[j].status) && (j !in u || u[j].status != t[j].status)
  }

  lemma WorkDrops(t: Table, u: Table)
    requires forall j :: Lighter(t, u, j)
    ensures Work(u) <= Work(t)
    ensures Advances(t, u) ==> Work(u) < Work(t)
  {
    hide Work;
    forall j | j in u ensures j in t && Weight(u[j].status) <= Weight(t[j].status) {
      assert Lighter(t, u, j);
    }
    WorkMonotone(t, u);
    if Advances(t, u) {
      var j :| j in t && Unfinished(t[j].status) && (j !in u || u[j].status != t[j].status);
      assert Lighter(t, u, j);
    }
  }

  // A step that revives a row.
  predicate RevivesSome(s: State, a: Step) {
    a.WorkerProgress? && a.pid in s.workers && Revives(s, a, s.workers[a.pid].job)
  }

  lemma WorkStep(s: State, a: Step)
    requires Base(s) && Enabled(s, a) && !a.EnqueueStep? && !RevivesSome(s, a)
    ensures Work(Apply(s, a).jobs) <= Work(s.jobs)
    ensures Advances(s.jobs, Apply(s, a).jobs) ==> Work(Apply(s, a).jobs) < Work(s.jobs)
  {
    hide Apply, Enabled, Base, Lighter, Work;
    forall j ensures Lighter(s.jobs, Apply(s, a).jobs, j) {
      RowLighter(s, a, j);
    }
    WorkDrops(s.jobs, Apply(s, a).jobs);
  }

  // A revived row brings the work of a running job back, and nothing else moves.
  lemma WorkRevived(s: State, a: Step)
    requires Enabled(s, a) && RevivesSome(s, a)
    ensures Work(Apply(s, a).jobs) == Work(s.jobs) + Weight(Running)
    ensures !Advances(s.jobs, Apply(s, a).jobs)
  {
    hide Work;
    var j, t, u := s.workers[a.pid].job, s.jobs, Apply(s, a).jobs;
    assert u == t[j := u[j]] && u[j].status == Running;
    WorkSplit(t, j);
    WorkSplit(u, j);
    assert (map k | k in t && k != j :: t[k]) == (map k | k in u && k != j :: u[k]);
  }

  // How many of the first n steps move an unfinished row.
  ghost function Advancing(states: seq<State>, n: nat): nat
    requires n < |states|
  {
    if n == 0 then 0
    else Advancing(states, n - 1) + if Advances(states[n - 1].jobs, states[n].jobs) then 1 else 0
  }

  // How many of them revive one.
  ghost function Revivals(states: seq<State>, steps: seq<Step>, n: nat): nat
    requires n < |states| && n <= |steps|
  {
    if n == 0 then 0
    else Revivals(states, steps, n - 1) + if RevivesSome(states[n - 1], steps[n - 1]) then 1 else 0
  }

  // With no new enqueues the queue drains: the steps of a whole run that move an unfinished
  // row are bounded by the work in the first table and what revivals bring back.
  lemma {:induction false} QueueDrains(states: seq<State>, steps: seq<Step>, n: nat)
    requires DispatchedRun(states, steps) && n <= |steps|
    requires forall i {:trigger steps[i]} :: 0 <= i < |steps| ==> !steps[i].EnqueueStep?
    ensures Advancing(states, n) + Work(states[n].jobs)
         <= Work(states[0].jobs) + Revivals(states, steps, n) * Weight(Running)
  {
    hide Apply, Enabled, Base, Work, Advances, RevivesSome;
    if n > 0 {
      QueueDrains(states, steps, n - 1);
      BaseHolds(states, steps, n - 1);
      var s, a := states[n - 1], steps[n - 1];
      assert Enabled(s, a) && states[n - 1 + 1] == Apply(s, a);
      if RevivesSome(s, a) {
        WorkRevived(s, a);
      } else {
        WorkStep(s, a);
      }
    }
  }

  // Where recovery spares live workers none do.
  lemma {:induction false} NoRevivals(states: seq<State>, steps: seq<Step>, n: nat)
    requires SoundRun(states, steps) && n <= |steps|
    ensures Revivals(states, steps, n) == 0
  {
    hide Revives;
    if n > 0 {
      NoRevivals(states, steps, n - 1);
      if RevivesSome(states[n - 1], steps[n - 1]) {
        NothingRevived(states, steps, n - 1, states[n - 1].workers[steps[n - 1].pid].job);
        assert false;
      }
    }
  }
}
