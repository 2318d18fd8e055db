/** The interleaved dispatcher, left alone, is the dispatcher program: its steps
    compose to one recovery pass and one claim.
  */
module MaintenanceAlone {
  import opened MaintenanceJobs
  import opened MaintenanceProtocol
  import opened MaintenanceStore

  // Check and, where due, condemn the remaining snapshot rows.
  function Finish(s: State, d: Pid, alive: set<JobId>): State
    requires d in s.dispatchers && s.dispatchers[d].Recovering?
    decreases |s.dispatchers[d].rows|
  {
    var p := s.dispatchers[d];
    if p.rows == [] then s
    else
      var t := Apply(s, DispatcherChecks(d, p.rows[0].id in alive));
      if t.dispatchers[d].Condemning? then Finish(Apply(t, DispatcherCondemns(d)), d, alive)
      else Finish(t, d, alive)
  }

  predicate Current(t: Table, rows: seq<SnapshotRow>) {
    && (forall i :: 0 <= i < |rows| ==> rows[i].id in t && rows[i].job == t[rows[i].id])
    && (forall i, j :: 0 <= i < j < |rows| ==> rows[i].id != rows[j].id)
  }

  predicate Listed(rows: seq<SnapshotRow>, id: JobId) {
    exists i :: 0 <= i < |rows| && rows[i].id == id
  }

  lemma ListedCons(row: SnapshotRow, rest: seq<SnapshotRow>, id: JobId)
    ensures Listed([row] + rest, id) <==> id == row.id || Listed(rest, id)
  {
    var rows := [row] + rest;
    assert rows[0] == row;
    if Listed(rest, id) {
      var i :| 0 <= i < |rest| && rest[i].id == id;
      assert rows[i + 1].id == id;
    }
    if Listed(rows, id) && id != row.id {
      var i :| 0 <= i < |rows| && rows[i].id == id;
      assert rest[i - 1].id == id;
    }
  }

  // One row of the snapshot dealt with.
  function Next(s: State, d: Pid, alive: set<JobId>): State
    requires d in s.dispatchers && s.dispatchers[d].Recovering? && s.dispatchers[d].rows != []
  {
    var t := Apply(s, DispatcherChecks(d, s.dispatchers[d].rows[0].id in alive));
    if t.dispatchers[d].Condemning? then Apply(t, DispatcherCondemns(d)) else t
  }

  lemma NextRow(s: State, d: Pid, alive: set<JobId>)
    requires d in s.dispatchers && s.dispatchers[d].Recovering? && s.dispatchers[d].rows != []
    requires Current(s.jobs, s.dispatchers[d].rows)
    ensures var p := s.dispatchers[d]; var row := p.rows[0];
            Next(s, d, alive) ==
            s.(jobs := s.jobs[row.id := Verdict(row.id, s.jobs[row.id], p.now, alive)],
               dispatchers := s.dispatchers[d := Recovering(p.rows[1..], p.now)])
    ensures Finish(s, d, alive) == Finish(Next(s, d, alive), d, alive)
  {
    var p := s.dispatchers[d];
    var row := p.rows[0];
    var t := Apply(s, DispatcherChecks(d, row.id in alive));
    if t.dispatchers[d].Condemning? {
      assert t.dispatchers[d] == Condemning(row, p.rows[1..], p.now);
    } else {
      assert s.jobs == s.jobs[row.id := s.jobs[row.id]];
    }
  }

  function FailRows(t: Table, rows: seq<SnapshotRow>, now: int, alive: set<JobId>): Table
    requires forall i :: 0 <= i < |rows| ==> rows[i].id in t
  {
    if rows == [] then t
    else FailRows(t[rows[0].id := Verdict(rows[0].id, t[rows[0].id], now, alive)], rows[1..], now, alive)
  }

  lemma {:induction false} FinishIsFailRows(s: State, d: Pid, alive: set<JobId>)
    requires d in s.dispatchers && s.dispatchers[d].Recovering?
    requires Current(s.jobs, s.dispatchers[d].rows)
    ensures var p := s.dispatchers[d];
            Finish(s, d, alive) ==
            s.(jobs := FailRows(s.jobs, p.rows, p.now, alive),
               dispatchers := s.dispatchers[d := Recovering([], p.now)])
    decreases |s.dispatchers[d].rows|
  {
    var p := s.dispatchers[d];
    if p.rows == [] {
      assert s.dispatchers == s.dispatchers[d := Recovering([], p.now)];
    } else {
      NextRow(s, d, alive);
      FinishIsFailRows(Next(s, d, alive), d, alive);
      assert s.dispatchers[d := Recovering(p.rows[1..], p.now)][d := Recovering([], p.now)]
          == s.dispatchers[d := Recovering([], p.now)];
    }
  }

  lemma {:induction false} FailRowsAt(t: Table, rows: seq<SnapshotRow>, now: int, alive: set<JobId>, id: JobId)
    requires forall i :: 0 <= i < |rows| ==> rows[i].id in t
    requires forall i, j :: 0 <= i < j < |rows| ==> rows[i].id != rows[j].id
    requires id in t
    ensures FailRows(t, rows, now, alive).Keys == t.Keys
    ensures FailRows(t, rows, now, alive)[id] ==
            if Listed(rows, id) then Verdict(id, t[id], now, alive) else t[id]
  {
    if rows != [] {
      var row, rest := rows[0], rows[1..];
      FailRowsAt(t[row.id := Verdict(row.id, t[row.id], now, alive)], rest, now, alive, id);
      assert rows == [row] + rest;
      ListedCons(row, rest, id);
    }
  }

  lemma SnapshotOfLists(t: Table, order: seq<JobId>, id: JobId)
    requires forall k :: k in order ==> k in t
    requires forall i, j :: 0 <= i < j < |order| ==> order[i] < order[j]
    ensures Current(t, SnapshotOf(t, order))
    ensures Listed(SnapshotOf(t, order), id) <==> id in order
  {
    var rows := SnapshotOf(t, order);
    forall i | 0 <= i < |rows| ensures rows[i].id in order && rows[i].id in t {
      assert order[i] in order;
    }
    if id in order {
      var i :| 0 <= i < |order| && order[i] == id;
      assert rows[i].id == id;
    }
  }

  lemma SnapshotLists(t: Table, id: JobId)
    ensures Current(t, ActiveSnapshot(t))
    ensures Listed(ActiveSnapshot(t), id) <==> id in ActiveIds(t)
  {
    SnapshotOfLists(t, Ascending(ActiveIds(t)), id);
  }

  lemma RecoveredBySteps(t: Table, now: int, alive: set<JobId>)
    ensures var u := CancelLegacy(t, now);
            && Current(u, ActiveSnapshot(u))
            && FailRows(u, ActiveSnapshot(u), now, alive) == Recovered(t, now, alive)
  {
    var u := CancelLegacy(t, now);
    SnapshotLists(u, 0);
    var r := FailRows(u, ActiveSnapshot(u), now, alive);
    if u == map[] {
      assert ActiveIds(u) == {};
      assert ActiveSnapshot(u) == [];
    }
    forall id | id in u ensures r.Keys == u.Keys && r[id] == Verdict(id, u[id], now, alive) {
      SnapshotLists(u, id);
      FailRowsAt(u, ActiveSnapshot(u), now, alive, id);
    }
  }

  // Begin, check and condemn every row, claim: the table is that of DispatcherMain.
  lemma DispatcherAlone(s: State, d: Pid, now: int, claimTime: int, alive: set<JobId>)
    requires d !in s.dispatchers
    ensures var recovered := Finish(Apply(s, DispatcherBegins(d, now)), d, alive);
            && Enabled(recovered, DispatcherClaims(d, claimTime))
            && recovered.jobs == Recovered(s.jobs, now, alive)
            && Apply(recovered, DispatcherClaims(d, claimTime)).jobs == Claim(Recovered(s.jobs, now, alive), claimTime)
  {
    hide Finish, FailRows, Recovered, Verdict, NextClaim, ActiveSnapshot, Current;
    RecoveredBySteps(s.jobs, now, alive);
    FinishIsFailRows(Apply(s, DispatcherBegins(d, now)), d, alive);
  }
}
