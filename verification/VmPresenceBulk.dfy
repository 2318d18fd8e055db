/** The set-based ingest path against the row-by-row one.

    The batched ingest replaces the loops of process_node_vm_presence by one
    statement per table and keeps the row-by-row step only for VMs whose location
    is another node.  It refines the loops except for one stored value.
  */
module VmPresenceBulk {
  import opened Options
  import opened VmPresence
  import opened VmPresenceStore
  import Runs = VmPresenceRuns

  // missing_since=COALESCE(missing_since, ?): a stored 0 counts as present.
  function BulkMarked(r: Presence, ts: int): Presence {
    r.(status := Missing, missingSince := Some(if r.missingSince.Some? then r.missingSince.value else ts),
       missingCount := r.missingCount + 1, lastPush := ts)
  }

  function BulkMark(v: VmRows, node: Node, ts: int): VmRows {
    if node in v.presence && Markable(v.presence[node].status)
    then v.(presence := v.presence[node := BulkMarked(v.presence[node], ts)],
            inventory := Restate(v.inventory, node, Missing))
    else v
  }

  function Refreshed(at: Location, ts: int, nic: Nic): Location {
    at.(lastSeen := Max(at.lastSeen, ts), iface := nic.iface, bridge := nic.bridge, alert := AlertOk)
  }

  function NewLocation(node: Node, ts: int, nic: Nic): Location {
    Location(node, ts, ts, None, None, 0, nic.iface, nic.bridge, AlertOk)
  }

  // The insert of first locations, then the refresh of those at this node.
  function BulkPlace(v: VmRows, node: Node, ts: int, nic: Nic): VmRows {
    match v.location
    case None => v.(location := Some(Refreshed(NewLocation(node, ts, nic), ts, nic)))
    case Some(at) => if at.node == node then v.(location := Some(Refreshed(at, ts, nic))) else v
  }

  function BulkPush(v: VmRows, vm: Vm, node: Node, ts: int, nic: Option<Nic>, complete: bool, policy: Policy): VmRows {
    match nic
    case None => if complete then BulkMark(v, node, ts) else v
    case Some(where) => BulkLocate(See(v, node, ts, where), vm, node, ts, where, policy)
  }

  // Only VMs located elsewhere take the row-by-row step.
  function BulkLocate(s: VmRows, vm: Vm, node: Node, ts: int, nic: Nic, policy: Policy): VmRows {
    if s.location.Some? && s.location.value.node != node
    then Locate(BulkPlace(s, node, ts, nic), vm, node, ts, nic, policy)
    else BulkPlace(s, node, ts, nic)
  }

  // The two paths differ exactly on an absent VM whose row stores missing_since 0.
  lemma BulkAgreesExactly(v: VmRows, vm: Vm, node: Node, ts: int, nic: Option<Nic>, complete: bool, policy: Policy)
    ensures BulkPush(v, vm, node, ts, nic, complete, policy) == Push(v, vm, node, ts, nic, complete, policy)
       <==> !(nic.None? && complete && ts != 0 && node in v.presence
              && Markable(v.presence[node].status) && v.presence[node].missingSince == Some(0))
  {
    if nic.None? && complete && node in v.presence && Markable(v.presence[node].status) {
      var b, p := BulkMark(v, node, ts), Mark(v, node, ts);
      assert b.presence[node] == BulkMarked(v.presence[node], ts);
      assert p.presence[node] == MarkedPresence(v.presence[node], ts);
    }
  }

  ghost predicate NoZeroSince(v: VmRows) {
    forall n :: n in v.presence ==> v.presence[n].missingSince != Some(0)
  }

  lemma NoZeroSinceStep(v: VmRows, vm: Vm, a: Runs.Action, policy: Policy)
    requires NoZeroSince(v) && (a.Pushed? ==> a.ts != 0)
    ensures NoZeroSince(Runs.Do(v, vm, a, policy))
  {
    if a.Pushed? && a.nic.Some? {
      Runs.LocateKeepsCounters(See(v, a.node, a.ts, a.nic.value), vm, a.node, a.ts, a.nic.value, policy);
    }
  }

  function BulkDo(v: VmRows, vm: Vm, a: Runs.Action, policy: Policy): VmRows {
    match a
    case Pushed(node, ts, nic, complete) => BulkPush(v, vm, node, ts, nic, complete, policy)
    case PurgedRows(nodes, now) => PurgeRows(v, nodes, now)
  }

  function BulkAfter(h: seq<Runs.Action>, vm: Vm, policy: Policy): VmRows {
    if h == [] then EmptyRows else BulkDo(BulkAfter(h[..|h| - 1], vm, policy), vm, h[|h| - 1], policy)
  }

  // Over any run whose pushes carry real time stamps the two paths give the same rows.
  lemma {:induction false} BulkRefinesLoops(h: seq<Runs.Action>, vm: Vm, policy: Policy)
    requires forall a :: a in h && a.Pushed? ==> a.ts != 0
    ensures BulkAfter(h, vm, policy) == Runs.After(h, vm, policy)
    ensures NoZeroSince(Runs.After(h, vm, policy))
  {
    if h != [] {
      var g, a := h[..|h| - 1], h[|h| - 1];
      assert a in h && forall b :: b in g ==> b in h;
      BulkRefinesLoops(g, vm, policy);
      NoZeroSinceStep(Runs.After(g, vm, policy), vm, a, policy);
      if a.Pushed? {
        BulkAgreesExactly(Runs.After(g, vm, policy), vm, a.node, a.ts, a.nic, a.complete, policy);
      }
    }
  }

  // The VM lives on n, whose row has the given status and missing_since.
  ghost predicate HomeIs(v: VmRows, n: Node, status: Status, since: Option<int>) {
    && v.location.Some? && v.location.value.node == n
    && n in v.presence && v.presence[n].status == status && v.presence[n].missingSince == since
  }

  lemma AbsentAtZero(v: VmRows, n: Node)
    requires HomeIs(v, n, Active, None) && v.presence[n].missingCount == 0
    ensures HomeIs(Mark(v, n, 0), n, Missing, Some(0)) && Mark(v, n, 0).presence[n].missingCount == 1
    ensures BulkMark(v, n, 0) == Mark(v, n, 0)
  {
  }

  lemma SeenElsewhere(v: VmRows, vm: Vm, n: Node, m: Node, nic: Nic, policy: Policy)
    requires HomeIs(v, n, Missing, Some(0)) && n != m && v.presence[n].missingCount < policy.confirmPushes
    ensures HomeIs(Push(v, vm, m, 7, Some(nic), true, policy), n, Pending, Some(0))
    ensures HomeIs(BulkPush(v, vm, m, 7, Some(nic), true, policy), n, Pending, Some(0))
  {
    var s := See(v, m, 7, nic);
    assert HomeIs(s, n, Missing, Some(0));
    assert !MissingEnough(s, n, 7, policy);
    assert BulkPlace(s, m, 7, nic) == s;
  }

  // A stored 0 is reachable, and there the two paths part.
  lemma BulkPartsOnZero(vm: Vm, n: Node, m: Node, nic: Nic)
    requires n != m
    ensures var policy := Policy(3, 300, 86400);
            var h := [Runs.Pushed(n, 5, Some(nic), true), Runs.Pushed(n, 0, None, true),
                      Runs.Pushed(m, 7, Some(nic), true), Runs.Pushed(n, 9, None, true)];
            && HomeIs(Runs.After(h, vm, policy), n, Missing, Some(9))
            && HomeIs(BulkAfter(h, vm, policy), n, Missing, Some(0))
  {
    var policy := Policy(3, 300, 86400);
    var a0, a1 := Runs.Pushed(n, 5, Some(nic), true), Runs.Pushed(n, 0, None, true);
    var a2, a3 := Runs.Pushed(m, 7, Some(nic), true), Runs.Pushed(n, 9, None, true);
    AfterOne([], a0, vm, policy);
    var u, w := Runs.After([a0], vm, policy), BulkAfter([a0], vm, policy);
    assert [] + [a0] == [a0] && Runs.After([], vm, policy) == BulkAfter([], vm, policy) == EmptyRows;
    assert HomeIs(u, n, Active, None) && HomeIs(w, n, Active, None);
    BulkPartsTail(a0, a1, a2, a3, vm, n, m, nic, policy);
  }

  lemma BulkPartsTail(a0: Runs.Action, a1: Runs.Action, a2: Runs.Action, a3: Runs.Action,
                      vm: Vm, n: Node, m: Node, nic: Nic, policy: Policy)
    requires n != m && policy.confirmPushes >= 3
    requires a1 == Runs.Pushed(n, 0, None, true) && a2 == Runs.Pushed(m, 7, Some(nic), true)
    requires a3 == Runs.Pushed(n, 9, None, true)
    requires HomeIs(Runs.After([a0], vm, policy), n, Active, None)
    requires Runs.After([a0], vm, policy).presence[n].missingCount == 0
    requires BulkAfter([a0], vm, policy) == Runs.After([a0], vm, policy)
    ensures HomeIs(BulkAfter([a0, a1, a2, a3], vm, policy), n, Missing, Some(0))
    ensures HomeIs(Runs.After([a0, a1, a2, a3], vm, policy), n, Missing, Some(9))
  {
    AfterOne([a0], a1, vm, policy);
    assert [a0] + [a1] == [a0, a1];
    AbsentAtZero(Runs.After([a0], vm, policy), n);
    AfterOne([a0, a1], a2, vm, policy);
    assert [a0, a1] + [a2] == [a0, a1, a2];
    SeenElsewhere(Runs.After([a0, a1], vm, policy), vm, n, m, nic, policy);
    SeenElsewhere(BulkAfter([a0, a1], vm, policy), vm, n, m, nic, policy);
    AfterOne([a0, a1, a2], a3, vm, policy);
    assert [a0, a1, a2] + [a3] == [a0, a1, a2, a3];
  }

  lemma AfterOne(h: seq<Runs.Action>, a: Runs.Action, vm: Vm, policy: Policy)
    ensures Runs.After(h + [a], vm, policy) == Runs.Do(Runs.After(h, vm, policy), vm, a, policy)
    ensures BulkAfter(h + [a], vm, policy) == BulkDo(BulkAfter(h, vm, policy), vm, a, policy)
  {
    assert (h + [a])[..|h|] == h;
  }

  // ---------------------------------------------------------------- the statements

  function SeeTable<V>(m: map<(Vm, Node), V>, node: Node, stage: map<Vm, Nic>, row: (Option<V>, Nic) -> V):
    map<(Vm, Node), V>
  {
    map k | k in m.Keys + (set vm | vm in stage :: (vm, node)) ::
      if k.1 == node && k.0 in stage then row(if k in m then Some(m[k]) else None, stage[k.0]) else m[k]
  }

  lemma SeeTableSlice<V>(m: map<(Vm, Node), V>, node: Node, stage: map<Vm, Nic>, row: (Option<V>, Nic) -> V, vm: Vm)
    ensures Slice(SeeTable(m, node, stage, row), vm) ==
            if vm in stage then Slice(m, vm)[node := row(Row(Slice(m, vm), node), stage[vm])] else Slice(m, vm)
  {
    var u := SeeTable(m, node, stage, row);
    var s := if vm in stage then Slice(m, vm)[node := row(Row(Slice(m, vm), node), stage[vm])] else Slice(m, vm);
    SliceAt(m, vm, node);
    forall n ensures n in Slice(u, vm) <==> n in s
             ensures n in s ==> Slice(u, vm)[n] == s[n]
    {
      SliceAt(u, vm, n);
      SliceAt(m, vm, n);
    }
  }

  function MarkTable<V>(m: map<(Vm, Node), V>, node: Node, missing: set<Vm>, row: V -> V): map<(Vm, Node), V> {
    map k | k in m :: if k.1 == node && k.0 in missing then row(m[k]) else m[k]
  }

  lemma MarkTableSlice<V>(m: map<(Vm, Node), V>, node: Node, missing: set<Vm>, row: V -> V, vm: Vm)
    ensures Slice(MarkTable(m, node, missing, row), vm) ==
            if vm in missing && node in Slice(m, vm) then Slice(m, vm)[node := row(Slice(m, vm)[node])] else Slice(m, vm)
  {
    var u := MarkTable(m, node, missing, row);
    var s := if vm in missing && node in Slice(m, vm)
             then Slice(m, vm)[node := row(Slice(m, vm)[node])] else Slice(m, vm);
    SliceAt(m, vm, node);
    forall n ensures n in Slice(u, vm) <==> n in s
             ensures n in s ==> Slice(u, vm)[n] == s[n]
    {
      SliceAt(u, vm, n);
      SliceAt(m, vm, n);
    }
  }

  // The staged rows: one per reported VM that is not a placeholder.
  function Stage(reported: map<Vm, Nic>): map<Vm, Nic> {
    map vm | vm in reported && RealVm(vm) :: reported[vm]
  }

  method UpsertStage(store: Store, node: Node, stage: map<Vm, Nic>, ts: int)
    modifies store`presence, store`inventory
    ensures forall vm :: ViewOf(store.Contents(), vm) ==
              if vm in stage then See(old(ViewOf(store.Contents(), vm)), node, ts, stage[vm])
              else old(ViewOf(store.Contents(), vm))
  {
    var p := (r: Option<Presence>, nic: Nic) => SeenPresence(r, ts, nic);
    var i := (r: Option<Inventory>, nic: Nic) => SeenInventory(r, ts, nic);
    ghost var t := store.Contents();
    store.presence := SeeTable(store.presence, node, stage, p);
    store.inventory := SeeTable(store.inventory, node, stage, i);
    forall vm
      ensures ViewOf(store.Contents(), vm) ==
              if vm in stage then See(ViewOf(t, vm), node, ts, stage[vm]) else ViewOf(t, vm)
    {
      SeeTableSlice(t.presence, node, stage, p, vm);
      SeeTableSlice(t.inventory, node, stage, i, vm);
    }
  }

  method MarkMissingStage(store: Store, node: Node, stage: map<Vm, Nic>, ts: int)
    modifies store`presence, store`inventory
    ensures forall vm :: ViewOf(store.Contents(), vm) ==
              if vm in stage then old(ViewOf(store.Contents(), vm))
              else BulkMark(old(ViewOf(store.Contents(), vm)), node, ts)
  {
    var markable := store.SelectMarkable(node);
    var missing := markable - stage.Keys;
    var p := (r: Presence) => BulkMarked(r, ts);
    var i := (r: Inventory) => Restated(r, Missing);
    ghost var t := store.Contents();
    store.presence := MarkTable(store.presence, node, missing, p);
    store.inventory := MarkTable(store.inventory, node, missing, i);
    forall vm
      ensures ViewOf(store.Contents(), vm) ==
              if vm in stage then ViewOf(t, vm) else BulkMark(ViewOf(t, vm), node, ts)
    {
      MarkTableSlice(t.presence, node, missing, p, vm);
      MarkTableSlice(t.inventory, node, missing, i, vm);
    }
  }

  method PlaceStage(store: Store, node: Node, stage: map<Vm, Nic>, ts: int)
    modifies store`location
    ensures forall vm :: ViewOf(store.Contents(), vm) ==
              if vm in stage then BulkPlace(old(ViewOf(store.Contents(), vm)), node, ts, stage[vm])
              else old(ViewOf(store.Contents(), vm))
  {
    ghost var t := store.Contents();
    store.location := InsertFirst(store.location, node, stage, ts);
    store.location := RefreshHere(store.location, node, stage, ts);
    forall vm
      ensures ViewOf(store.Contents(), vm) ==
              if vm in stage then BulkPlace(ViewOf(t, vm), node, ts, stage[vm]) else ViewOf(t, vm)
    {
    }
  }

  function InsertFirst(m: map<Vm, Location>, node: Node, stage: map<Vm, Nic>, ts: int): map<Vm, Location> {
    map vm | vm in m.Keys + stage.Keys :: if vm in m then m[vm] else NewLocation(node, ts, stage[vm])
  }

  function RefreshHere(m: map<Vm, Location>, node: Node, stage: map<Vm, Nic>, ts: int): map<Vm, Location> {
    map vm | vm in m :: if vm in stage && m[vm].node == node then Refreshed(m[vm], ts, stage[vm]) else m[vm]
  }

  method PlaceAndMove(store: Store, node: Node, stage: map<Vm, Nic>, ts: int)
    modifies store`presence, store`inventory, store`location, store`events
    ensures forall vm :: ViewOf(store.Contents(), vm) ==
              if vm in stage
              then BulkLocate(old(ViewOf(store.Contents(), vm)), vm, node, ts, stage[vm], store.policy)
              else old(ViewOf(store.Contents(), vm))
  {
    var moved := set vm | vm in stage && vm in store.location && store.location[vm].node != node;
    PlaceStage(store, node, stage, ts);
    store.LocateReported(node, moved, stage, ts);
  }

  method SeeAndMark(store: Store, node: Node, stage: map<Vm, Nic>, ts: int, complete: bool)
    modifies store`presence, store`inventory
    ensures forall vm :: ViewOf(store.Contents(), vm) ==
              if vm in stage then See(old(ViewOf(store.Contents(), vm)), node, ts, stage[vm])
              else if complete then BulkMark(old(ViewOf(store.Contents(), vm)), node, ts)
              else old(ViewOf(store.Contents(), vm))
  {
    UpsertStage(store, node, stage, ts);
    if complete {
      MarkMissingStage(store, node, stage, ts);
    }
  }

  method ProcessNodeVmPresenceBulk(store: Store, node: Node, reported: map<Vm, Nic>, ts: int, complete: bool)
    modifies store`presence, store`inventory, store`location, store`events
    ensures forall vm :: ViewOf(store.Contents(), vm) ==
              BulkPush(old(ViewOf(store.Contents(), vm)), vm, node, ts, Reported(reported, vm), complete, store.policy)
  {
    var stage := Stage(reported);
    SeeAndMark(store, node, stage, ts, complete);
    PlaceAndMove(store, node, stage, ts);
  }

  // One push leaves the same tables whichever path and whichever visiting order is
  // used, when no absent VM's row stores 0.
  lemma PushDeterminesTables(t: Tables, u: Tables, w: Tables, node: Node, reported: map<Vm, Nic>, ts: int,
                             complete: bool, policy: Policy)
    requires forall vm :: ViewOf(u, vm) ==
               Push(ViewOf(t, vm), vm, node, ts, Reported(reported, vm), complete, policy)
    requires forall vm :: ViewOf(w, vm) ==
               BulkPush(ViewOf(t, vm), vm, node, ts, Reported(reported, vm), complete, policy)
    requires forall vm :: NoZeroSince(ViewOf(t, vm))
    ensures u.presence == w.presence && u.inventory == w.inventory && u.location == w.location
    ensures multiset(u.events) == multiset(w.events)
  {
    forall vm ensures ViewOf(u, vm) == ViewOf(w, vm) {
      BulkAgreesExactly(ViewOf(t, vm), vm, node, ts, Reported(reported, vm), complete, policy);
      assert NoZeroSince(ViewOf(t, vm));
    }
    ViewsDetermineTables(u, w);
  }
}
