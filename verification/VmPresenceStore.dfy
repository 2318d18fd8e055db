/** The presence tables and the programs that change them.

    The tables are keyed as in the database, by (vm, node).  `View` is one VM's
    share of them; every method's contract is about all views, whatever order its
    loops visit rows in.
  */
module VmPresenceStore {
  import opened Options
  import opened VmPresence

  // ---------------------------------------------------------------- slices

  function Slice<V>(m: map<(Vm, Node), V>, vm: Vm): map<Node, V> {
    map k | k in m && k.0 == vm :: k.1 := m[k]
  }

  lemma SliceAt<V>(m: map<(Vm, Node), V>, vm: Vm, n: Node)
    ensures n in Slice(m, vm) <==> (vm, n) in m
    ensures (vm, n) in m ==> Slice(m, vm)[n] == m[(vm, n)]
  {
    if (vm, n) in m {
      assert (vm, n).0 == vm && (vm, n).1 == n;
    }
  }

  lemma SliceUpdate<V>(m: map<(Vm, Node), V>, vm: Vm, n: Node, v: V)
    ensures Slice(m[(vm, n) := v], vm) == Slice(m, vm)[n := v]
    ensures forall w :: w != vm ==> Slice(m[(vm, n) := v], w) == Slice(m, w)
  {
    var m' := m[(vm, n) := v];
    forall x ensures x in Slice(m', vm) <==> x in Slice(m, vm)[n := v] {
      SliceAt(m', vm, x);
      SliceAt(m, vm, x);
    }
    forall x | x in Slice(m', vm) ensures Slice(m', vm)[x] == Slice(m, vm)[n := v][x] {
      SliceAt(m', vm, x);
      SliceAt(m, vm, x);
    }
    forall w | w != vm ensures Slice(m', w) == Slice(m, w) {
      forall x ensures x in Slice(m', w) <==> x in Slice(m, w) {
        SliceAt(m', w, x);
        SliceAt(m, w, x);
      }
      forall x | x in Slice(m', w) ensures Slice(m', w)[x] == Slice(m, w)[x] {
        SliceAt(m', w, x);
        SliceAt(m, w, x);
      }
    }
  }

  function EventsOf(events: seq<Event>, vm: Vm): seq<Event> {
    if events == [] then []
    else EventsOf(events[..|events| - 1], vm)
         + if events[|events| - 1].vm == vm then [events[|events| - 1]] else []
  }

  lemma EventsOfAppend(events: seq<Event>, e: Event, vm: Vm)
    ensures EventsOf(events + [e], vm) == EventsOf(events, vm) + if e.vm == vm then [e] else []
  {
    assert (events + [e])[..|events|] == events;
  }

  lemma {:induction false} EventsOfContains(events: seq<Event>, vm: Vm, e: Event)
    ensures e in EventsOf(events, vm) <==> e in events && e.vm == vm
  {
    if events != [] {
      EventsOfContains(events[..|events| - 1], vm, e);
      assert events == events[..|events| - 1] + [events[|events| - 1]];
    }
  }

  lemma {:induction false} EventsOfCounts(events: seq<Event>, vm: Vm, e: Event)
    ensures multiset(EventsOf(events, vm))[e] == if e.vm == vm then multiset(events)[e] else 0
  {
    if events != [] {
      EventsOfCounts(events[..|events| - 1], vm, e);
      assert events == events[..|events| - 1] + [events[|events| - 1]];
    }
  }

  // ---------------------------------------------------------------- tables as values

  datatype Tables = Tables(
    presence: map<(Vm, Node), Presence>,
    inventory: map<(Vm, Node), Inventory>,
    location: map<Vm, Location>,
    events: seq<Event>)

  function ViewOf(t: Tables, vm: Vm): VmRows {
    VmRows(Slice(t.presence, vm), Slice(t.inventory, vm),
           if vm in t.location then Some(t.location[vm]) else None,
           EventsOf(t.events, vm))
  }

  // The views determine the tables, up to the interleaving of different VMs' events.
  lemma ViewsDetermineTables(t: Tables, u: Tables)
    requires forall vm :: ViewOf(t, vm) == ViewOf(u, vm)
    ensures t.presence == u.presence && t.inventory == u.inventory && t.location == u.location
    ensures multiset(t.events) == multiset(u.events)
  {
    forall k ensures k in t.presence <==> k in u.presence {
      assert ViewOf(t, k.0) == ViewOf(u, k.0);
      SliceAt(t.presence, k.0, k.1);
      SliceAt(u.presence, k.0, k.1);
    }
    forall k | k in t.presence ensures t.presence[k] == u.presence[k] {
      assert ViewOf(t, k.0) == ViewOf(u, k.0);
      SliceAt(t.presence, k.0, k.1);
      SliceAt(u.presence, k.0, k.1);
    }
    forall k ensures k in t.inventory <==> k in u.inventory {
      assert ViewOf(t, k.0) == ViewOf(u, k.0);
      SliceAt(t.inventory, k.0, k.1);
      SliceAt(u.inventory, k.0, k.1);
    }
    forall k | k in t.inventory ensures t.inventory[k] == u.inventory[k] {
      assert ViewOf(t, k.0) == ViewOf(u, k.0);
      SliceAt(t.inventory, k.0, k.1);
      SliceAt(u.inventory, k.0, k.1);
    }
    forall vm ensures vm in t.location <==> vm in u.location
              ensures vm in t.location ==> t.location[vm] == u.location[vm]
    {
      assert ViewOf(t, vm) == ViewOf(u, vm);
    }
    forall e ensures multiset(t.events)[e] == multiset(u.events)[e] {
      assert ViewOf(t, e.vm) == ViewOf(u, e.vm);
      EventsOfCounts(t.events, e.vm, e);
      EventsOfCounts(u.events, e.vm, e);
    }
  }

  // ---------------------------------------------------------------- visiting VMs one by one

  // From t to u only vm's share changed, and it became v.
  ghost predicate Touches(t: Tables, u: Tables, vm: Vm, v: VmRows) {
    ViewOf(u, vm) == v && forall w :: w != vm ==> ViewOf(u, w) == ViewOf(t, w)
  }

  lemma TouchesTwice(t: Tables, u: Tables, w: Tables, vm: Vm, v: VmRows, x: VmRows)
    requires Touches(t, u, vm, v) && Touches(u, w, vm, x)
    ensures Touches(t, w, vm, x)
  {
    forall k | k != vm ensures ViewOf(w, k) == ViewOf(t, k) {
      assert ViewOf(u, k) == ViewOf(t, k);
    }
  }

  // What a loop did: the VM of each turn and the tables after it.
  type Trace = seq<(Vm, Tables)>

  ghost function Latest(t: Tables, trace: Trace): Tables {
    if trace == [] then t else trace[|trace| - 1].1
  }

  ghost function Visited(trace: Trace): set<Vm> {
    if trace == [] then {} else Visited(trace[..|trace| - 1]) + {trace[|trace| - 1].0}
  }

  // Every turn visited a new VM and applied `op` to its share.
  ghost predicate Chain(t: Tables, trace: Trace, op: (VmRows, Vm) -> VmRows) {
    trace != [] ==>
      var before, vm, u := trace[..|trace| - 1], trace[|trace| - 1].0, trace[|trace| - 1].1;
      && Chain(t, before, op)
      && vm !in Visited(before)
      && Touches(Latest(t, before), u, vm, op(ViewOf(Latest(t, before), vm), vm))
  }

  lemma ChainExtend(t: Tables, trace: Trace, op: (VmRows, Vm) -> VmRows, vm: Vm, u: Tables)
    requires Chain(t, trace, op) && vm !in Visited(trace)
    requires Touches(Latest(t, trace), u, vm, op(ViewOf(Latest(t, trace), vm), vm))
    ensures Chain(t, trace + [(vm, u)], op)
    ensures Latest(t, trace + [(vm, u)]) == u
    ensures Visited(trace + [(vm, u)]) == Visited(trace) + {vm}
  {
    assert (trace + [(vm, u)])[..|trace|] == trace;
  }

  // The order of the turns leaves no mark: each visited VM's share is `op` of what
  // it was, every other share is untouched.
  lemma {:induction false} ChainView(t: Tables, trace: Trace, op: (VmRows, Vm) -> VmRows, vm: Vm)
    requires Chain(t, trace, op)
    ensures ViewOf(Latest(t, trace), vm) == if vm in Visited(trace) then op(ViewOf(t, vm), vm) else ViewOf(t, vm)
  {
    if trace != [] {
      ChainView(t, trace[..|trace| - 1], op, vm);
    }
  }

  lemma ChainViews(t: Tables, trace: Trace, op: (VmRows, Vm) -> VmRows)
    requires Chain(t, trace, op)
    ensures forall vm :: ViewOf(Latest(t, trace), vm) ==
              if vm in Visited(trace) then op(ViewOf(t, vm), vm) else ViewOf(t, vm)
  {
    forall vm
      ensures ViewOf(Latest(t, trace), vm) == if vm in Visited(trace) then op(ViewOf(t, vm), vm) else ViewOf(t, vm)
    {
      ChainView(t, trace, op, vm);
    }
  }

  lemma TurnTaken<T>(todo: set<T>, done: set<T>, all: set<T>, x: T)
    requires todo !! done && todo + done == all && x in todo
    ensures x !in done && (todo - {x}) !! (done + {x}) && (todo - {x}) + (done + {x}) == all
  {
  }

  // Two complete visits of the same VMs, in whatever orders, leave the same tables.
  lemma VisitOrderIrrelevant(t: Tables, trace: Trace, trace': Trace, op: (VmRows, Vm) -> VmRows)
    requires Chain(t, trace, op) && Chain(t, trace', op) && Visited(trace) == Visited(trace')
    ensures var u, u' := Latest(t, trace), Latest(t, trace');
            && u.presence == u'.presence && u.inventory == u'.inventory && u.location == u'.location
            && multiset(u.events) == multiset(u'.events)
  {
    forall vm ensures ViewOf(Latest(t, trace), vm) == ViewOf(Latest(t, trace'), vm) {
      ChainView(t, trace, op, vm);
      ChainView(t, trace', op, vm);
    }
    ViewsDetermineTables(Latest(t, trace), Latest(t, trace'));
  }

  // ---------------------------------------------------------------- the store

  class Store {
    var presence: map<(Vm, Node), Presence>
    var inventory: map<(Vm, Node), Inventory>
    var location: map<Vm, Location>
    var events: seq<Event>
    const policy: Policy

    constructor (policy: Policy)
      ensures this.policy == policy && forall vm :: ViewOf(Contents(), vm) == EmptyRows
    {
      this.policy := policy;
      presence, inventory, location, events := map[], map[], map[], [];
    }

    ghost function Contents(): Tables
      reads this
    {
      Tables(presence, inventory, location, events)
    }

    method PutPresence(vm: Vm, node: Node, r: Presence)
      modifies this`presence
      ensures Touches(old(Contents()), Contents(), vm,
                      old(ViewOf(Contents(), vm)).(presence := old(ViewOf(Contents(), vm)).presence[node := r]))
    {
      SliceUpdate(presence, vm, node, r);
      presence := presence[(vm, node) := r];
    }

    method PutInventory(vm: Vm, node: Node, r: Inventory)
      modifies this`inventory
      ensures Touches(old(Contents()), Contents(), vm,
                      old(ViewOf(Contents(), vm)).(inventory := old(ViewOf(Contents(), vm)).inventory[node := r]))
    {
      SliceUpdate(inventory, vm, node, r);
      inventory := inventory[(vm, node) := r];
    }

    method AddEvent(e: Event)
      modifies this`events
      ensures Touches(old(Contents()), Contents(), e.vm,
                      old(ViewOf(Contents(), e.vm)).(events := old(ViewOf(Contents(), e.vm)).events + [e]))
    {
      forall w ensures EventsOf(events + [e], w) == EventsOf(events, w) + if e.vm == w then [e] else [] {
        EventsOfAppend(events, e, w);
      }
      events := events + [e];
    }

    // UPDATE vm_inventory SET status=?, hidden_at=NULL, deleted_at=NULL
    //  WHERE vm_uuid=? AND node=? AND status<>'hidden'
    method RestateInventory(vm: Vm, node: Node, status: Status)
      modifies this`inventory
      ensures Touches(old(Contents()), Contents(), vm,
                      old(ViewOf(Contents(), vm)).(inventory := Restate(old(ViewOf(Contents(), vm)).inventory, node, status)))
    {
      SliceAt(inventory, vm, node);
      if (vm, node) in inventory && inventory[(vm, node)].status != Hidden {
        var r := inventory[(vm, node)];
        PutInventory(vm, node, r.(status := status, hiddenAt := None, deletedAt := None));
      } else if (vm, node) in inventory {
        var m := Slice(inventory, vm);
        assert m[node := m[node]] == m;
      }
    }

    method PresenceUpsertSeen(vm: Vm, node: Node, ts: int, nic: Nic)
      modifies this`presence, this`inventory
      ensures Touches(old(Contents()), Contents(), vm, See(old(ViewOf(Contents(), vm)), node, ts, nic))
    {
      SliceAt(presence, vm, node);
      SliceAt(inventory, vm, node);
      var p := if (vm, node) in presence then Some(presence[(vm, node)]) else None;
      PutPresence(vm, node, SeenPresence(p, ts, nic));
      var i := if (vm, node) in inventory then Some(inventory[(vm, node)]) else None;
      PutInventory(vm, node, SeenInventory(i, ts, nic));
    }

    method MarkMissing(vm: Vm, node: Node, ts: int)
      requires (vm, node) in presence && Markable(presence[(vm, node)].status)
      modifies this`presence, this`inventory
      ensures Touches(old(Contents()), Contents(), vm, Mark(old(ViewOf(Contents(), vm)), node, ts))
    {
      SliceAt(presence, vm, node);
      var r := presence[(vm, node)];
      var since := if r.missingSince.Some? && r.missingSince.value != 0 then r.missingSince.value else ts;
      PutPresence(vm, node, r.(status := Missing, missingSince := Some(since),
                               missingCount := r.missingCount + 1, lastPush := ts));
      RestateInventory(vm, node, Missing);
    }

    // SELECT vm_uuid ... WHERE node=? AND status IN ('active','pending_migration')
    method SelectMarkable(node: Node) returns (rows: set<Vm>)
      ensures forall vm :: vm in rows <==>
                node in ViewOf(Contents(), vm).presence && Markable(ViewOf(Contents(), vm).presence[node].status)
    {
      rows := set k | k in presence && k.1 == node && Markable(presence[k].status) :: k.0;
      forall vm
        ensures (vm in rows <==>
                 var r := ViewOf(Contents(), vm).presence;
                 node in r && Markable(r[node].status))
      {
        SliceAt(presence, vm, node);
        if (vm, node) in presence && Markable(presence[(vm, node)].status) {
          assert (vm, node).1 == node && (vm, node).0 == vm;
        }
      }
    }

    method MarkRows(node: Node, rows: set<Vm>, ts: int)
      requires forall vm :: vm in rows ==>
                 node in ViewOf(Contents(), vm).presence
                 && Markable(ViewOf(Contents(), vm).presence[node].status)
      modifies this`presence, this`inventory
      ensures forall vm :: ViewOf(Contents(), vm) ==
                if vm in rows then Mark(old(ViewOf(Contents(), vm)), node, ts) else old(ViewOf(Contents(), vm))
    {
      ghost var op := (v: VmRows, vm: Vm) => Mark(v, node, ts);
      ghost var t := Contents();
      ghost var trace: Trace := [];
      var todo := rows;
      while todo != {}
        invariant todo !! Visited(trace) && todo + Visited(trace) == rows
        invariant Chain(t, trace, op) && Latest(t, trace) == Contents()
        decreases |todo|
      {
        var vm :| vm in todo;
        TurnTaken(todo, Visited(trace), rows, vm);
        todo := todo - {vm};
        ChainView(t, trace, op, vm);
        SliceAt(presence, vm, node);
        MarkMissing(vm, node, ts);
        ChainExtend(t, trace, op, vm, Contents());
        trace := trace + [(vm, Contents())];
      }
      ChainViews(t, trace, op);
    }

    // The rows are selected first and then visited, in whatever order.
    method MarkMissingOnNode(node: Node, seen: set<Vm>, ts: int)
      modifies this`presence, this`inventory
      ensures forall vm :: ViewOf(Contents(), vm) ==
                if vm in seen then old(ViewOf(Contents(), vm)) else Mark(old(ViewOf(Contents(), vm)), node, ts)
    {
      var rows := SelectMarkable(node);
      MarkRows(node, rows - seen, ts);
    }

    method OldNodeMissingEnough(vm: Vm, oldNode: Node, ts: int) returns (enough: bool)
      ensures enough <==> MissingEnough(ViewOf(Contents(), vm), oldNode, ts, policy)
    {
      SliceAt(presence, vm, oldNode);
      if (vm, oldNode) !in presence {
        return false;
      }
      var r := presence[(vm, oldNode)];
      var since := if r.missingSince.Some? then r.missingSince.value else 0;
      if r.status in {Missing, Migrated, Purged} && r.missingCount >= policy.confirmPushes {
        return true;
      }
      if r.status in {Missing, Migrated, Purged} && since != 0 && ts - since >= policy.confirmSeconds {
        return true;
      }
      enough := false;
    }

    method SetLocation(vm: Vm, at: Location)
      modifies this`location
      ensures Touches(old(Contents()), Contents(), vm, old(ViewOf(Contents(), vm)).(location := Some(at)))
    {
      location := location[vm := at];
    }

    method FlagPending(vm: Vm, node: Node, other: Node)
      modifies this`presence
      ensures Touches(old(Contents()), Contents(), vm,
                      old(ViewOf(Contents(), vm)).(presence := Flag(old(ViewOf(Contents(), vm)).presence, node, other)))
    {
      SliceAt(presence, vm, node);
      if (vm, node) in presence {
        PutPresence(vm, node, presence[(vm, node)].(status := Pending, pendingNode := Some(other)));
      }
    }

    // SELECT 1 FROM vm_migration_events WHERE vm_uuid=? AND old_node=? AND new_node=? AND time>=?
    method EventRecorded(vm: Vm, oldNode: Node, newNode: Node, ts: int) returns (found: bool)
      ensures found <==> RecentEvent(ViewOf(Contents(), vm).events, oldNode, newNode, ts)
    {
      found := exists e ::
        (e in events && e.vm == vm && e.oldNode == oldNode && e.newNode == newNode && e.time >= ts - EVENT_WINDOW);
      if found {
        var e :| e in events && e.vm == vm && e.oldNode == oldNode && e.newNode == newNode
          && e.time >= ts - EVENT_WINDOW;
        EventsOfContains(events, vm, e);
      }
      if RecentEvent(EventsOf(events, vm), oldNode, newNode, ts) {
        var i :| 0 <= i < |EventsOf(events, vm)| && EventsOf(events, vm)[i].oldNode == oldNode
          && EventsOf(events, vm)[i].newNode == newNode && EventsOf(events, vm)[i].time >= ts - EVENT_WINDOW;
        EventsOfContains(events, vm, EventsOf(events, vm)[i]);
      }
    }

    method PendMove(vm: Vm, prior: Location, node: Node, ts: int)
      modifies this`presence, this`inventory, this`location
      ensures Touches(old(Contents()), Contents(), vm, Pend(old(ViewOf(Contents(), vm)), prior, node, ts))
    {
      FlagPending(vm, prior.node, node);
      FlagPending(vm, node, prior.node);
      RestateInventory(vm, prior.node, Pending);
      RestateInventory(vm, node, Pending);
      SetLocation(vm, prior.(lastSeen := Max(prior.lastSeen, ts), alert := AlertPending));
    }

    method RecordMove(vm: Vm, prior: Location, node: Node, ts: int)
      modifies this`events
      ensures Touches(old(Contents()), Contents(), vm, Recorded(old(ViewOf(Contents(), vm)), vm, prior, node, ts))
    {
      var recorded := EventRecorded(vm, prior.node, node, ts);
      if !recorded {
        AddEvent(Event(ts, vm, prior.node, node, prior.lastSeen, ts));
      }
    }

    method MigratePresence(vm: Vm, from: Node, to: Node, ts: int)
      modifies this`presence
      ensures Touches(old(Contents()), Contents(), vm, MigratedRow(old(ViewOf(Contents(), vm)), from, to, ts))
    {
      SliceAt(presence, vm, from);
      if (vm, from) in presence {
        var r := presence[(vm, from)];
        PutPresence(vm, from, r.(status := Migrated, migratedTo := Some(to), migratedAt := Some(ts)));
      }
    }

    method ConfirmMove(vm: Vm, prior: Location, node: Node, ts: int, nic: Nic)
      modifies this`presence, this`inventory, this`location, this`events
      ensures Touches(old(Contents()), Contents(), vm, Move(old(ViewOf(Contents(), vm)), vm, prior, node, ts, nic))
    {
      RecordMove(vm, prior, node, ts);
      ghost var u := Contents();
      MigratePresence(vm, prior.node, node, ts);
      TouchesTwice(old(Contents()), u, Contents(), vm, ViewOf(u, vm), ViewOf(Contents(), vm));
      RelabelAndPlace(vm, prior, node, ts, nic);
    }

    method RelabelAndPlace(vm: Vm, prior: Location, node: Node, ts: int, nic: Nic)
      modifies this`inventory, this`location
      ensures Touches(old(Contents()), Contents(), vm, Placed(old(ViewOf(Contents(), vm)), prior, node, ts, nic))
    {
      RestateInventory(vm, prior.node, Migrated);
      SetLocation(vm, Location(node, prior.firstSeen, ts, Some(prior.node), Some(ts), prior.moveCount + 1,
                               nic.iface, nic.bridge, AlertMigrated));
    }

    method CreateOrUpdateLocation(vm: Vm, node: Node, ts: int, nic: Nic)
      modifies this`presence, this`inventory, this`location, this`events
      ensures Touches(old(Contents()), Contents(), vm, Locate(old(ViewOf(Contents(), vm)), vm, node, ts, nic, policy))
    {
      if vm !in location {
        SetLocation(vm, Location(node, ts, ts, None, None, 0, nic.iface, nic.bridge, AlertOk));
        return;
      }
      var prior := location[vm];
      if prior.node == node {
        SetLocation(vm, prior.(lastSeen := Max(prior.lastSeen, ts), iface := nic.iface, bridge := nic.bridge,
                               alert := AlertOk));
        return;
      }
      var confirmed := OldNodeMissingEnough(vm, prior.node, ts);
      if confirmed {
        ConfirmMove(vm, prior, node, ts, nic);
      } else {
        PendMove(vm, prior, node, ts);
      }
    }

    method UpsertReported(node: Node, seen: set<Vm>, reported: map<Vm, Nic>, ts: int)
      modifies this`presence, this`inventory
      ensures forall vm :: ViewOf(Contents(), vm) ==
                if vm in seen then See(old(ViewOf(Contents(), vm)), node, ts, NicOf(reported, vm))
                else old(ViewOf(Contents(), vm))
    {
      ghost var op := (v: VmRows, vm: Vm) => See(v, node, ts, NicOf(reported, vm));
      ghost var t := Contents();
      ghost var trace: Trace := [];
      var todo := seen;
      while todo != {}
        invariant todo !! Visited(trace) && todo + Visited(trace) == seen
        invariant Chain(t, trace, op) && Latest(t, trace) == Contents()
        decreases |todo|
      {
        var vm :| vm in todo;
        TurnTaken(todo, Visited(trace), seen, vm);
        todo := todo - {vm};
        PresenceUpsertSeen(vm, node, ts, NicOf(reported, vm));
        ChainExtend(t, trace, op, vm, Contents());
        trace := trace + [(vm, Contents())];
      }
      ChainViews(t, trace, op);
    }

    method LocateReported(node: Node, seen: set<Vm>, reported: map<Vm, Nic>, ts: int)
      modifies this`presence, this`inventory, this`location, this`events
      ensures forall vm :: ViewOf(Contents(), vm) ==
                if vm in seen then Locate(old(ViewOf(Contents(), vm)), vm, node, ts, NicOf(reported, vm), policy)
                else old(ViewOf(Contents(), vm))
    {
      ghost var op := (v: VmRows, vm: Vm) => Locate(v, vm, node, ts, NicOf(reported, vm), policy);
      ghost var t := Contents();
      ghost var trace: Trace := [];
      var todo := seen;
      while todo != {}
        invariant todo !! Visited(trace) && todo + Visited(trace) == seen
        invariant Chain(t, trace, op) && Latest(t, trace) == Contents()
        decreases |todo|
      {
        var vm :| vm in todo;
        TurnTaken(todo, Visited(trace), seen, vm);
        todo := todo - {vm};
        CreateOrUpdateLocation(vm, node, ts, NicOf(reported, vm));
        ChainExtend(t, trace, op, vm, Contents());
        trace := trace + [(vm, Contents())];
      }
      ChainViews(t, trace, op);
    }

    // Both loops may visit the reported VMs in any order: the views, and with them
    // the tables, come out the same.
    method ProcessNodeVmPresence(node: Node, reported: map<Vm, Nic>, ts: int, complete: bool)
      modifies this`presence, this`inventory, this`location, this`events
      ensures forall vm :: ViewOf(Contents(), vm) ==
                Push(old(ViewOf(Contents(), vm)), vm, node, ts, Reported(reported, vm), complete, policy)
    {
      var seen := set vm | vm in reported && RealVm(vm);
      UpsertReported(node, seen, reported, ts);
      if complete {
        MarkMissingOnNode(node, seen, ts);
      }
      LocateReported(node, seen, reported, ts);
    }

    // SELECT ... WHERE status='migrated' ... LIMIT 500, in no stated order.
    method SelectPurgeable(cutoff: int) returns (rows: set<(Vm, Node)>)
      ensures |rows| <= 500
      ensures forall k :: k in rows ==> k in presence && Purgeable(presence[k], cutoff)
      ensures |rows| < 500 ==> forall k :: k in presence && Purgeable(presence[k], cutoff) ==> k in rows
    {
      var eligible := set k | k in presence && Purgeable(presence[k], cutoff);
      rows := {};
      while eligible != {} && |rows| < 500
        invariant |rows| <= 500 && eligible !! rows
        invariant eligible + rows == set k | k in presence && Purgeable(presence[k], cutoff)
        decreases |eligible|
      {
        var k :| k in eligible;
        eligible := eligible - {k};
        rows := rows + {k};
      }
    }

    method AutoPurgeMigratedVms(now: int) returns (purged: set<(Vm, Node)>)
      modifies this`presence, this`inventory
      ensures |purged| <= 500
      ensures forall k :: k in purged ==>
                k in old(presence) && Purgeable(old(presence)[k], now - policy.purgeSeconds)
      ensures |purged| < 500 ==>
                forall k :: k in old(presence) && Purgeable(old(presence)[k], now - policy.purgeSeconds) ==> k in purged
      ensures forall vm :: ViewOf(Contents(), vm) == PurgeRows(old(ViewOf(Contents(), vm)), NodesOf(purged, vm), now)
    {
      purged := SelectPurgeable(now - policy.purgeSeconds);
      PurgeAll(purged, now);
    }

    method PurgeAll(rows: set<(Vm, Node)>, now: int)
      modifies this`presence, this`inventory
      ensures forall vm :: ViewOf(Contents(), vm) == PurgeRows(old(ViewOf(Contents(), vm)), NodesOf(rows, vm), now)
    {
      var done: set<(Vm, Node)> := {};
      forall vm ensures PurgeRows(ViewOf(Contents(), vm), NodesOf(done, vm), now) == ViewOf(Contents(), vm) {
        assert NodesOf(done, vm) == {};
        PurgeNothing(ViewOf(Contents(), vm), now);
      }
      while done != rows
        invariant done <= rows
        invariant forall vm :: ViewOf(Contents(), vm) == PurgeRows(old(ViewOf(Contents(), vm)), NodesOf(done, vm), now)
        decreases |rows - done|
      {
        var k :| k in rows - done;
        PurgeOne(k.0, k.1, now);
        forall vm ensures ViewOf(Contents(), vm) == PurgeRows(old(ViewOf(Contents(), vm)), NodesOf(done + {k}, vm), now) {
          NodesOfAdd(done, k, vm);
          if vm == k.0 { PurgeOneMore(old(ViewOf(Contents(), vm)), NodesOf(done, vm), k.1, now); }
        }
        assert rows - (done + {k}) == rows - done - {k};
        done := done + {k};
      }
    }

    method PurgeOne(vm: Vm, node: Node, ts: int)
      modifies this`presence, this`inventory
      ensures Touches(old(Contents()), Contents(), vm, PurgeAt(old(ViewOf(Contents(), vm)), node, ts))
    {
      SliceAt(presence, vm, node);
      SliceAt(inventory, vm, node);
      if (vm, node) in presence {
        PutPresence(vm, node, presence[(vm, node)].(status := Purged, purgedAt := Some(ts)));
      }
      if (vm, node) in inventory {
        PutInventory(vm, node, PurgedInventory(inventory[(vm, node)], ts));
      }
    }
  }

  function Reported(reported: map<Vm, Nic>, vm: Vm): Option<Nic> {
    if vm in reported && RealVm(vm) then Some(reported[vm]) else None
  }

  // seen_vm_locations.get(vm_uuid) or {}, with its defaults
  function NicOf(reported: map<Vm, Nic>, vm: Vm): Nic {
    if vm in reported then reported[vm] else Nic("-", "-")
  }

  function NodesOf(keys: set<(Vm, Node)>, vm: Vm): set<Node> {
    set k | k in keys && k.0 == vm :: k.1
  }

  lemma NodesOfAdd(keys: set<(Vm, Node)>, k: (Vm, Node), vm: Vm)
    requires k !in keys
    ensures NodesOf(keys + {k}, vm) == if vm == k.0 then NodesOf(keys, vm) + {k.1} else NodesOf(keys, vm)
    ensures k.1 !in NodesOf(keys, k.0)
  {
    if vm == k.0 {
      assert k in keys + {k};
      forall n ensures n in NodesOf(keys + {k}, vm) <==> n in NodesOf(keys, vm) + {k.1} {}
    } else {
      forall n ensures n in NodesOf(keys + {k}, vm) <==> n in NodesOf(keys, vm) {}
    }
  }

  lemma PurgeNothing(v: VmRows, ts: int)
    ensures PurgeRows(v, {}, ts) == v
  {
    assert PurgeRows(v, {}, ts).presence == v.presence;
    assert PurgeRows(v, {}, ts).inventory == v.inventory;
  }

  lemma PurgeOneMore(v: VmRows, nodes: set<Node>, n: Node, ts: int)
    requires n !in nodes
    ensures PurgeRows(v, nodes + {n}, ts) == PurgeAt(PurgeRows(v, nodes, ts), n, ts)
  {
    assert PurgeRows(v, nodes + {n}, ts).presence == PurgeAt(PurgeRows(v, nodes, ts), n, ts).presence;
    assert PurgeRows(v, nodes + {n}, ts).inventory == PurgeAt(PurgeRows(v, nodes, ts), n, ts).inventory;
  }
}
