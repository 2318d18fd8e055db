/** What one VM's rows become under pushes, location steps and purges.

    vm_node_presence, vm_inventory, vm_location_latest and vm_migration_events are
    keyed by VM, so the functions here describe the rows of one VM.
  */
module VmPresence {
  import opened Options

  type Vm = string
  type Node = string

  datatype Status = Active | Pending | Missing | Migrated | Purged | Hidden

  datatype Presence = Presence(
    status: Status,
    firstSeen: int,
    lastSeen: int,
    lastPush: int,
    missingSince: Option<int>,
    missingCount: int,
    presentCount: int,
    pendingNode: Option<Node>,
    migratedTo: Option<Node>,
    migratedAt: Option<int>,
    purgedAt: Option<int>,
    iface: string,
    bridge: string)

  datatype Inventory = Inventory(
    status: Status,
    firstSeen: int,
    lastSeen: int,
    iface: string,
    bridge: string,
    hiddenAt: Option<int>,
    deletedAt: Option<int>)

  datatype AlertLevel = AlertOk | AlertPending | AlertMigrated

  datatype Location = Location(
    node: Node,
    firstSeen: int,
    lastSeen: int,
    previousNode: Option<Node>,
    movedAt: Option<int>,
    moveCount: int,
    iface: string,
    bridge: string,
    alert: AlertLevel)

  datatype Event = Event(time: int, vm: Vm, oldNode: Node, newNode: Node, oldLastSeen: int, newSeen: int)

  datatype VmRows = VmRows(
    presence: map<Node, Presence>,
    inventory: map<Node, Inventory>,
    location: Option<Location>,
    events: seq<Event>)

  const EmptyRows := VmRows(map[], map[], None, [])

  // Where a push saw the VM.
  datatype Nic = Nic(iface: string, bridge: string)

  // VM_MIGRATION_CONFIRM_PUSHES, VM_MIGRATION_CONFIRM_SECONDS, VM_MIGRATION_PURGE_SECONDS
  datatype Policy = Policy(confirmPushes: int, confirmSeconds: int, purgeSeconds: int) {
    predicate Valid() {
      confirmPushes >= 1 && confirmSeconds >= 1 && purgeSeconds >= 3600
    }
  }

  const EVENT_WINDOW := 86400

  function Max(a: int, b: int): int {
    if a >= b then a else b
  }

  // ---------------------------------------------------------------- _presence_upsert_seen

  function SeenPresence(prior: Option<Presence>, ts: int, nic: Nic): Presence {
    match prior
    case None =>
      Presence(Active, ts, ts, ts, None, 0, 1, None, None, None, None, nic.iface, nic.bridge)
    case Some(r) =>
      Presence(Active, r.firstSeen, Max(r.lastSeen, ts), ts, None, 0, r.presentCount + 1,
               None, None, None, None, nic.iface, nic.bridge)
  }

  function SeenInventory(prior: Option<Inventory>, ts: int, nic: Nic): Inventory {
    match prior
    case None => Inventory(Active, ts, ts, nic.iface, nic.bridge, None, None)
    case Some(r) =>
      if r.status == Hidden
      then r.(lastSeen := Max(r.lastSeen, ts), iface := nic.iface, bridge := nic.bridge)
      else Inventory(Active, r.firstSeen, Max(r.lastSeen, ts), nic.iface, nic.bridge, None, None)
  }

  function Row<V>(m: map<Node, V>, n: Node): Option<V> {
    if n in m then Some(m[n]) else None
  }

  function See(v: VmRows, node: Node, ts: int, nic: Nic): VmRows {
    v.(presence := v.presence[node := SeenPresence(Row(v.presence, node), ts, nic)],
       inventory := v.inventory[node := SeenInventory(Row(v.inventory, node), ts, nic)])
  }

  // ---------------------------------------------------------------- _mark_missing_on_node

  predicate Markable(s: Status) {
    s == Active || s == Pending
  }

  // Python's `missing_since or seen_ts`: a stored 0 counts as absent.
  function MarkedSince(since: Option<int>, ts: int): int {
    if since.Some? && since.value != 0 then since.value else ts
  }

  function MarkedPresence(r: Presence, ts: int): Presence {
    r.(status := Missing, missingSince := Some(MarkedSince(r.missingSince, ts)),
       missingCount := r.missingCount + 1, lastPush := ts)
  }

  // UPDATE vm_inventory SET status=?, hidden_at=NULL, deleted_at=NULL ... unless hidden
  function Restated(r: Inventory, status: Status): Inventory {
    if r.status == Hidden then r else r.(status := status, hiddenAt := None, deletedAt := None)
  }

  function Restate(m: map<Node, Inventory>, node: Node, status: Status): map<Node, Inventory> {
    if node in m then m[node := Restated(m[node], status)] else m
  }

  function Mark(v: VmRows, node: Node, ts: int): VmRows {
    if node in v.presence && Markable(v.presence[node].status)
    then v.(presence := v.presence[node := MarkedPresence(v.presence[node], ts)],
            inventory := Restate(v.inventory, node, Missing))
    else v
  }

  // ---------------------------------------------------------------- _create_or_update_location

  // _old_node_missing_enough
  predicate MissingEnough(v: VmRows, oldNode: Node, ts: int, policy: Policy) {
    && oldNode in v.presence
    && (var r := v.presence[oldNode];
        var since := if r.missingSince.Some? then r.missingSince.value else 0;
        && r.status in {Missing, Migrated, Purged}
        && (r.missingCount >= policy.confirmPushes || (since != 0 && ts - since >= policy.confirmSeconds)))
  }

  function Flag(m: map<Node, Presence>, node: Node, other: Node): map<Node, Presence> {
    if node in m then m[node := m[node].(status := Pending, pendingNode := Some(other))] else m
  }

  function Pend(v: VmRows, prior: Location, node: Node, ts: int): VmRows {
    v.(presence := Flag(Flag(v.presence, prior.node, node), node, prior.node),
       inventory := Restate(Restate(v.inventory, prior.node, Pending), node, Pending),
       location := Some(prior.(lastSeen := Max(prior.lastSeen, ts), alert := AlertPending)))
  }

  predicate RecentEvent(events: seq<Event>, oldNode: Node, newNode: Node, ts: int) {
    exists i :: 0 <= i < |events| && events[i].oldNode == oldNode && events[i].newNode == newNode
      && events[i].time >= ts - EVENT_WINDOW
  }

  // INSERT INTO vm_migration_events ... WHERE NOT EXISTS (the same move within a day)
  function Recorded(v: VmRows, vm: Vm, prior: Location, node: Node, ts: int): VmRows {
    if RecentEvent(v.events, prior.node, node, ts) then v
    else v.(events := v.events + [Event(ts, vm, prior.node, node, prior.lastSeen, ts)])
  }

  function MigratedRow(v: VmRows, from: Node, to: Node, ts: int): VmRows {
    if from in v.presence
    then v.(presence := v.presence[from := v.presence[from].(status := Migrated, migratedTo := Some(to),
                                                             migratedAt := Some(ts))])
    else v
  }

  function Placed(v: VmRows, prior: Location, node: Node, ts: int, nic: Nic): VmRows {
    v.(inventory := Restate(v.inventory, prior.node, Migrated),
       location := Some(Location(node, prior.firstSeen, ts, Some(prior.node), Some(ts), prior.moveCount + 1,
                                 nic.iface, nic.bridge, AlertMigrated)))
  }

  function Move(v: VmRows, vm: Vm, prior: Location, node: Node, ts: int, nic: Nic): VmRows {
    Placed(MigratedRow(Recorded(v, vm, prior, node, ts), prior.node, node, ts), prior, node, ts, nic)
  }

  function Locate(v: VmRows, vm: Vm, node: Node, ts: int, nic: Nic, policy: Policy): VmRows {
    match v.location
    case None =>
      v.(location := Some(Location(node, ts, ts, None, None, 0, nic.iface, nic.bridge, AlertOk)))
    case Some(prior) =>
      if prior.node == node then
        v.(location := Some(prior.(lastSeen := Max(prior.lastSeen, ts), iface := nic.iface,
                                 bridge := nic.bridge, alert := AlertOk)))
      else if MissingEnough(v, prior.node, ts, policy) then Move(v, vm, prior, node, ts, nic)
      else Pend(v, prior, node, ts)
  }

  // ---------------------------------------------------------------- one push, one VM

  predicate RealVm(vm: Vm) {
    vm != "" && vm != "-"
  }

  // process_node_vm_presence, as far as this VM is concerned.
  function Push(v: VmRows, vm: Vm, node: Node, ts: int, nic: Option<Nic>, complete: bool, policy: Policy): VmRows {
    match nic
    case Some(where) => Locate(See(v, node, ts, where), vm, node, ts, where, policy)
    case None => if complete then Mark(v, node, ts) else v
  }

  // ---------------------------------------------------------------- auto_purge_migrated_vms

  predicate Purgeable(r: Presence, cutoff: int) {
    r.status == Migrated && r.purgedAt.None? && r.migratedAt.Some? && r.migratedAt.value <= cutoff
  }

  function PurgedInventory(r: Inventory, ts: int): Inventory {
    if r.status == Hidden then r
    else r.(status := Purged,
            hiddenAt := if r.hiddenAt.Some? then r.hiddenAt else Some(ts),
            deletedAt := if r.deletedAt.Some? then r.deletedAt else Some(ts))
  }

  function PurgeAt(v: VmRows, node: Node, ts: int): VmRows {
    v.(presence := if node in v.presence
                   then v.presence[node := v.presence[node].(status := Purged, purgedAt := Some(ts))]
                   else v.presence,
       inventory := if node in v.inventory
                    then v.inventory[node := PurgedInventory(v.inventory[node], ts)]
                    else v.inventory)
  }

  // The rows of this VM that one purge selected.
  function PurgeRows(v: VmRows, nodes: set<Node>, ts: int): VmRows {
    v.(presence := map n | n in v.presence ::
         if n in nodes then v.presence[n].(status := Purged, purgedAt := Some(ts)) else v.presence[n],
       inventory := map n | n in v.inventory ::
         if n in nodes then PurgedInventory(v.inventory[n], ts) else v.inventory[n])
  }
}
