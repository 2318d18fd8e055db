/** What every run of pushes and purges keeps, for one VM.

    `Absences` is a history of the complete inventories of a node that lacked the
    VM since that node last reported it; nothing in the tables records it.
  */
module VmPresenceRuns {
  import opened Options
  import opened VmPresence

  datatype Action =
    | Pushed(node: Node, ts: int, nic: Option<Nic>, complete: bool)
    | PurgedRows(nodes: set<Node>, now: int)

  // auto_purge_migrated_vms selects rows that are due, at most 500 of all VMs.
  predicate Due(v: VmRows, a: Action, policy: Policy) {
    a.PurgedRows? ==>
      forall n :: n in a.nodes ==> n in v.presence && Purgeable(v.presence[n], a.now - policy.purgeSeconds)
  }

  function Do(v: VmRows, vm: Vm, a: Action, policy: Policy): VmRows {
    match a
    case Pushed(node, ts, nic, complete) => Push(v, vm, node, ts, nic, complete, policy)
    case PurgedRows(nodes, now) => PurgeRows(v, nodes, now)
  }

  function After(h: seq<Action>, vm: Vm, policy: Policy): VmRows {
    if h == [] then EmptyRows else Do(After(h[..|h| - 1], vm, policy), vm, h[|h| - 1], policy)
  }

  ghost predicate Legal(h: seq<Action>, vm: Vm, policy: Policy) {
    && policy.Valid()
    && forall i {:trigger h[i]} :: 0 <= i < |h| ==> Due(After(h[..i], vm, policy), h[i], policy)
  }

  lemma LegalPrefix(h: seq<Action>, vm: Vm, policy: Policy)
    requires Legal(h, vm, policy) && h != []
    ensures Legal(h[..|h| - 1], vm, policy)
    ensures Due(After(h[..|h| - 1], vm, policy), h[|h| - 1], policy)
  {
    var g := h[..|h| - 1];
    forall i | 0 <= i < |g| ensures Due(After(g[..i], vm, policy), g[i], policy) {
      assert g[..i] == h[..i] && g[i] == h[i];
    }
  }

  // ---------------------------------------------------------------- history

  // Times of the complete inventories from n that lacked the VM since n last saw it.
  function Absences(h: seq<Action>, n: Node): seq<int> {
    if h == [] then []
    else
      var before := Absences(h[..|h| - 1], n);
      match h[|h| - 1]
      case Pushed(node, ts, nic, complete) =>
        if node != n then before
        else if nic.Some? then []
        else if complete then before + [ts]
        else before
      case PurgedRows(_, _) => before
  }

  function Moves(h: seq<Action>, vm: Vm, policy: Policy): nat {
    if h == [] then 0
    else
      var u, v := After(h[..|h| - 1], vm, policy), After(h, vm, policy);
      Moves(h[..|h| - 1], vm, policy)
      + if u.location.Some? && v.location.Some? && u.location.value.node != v.location.value.node then 1 else 0
  }

  // ---------------------------------------------------------------- the counters

  // What a presence row may claim, given the absences that really happened.
  ghost predicate Honest(r: Presence, absences: seq<int>) {
    && r.status != Hidden
    && 0 <= r.missingCount <= |absences|
    && (r.missingSince.None? <==> absences == [])
    && (r.status in {Missing, Migrated, Purged} ==> absences != [])
    && (r.missingSince.Some? && r.missingSince.value != 0 ==> r.missingSince.value in absences)
    && (r.missingSince.Some? && absences[0] != 0 ==> r.missingSince.value == absences[0])
  }

  ghost predicate Honesty(v: VmRows, h: seq<Action>) {
    forall n :: n in v.presence ==> Honest(v.presence[n], Absences(h, n))
  }

  lemma LastAbsences(h: seq<Action>, a: Action, n: Node)
    ensures Absences(h + [a], n) ==
            if !a.Pushed? || a.node != n then Absences(h, n)
            else if a.nic.Some? then []
            else if a.complete then Absences(h, n) + [a.ts]
            else Absences(h, n)
  {
    assert (h + [a])[..|h|] == h;
  }

  // The location step changes no counter, and marks migrated only a missing row.
  lemma LocateKeepsCounters(v: VmRows, vm: Vm, node: Node, ts: int, nic: Nic, policy: Policy)
    ensures var w := Locate(v, vm, node, ts, nic, policy);
            && w.presence.Keys == v.presence.Keys
            && forall n :: n in v.presence ==>
                 && w.presence[n].missingCount == v.presence[n].missingCount
                 && w.presence[n].missingSince == v.presence[n].missingSince
                 && (|| w.presence[n].status == v.presence[n].status
                     || w.presence[n].status == Pending
                     || (w.presence[n].status == Migrated && v.presence[n].status in {Missing, Migrated, Purged}))
  {
    hide Pend, Move;
    if v.location.Some? {
      PendKeepsCounters(v, v.location.value, node, ts);
      MoveKeepsCounters(v, vm, v.location.value, node, ts, nic);
    }
  }

  lemma PendKeepsCounters(v: VmRows, prior: Location, node: Node, ts: int)
    ensures var w := Pend(v, prior, node, ts);
            && w.presence.Keys == v.presence.Keys
            && forall n :: n in v.presence ==>
                 && w.presence[n].missingCount == v.presence[n].missingCount
                 && w.presence[n].missingSince == v.presence[n].missingSince
                 && w.presence[n].status in {v.presence[n].status, Pending}
  {
    hide Restate, Restated;
  }

  lemma MoveKeepsCounters(v: VmRows, vm: Vm, prior: Location, node: Node, ts: int, nic: Nic)
    ensures var w := Move(v, vm, prior, node, ts, nic);
            && w.presence.Keys == v.presence.Keys
            && forall n :: n in v.presence ==>
                 && w.presence[n].missingCount == v.presence[n].missingCount
                 && w.presence[n].missingSince == v.presence[n].missingSince
                 && (n != prior.node ==> w.presence[n].status == v.presence[n].status)
                 && (n == prior.node ==> w.presence[n].status == Migrated)
  {
    hide Restate, Restated;
  }

  // missing_count never over-counts, and missing_since is a real absence.
  lemma HonestyStep(h: seq<Action>, a: Action, v: VmRows, vm: Vm, policy: Policy)
    requires Honesty(v, h) && Due(v, a, policy)
    ensures Honesty(Do(v, vm, a, policy), h + [a])
  {
    var w := Do(v, vm, a, policy);
    forall n | n in w.presence ensures Honest(w.presence[n], Absences(h + [a], n)) {
      LastAbsences(h, a, n);
      if a.Pushed? && a.nic.Some? {
        LocateKeepsCounters(See(v, a.node, a.ts, a.nic.value), vm, a.node, a.ts, a.nic.value, policy);
        HonestySeen(h, a, v, n);
      } else {
        HonestyUnseen(h, a, v, vm, n, policy);
      }
    }
  }

  lemma HonestySeen(h: seq<Action>, a: Action, v: VmRows, n: Node)
    requires Honesty(v, h) && a.Pushed? && a.nic.Some?
    requires n in See(v, a.node, a.ts, a.nic.value).presence
    ensures Honest(See(v, a.node, a.ts, a.nic.value).presence[n], Absences(h + [a], n))
  {
    LastAbsences(h, a, n);
  }

  lemma HonestyUnseen(h: seq<Action>, a: Action, v: VmRows, vm: Vm, n: Node, policy: Policy)
    requires Honesty(v, h) && Due(v, a, policy) && (a.Pushed? ==> a.nic.None?) && n in Do(v, vm, a, policy).presence
    ensures Honest(Do(v, vm, a, policy).presence[n], Absences(h + [a], n))
  {
    LastAbsences(h, a, n);
  }

  lemma {:induction false} HonestyHolds(h: seq<Action>, vm: Vm, policy: Policy)
    requires Legal(h, vm, policy)
    ensures Honesty(After(h, vm, policy), h)
  {
    if h != [] {
      var g, a := h[..|h| - 1], h[|h| - 1];
      LegalPrefix(h, vm, policy);
      HonestyHolds(g, vm, policy);
      HonestyStep(g, a, After(g, vm, policy), vm, policy);
      assert h == g + [a];
    }
  }

  // ---------------------------------------------------------------- invariants

  // The row at the VM's current location exists and is not migrated or purged.
  ghost predicate HomeRow(v: VmRows) {
    v.location.Some? ==>
      && v.location.value.node in v.presence
      && v.presence[v.location.value.node].status in {Active, Pending, Missing}
  }

  // Inventory rows exist exactly beside presence rows and show the same status,
  // unless an administrator hid them.
  ghost predicate Mirrored(v: VmRows) {
    && v.inventory.Keys == v.presence.Keys
    && forall n :: n in v.presence ==>
         v.inventory[n].status == Hidden || v.inventory[n].status == v.presence[n].status
  }

  // Every event is of this VM, and there are at most as many as moves.
  ghost predicate EventsBounded(v: VmRows, vm: Vm) {
    && (forall i :: 0 <= i < |v.events| ==> v.events[i].vm == vm)
    && |v.events| <= (if v.location.Some? then v.location.value.moveCount else 0)
    && (v.location.None? ==> v.presence == map[])
  }

  ghost predicate Inv(v: VmRows, vm: Vm) {
    HomeRow(v) && Mirrored(v) && EventsBounded(v, vm)
  }

  lemma InvStep(v: VmRows, vm: Vm, a: Action, policy: Policy)
    requires Inv(v, vm) && Due(v, a, policy)
    ensures Inv(Do(v, vm, a, policy), vm)
  {
    HomeStep(v, vm, a, policy);
    MirrorStep(v, vm, a, policy);
    EventsStep(v, vm, a, policy);
  }

  lemma HomeStep(v: VmRows, vm: Vm, a: Action, policy: Policy)
    requires Inv(v, vm) && Due(v, a, policy)
    ensures HomeRow(Do(v, vm, a, policy))
  {
  }

  lemma MirrorStep(v: VmRows, vm: Vm, a: Action, policy: Policy)
    requires Inv(v, vm) && Due(v, a, policy)
    ensures Mirrored(Do(v, vm, a, policy))
  {
    if a.Pushed? && a.nic.Some? {
      var w := See(v, a.node, a.ts, a.nic.value);
      MirrorLocate(w, vm, a.node, a.ts, a.nic.value, policy);
    }
  }

  lemma MirrorLocate(v: VmRows, vm: Vm, node: Node, ts: int, nic: Nic, policy: Policy)
    requires Mirrored(v)
    ensures Mirrored(Locate(v, vm, node, ts, nic, policy))
  {
    if v.location.Some? && v.location.value.node != node {
      MirrorPend(v, v.location.value, node, ts);
      MirrorMove(v, vm, v.location.value, node, ts, nic);
    }
  }

  lemma MirrorPend(v: VmRows, prior: Location, node: Node, ts: int)
    requires Mirrored(v)
    ensures Mirrored(Pend(v, prior, node, ts))
  {
  }

  lemma MirrorMove(v: VmRows, vm: Vm, prior: Location, node: Node, ts: int, nic: Nic)
    requires Mirrored(v)
    ensures Mirrored(Move(v, vm, prior, node, ts, nic))
  {
  }

  lemma EventsStep(v: VmRows, vm: Vm, a: Action, policy: Policy)
    requires Inv(v, vm) && Due(v, a, policy)
    ensures EventsBounded(Do(v, vm, a, policy), vm)
  {
  }

  lemma {:induction false} InvHolds(h: seq<Action>, vm: Vm, policy: Policy)
    requires Legal(h, vm, policy)
    ensures Inv(After(h, vm, policy), vm)
  {
    if h != [] {
      LegalPrefix(h, vm, policy);
      InvHolds(h[..|h| - 1], vm, policy);
      InvStep(After(h[..|h| - 1], vm, policy), vm, h[|h| - 1], policy);
    }
  }

  // After a complete push from a node, the VM's row there is active or pending
  // exactly when the push contained the VM.
  lemma CompletePushDecides(v: VmRows, vm: Vm, node: Node, ts: int, nic: Option<Nic>, policy: Policy)
    requires Inv(v, vm)
    ensures var w := Push(v, vm, node, ts, nic, true, policy);
            (node in w.presence && Markable(w.presence[node].status)) <==> nic.Some?
  {
  }

  // move_count counts exactly the location changes of the run.
  lemma {:induction false} MoveCountExact(h: seq<Action>, vm: Vm, policy: Policy)
    ensures After(h, vm, policy).location.Some? ==>
              After(h, vm, policy).location.value.moveCount == Moves(h, vm, policy)
    ensures After(h, vm, policy).location.None? ==> Moves(h, vm, policy) == 0
  {
    if h != [] {
      MoveCountExact(h[..|h| - 1], vm, policy);
    }
  }

  // An administrator's hidden inventory row stays hidden under every push and purge.
  lemma HiddenStaysHidden(v: VmRows, vm: Vm, a: Action, policy: Policy, n: Node)
    requires n in v.inventory && v.inventory[n].status == Hidden
    ensures n in Do(v, vm, a, policy).inventory
    ensures Do(v, vm, a, policy).inventory[n].status == Hidden
    ensures Do(v, vm, a, policy).inventory[n].hiddenAt == v.inventory[n].hiddenAt
  {
  }

  // ---------------------------------------------------------------- migration

  ghost predicate Relocates(v: VmRows, w: VmRows) {
    v.location.Some? && w.location.Some? && v.location.value.node != w.location.value.node
  }

  // Enough complete inventories of the old node lacked the VM since it last saw
  // it, or one of them -- the first, unless that was stamped 0 -- is old enough.
  ghost predicate Justified(absences: seq<int>, ts: int, policy: Policy) {
    || |absences| >= policy.confirmPushes
    || exists i :: 0 <= i < |absences| && ts - absences[i] >= policy.confirmSeconds
         && (absences[0] != 0 ==> i == 0)
  }

  // A location moves only to the pushing node, only if the push saw the VM, and
  // only on absences of the old node that really happened after its last sighting.
  lemma MoveJustified(h: seq<Action>, a: Action, vm: Vm, policy: Policy)
    requires Legal(h + [a], vm, policy)
    requires Relocates(After(h, vm, policy), After(h + [a], vm, policy))
    ensures a.Pushed? && a.nic.Some?
    ensures After(h + [a], vm, policy).location.value.node == a.node
    ensures var from := After(h, vm, policy).location.value.node;
            Absences(h, from) != [] && Justified(Absences(h, from), a.ts, policy)
  {
    assert (h + [a])[..|h|] == h;
    LegalPrefix(h + [a], vm, policy);
    HonestyHolds(h, vm, policy);
    InvHolds(h, vm, policy);
    var v := After(h, vm, policy);
    var from := v.location.value.node;
    assert Honest(v.presence[from], Absences(h, from));
    var r := v.presence[from];
    if r.missingCount < policy.confirmPushes {
      var i :| 0 <= i < |Absences(h, from)| && Absences(h, from)[i] == r.missingSince.value;
      assert Absences(h, from)[0] != 0 ==> Absences(h, from)[0] == r.missingSince.value;
    }
  }

  // The exact condition, in terms of the tables: the old node's row says missing
  // and its counter or its first absence is past the bound.
  lemma MoveExactly(v: VmRows, vm: Vm, node: Node, ts: int, nic: Nic, complete: bool, policy: Policy)
    requires Inv(v, vm) && policy.Valid() && v.location.Some? && v.location.value.node != node
    ensures Relocates(v, Push(v, vm, node, ts, Some(nic), complete, policy)) <==>
            (var r := v.presence[v.location.value.node];
             && r.status == Missing
             && (|| r.missingCount >= policy.confirmPushes
                 || (r.missingSince.Some? && r.missingSince.value != 0
                     && ts - r.missingSince.value >= policy.confirmSeconds)))
  {
  }

  // A row re-flagged as pending cannot confirm the move until its own node has
  // pushed a complete inventory without the VM again.
  lemma PendingNeedsOldNode(v: VmRows, vm: Vm, node: Node, ts: int, nic: Nic, complete: bool,
                            node2: Node, ts2: int, nic2: Nic, complete2: bool, policy: Policy)
    requires Inv(v, vm) && policy.Valid() && v.location.Some?
    requires node != v.location.value.node && node2 != v.location.value.node
    requires !Relocates(v, Push(v, vm, node, ts, Some(nic), complete, policy))
    ensures var w := Push(v, vm, node, ts, Some(nic), complete, policy);
            && w.presence[v.location.value.node].status == Pending
            && !Relocates(w, Push(w, vm, node2, ts2, Some(nic2), complete2, policy))
  {
  }

  // ---------------------------------------------------------------- the counter is a lower bound only

  function AbsentPushes(node: Node, times: seq<int>): seq<Action> {
    seq(|times|, i requires 0 <= i < |times| => Pushed(node, times[i], None, true))
  }

  function RunFrom(v: VmRows, vm: Vm, h: seq<Action>, policy: Policy): VmRows {
    if h == [] then v else Do(RunFrom(v, vm, h[..|h| - 1], policy), vm, h[|h| - 1], policy)
  }

  // While only the node itself pushes, any number of complete inventories lacking
  // the VM count once: the first marks the row missing, and missing rows are skipped.
  lemma {:induction false} LoneAbsencesCountOnce(v: VmRows, vm: Vm, node: Node, times: seq<int>, policy: Policy)
    requires node in v.presence && Markable(v.presence[node].status)
    requires times != []
    ensures var w := RunFrom(v, vm, AbsentPushes(node, times), policy);
            && node in w.presence && w.presence[node].status == Missing
            && w.presence[node].missingCount == v.presence[node].missingCount + 1
  {
    var h := AbsentPushes(node, times);
    var k := |times| - 1;
    assert h[..k] == AbsentPushes(node, times[..k]);
    if k > 0 {
      LoneAbsencesCountOnce(v, vm, node, times[..k], policy);
    } else {
      assert h[..k] == [];
    }
  }
}
