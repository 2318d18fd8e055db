/** The counters, the status and the location of one VM, told from the pushes alone.

    Nothing below looks at a stored row: `Counted`, `Skipped` and `Home` read the history
    only, and the theorems say that the rows agree with them after every run.
  */
module VmPresenceHistory {
  import opened Options
  import opened VmPresence
  import opened VmPresenceRuns

  // The last word on the VM is a complete inventory of n that lacked it.
  predicate StandsMissing(h: seq<Action>, n: Node) {
    && h != []
    && match h[|h| - 1]
       case Pushed(node, _, nic, complete) =>
         nic.None? && ((node == n && complete) || StandsMissing(h[..|h| - 1], n))
       case PurgedRows(_, _) => StandsMissing(h[..|h| - 1], n)
  }

  // One more complete inventory of n without the VM would be counted: it is the first since
  // n saw the VM, or n is the VM's place and another node has reported the VM meanwhile.
  predicate Counts(h: seq<Action>, n: Node, policy: Policy)
    decreases |h|, 1
  {
    Absences(h, n) == [] || (Home(h, policy) == Some(n) && !StandsMissing(h, n))
  }

  // Times of the absences that were counted since n last saw the VM.
  function Counted(h: seq<Action>, n: Node, policy: Policy): seq<int>
    decreases |h|, 0
  {
    if h == [] then []
    else
      var g := h[..|h| - 1];
      match h[|h| - 1]
      case Pushed(node, ts, nic, complete) =>
        if node != n then Counted(g, n, policy)
        else if nic.Some? then []
        else if complete && Counts(g, n, policy) then Counted(g, n, policy) + [ts]
        else Counted(g, n, policy)
      case PurgedRows(_, _) => Counted(g, n, policy)
  }

  // Those that were not.
  function Skipped(h: seq<Action>, n: Node, policy: Policy): nat {
    if h == [] then 0
    else
      var g := h[..|h| - 1];
      match h[|h| - 1]
      case Pushed(node, ts, nic, complete) =>
        if node != n then Skipped(g, n, policy)
        else if nic.Some? then 0
        else Skipped(g, n, policy) + if complete && !Counts(g, n, policy) then 1 else 0
      case PurgedRows(_, _) => Skipped(g, n, policy)
  }

  // The first time that is not 0, if any is.
  function Since(times: seq<int>): Option<int> {
    if times == [] then None
    else if times[0] != 0 || |times| == 1 then Some(times[0])
    else Since(times[1..])
  }

  // Enough absences, or one long enough ago.
  predicate Confirms(times: seq<int>, ts: int, policy: Policy) {
    || |times| >= policy.confirmPushes
    || (Since(times).Some? && Since(times).value != 0 && ts - Since(times).value >= policy.confirmSeconds)
  }

  // Another node that reports the VM now takes it over from n.
  predicate Yields(h: seq<Action>, n: Node, ts: int, policy: Policy)
    decreases |h|, 1
  {
    StandsMissing(h, n) && Confirms(Counted(h, n, policy), ts, policy)
  }

  // Where the VM is.
  function Home(h: seq<Action>, policy: Policy): Option<Node>
    decreases |h|, 0
  {
    if h == [] then None
    else
      var g, a := h[..|h| - 1], h[|h| - 1];
      if !(a.Pushed? && a.nic.Some?) then Home(g, policy)
      else
        match Home(g, policy)
        case None => Some(a.node)
        case Some(from) => if from != a.node && Yields(g, from, a.ts, policy) then Some(a.node) else Some(from)
  }

  // ---------------------------------------------------------------- the rows agree

  function At(v: VmRows): Option<Node> {
    match v.location
    case None => None
    case Some(place) => Some(place.node)
  }

  ghost predicate Tells(r: Presence, h: seq<Action>, n: Node, policy: Policy) {
    && r.missingCount == |Counted(h, n, policy)|
    && r.missingSince == Since(Counted(h, n, policy))
    && (Markable(r.status) <==> Counts(h, n, policy))
  }

  ghost predicate Told(v: VmRows, h: seq<Action>, policy: Policy) {
    && Home(h, policy) == At(v)
    && forall n :: n in v.presence ==> Tells(v.presence[n], h, n, policy)
  }

  lemma {:induction false} StandsAbsent(h: seq<Action>, n: Node)
    requires StandsMissing(h, n)
    ensures Absences(h, n) != []
  {
    var g := h[..|h| - 1];
    if StandsMissing(g, n) { StandsAbsent(g, n); }
  }

  lemma {:induction false} SinceMore(times: seq<int>, ts: int)
    ensures Since(times + [ts]) == Some(MarkedSince(Since(times), ts))
  {
    if times == [] {
      assert times + [ts] == [ts];
    } else {
      assert (times + [ts])[1..] == times[1..] + [ts];
      SinceMore(times[1..], ts);
    }
  }

  // Every absence is either counted or skipped.
  lemma {:induction false} CountedOrSkipped(h: seq<Action>, n: Node, policy: Policy)
    ensures |Counted(h, n, policy)| + Skipped(h, n, policy) == |Absences(h, n)|
  {
    hide Counts;
    if h != [] { CountedOrSkipped(h[..|h| - 1], n, policy); }
  }

  lemma ToldLast(h: seq<Action>, a: Action, n: Node, policy: Policy)
    ensures StandsMissing(h + [a], n) ==
            if !a.Pushed? then StandsMissing(h, n)
            else a.nic.None? && ((a.node == n && a.complete) || StandsMissing(h, n))
    ensures Counted(h + [a], n, policy) ==
            if !a.Pushed? || a.node != n then Counted(h, n, policy)
            else if a.nic.Some? then []
            else if a.complete && Counts(h, n, policy) then Counted(h, n, policy) + [a.ts]
            else Counted(h, n, policy)
    ensures Home(h + [a], policy) ==
            if !(a.Pushed? && a.nic.Some?) then Home(h, policy)
            else
              match Home(h, policy)
              case None => Some(a.node)
              case Some(from) => if from != a.node && Yields(h, from, a.ts, policy) then Some(a.node) else Some(from)
  {
    hide Counts, Yields;
    assert (h + [a])[..|h|] == h;
  }

  // The row at the VM's place says missing exactly while its absence stands.
  lemma HomeMissing(v: VmRows, h: seq<Action>, policy: Policy)
    requires Told(v, h, policy) && HomeRow(v) && v.location.Some?
    ensures v.presence[v.location.value.node].status == Missing <==> StandsMissing(h, v.location.value.node)
  {
    hide Counted, Home, Since, StandsMissing, Absences;
    var n := v.location.value.node;
    assert Tells(v.presence[n], h, n, policy);
    if StandsMissing(h, n) { StandsAbsent(h, n); }
  }

  // The tables move the VM exactly when the history says so.
  lemma MoveTold(v: VmRows, h: seq<Action>, ts: int, policy: Policy)
    requires Told(v, h, policy) && HomeRow(v) && v.location.Some? && policy.Valid()
    ensures MissingEnough(v, v.location.value.node, ts, policy) <==> Yields(h, v.location.value.node, ts, policy)
  {
    hide Counted, Home, Since, StandsMissing, Absences, Counts;
    var n := v.location.value.node;
    assert Tells(v.presence[n], h, n, policy);
    HomeMissing(v, h, policy);
  }

  lemma HomeTold(v: VmRows, h: seq<Action>, vm: Vm, a: Action, policy: Policy)
    requires Told(v, h, policy) && Inv(v, vm) && Due(v, a, policy) && policy.Valid()
    ensures Home(h + [a], policy) == At(Do(v, vm, a, policy))
  {
    hide Counted, Home, Since, StandsMissing, Absences, Counts, Yields;
    ToldLast(h, a, "", policy);
    if a.Pushed? && a.nic.Some? && v.location.Some? && v.location.value.node != a.node {
      MoveTold(v, h, a.ts, policy);
      SeenElsewhere(v, a.node, a.ts, a.nic.value, v.location.value.node, policy);
    }
  }

  lemma SeenElsewhere(v: VmRows, node: Node, ts: int, nic: Nic, n: Node, policy: Policy)
    requires n != node
    ensures MissingEnough(See(v, node, ts, nic), n, ts, policy) <==> MissingEnough(v, n, ts, policy)
  {
  }

  lemma RowSeen(v: VmRows, h: seq<Action>, vm: Vm, a: Action, policy: Policy)
    requires a.Pushed? && a.nic.Some?
    requires a.node in Do(v, vm, a, policy).presence
    ensures Tells(Do(v, vm, a, policy).presence[a.node], h + [a], a.node, policy)
  {
    hide Counted, Home, StandsMissing, Absences, Locate;
    LocateKeepsCounters(See(v, a.node, a.ts, a.nic.value), vm, a.node, a.ts, a.nic.value, policy);
    ToldLast(h, a, a.node, policy);
    LastAbsences(h, a, a.node);
  }

  lemma RowSeenElsewhere(v: VmRows, h: seq<Action>, vm: Vm, a: Action, policy: Policy, n: Node)
    requires Told(v, h, policy) && Inv(v, vm) && Honesty(v, h) && Due(v, a, policy) && policy.Valid()
    requires a.Pushed? && a.nic.Some? && a.node != n
    requires n in Do(v, vm, a, policy).presence
    ensures Tells(Do(v, vm, a, policy).presence[n], h + [a], n, policy)
  {
    hide Counted, Home, StandsMissing, Absences, Since, Push, Inv;
    ToldLast(h, a, n, policy);
    LastAbsences(h, a, n);
    HomeTold(v, h, vm, a, policy);
    SeenElsewhereRow(v, vm, a.node, a.ts, a.nic.value, a.complete, policy, n);
    assert Tells(v.presence[n], h, n, policy) && Honest(v.presence[n], Absences(h, n));
  }

  // A sighting by another node reopens the row of the VM's place or takes the place away.
  lemma SeenElsewhereRow(v: VmRows, vm: Vm, node: Node, ts: int, nic: Nic, complete: bool, policy: Policy, n: Node)
    requires Inv(v, vm) && node != n
    requires n in Push(v, vm, node, ts, Some(nic), complete, policy).presence
    ensures var w := Push(v, vm, node, ts, Some(nic), complete, policy);
            && n in v.presence
            && At(w) in {At(v), Some(node)} && At(v).Some?
            && w.presence[n].missingCount == v.presence[n].missingCount
            && w.presence[n].missingSince == v.presence[n].missingSince
            && (At(v) != Some(n) ==> w.presence[n].status == v.presence[n].status)
            && (At(v) == Some(n) == At(w) ==> w.presence[n].status == Pending)
            && (At(v) == Some(n) != At(w) ==> w.presence[n].status == Migrated && v.presence[n].status == Missing)
  {
    hide MissingEnough, EventsBounded, RecentEvent, SeenPresence, SeenInventory;
    SeenElsewhere(v, node, ts, nic, n, policy);
    if v.location.None? {
      NoRows(v, vm);
    } else if MissingEnough(v, n, ts, policy) {
      MissingStatus(v, n, ts, policy);
    }
  }

  lemma NoRows(v: VmRows, vm: Vm)
    requires EventsBounded(v, vm) && v.location.None?
    ensures v.presence == map[]
  {
  }

  lemma MissingStatus(v: VmRows, n: Node, ts: int, policy: Policy)
    requires MissingEnough(v, n, ts, policy)
    ensures v.presence[n].status in {Missing, Migrated, Purged}
  {
  }

  lemma RowUnseen(v: VmRows, h: seq<Action>, vm: Vm, a: Action, policy: Policy, n: Node)
    requires Told(v, h, policy) && Inv(v, vm) && Due(v, a, policy) && policy.Valid()
    requires !(a.Pushed? && a.nic.Some?) && n in Do(v, vm, a, policy).presence
    ensures Tells(Do(v, vm, a, policy).presence[n], h + [a], n, policy)
  {
    hide Counted, Home, StandsMissing, Absences, Since;
    ToldLast(h, a, n, policy);
    LastAbsences(h, a, n);
    assert Tells(v.presence[n], h, n, policy);
    if a.Pushed? { SinceMore(Counted(h, n, policy), a.ts); }
  }

  lemma ToldStep(v: VmRows, h: seq<Action>, vm: Vm, a: Action, policy: Policy)
    requires Told(v, h, policy) && Inv(v, vm) && Honesty(v, h) && Due(v, a, policy) && policy.Valid()
    ensures Told(Do(v, vm, a, policy), h + [a], policy)
  {
    hide Do, Due, Home, At, Tells, Inv, Honesty;
    HomeTold(v, h, vm, a, policy);
    forall n | n in Do(v, vm, a, policy).presence
      ensures Tells(Do(v, vm, a, policy).presence[n], h + [a], n, policy)
    {
      if !(a.Pushed? && a.nic.Some?) {
        RowUnseen(v, h, vm, a, policy, n);
      } else if a.node == n {
        RowSeen(v, h, vm, a, policy);
      } else {
        RowSeenElsewhere(v, h, vm, a, policy, n);
      }
    }
  }

  // After every run the location, the counters and the open rows are what the history says.
  lemma {:induction false} TablesTellHistory(h: seq<Action>, vm: Vm, policy: Policy)
    requires Legal(h, vm, policy)
    ensures Told(After(h, vm, policy), h, policy)
  {
    hide Told, Inv, Honesty, Do, Due;
    if h == [] {
      ToldEmpty(policy);
    } else {
      var g, a := h[..|h| - 1], h[|h| - 1];
      LegalPrefix(h, vm, policy);
      TablesTellHistory(g, vm, policy);
      HonestyHolds(g, vm, policy);
      InvHolds(g, vm, policy);
      ToldStep(After(g, vm, policy), g, vm, a, policy);
      assert h == g + [a];
    }
  }

  lemma ToldEmpty(policy: Policy)
    ensures Told(EmptyRows, [], policy)
  {
  }

  // missing_count is short of the absences by exactly the skipped ones.
  lemma CountExactly(h: seq<Action>, vm: Vm, policy: Policy, n: Node)
    requires Legal(h, vm, policy) && n in After(h, vm, policy).presence
    ensures var r := After(h, vm, policy).presence[n];
            && r.missingCount + Skipped(h, n, policy) == |Absences(h, n)|
            && (r.missingCount == |Absences(h, n)| <==> Skipped(h, n, policy) == 0)
            && r.missingSince == Since(Counted(h, n, policy))
  {
    hide After, Legal, Counted, Skipped, Absences, Since, Home, At, Counts;
    TablesTellHistory(h, vm, policy);
    assert Tells(After(h, vm, policy).presence[n], h, n, policy);
    CountedOrSkipped(h, n, policy);
  }

  // One more action moves the VM exactly when another node reports it, the last word on it is
  // a complete inventory of its place that lacked it, and the counted absences confirm that.
  lemma MovesExactly(h: seq<Action>, a: Action, vm: Vm, policy: Policy)
    requires Legal(h + [a], vm, policy)
    ensures Relocates(After(h, vm, policy), After(h + [a], vm, policy)) <==>
            && a.Pushed? && a.nic.Some?
            && Home(h, policy).Some? && Home(h, policy).value != a.node
            && Yields(h, Home(h, policy).value, a.ts, policy)
    ensures Relocates(After(h, vm, policy), After(h + [a], vm, policy)) ==> Home(h + [a], policy) == Some(a.node)
  {
    hide After, Legal, Home, Yields, Tells;
    assert (h + [a])[..|h|] == h;
    LegalPrefix(h + [a], vm, policy);
    TablesTellHistory(h, vm, policy);
    TablesTellHistory(h + [a], vm, policy);
    ToldLast(h, a, "", policy);
  }
}
