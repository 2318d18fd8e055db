/** What the membership history can be replayed to, over runs of everything that writes
    memberships.
  */
module NodeGroupsReplay {
  import opened Options
  import opened NodeGroups
  import opened NodeGroupsHistory
  import opened Configuration
  import opened ConfigurationRestore

  // Two tables of memberships say different things about the node.
  predicate Differ(a: map<string, int>, b: map<string, int>, n: string) {
    (n in a) != (n in b) || (n in a && a[n] != b[n])
  }

  // The nodes whose membership a step writes or removes without a row.
  function Silent(s: State, step: Step): set<string>
    requires Inv(s)
  {
    var told, now := s.members + Recorded(s, step), Apply(s, step).members;
    set n | n in told.Keys + now.Keys && Differ(told, now, n)
  }

  // The last recorded group of each node after a run, given those before it.
  function Told(told: map<string, int>, s: State, steps: seq<Step>): map<string, int>
    requires Inv(s)
  {
    if steps == [] then told
    else
      var before, last := Run(s, steps[..|steps| - 1]), steps[|steps| - 1];
      Told(told, s, steps[..|steps| - 1]) + Recorded(before, last)
  }

  // The nodes for which the history is wrong after a run, given those before it: a recorded
  // change puts a node right, a silent one puts it wrong unless it happens to give the node
  // back its last recorded group.
  function Unaccounted(told: map<string, int>, s: State, silent: set<string>, steps: seq<Step>): set<string>
    requires Inv(s)
  {
    if steps == [] then silent
    else
      var init, last := steps[..|steps| - 1], steps[|steps| - 1];
      var before := Run(s, init);
      var now := Apply(before, last).members;
      Unaccounted(told, s, silent, init) - Recorded(before, last).Keys - Silent(before, last)
      + set n | n in Silent(before, last) && Differ(Told(told, s, steps), now, n)
  }

  // The rows a state holds replay, from some first members, to the members but for the silent
  // nodes.
  ghost predicate Recounts(base: map<string, int>, s: State, silent: set<string>) {
    forall n :: n in silent <==> Differ(Replay(base, s.history), s.members, n)
  }

  lemma RecordedReplays(base: map<string, int>, s: State, step: Step)
    requires Inv(s)
    ensures Replay(base, Apply(s, step).history) == Replay(base, s.history) + Recorded(s, step)
  {
    hide Inv, Apply, Recorded, NewEntries, Replay;
    StepAccounts(s, step, Replay(base, s.history));
    ReplayAdds(base, s.history, NewEntries(s, step));
  }

  // After any run the rows replay to the last recorded groups, and are wrong for exactly the
  // nodes that are not accounted for.
  lemma {:induction false} ReplayOfRun(base: map<string, int>, s: State, silent: set<string>, steps: seq<Step>)
    requires Inv(s) && Recounts(base, s, silent)
    ensures Replay(base, Run(s, steps).history) == Told(Replay(base, s.history), s, steps)
    ensures Recounts(base, Run(s, steps), Unaccounted(Replay(base, s.history), s, silent, steps))
  {
    hide Inv, Apply, Recorded, Replay, Silent;
    if steps != [] {
      var init, last := steps[..|steps| - 1], steps[|steps| - 1];
      ReplayOfRun(base, s, silent, init);
      var before := Run(s, init);
      RecordedReplays(base, before, last);
      forall n ensures n in Silent(before, last) <==>
                         Differ(before.members + Recorded(before, last), Apply(before, last).members, n)
      {
        SilentIs(before, last, n);
      }
    }
  }

  lemma SilentIs(s: State, step: Step, n: string)
    requires Inv(s)
    ensures n in Silent(s, step) <==> Differ(s.members + Recorded(s, step), Apply(s, step).members, n)
  {
    hide Inv, Apply, Recorded;
  }

  lemma Agree(a: map<string, int>, b: map<string, int>)
    requires forall n :: !Differ(a, b, n)
    ensures a == b
  {
    assert forall n :: n in a <==> n in b by {
      forall n ensures n in a <==> n in b { assert !Differ(a, b, n); }
    }
    forall n | n in a ensures a[n] == b[n] { assert !Differ(a, b, n); }
  }

  // So the replay is the memberships exactly when every node is accounted for.
  lemma ReplayExactly(base: map<string, int>, s: State, silent: set<string>, steps: seq<Step>)
    requires Inv(s) && Recounts(base, s, silent)
    ensures Replay(base, Run(s, steps).history) == Run(s, steps).members
       <==> Unaccounted(Replay(base, s.history), s, silent, steps) == {}
  {
    hide Run, Unaccounted, Replay, Inv;
    ReplayOfRun(base, s, silent, steps);
    var t := Run(s, steps);
    var r, left := Replay(base, t.history), Unaccounted(Replay(base, s.history), s, silent, steps);
    if left == {} {
      forall n ensures !Differ(r, t.members, n) {}
      Agree(r, t.members);
    } else {
      var n :| n in left;
      assert Differ(r, t.members, n);
    }
  }

  // ---------------------------------------------------------------- one step, exactly

  // A restore leaves every membership as it is.  With the groups selected the nodes fall back
  // to the default group and the other groups get new ids, so all nodes must be in the default
  // group and no mapping may be usable; with the mappings alone each must name the group its
  // node is in.
  predicate Unmoved(s: State, p: Payload, selected: set<Section>)
    requires UniqueNames(s.groups)
  {
    if Groups in selected then
      && (forall n :: n in s.members ==> s.members[n] == s.system)
      && (Mappings in selected ==>
            forall m <- p.mappings :: m.node in s.inventory ==> Lower(m.group) !in UsableNames(p.groups))
    else
      Mappings in selected ==>
        forall n :: n in s.inventory ==>
          var w := Wanted(p.mappings, NameIds(s), n);
          w.Some? && Lower(w.value) in NameIds(s) ==>
            n in s.members && s.members[n] == NameIds(s)[Lower(w.value)]
  }

  // The step changes no membership without recording it.
  predicate KeepsAccount(s: State, step: Step)
    requires Inv(s)
  {
    match step
    case LookUpNode(node) => node in s.inventory ==> node in s.members
    case ListAllNodes => forall n :: n in s.inventory ==> n in s.members
    case NodeAppears(node, _) => node == "" || node in s.inventory
    case NodePurged(node) => node !in s.members
    case RestoreBackup(payload, selected) => Unmoved(s, payload, selected)
    case _ => true
  }

  lemma {:induction false} WantedSome(items: seq<Mapping>, ids: Ids, node: string)
    ensures Wanted(items, ids, node).Some? <==> exists m <- items :: m.node == node && Applies(m, ids)
  {
    hide Applies;
    if items != [] {
      assert items == [items[0]] + items[1..];
      WantedSome(items[1..], ids, node);
    }
  }

  // The ids that a restore gives to groups are new.
  lemma {:induction false} NewIds(s: State, ids: Ids, items: seq<GroupItem>, first: int)
    requires first <= s.nextId && forall low :: low in ids ==> ids[low] >= first
    ensures forall low :: low in PutGroups(s, ids, items).1 ==> PutGroups(s, ids, items).1[low] >= first
    decreases |items|
  {
    hide Lower, CountryCode, Usable;
    if items != [] {
      if Usable(items[0]) {
        var r := PutGroup(s, ids, items[0]);
        NewIds(r.0, r.1, items[1..], first);
      } else {
        NewIds(s, ids, items[1..], first);
      }
    }
  }

  // What a restore of the groups makes of one membership.
  lemma RegroupedAt(s: State, p: Payload, selected: set<Section>, n: string)
    requires Inv(s) && Groups in selected
    ensures var ids := RestoreGroups(s, p.groups).1;
            var t, w := RestoreNodes(s, p, selected).members, Wanted(p.mappings, ids, n);
            && (Mappings in selected && w.Some? && n in s.inventory ==> n in t && t[n] >= s.nextId)
            && (Mappings !in selected || w.None? || n !in s.inventory ==>
                  (n in t <==> n in s.members) && (n in t ==> t[n] == s.system))
  {
    hide Inv, PutGroups, PutMappings, Lower, Wanted, Cleared;
    ClearedKeeps(s);
    PutGroupsKeeps(Cleared(s), map[], p.groups);
    NewIds(Cleared(s), map[], p.groups, s.nextId);
    var (grouped, ids) := RestoreGroups(s, p.groups);
    PutMappingsAt(grouped.(pending := map[]), ids, p.mappings, n);
  }

  // What a restore of the mappings alone makes of it.
  lemma RemappedAt(s: State, p: Payload, selected: set<Section>, n: string)
    requires Inv(s) && Groups !in selected && Mappings in selected
    ensures UniqueNames(s.groups)
    ensures var ids := NameIds(s);
            var t, w := RestoreNodes(s, p, selected).members, Wanted(p.mappings, ids, n);
            && (w.Some? ==> Lower(w.value) in ids)
            && (w.Some? && n in s.inventory ==> n in t && t[n] == ids[Lower(w.value)])
            && (w.None? || n !in s.inventory ==> !Differ(s.members, t, n))
  {
    hide Inv, PutMappings, Lower, Wanted, NameIds;
    InvNames(s);
    PutMappingsAt(s.(pending := map[]), NameIds(s), p.mappings, n);
  }

  lemma Bounds(s: State)
    requires Inv(s)
    ensures UniqueNames(s.groups) && "" !in s.inventory && s.system < s.nextId
    ensures forall n :: n in s.members ==> n in s.inventory && s.members[n] < s.nextId
  {
  }

  lemma GroupsSelected(s: State, p: Payload, selected: set<Section>)
    requires Inv(s) && Groups in selected
    ensures UniqueNames(s.groups)
    ensures (forall n :: !Differ(s.members, RestoreNodes(s, p, selected).members, n)) <==> Unmoved(s, p, selected)
  {
    hide Inv, PutGroups, RestoreNodes, Lower, Wanted, Cleared, Usable;
    Bounds(s);
    ClearedKeeps(s);
    PutGroupsKeeps(Cleared(s), map[], p.groups);
    var ids, t := RestoreGroups(s, p.groups).1, RestoreNodes(s, p, selected).members;
    assert ids.Keys == UsableNames(p.groups);
    forall n ensures !Differ(s.members, t, n) <==> UnmovedAt(s, p, selected, ids, n) {
      RegroupedAt(s, p, selected, n);
    }
    EachUnmoved(s, p, selected, ids);
  }

  // The same about one node, once the groups are restored.
  predicate UnmovedAt(s: State, p: Payload, selected: set<Section>, ids: Ids, n: string) {
    && (n in s.members ==> s.members[n] == s.system)
    && (Mappings in selected && n in s.inventory ==> Wanted(p.mappings, ids, n).None?)
  }

  lemma EachUnmoved(s: State, p: Payload, selected: set<Section>, ids: Ids)
    requires Inv(s) && Groups in selected && ids.Keys == UsableNames(p.groups)
    ensures UniqueNames(s.groups)
    ensures (forall n :: UnmovedAt(s, p, selected, ids, n)) <==> Unmoved(s, p, selected)
  {
    hide Inv, Lower, Wanted, UsableNames;
    Bounds(s);
    forall n ensures Wanted(p.mappings, ids, n).Some? <==> exists m <- p.mappings :: m.node == n && Applies(m, ids) {
      WantedSome(p.mappings, ids, n);
    }
    if Unmoved(s, p, selected) {
      forall n ensures UnmovedAt(s, p, selected, ids, n) {}
    } else if n :| n in s.members && s.members[n] != s.system {
      assert !UnmovedAt(s, p, selected, ids, n);
    } else {
      var m :| m in p.mappings && m.node in s.inventory && Lower(m.group) in UsableNames(p.groups);
      assert Applies(m, ids);
      assert !UnmovedAt(s, p, selected, ids, m.node);
    }
  }

  lemma MappingsSelected(s: State, p: Payload, selected: set<Section>)
    requires Inv(s) && Groups !in selected
    ensures UniqueNames(s.groups)
    ensures (forall n :: !Differ(s.members, RestoreNodes(s, p, selected).members, n)) <==> Unmoved(s, p, selected)
  {
    hide Inv, PutMappings, NameIds, Lower, Wanted;
    Bounds(s);
    var t := RestoreNodes(s, p, selected).members;
    if Mappings in selected {
      var ids := NameIds(s);
      forall n ensures !Differ(s.members, t, n) <==>
                         (n in s.inventory && Wanted(p.mappings, ids, n).Some? ==>
                            var low := Lower(Wanted(p.mappings, ids, n).value);
                            low in ids && n in s.members && s.members[n] == ids[low])
      {
        RemappedAt(s, p, selected, n);
      }
      forall n ensures Wanted(p.mappings, ids, n).Some? ==> Lower(Wanted(p.mappings, ids, n).value) in ids {
        WantedApplies(p.mappings, ids, n);
      }
    }
  }

  // A step is silent about no node exactly when the condition of its kind holds.
  lemma SilentExactly(s: State, step: Step)
    requires Inv(s)
    ensures Silent(s, step) == {} <==> KeepsAccount(s, step)
  {
    hide Inv, Silent, RestoreNodes, Unmoved, Appear, Recorded, AssignAll, Create, Update, Act;
    Bounds(s);
    forall n ensures n in Silent(s, step) <==> Differ(s.members + Recorded(s, step), Apply(s, step).members, n) {
      SilentIs(s, step, n);
    }
    if Mute(step) {
      MuteRows(s, step);
      assert s.members + map[] == s.members;
      MuteExactly(s, step);
      if Silent(s, step) != {} {
        var n :| n in Silent(s, step);
        assert Differ(s.members, Apply(s, step).members, n);
      }
    } else {
      StepAccounts(s, step, map[]);
      assert forall n :: !Differ(Apply(s, step).members, Apply(s, step).members, n);
    }
  }

  lemma MuteExactly(s: State, step: Step)
    requires Inv(s) && Mute(step)
    ensures (forall n :: !Differ(s.members, Apply(s, step).members, n)) <==> KeepsAccount(s, step)
  {
    hide Inv, RestoreNodes, Unmoved, Appear;
    Bounds(s);
    var t := Apply(s, step).members;
    match step
    case LookUpNode(node) =>
      assert !Differ(s.members, t, node) <==> KeepsAccount(s, step);
    case ListAllNodes =>
      if !KeepsAccount(s, step) {
        var n :| n in s.inventory && n !in s.members;
        assert Differ(s.members, t, n);
      }
    case NodeAppears(node, visible) =>
      AppearMembers(s, node, visible);
      assert !Differ(s.members, t, node) <==> KeepsAccount(s, step);
    case NodePurged(node) =>
      assert !Differ(s.members, t, node) <==> KeepsAccount(s, step);
    case RestoreBackup(payload, selected) =>
      if Groups in selected {
        GroupsSelected(s, payload, selected);
      } else {
        MappingsSelected(s, payload, selected);
      }
  }

  lemma AppearMembers(s: State, node: string, visible: bool)
    requires Inv(s)
    ensures var t := Appear(s, node, visible);
            && (node == "" || node in s.inventory ==> t.members == s.members)
            && (node != "" && node !in s.inventory ==>
                  node !in s.members && node in t.members && t.members == s.members[node := t.members[node]])
  {
    hide Named, OneSystemGroup, UniqueNames;
  }

  // While the history replays to the memberships, a step breaks that exactly when it changes a
  // membership without recording it.
  lemma ReplayKeptExactly(base: map<string, int>, s: State, step: Step)
    requires Inv(s) && Replay(base, s.history) == s.members
    ensures Replay(base, Apply(s, step).history) == Apply(s, step).members <==> KeepsAccount(s, step)
  {
    hide Inv, Apply, Silent, Recorded, KeepsAccount, Replay;
    RecordedReplays(base, s, step);
    SilentExactly(s, step);
    var told, now := s.members + Recorded(s, step), Apply(s, step).members;
    if Silent(s, step) == {} {
      forall n ensures !Differ(told, now, n) { SilentIs(s, step, n); }
      Agree(told, now);
    } else {
      var n :| n in Silent(s, step);
      SilentIs(s, step, n);
    }
  }

  // So over a whole run of steps that record what they change the history keeps replaying.
  lemma {:induction false} RecordedRunReplays(base: map<string, int>, s: State, steps: seq<Step>)
    requires Inv(s) && Replay(base, s.history) == s.members
    requires forall i {:trigger steps[i]} :: 0 <= i < |steps| ==> KeepsAccount(Run(s, steps[..i]), steps[i])
    ensures Replay(base, Run(s, steps).history) == Run(s, steps).members
  {
    hide Inv, Apply, KeepsAccount, Replay;
    if steps != [] {
      var init := steps[..|steps| - 1];
      forall i | 0 <= i < |init| ensures KeepsAccount(Run(s, init[..i]), init[i]) {
        assert init[..i] == steps[..i] && init[i] == steps[i];
      }
      RecordedRunReplays(base, s, init);
      assert KeepsAccount(Run(s, steps[..|steps| - 1]), steps[|steps| - 1]);
      ReplayKeptExactly(base, Run(s, init), steps[|steps| - 1]);
    }
  }

  predicate Administrative(step: Step) {
    step.CreateGroup? || step.UpdateGroup? || step.ActOnGroup? || step.AssignNodes? || step.EnsureNode?
  }

  // Create, update, hide, restore, delete, assign, bulk moves and pushes record all they change.
  lemma AdministrationReplays(base: map<string, int>, s: State, steps: seq<Step>)
    requires Inv(s) && Replay(base, s.history) == s.members && forall step <- steps :: Administrative(step)
    ensures Replay(base, Run(s, steps).history) == Run(s, steps).members
  {
    hide Inv, Replay;
    forall i | 0 <= i < |steps| ensures KeepsAccount(Run(s, steps[..i]), steps[i]) {
      assert steps[i] in steps;
    }
    RecordedRunReplays(base, s, steps);
  }

  // ---------------------------------------------------------------- when every node has a group

  // The trigger and the migrations give every inventory node a membership.
  predicate Full(s: State) {
    forall n :: n in s.inventory ==> n in s.members
  }

  lemma {:induction false} FullKept(s: State, steps: seq<Step>)
    requires Inv(s) && Full(s)
    ensures Full(Run(s, steps))
  {
    hide Apply, Inv, Full;
    if steps != [] {
      var init := steps[..|steps| - 1];
      FullKept(s, init);
      FullStep(Run(s, init), steps[|steps| - 1]);
    }
  }

  lemma FullStep(s: State, step: Step)
    requires Inv(s) && Full(s)
    ensures Full(Apply(s, step))
  {
    hide Inv, Create, Update, Act, AssignAll, NewEntries, Replay, Recorded, RestoreNodes, Named, Appear;
    if step.RestoreBackup? {
      RestoreKeepsMembers(s, step.payload, step.selected);
    } else if step.NodeAppears? {
      AppearMembers(s, step.node, step.visible);
      AppearInventory(s, step.node, step.visible);
    } else if !Mute(step) {
      StepAccounts(s, step, map[]);
      InventoryStays(s, step);
    }
  }

  lemma AppearInventory(s: State, node: string, visible: bool)
    requires Inv(s)
    ensures forall n :: n in Appear(s, node, visible).inventory ==> n in s.inventory || (n == node && node != "")
  {
    hide Named, Inv;
  }

  lemma InventoryStays(s: State, step: Step)
    requires Inv(s) && !Mute(step)
    ensures Apply(s, step).inventory == s.inventory
  {
    hide Inv, Clean, ActReply, UpdateReply, CreateReply;
  }

  lemma RestoreKeepsMembers(s: State, p: Payload, selected: set<Section>)
    requires Inv(s)
    ensures var t := RestoreNodes(s, p, selected);
            t.inventory == s.inventory && forall n :: n in s.members ==> n in t.members
  {
    hide Inv, RestoreNodes, Wanted, Lower, NameIds;
    NodesFrame(s, p, selected);
    forall n | n in s.members ensures n in RestoreNodes(s, p, selected).members {
      if Groups in selected {
        RegroupedAt(s, p, selected, n);
      } else if Mappings in selected {
        RemappedAt(s, p, selected, n);
      }
    }
  }

  // Then lookups and listings change nothing, so that only three kinds of steps are left that
  // may break the replay: a node appears, a node is purged, a backup is restored.
  lemma FullReplays(base: map<string, int>, s: State, steps: seq<Step>)
    requires Inv(s) && Full(s) && Replay(base, s.history) == s.members
    requires forall step <- steps :: !step.NodeAppears? && !step.NodePurged? && !step.RestoreBackup?
    ensures Replay(base, Run(s, steps).history) == Run(s, steps).members
  {
    hide Inv, Replay, Full;
    forall i | 0 <= i < |steps| ensures KeepsAccount(Run(s, steps[..i]), steps[i]) {
      assert steps[i] in steps;
      FullKept(s, steps[..i]);
      FullLooks(Run(s, steps[..i]), steps[i]);
    }
    RecordedRunReplays(base, s, steps);
  }

  lemma FullLooks(s: State, step: Step)
    requires Inv(s) && Full(s) && !step.NodeAppears? && !step.NodePurged? && !step.RestoreBackup?
    ensures KeepsAccount(s, step)
  {
  }

  // Each of the three does.  A new node:
  lemma AppearBreaksReplay(base: map<string, int>, s: State, node: string, visible: bool)
    requires Inv(s) && Replay(base, s.history) == s.members && node != "" && node !in s.inventory
    ensures var t := Apply(s, NodeAppears(node, visible)); Replay(base, t.history) != t.members
  {
    ReplayKeptExactly(base, s, NodeAppears(node, visible));
  }

  // A node that had a group and is purged:
  lemma PurgeBreaksReplay(base: map<string, int>, s: State, node: string)
    requires Inv(s) && Replay(base, s.history) == s.members && node in s.members
    ensures var t := Apply(s, NodePurged(node)); Replay(base, t.history) != t.members
  {
    ReplayKeptExactly(base, s, NodePurged(node));
  }

  // Any backup whose groups are restored once a node has been assigned to a group, one taken
  // just before included:
  lemma RestoreBreaksReplay(
    base: map<string, int>, s: State, node: string, id: int, p: Payload, selected: set<Section>)
    requires Inv(s) && Replay(base, s.history) == s.members
    requires node in s.inventory && id in s.groups && s.groups[id].active && id != s.system && Groups in selected
    ensures var t := Run(s, [AssignNodes([node], id), RestoreBackup(p, selected)]); Replay(base, t.history) != t.members
  {
    hide Inv, Replay, Apply, Run;
    var assign, restore := AssignNodes([node], id), RestoreBackup(p, selected);
    TwoSteps(s, assign, restore);
    AssignedNow(s, node, id);
    ReplayKeptExactly(base, s, assign);
    ReplayKeptExactly(base, Run(s, [assign]), restore);
  }

  lemma TwoSteps(s: State, a: Step, b: Step)
    requires Inv(s)
    ensures Run(s, [a]) == Apply(s, a) && Run(s, [a, b]) == Apply(Run(s, [a]), b)
  {
    hide Apply, Inv;
    assert [a, b][..1] == [a] && [a][..0] == [];
    assert Run(s, [a][..0]) == s;
  }

  lemma AssignedNow(s: State, node: string, id: int)
    requires Inv(s) && node in s.inventory && id in s.groups && s.groups[id].active
    ensures var t := Apply(s, AssignNodes([node], id));
            node in t.members && t.members[node] == id && t.system == s.system
  {
    Bounds(s);
    assert [node][0] in [node];
    AssignAllIs(s, Clean([node]), id);
  }

  // Only a purge of the node itself takes a membership away.
  lemma {:induction false} MembersOnlyGrow(s: State, steps: seq<Step>, n: string)
    requires Inv(s) && n in s.members && NodePurged(n) !in steps
    ensures n in Run(s, steps).members
  {
    hide Inv, Apply;
    if steps != [] {
      var init := steps[..|steps| - 1];
      assert steps == init + [steps[|steps| - 1]];
      MembersOnlyGrow(s, init, n);
      MemberStays(Run(s, init), steps[|steps| - 1], n);
    }
  }

  lemma MemberStays(s: State, step: Step, n: string)
    requires Inv(s) && n in s.members && step != NodePurged(n)
    ensures n in Apply(s, step).members
  {
    hide Inv, Create, Update, Act, AssignAll, RestoreNodes, Recorded, Appear, NewEntries, Replay;
    if step.RestoreBackup? {
      RestoreKeepsMembers(s, step.payload, step.selected);
    } else if step.NodeAppears? {
      AppearMembers(s, step.node, step.visible);
    } else if !Mute(step) {
      StepAccounts(s, step, map[]);
    }
  }
}
