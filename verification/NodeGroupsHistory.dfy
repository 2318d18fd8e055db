/** Runs of node group operations: the invariant, and what the history can be replayed to. */
module NodeGroupsHistory {
  import opened Options
  import opened NodeGroups
  import opened Configuration
  import opened ConfigurationRestore

  // Everything that writes memberships, but for the schema set-up and the reset of all data.
  // Moving all nodes of a group away is an assignment of its nodes to the default group.
  datatype Step =
    | CreateGroup(name: string, description: string, country: string)
    | UpdateGroup(id: int, name: string, description: string, country: string)
    | ActOnGroup(id: int, action: Action)
    | AssignNodes(nodes: seq<string>, id: int)
    | EnsureNode(node: string)
    | LookUpNode(node: string)
    | ListAllNodes
    | NodeAppears(node: string, visible: bool)
    | NodePurged(node: string)
    | RestoreBackup(payload: Payload, selected: set<Section>)

  // The foreign key takes the membership with the node.
  function Purge(s: State, node: string): State {
    s.(inventory := s.inventory - {node}, members := s.members - {node})
  }

  function Apply(s: State, step: Step): State
    requires Inv(s)
  {
    match step
    case CreateGroup(name, description, country) => Create(s, name, description, country)
    case UpdateGroup(id, name, description, country) => Update(s, id, name, description, country)
    case ActOnGroup(id, action) => Act(s, id, action)
    case AssignNodes(nodes, id) => Assign(s, nodes, id)
    case EnsureNode(node) => Ensure(s, node)
    case LookUpNode(node) => LookUp(s, node)
    case ListAllNodes => ListNodes(s)
    case NodeAppears(node, visible) => Appear(s, node, visible)
    case NodePurged(node) => Purge(s, node)
    case RestoreBackup(payload, selected) => RestoreNodes(s, payload, selected)
  }

  lemma ApplyKeeps(s: State, step: Step)
    requires Inv(s)
    ensures Inv(Apply(s, step))
  {
    hide Create, Update, Act, AssignAll, Appear, RestoreNodes;
    match step
    case CreateGroup(name, description, country) => CreateKeeps(s, name, description, country);
    case UpdateGroup(id, name, description, country) => UpdateKeeps(s, id, name, description, country);
    case ActOnGroup(id, action) => ActKeeps(s, id, action);
    case NodeAppears(node, visible) => AppearKeeps(s, node, visible);
    case RestoreBackup(payload, selected) => RestoreKeeps(s, payload, selected);
    case _ =>
  }

  function Run(s: State, steps: seq<Step>): (t: State)
    requires Inv(s)
    ensures Inv(t)
  {
    if steps == [] then s
    else
      var before := Run(s, steps[..|steps| - 1]);
      ApplyKeeps(before, steps[|steps| - 1]);
      Apply(before, steps[|steps| - 1])
  }

  // ---------------------------------------------------------------- one assignment, without its loop

  // The row that one node of an assignment gets, if its group changes.
  function OwnEntry(s: State, node: string, id: int): seq<Entry>
    requires Inv(s) && id in s.groups
  {
    if Changes(s, node, id) then
      [Entry(ChangeEvent(s, GroupOf(s, node), id), node, GroupOf(s, node), Some(RefOf(s, id)))]
    else []
  }

  // The rows of an assignment, all as seen before it.
  function AssignEntries(s: State, nodes: seq<string>, id: int): seq<Entry>
    requires Inv(s) && id in s.groups
  {
    if nodes == [] then [] else OwnEntry(s, nodes[0], id) + AssignEntries(s, nodes[1..], id)
  }

  function AllTo(members: map<string, int>, nodes: set<string>, id: int): map<string, int> {
    members + map n | n in nodes :: id
  }

  function Known(s: State, nodes: seq<string>): set<string> {
    set n | n in nodes && n in s.inventory
  }

  function Changing(s: State, nodes: seq<string>, id: int): set<string> {
    set n | n in nodes && Changes(s, n, id)
  }

  // Giving a group to those who have it changes nothing.
  lemma KnownOrChanging(s: State, nodes: seq<string>, id: int)
    ensures AllTo(s.members, Known(s, nodes), id) == AllTo(s.members, Changing(s, nodes, id), id)
  {
  }

  predicate Distinct(nodes: seq<string>) {
    forall i, j :: 0 <= i < j < |nodes| ==> nodes[i] != nodes[j]
  }

  // Rows depend on the groups and on the nodes themselves.
  lemma {:induction false} EntriesAlike(s: State, t: State, nodes: seq<string>, id: int)
    requires Inv(s) && Inv(t) && id in s.groups
    requires s.groups == t.groups && s.system == t.system && s.inventory == t.inventory
    requires forall n <- nodes :: GroupOf(s, n) == GroupOf(t, n)
    ensures AssignEntries(s, nodes, id) == AssignEntries(t, nodes, id)
  {
    hide Inv;
    if nodes != [] {
      assert nodes[0] in nodes && GroupOf(s, nodes[0]) == GroupOf(t, nodes[0]);
      EntriesAlike(s, t, nodes[1..], id);
    }
  }

  // The nodes that are known get the group, each change is recorded once, with the group the
  // node had, and nothing else changes.
  lemma {:induction false} AssignAllIs(s: State, nodes: seq<string>, id: int)
    requires Inv(s) && id in s.groups && "" !in nodes && Distinct(nodes)
    ensures AssignAll(s, nodes, id)
         == s.(members := AllTo(s.members, Known(s, nodes), id), history := s.history + AssignEntries(s, nodes, id))
    decreases |nodes|
  {
    hide OwnEntry, AllTo, Known;
    if nodes == [] {
      NothingKnown(s, id);
    } else {
      var t, rest := AssignOne(s, nodes[0], id), nodes[1..];
      assert nodes == [nodes[0]] + rest;
      assert Distinct(rest) by {
        forall i, j | 0 <= i < j < |rest| ensures rest[i] != rest[j] { assert nodes[i + 1] != nodes[j + 1]; }
      }
      assert nodes[0] !in rest by {
        forall k | 0 <= k < |rest| ensures rest[k] != nodes[0] { assert nodes[0] != nodes[k + 1]; }
      }
      assert nodes[0] in nodes && Inv(t);
      AssignAllIs(t, rest, id);
      EntriesAlike(s, t, rest, id);
      OneAssigned(s, nodes[0], id);
      MembersSplit(s, t, nodes[0], rest, id);
      Assoc(s.history, OwnEntry(s, nodes[0], id), AssignEntries(s, rest, id));
    }
  }

  lemma Assoc(a: seq<Entry>, b: seq<Entry>, c: seq<Entry>)
    ensures a + (b + c) == (a + b) + c
  {
  }

  lemma NothingKnown(s: State, id: int)
    ensures AllTo(s.members, Known(s, []), id) == s.members
  {
  }

  lemma OneAssigned(s: State, node: string, id: int)
    requires Inv(s) && id in s.groups
    ensures var t := AssignOne(s, node, id);
            && t.history == s.history + OwnEntry(s, node, id)
            && t.members == (if Changes(s, node, id) then s.members[node := id] else s.members)
            && t == s.(members := t.members, history := t.history)
  {
  }

  lemma MembersSplit(s: State, t: State, head: string, rest: seq<string>, id: int)
    requires t.members == (if Changes(s, head, id) then s.members[head := id] else s.members)
    requires t.inventory == s.inventory && head !in rest
    ensures AllTo(s.members, Known(s, [head] + rest), id) == AllTo(t.members, Known(t, rest), id)
  {
    assert Known(t, rest) == Known(s, rest);
    if head in s.inventory {
      assert Known(s, [head] + rest) == Known(s, rest) + {head};
      AllToOne(s.members, Known(s, rest), head, id);
    } else {
      assert Known(s, [head] + rest) == Known(s, rest);
    }
  }

  lemma AllToOne(members: map<string, int>, nodes: set<string>, head: string, id: int)
    ensures AllTo(members, nodes + {head}, id) == AllTo(members[head := id], nodes, id)
    ensures head in members && members[head] == id ==> members[head := id] == members
  {
  }

  // ---------------------------------------------------------------- replaying the history

  function Replay(members: map<string, int>, entries: seq<Entry>): map<string, int> {
    if entries == [] then members
    else
      var before, e := Replay(members, entries[..|entries| - 1]), entries[|entries| - 1];
      if e.node != "" && e.after.Some? then before[e.node := e.after.value.id] else before
  }

  lemma {:induction false} ReplayAdds(members: map<string, int>, a: seq<Entry>, b: seq<Entry>)
    ensures Replay(members, a + b) == Replay(Replay(members, a), b)
  {
    if b == [] {
      assert a + b == a;
    } else {
      assert (a + b)[..|a + b| - 1] == a + b[..|b| - 1];
      ReplayAdds(members, a, b[..|b| - 1]);
    }
  }

  lemma {:induction false} ReplayAssign(members: map<string, int>, s: State, nodes: seq<string>, id: int)
    requires Inv(s) && id in s.groups && "" !in nodes
    ensures Replay(members, AssignEntries(s, nodes, id)) == AllTo(members, Changing(s, nodes, id), id)
    decreases |nodes|
  {
    hide Inv, Replay, OwnEntry, AllTo, Changes;
    if nodes == [] {
      NothingChanging(members, s, id);
      ReplayNothing(members);
    } else {
      var head, rest := nodes[0], nodes[1..];
      assert nodes == [head] + rest;
      assert head in nodes;
      ReplayAdds(members, OwnEntry(s, head, id), AssignEntries(s, rest, id));
      ReplayOne(members, s, head, id);
      ReplayAssign(Replay(members, OwnEntry(s, head, id)), s, rest, id);
      if Changes(s, head, id) {
        assert Changing(s, nodes, id) == Changing(s, rest, id) + {head};
        AllToOne(members, Changing(s, rest, id), head, id);
      } else {
        assert Changing(s, nodes, id) == Changing(s, rest, id);
      }
    }
  }

  lemma NothingChanging(members: map<string, int>, s: State, id: int)
    ensures AllTo(members, Changing(s, [], id), id) == members
  {
  }

  lemma ReplayNothing(members: map<string, int>)
    ensures Replay(members, []) == members
  {
  }

  lemma ReplayOne(members: map<string, int>, s: State, node: string, id: int)
    requires Inv(s) && id in s.groups && node != ""
    ensures Replay(members, OwnEntry(s, node, id))
         == (if Changes(s, node, id) then members[node := id] else members)
  {
    var own := OwnEntry(s, node, id);
    assert own != [] ==> own[..0] == [];
  }

  // The memberships a step records.
  function Recorded(s: State, step: Step): map<string, int>
    requires Inv(s)
  {
    match step
    case AssignNodes(nodes, id) =>
      if AssignReply(s, id) == Done then map n | n in Changing(s, Clean(nodes), id) :: id else map[]
    case EnsureNode(node) => if node in s.inventory && node !in s.members then map[node := s.system] else map[]
    case _ => map[]
  }

  // The rows a step adds.
  function NewEntries(s: State, step: Step): seq<Entry>
    requires Inv(s)
  {
    var t := Apply(s, step);
    if |s.history| <= |t.history| then t.history[|s.history|..] else []
  }

  // The rows a step adds replay to the memberships it records, and unless it is one that
  // writes no rows these are all it changes.
  predicate Accounts(s: State, step: Step, replayed: map<string, int>)
    requires Inv(s)
  {
    var t, rows := Apply(s, step), NewEntries(s, step);
    && t.history == s.history + rows && Replay(replayed, rows) == replayed + Recorded(s, step)
    && (Mute(step) || t.members == s.members + Recorded(s, step))
  }

  predicate Mute(step: Step) {
    step.LookUpNode? || step.ListAllNodes? || step.NodeAppears? || step.NodePurged? || step.RestoreBackup?
  }

  lemma StepAccounts(s: State, step: Step, replayed: map<string, int>)
    requires Inv(s)
    ensures Accounts(s, step, replayed)
  {
    hide *;
    match step
    case AssignNodes(nodes, id) => AssignAccounts(s, nodes, id, replayed);
    case EnsureNode(node) => EnsureAccounts(s, node, replayed);
    case CreateGroup(_, _, _) => GroupAccounts(s, step, replayed);
    case UpdateGroup(_, _, _, _) => GroupAccounts(s, step, replayed);
    case ActOnGroup(_, _) => GroupAccounts(s, step, replayed);
    case LookUpNode(_) => MuteAccounts(s, step, replayed);
    case ListAllNodes => MuteAccounts(s, step, replayed);
    case NodeAppears(_, _) => MuteAccounts(s, step, replayed);
    case NodePurged(_) => MuteAccounts(s, step, replayed);
    case RestoreBackup(_, _) => MuteAccounts(s, step, replayed);
  }

  lemma MuteRows(s: State, step: Step)
    requires Inv(s) && Mute(step)
    ensures Apply(s, step).history == s.history && Recorded(s, step) == map[]
  {
    hide Inv, RestoreNodes, Named;
    if step.RestoreBackup? { NodesFrame(s, step.payload, step.selected); }
  }

  lemma MuteAccounts(s: State, step: Step, replayed: map<string, int>)
    requires Inv(s)
    requires step.LookUpNode? || step.ListAllNodes? || step.NodeAppears? || step.NodePurged? || step.RestoreBackup?
    ensures Accounts(s, step, replayed)
  {
    hide Apply, Inv, Replay, NewEntries, Recorded;
    MuteRows(s, step);
    NoRows(s, step, replayed);
  }

  lemma NoRows(s: State, step: Step, replayed: map<string, int>)
    requires Inv(s) && Apply(s, step).history == s.history
    ensures NewEntries(s, step) == [] && Apply(s, step).history == s.history + NewEntries(s, step)
    ensures Replay(replayed, NewEntries(s, step)) == replayed == replayed + map[]
  {
  }

  lemma NoBlankNode(s: State)
    requires Inv(s)
    ensures "" !in s.inventory && forall n :: n in s.members ==> n in s.inventory
  {
  }

  lemma EnsureAccounts(s: State, node: string, replayed: map<string, int>)
    requires Inv(s)
    ensures Accounts(s, EnsureNode(node), replayed)
  {
    hide Replay, Inv, NewEntries;
    var step := EnsureNode(node);
    NoBlankNode(s);
    if node in s.inventory && node !in s.members {
      SystemExists(s);
      var e := Entry(Assigned, node, None, Some(RefOf(s, s.system)));
      ReplayRow(replayed, e);
      Balanced(s, step, replayed, [e]);
    } else {
      NoRows(s, step, replayed);
      assert s.members + map[] == s.members;
    }
  }

  lemma ReplayRow(members: map<string, int>, e: Entry)
    ensures Replay(members, [e])
         == (if e.node != "" && e.after.Some? then members[e.node := e.after.value.id] else members)
  {
    assert [e][..0] == [];
  }

  lemma SystemExists(s: State)
    requires Inv(s)
    ensures s.system in s.groups
  {
  }

  lemma RowsAdded(s: State, step: Step, rows: seq<Entry>)
    requires Inv(s) && Apply(s, step).history == s.history + rows
    ensures NewEntries(s, step) == rows
  {
    hide Apply, Inv;
  }

  // A step that records all it adds.
  lemma Balanced(s: State, step: Step, replayed: map<string, int>, rows: seq<Entry>)
    requires Inv(s) && Apply(s, step).history == s.history + rows
    requires Apply(s, step).members == s.members + Recorded(s, step)
    requires Replay(replayed, rows) == replayed + Recorded(s, step)
    ensures Accounts(s, step, replayed)
  {
    hide Apply, Inv, Recorded, Replay, NewEntries;
    RowsAdded(s, step, rows);
  }

  // The members stay, and at most one row is added, of no node.
  ghost predicate GroupsOnly(s: State, t: State) {
    && t.members == s.members
    && (t.history == s.history || exists e: Entry :: e.node == "" && t.history == s.history + [e])
  }

  lemma CreateGroupsOnly(s: State, name: string, description: string, country: string)
    requires Inv(s)
    ensures GroupsOnly(s, Create(s, name, description, country))
  {
    hide Inv, CreateReply;
    if CreateReply(s, name) == Done {
      var e := Entry(Created, "", None, Some(Ref(s.nextId, name)));
      assert Create(s, name, description, country).history == s.history + [e];
    }
  }

  lemma UpdateGroupsOnly(s: State, id: int, name: string, description: string, country: string)
    requires Inv(s)
    ensures GroupsOnly(s, Update(s, id, name, description, country))
  {
    hide Inv, ValidName, NameFree;
    if UpdateReply(s, id, name) == Done {
      var e := Entry(Updated, "", Some(RefOf(s, id)), Some(Ref(id, name)));
      assert Update(s, id, name, description, country).history == s.history + [e];
    }
  }

  lemma ActGroupsOnly(s: State, id: int, action: Action)
    requires Inv(s)
    ensures GroupsOnly(s, Act(s, id, action))
  {
    hide Inv;
    if ActReply(s, id, action) == Done {
      var was := Some(RefOf(s, id));
      match action
      case Delete => assert Act(s, id, action).history == s.history + [Entry(Deleted, "", was, None)];
      case Hide => assert Act(s, id, action).history == s.history + [Entry(Hidden, "", was, was)];
      case Restore => assert Act(s, id, action).history == s.history + [Entry(Restored, "", was, was)];
      case Unknown =>
    }
  }

  lemma GroupRow(s: State, step: Step)
    requires Inv(s) && (step.CreateGroup? || step.UpdateGroup? || step.ActOnGroup?)
    ensures Apply(s, step).members == s.members
    ensures Apply(s, step).history == s.history + NewEntries(s, step)
    ensures NewEntries(s, step) == [] || (|NewEntries(s, step)| == 1 && NewEntries(s, step)[0].node == "")
  {
    hide Inv, Create, Update, Act;
    match step
    case CreateGroup(name, description, country) => CreateGroupsOnly(s, name, description, country);
    case UpdateGroup(id, name, description, country) => UpdateGroupsOnly(s, id, name, description, country);
    case ActOnGroup(id, action) => ActGroupsOnly(s, id, action);
    if Apply(s, step).history != s.history {
      var e: Entry :| e.node == "" && Apply(s, step).history == s.history + [e];
      RowsAdded(s, step, [e]);
    } else {
      NoRows(s, step, map[]);
    }
  }

  lemma GroupAccounts(s: State, step: Step, replayed: map<string, int>)
    requires Inv(s) && (step.CreateGroup? || step.UpdateGroup? || step.ActOnGroup?)
    ensures Accounts(s, step, replayed)
  {
    hide Inv, Apply, NewEntries, Replay;
    GroupRow(s, step);
    var rows := NewEntries(s, step);
    ReplayNothing(replayed);
    if rows != [] {
      assert rows == [rows[0]];
      ReplayRow(replayed, rows[0]);
    }
    assert s.members + map[] == s.members && replayed + map[] == replayed;
  }

  lemma AssignAccounts(s: State, nodes: seq<string>, id: int, replayed: map<string, int>)
    requires Inv(s)
    ensures Accounts(s, AssignNodes(nodes, id), replayed)
  {
    hide Inv, AssignEntries, AssignAll, Clean, Replay, Changing, Known, NewEntries, Changes;
    var step := AssignNodes(nodes, id);
    assert s.members + map[] == s.members && replayed + map[] == replayed;
    if AssignReply(s, id) == Done {
      var clean := Clean(nodes);
      AssignAllIs(s, clean, id);
      KnownOrChanging(s, clean, id);
      ReplayAssign(replayed, s, clean, id);
      Balanced(s, step, replayed, AssignEntries(s, clean, id));
    } else {
      NoRows(s, step, replayed);
    }
  }

  // ---------------------------------------------------------------- what a row says

  lemma {:induction false} EntriesSound(s: State, nodes: seq<string>, id: int, e: Entry)
    requires Inv(s) && id in s.groups && e in AssignEntries(s, nodes, id)
    ensures e.node in nodes && Changes(s, e.node, id) && e.before == GroupOf(s, e.node)
    ensures e.after == Some(RefOf(s, id)) && e.event == ChangeEvent(s, e.before, id)
  {
    hide Inv;
    var rest := nodes[1..];
    if e in AssignEntries(s, rest, id) {
      EntriesSound(s, rest, id, e);
    }
  }

  // A membership row names the group the node had just before and the one it has now.
  lemma RowsTellTheChange(s: State, step: Step, e: Entry)
    requires Inv(s) && e in NewEntries(s, step) && e.node != ""
    ensures var t := Apply(s, step);
            Inv(t) && e.before == GroupOf(s, e.node) && e.after == GroupOf(t, e.node) && e.before != e.after
  {
    ApplyKeeps(s, step);
    match step
    case AssignNodes(nodes, id) =>
      AssignAllIs(s, Clean(nodes), id);
      EntriesSound(s, Clean(nodes), id, e);
    case EnsureNode(node) =>
    case _ =>
      RowsOfGroups(s, step, e);
  }

  lemma RowsOfGroups(s: State, step: Step, e: Entry)
    requires Inv(s) && e in NewEntries(s, step) && !step.AssignNodes? && !step.EnsureNode?
    ensures e.node == ""
  {
    hide Apply, Inv, Recorded;
    if Mute(step) {
      MuteRows(s, step);
      NoRows(s, step, map[]);
    } else {
      GroupRow(s, step);
    }
  }

  // ---------------------------------------------------------------- operations that meet

  // A group whose nodes have all been moved away can be deleted.
  lemma EmptiedCanBeDeleted(s: State, id: int, nodes: seq<string>)
    requires Inv(s) && id in s.groups && id != s.system
    requires forall n <- GroupNodes(s, id) :: n in nodes
    ensures ActReply(Assign(s, nodes, s.system), id, Delete) == Done
  {
    AssignAllIs(s, Clean(nodes), s.system);
  }

  // Hiding a group hides its nodes and no other.
  lemma HideHidesItsNodes(s: State, id: int)
    requires Inv(s) && ActReply(s, id, Hide) == Done
    ensures Inv(Act(s, id, Hide))
    ensures VisibleNodes(Act(s, id, Hide), 0) == VisibleNodes(s, 0) - GroupNodes(s, id)
  {
    ActKeeps(s, id, Hide);
  }

  // Restoring a hidden group undoes it; only the history shows that it happened.
  lemma RestoreUndoesHide(s: State, id: int)
    requires Inv(s) && ActReply(s, id, Hide) == Done && s.groups[id].active
    ensures Inv(Act(s, id, Hide))
    ensures Act(Act(s, id, Hide), id, Restore).(history := s.history) == s
  {
    ActKeeps(s, id, Hide);
    var t := Act(Act(s, id, Hide), id, Restore);
    assert t.groups == s.groups;
  }
}
