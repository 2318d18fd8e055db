/**
 * Node Groups: groups, memberships and the membership history, and each operation as a
 * function of the tables.  Texts arrive trimmed.
 */
module NodeGroups {
  import opened Options

  datatype Group = Group(name: string, description: string, country: string, active: bool, system: bool)

  datatype Event = Assigned | Moved | Removed | Created | Updated | Hidden | Restored | Deleted

  // A group as a history row names it.
  datatype Ref = Ref(id: int, name: string)

  // A history row; group events carry the empty node.
  datatype Entry = Entry(event: Event, node: string, before: Option<Ref>, after: Option<Ref>)

  // `system` is the row that the unique index on is_system=1 allows; `inventory` says of a
  // node whether it is neither hidden nor deleted; `pending` are mappings restored for
  // nodes that have not been seen yet.
  datatype State = State(
    groups: map<int, Group>, system: int, nextId: int,
    members: map<string, int>, inventory: map<string, bool>, pending: map<string, string>,
    history: seq<Entry>)

  datatype Reply = Done | BadRequest | NotFound | Conflict | Failed

  // LOWER() on ASCII letters.
  function LowerChar(c: char): char {
    if 'A' <= c <= 'Z' then (c as int + 32) as char else c
  }

  function Lower(s: string): (r: string)
    ensures |r| == |s|
  {
    if s == "" then "" else [LowerChar(s[0])] + Lower(s[1..])
  }

  const UNGROUPED := "ungrouped"

  predicate ValidName(name: string) {
    name != "" && |name| <= 80 && Lower(name) != UNGROUPED
  }

  // The unique index on LOWER(name) admits the name for this id.
  predicate NameFree(groups: map<int, Group>, name: string, id: int) {
    forall k :: k in groups && k != id ==> Lower(groups[k].name) != Lower(name)
  }

  function RefOf(s: State, id: int): Ref
    requires id in s.groups
  {
    Ref(id, s.groups[id].name)
  }

  function Log(s: State, event: Event, before: Option<Ref>, after: Option<Ref>): State {
    s.(history := s.history + [Entry(event, "", before, after)])
  }

  // ---------------------------------------------------------------- the invariant

  predicate OneSystemGroup(s: State) {
    && s.system in s.groups && s.groups[s.system].active && Lower(s.groups[s.system].name) == UNGROUPED
    && forall k :: k in s.groups ==> (s.groups[k].system <==> k == s.system)
  }

  predicate UniqueNames(groups: map<int, Group>) {
    forall j, k :: j in groups && k in groups && Lower(groups[j].name) == Lower(groups[k].name) ==> j == k
  }

  // Every member is a known node and belongs to an existing group.
  predicate MembersPoint(s: State) {
    forall n :: n in s.members ==> n in s.inventory && s.members[n] in s.groups
  }

  predicate Inv(s: State) {
    && OneSystemGroup(s) && UniqueNames(s.groups) && MembersPoint(s)
    && (forall k :: k in s.groups ==> 0 < k < s.nextId)
    && "" !in s.inventory
  }

  // ---------------------------------------------------------------- group operations

  function CreateReply(s: State, name: string): Reply {
    if !ValidName(name) || !NameFree(s.groups, name, 0) then BadRequest else Done
  }

  function Create(s: State, name: string, description: string, country: string): State
    requires Inv(s)
  {
    if CreateReply(s, name) != Done then s
    else
      var t := s.(groups := s.groups[s.nextId := Group(name, description, country, true, false)], nextId := s.nextId + 1);
      Log(t, Created, None, Some(Ref(s.nextId, name)))
  }

  function UpdateReply(s: State, id: int, name: string): Reply {
    if id !in s.groups then NotFound
    else if s.groups[id].system || !ValidName(name) || !NameFree(s.groups, name, id) then BadRequest
    else Done
  }

  function Update(s: State, id: int, name: string, description: string, country: string): State
    requires Inv(s)
  {
    if UpdateReply(s, id, name) != Done then s
    else
      var t := s.(groups := s.groups[id := s.groups[id].(name := name, description := description, country := country)]);
      Log(t, Updated, Some(RefOf(s, id)), Some(Ref(id, name)))
  }

  datatype Action = Hide | Restore | Delete | Unknown

  function ActReply(s: State, id: int, action: Action): Reply {
    if id !in s.groups then NotFound
    else if s.groups[id].system || action == Unknown then BadRequest
    else if action == Delete && exists n :: n in s.members && s.members[n] == id then Conflict
    else Done
  }

  function Act(s: State, id: int, action: Action): State
    requires Inv(s)
  {
    if ActReply(s, id, action) != Done then s
    else
      var was := Some(RefOf(s, id));
      match action
      case Delete => Log(s.(groups := s.groups - {id}), Deleted, was, None)
      case Hide => Log(s.(groups := s.groups[id := s.groups[id].(active := false)]), Hidden, was, was)
      case Restore => Log(s.(groups := s.groups[id := s.groups[id].(active := true)]), Restored, was, was)
      case Unknown => s
  }

  // ---------------------------------------------------------------- membership operations

  function GroupOf(s: State, node: string): Option<Ref>
    requires Inv(s)
  {
    if node in s.members then Some(RefOf(s, s.members[node])) else None
  }

  // The event of a change from one group to another.
  function ChangeEvent(s: State, before: Option<Ref>, id: int): Event {
    if id == s.system then Removed
    else if before.None? || before.value.id == s.system then Assigned
    else Moved
  }

  predicate Changes(s: State, node: string, id: int) {
    node in s.inventory && !(node in s.members && s.members[node] == id)
  }

  // One turn of the assignment loop.
  function AssignOne(s: State, node: string, id: int): State
    requires Inv(s) && id in s.groups
  {
    if !Changes(s, node, id) then s
    else
      var before := GroupOf(s, node);
      s.(members := s.members[node := id],
         history := s.history + [Entry(ChangeEvent(s, before, id), node, before, Some(RefOf(s, id)))])
  }

  function AssignAll(s: State, nodes: seq<string>, id: int): (t: State)
    requires Inv(s) && id in s.groups && "" !in nodes
    ensures Inv(t) && t.groups == s.groups && t.inventory == s.inventory
    ensures t.(members := s.members, history := s.history) == s
    decreases |nodes|
  {
    if nodes == [] then s else AssignAll(AssignOne(s, nodes[0], id), nodes[1..], id)
  }

  // list(dict.fromkeys(...)) of the entries that are not blank
  function Clean(nodes: seq<string>): (r: seq<string>)
    ensures forall n :: n in r <==> n in nodes && n != ""
    ensures forall i, j :: 0 <= i < j < |r| ==> r[i] != r[j]
  {
    if nodes == [] then []
    else
      var init, last := nodes[..|nodes| - 1], nodes[|nodes| - 1];
      assert nodes == init + [last];
      var r := Clean(init);
      if last != "" && last !in r then r + [last] else r
  }

  // ValueError when the group is missing or hidden; the caller does not catch it.
  function AssignReply(s: State, id: int): Reply {
    if id !in s.groups || !s.groups[id].active then Failed else Done
  }

  function Assign(s: State, nodes: seq<string>, id: int): State
    requires Inv(s)
  {
    if AssignReply(s, id) != Done then s else AssignAll(s, Clean(nodes), id)
  }

  // A push of a node makes sure that it has a group, and records it.
  function Ensure(s: State, node: string): State
    requires Inv(s)
  {
    if node == "" || node !in s.inventory || node in s.members then s
    else
      s.(members := s.members[node := s.system],
         history := s.history + [Entry(Assigned, node, None, Some(RefOf(s, s.system)))])
  }

  // Looking a node up gives it the default group and records nothing.
  function LookUp(s: State, node: string): State
    requires Inv(s)
  {
    if node == "" || node in s.members || node !in s.inventory then s
    else s.(members := s.members[node := s.system])
  }

  // So does listing the nodes, for all of them.
  function ListNodes(s: State): State
    requires Inv(s)
  {
    s.(members := s.members + map n | n in s.inventory && n !in s.members :: s.system)
  }

  // The least id of a group other than the default one with this name.
  function Named(groups: map<int, Group>, name: string, id: int, nextId: int): Option<int>
    decreases nextId - id
  {
    if id >= nextId then None
    else if id in groups && !groups[id].system && Lower(groups[id].name) == Lower(name) then Some(id)
    else Named(groups, name, id + 1, nextId)
  }

  // The trigger on a new inventory row: the restored mapping if it still names a group, else
  // the default group.
  function Appear(s: State, node: string, visible: bool): State
    requires Inv(s)
  {
    if node == "" || node in s.inventory then s
    else
      var found := if node in s.pending then Named(s.groups, s.pending[node], 1, s.nextId) else None;
      s.(inventory := s.inventory[node := visible],
         members := s.members[node := if found.Some? then found.value else s.system],
         pending := s.pending - {node})
  }

  // ---------------------------------------------------------------- what is shown

  function GroupNodes(s: State, id: int): set<string> {
    set n | n in s.members && s.members[n] == id
  }

  // The nodes that monitoring shows, of one group or of all.
  function VisibleNodes(s: State, id: int): set<string>
    requires Inv(s)
  {
    set n | n in s.members && s.inventory[n] && s.groups[s.members[n]].active && (id > 0 ==> s.members[n] == id)
  }

  // ---------------------------------------------------------------- the invariant is kept

  lemma CreateKeeps(s: State, name: string, description: string, country: string)
    requires Inv(s)
    ensures Inv(Create(s, name, description, country))
  {
  }

  lemma UpdateKeeps(s: State, id: int, name: string, description: string, country: string)
    requires Inv(s)
    ensures Inv(Update(s, id, name, description, country))
  {
  }

  lemma ActKeeps(s: State, id: int, action: Action)
    requires Inv(s)
    ensures Inv(Act(s, id, action))
  {
  }

  lemma {:induction false} NamedExists(groups: map<int, Group>, name: string, id: int, nextId: int)
    ensures Named(groups, name, id, nextId).Some? ==>
              var k := Named(groups, name, id, nextId).value;
              k in groups && !groups[k].system && Lower(groups[k].name) == Lower(name)
    ensures Named(groups, name, id, nextId).None? ==>
              forall k :: id <= k < nextId && k in groups && !groups[k].system ==> Lower(groups[k].name) != Lower(name)
    decreases nextId - id
  {
    if id < nextId { NamedExists(groups, name, id + 1, nextId); }
  }

  lemma AppearKeeps(s: State, node: string, visible: bool)
    requires Inv(s)
    ensures Inv(Appear(s, node, visible))
  {
    if node in s.pending { NamedExists(s.groups, s.pending[node], 1, s.nextId); }
  }
}
