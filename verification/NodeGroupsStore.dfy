/** The node group tables and the operations that change them in place. */
module NodeGroupsStore {
  import opened Options
  import opened NodeGroups
  import opened NodeGroupsHistory

  function Count(rows: seq<Entry>, event: Event): nat {
    if rows == [] then 0 else (if rows[0].event == event then 1 else 0) + Count(rows[1..], event)
  }

  lemma {:induction false} CountAdds(a: seq<Entry>, b: seq<Entry>, event: Event)
    ensures Count(a + b, event) == Count(a, event) + Count(b, event)
  {
    if a == [] {
      assert a + b == b;
    } else {
      assert (a + b)[1..] == a[1..] + b;
      CountAdds(a[1..], b, event);
    }
  }

  datatype Tally = Tally(changed: nat, placed: nat, moved: nat, removed: nat)

  // The counters say how many rows were written, and of which kind.
  predicate Tallies(t: Tally, rows: seq<Entry>) {
    && t.changed == |rows| == t.placed + t.moved + t.removed
    && t.placed == Count(rows, Assigned) && t.moved == Count(rows, Moved) && t.removed == Count(rows, Removed)
  }

  lemma TalliesNext(t: Tally, rows: seq<Entry>, e: Entry)
    requires Tallies(t, rows)
    ensures e.event == Assigned ==>
              Tallies(t.(changed := t.changed + 1, placed := t.placed + 1), rows + [e])
    ensures e.event == Moved ==> Tallies(t.(changed := t.changed + 1, moved := t.moved + 1), rows + [e])
    ensures e.event == Removed ==> Tallies(t.(changed := t.changed + 1, removed := t.removed + 1), rows + [e])
  {
    CountAdds(rows, [e], Assigned);
    CountAdds(rows, [e], Moved);
    CountAdds(rows, [e], Removed);
    forall event ensures Count([e], event) == if e.event == event then 1 else 0 {
      assert [e][1..] == [];
    }
  }

  class Store {
    var groups: map<int, Group>
    var system: int
    var nextId: int
    var members: map<string, int>
    var inventory: map<string, bool>
    var pending: map<string, string>
    var history: seq<Entry>

    ghost function Tables(): State
      reads this
    {
      State(groups, system, nextId, members, inventory, pending, history)
    }

    method CreateGroup(name: string, description: string, country: string) returns (reply: Reply)
      requires Inv(Tables())
      modifies this
      ensures reply == CreateReply(old(Tables()), name)
      ensures Tables() == Create(old(Tables()), name, description, country) && Inv(Tables())
    {
      CreateKeeps(Tables(), name, description, country);
      if !ValidName(name) { return BadRequest; }
      if exists k :: k in groups && k != 0 && Lower(groups[k].name) == Lower(name) { return BadRequest; }
      groups := groups[nextId := Group(name, description, country, true, false)];
      history := history + [Entry(Created, "", None, Some(Ref(nextId, name)))];
      nextId := nextId + 1;
      reply := Done;
    }

    method UpdateGroup(id: int, name: string, description: string, country: string) returns (reply: Reply)
      requires Inv(Tables())
      modifies this
      ensures reply == UpdateReply(old(Tables()), id, name)
      ensures Tables() == Update(old(Tables()), id, name, description, country) && Inv(Tables())
    {
      UpdateKeeps(Tables(), id, name, description, country);
      if id !in groups { return NotFound; }
      if groups[id].system { return BadRequest; }
      if !ValidName(name) { return BadRequest; }
      if exists k :: k in groups && k != id && Lower(groups[k].name) == Lower(name) { return BadRequest; }
      var was := Ref(id, groups[id].name);
      groups := groups[id := groups[id].(name := name, description := description, country := country)];
      history := history + [Entry(Updated, "", Some(was), Some(Ref(id, name)))];
      reply := Done;
    }

    method ActOnGroup(id: int, action: Action) returns (reply: Reply)
      requires Inv(Tables())
      modifies this
      ensures reply == ActReply(old(Tables()), id, action)
      ensures Tables() == Act(old(Tables()), id, action) && Inv(Tables())
    {
      ActKeeps(Tables(), id, action);
      if id !in groups { return NotFound; }
      if groups[id].system { return BadRequest; }
      if action == Unknown { return BadRequest; }
      var was := Some(Ref(id, groups[id].name));
      if action == Delete {
        if exists n :: n in members && members[n] == id { return Conflict; }
        history := history + [Entry(Deleted, "", was, None)];
        groups := groups - {id};
      } else if action == Hide {
        groups := groups[id := groups[id].(active := false)];
        history := history + [Entry(Hidden, "", was, was)];
      } else {
        groups := groups[id := groups[id].(active := true)];
        history := history + [Entry(Restored, "", was, was)];
      }
      reply := Done;
    }

    method AssignNodes(nodes: seq<string>, id: int) returns (reply: Reply, tally: Tally)
      requires Inv(Tables())
      modifies this
      ensures reply == AssignReply(old(Tables()), id)
      ensures Tables() == Assign(old(Tables()), nodes, id) && Inv(Tables())
      ensures |old(history)| <= |history| && Tallies(tally, history[|old(history)|..])
    {
      tally := Tally(0, 0, 0, 0);
      ghost var start := Tables();
      if id !in groups || !groups[id].active {
        return Failed, tally;
      }
      var clean := Clean(nodes);
      var i := 0;
      while i < |clean|
        invariant 0 <= i <= |clean|
        invariant Inv(Tables()) && id in groups && groups == start.groups
        invariant "" !in clean[i..]
        invariant AssignAll(Tables(), clean[i..], id) == AssignAll(start, clean, id)
        invariant |start.history| <= |history| && history[..|start.history|] == start.history
        invariant Tallies(tally, history[|start.history|..])
      {
        assert clean[i] in clean[i..] && clean[i..][1..] == clean[i + 1..];
        tally := AssignNode(clean[i], id, tally, start.history);
        i := i + 1;
      }
      reply := Done;
    }

    // One turn of the loop above.
    method AssignNode(node: string, id: int, tally: Tally, ghost earlier: seq<Entry>) returns (next: Tally)
      requires Inv(Tables()) && id in groups && node != ""
      requires |earlier| <= |history| && history[..|earlier|] == earlier && Tallies(tally, history[|earlier|..])
      modifies this
      ensures Tables() == AssignOne(old(Tables()), node, id) && Inv(Tables())
      ensures |earlier| <= |history| && history[..|earlier|] == earlier && Tallies(next, history[|earlier|..])
    {
      next := tally;
      if node !in inventory { return; }
      var before := if node in members then Some(Ref(members[node], groups[members[node]].name)) else None;
      if before.Some? && before.value.id == id { return; }
      members := members[node := id];
      var event;
      if id == system {
        event, next := Removed, next.(removed := next.removed + 1);
      } else if before.None? || before.value.id == system {
        event, next := Assigned, next.(placed := next.placed + 1);
      } else {
        event, next := Moved, next.(moved := next.moved + 1);
      }
      var row := Entry(event, node, before, Some(Ref(id, groups[id].name)));
      TalliesNext(tally, history[|earlier|..], row);
      assert (history + [row])[|earlier|..] == history[|earlier|..] + [row];
      assert (history + [row])[..|earlier|] == history[..|earlier|];
      history := history + [row];
      next := next.(changed := next.changed + 1);
    }

    // The bulk action on a list of nodes.
    method BulkAssign(nodes: seq<string>, target: int) returns (reply: Reply, tally: Tally)
      requires Inv(Tables())
      modifies this
      ensures var asked := Clean(nodes) != [] && target > 0;
              && reply == (if asked then AssignReply(old(Tables()), target) else BadRequest)
              && Tables() == (if asked then Assign(old(Tables()), nodes, target) else old(Tables()))
      ensures Inv(Tables())
      ensures |old(history)| <= |history| && Tallies(tally, history[|old(history)|..])
    {
      tally := Tally(0, 0, 0, 0);
      if Clean(nodes) == [] { return BadRequest, tally; }
      if target <= 0 { return BadRequest, tally; }
      reply, tally := AssignNodes(nodes, target);
    }

    // The bulk action that empties a group into the default one.
    method MoveAllUngrouped(source: int) returns (reply: Reply)
      requires Inv(Tables())
      modifies this
      ensures Inv(Tables()) && groups == old(groups)
      ensures reply == (if source !in groups || groups[source].system then BadRequest
                        else if old(GroupNodes(Tables(), source)) == {} then BadRequest
                        else Done)
      ensures reply != Done ==> Tables() == old(Tables())
      ensures reply == Done ==>
                && members == AllTo(old(members), old(GroupNodes(Tables(), source)), system)
                && ActReply(Tables(), source, Delete) == Done
    {
      if source !in groups || groups[source].system { return BadRequest; }
      var left := set n | n in members && members[n] == source;
      ghost var all := left;
      var nodes: seq<string> := [];
      while left != {}
        invariant left <= all && forall n :: n in nodes <==> n in all && n !in left
        decreases |left|
      {
        var n :| n in left;
        left := left - {n};
        nodes := nodes + [n];
      }
      if nodes == [] {
        assert forall n :: n in all ==> n in nodes;
        return BadRequest;
      }
      assert nodes[0] in nodes && nodes[0] in all;
      ghost var s := Tables();
      MovedAway(s, source, nodes);
      var tally;
      reply, tally := AssignNodes(nodes, system);
    }

    method EnsureNode(node: string)
      requires Inv(Tables())
      modifies this
      ensures Tables() == Ensure(old(Tables()), node) && Inv(Tables())
    {
      if node == "" { return; }
      if node in inventory && node !in members {
        members := members[node := system];
        history := history + [Entry(Assigned, node, None, Some(Ref(system, groups[system].name)))];
      }
    }

    method LookUpNode(node: string) returns (group: Option<int>)
      requires Inv(Tables())
      modifies this`members
      ensures Tables() == LookUp(old(Tables()), node) && Inv(Tables())
      ensures group == Some(if node in old(members) then old(members)[node] else system)
    {
      if node in members { return Some(members[node]); }
      if node in inventory {
        members := members[node := system];
      }
      group := Some(system);
    }

    method NodeAppears(node: string, visible: bool)
      requires Inv(Tables()) && node != ""
      modifies this
      ensures Tables() == Appear(old(Tables()), node, visible) && Inv(Tables())
    {
      AppearKeeps(Tables(), node, visible);
      if node in inventory { return; }
      var target: Option<int> := None;
      if node in pending {
        var k := 1;
        while k < nextId && target.None?
          invariant target.None? ==> Named(groups, pending[node], k, nextId) == Named(groups, pending[node], 1, nextId)
          invariant target.Some? ==> target == Named(groups, pending[node], 1, nextId)
          decreases nextId - k
        {
          if k in groups && !groups[k].system && Lower(groups[k].name) == Lower(pending[node]) {
            target := Some(k);
          }
          k := k + 1;
        }
      }
      inventory := inventory[node := visible];
      members := members[node := if target.Some? then target.value else system];
      pending := pending - {node};
    }
  }

  lemma MovedAway(s: State, source: int, nodes: seq<string>)
    requires Inv(s) && source in s.groups && source != s.system && nodes != []
    requires forall n :: n in nodes <==> n in GroupNodes(s, source)
    ensures AssignReply(s, s.system) == Done
    ensures var t := Assign(s, nodes, s.system);
            && t.groups == s.groups && t.system == s.system && Inv(t)
            && t.members == AllTo(s.members, GroupNodes(s, source), s.system)
            && ActReply(t, source, Delete) == Done
  {
    AssignAllIs(s, Clean(nodes), s.system);
    EmptiedCanBeDeleted(s, source, nodes);
    var t := Assign(s, nodes, s.system);
    assert Known(s, Clean(nodes)) == GroupNodes(s, source);
  }
}
