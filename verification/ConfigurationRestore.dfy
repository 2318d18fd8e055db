/** What a restore leaves behind: in the same state, and in any other. */
module ConfigurationRestore {
  import opened Options
  import opened NodeGroups
  import opened Configuration

  // ---------------------------------------------------------------- accounts, keys, settings

  // Items that agree with a table put back rows of that table and no other.
  lemma {:induction false} PutUsersAgree(
    users: map<string, Account>, items: seq<UserItem>, actor: string, full: map<string, Account>)
    requires forall item <- items :: item.username in full && full[item.username] == item.account
    requires forall u :: u in users ==> u in full && full[u] == users[u]
    ensures var r := PutUsers(users, items, actor);
            && (forall u :: u in r ==> u in full && full[u] == r[u])
            && (forall u :: u in users ==> u in r)
            && (forall item <- items :: UsableUser(item, actor) ==> item.username in r)
            && (actor in r ==> actor in users)
    decreases |items|
  {
    if items != [] {
      var head, rest := items[0], items[1..];
      assert items == [head] + rest;
      var next := if UsableUser(head, actor) then users[head.username := head.account] else users;
      assert forall item <- rest :: item in items;
      assert head in items;
      PutUsersAgree(next, rest, actor, full);
    }
  }

  // Whatever the payload, the actor's own account is left alone.
  lemma {:induction false} ActorKept(users: map<string, Account>, items: seq<UserItem>, actor: string)
    ensures var r := PutUsers(users, items, actor);
            (actor in r <==> actor in users) && (actor in users ==> r[actor] == users[actor])
    decreases |items|
  {
    if items != [] {
      ActorKept(if UsableUser(items[0], actor) then users[items[0].username := items[0].account] else users,
                items[1..], actor);
    }
  }

  // Accounts the filter lets through.
  predicate StoredUsers(users: map<string, Account>) {
    forall u :: u in users ==> u != "" && users[u].role in ROLES && users[u].hash != ""
  }

  lemma UsersRoundTrip(users: map<string, Account>, items: seq<UserItem>, actor: string)
    requires ExportsUsers(users, items) && StoredUsers(users) && actor in users
    ensures RestoreUsers(users, items, actor) == users
  {
    var base := map u | u in users && u == actor :: users[u];
    PutUsersAgree(base, items, actor, users);
    ActorKept(base, items, actor);
    var r := RestoreUsers(users, items, actor);
    forall u | u in users ensures u in r {
      if u != actor { assert UsableUser(UserItem(u, users[u]), actor); }
    }
  }

  lemma {:induction false} PutKeysAgree(keys: map<string, KeyRow>, items: seq<KeyItem>, full: map<string, KeyRow>)
    requires forall item <- items :: item.id in full && full[item.id].key == item.key && UsableKey(item)
    requires forall k :: k in keys ==> k in full && keys[k] == KeyRow(full[k].key, 0)
    requires forall item <- items :: item.id !in keys
    requires forall i, j :: 0 <= i < j < |items| ==> items[i].id != items[j].id
    ensures var r := PutKeys(keys, items);
            && r.Some?
            && (forall k :: k in r.value ==> k in full && r.value[k] == KeyRow(full[k].key, 0))
            && (forall k :: k in keys ==> k in r.value)
            && (forall item <- items :: item.id in r.value)
    decreases |items|
  {
    if items != [] {
      var head, rest := items[0], items[1..];
      assert items == [head] + rest && head in items;
      forall item | item in rest ensures item in items && item.id != head.id {
        var k :| 0 <= k < |rest| && rest[k] == item;
        assert items[0].id != items[k + 1].id;
      }
      forall i, j | 0 <= i < j < |rest| ensures rest[i].id != rest[j].id {
        assert items[i + 1].id != items[j + 1].id;
      }
      PutKeysAgree(keys[head.id := KeyRow(head.key, 0)], rest, full);
    }
  }

  predicate StoredKeys(keys: map<string, KeyRow>) {
    forall k :: k in keys ==> k != "" && keys[k].key.secret != ""
  }

  // The keys come back with their usage counters at zero.
  lemma KeysRoundTrip(keys: map<string, KeyRow>, items: seq<KeyItem>)
    requires ExportsKeys(keys, items) && StoredKeys(keys)
    ensures PutKeys(map[], items) == Some(map k | k in keys :: KeyRow(keys[k].key, 0))
  {
    PutKeysAgree(map[], items, keys);
    var r := PutKeys(map[], items).value;
    forall k | k in keys ensures k in r {
      assert KeyItem(k, keys[k].key) in items;
    }
    assert r == map k | k in keys :: KeyRow(keys[k].key, 0);
  }

  lemma {:induction false} PutSettingsAgree(
    settings: map<string, string>, items: seq<SettingItem>, safe: set<string>, full: map<string, string>)
    requires forall item <- items :: item.key in full && full[item.key] == item.value && item.key in safe
    requires forall k :: k in settings ==> k in full && full[k] == settings[k]
    ensures var r := PutSettings(settings, items, safe);
            && (forall k :: k in r ==> k in full && full[k] == r[k])
            && (forall k :: k in settings ==> k in r)
            && (forall item <- items :: item.key in r)
    decreases |items|
  {
    if items != [] {
      var head, rest := items[0], items[1..];
      assert items == [head] + rest && head in items;
      assert forall item <- rest :: item in items;
      PutSettingsAgree(settings[head.key := head.value], rest, safe, full);
    }
  }

  lemma SettingsRoundTrip(settings: map<string, string>, items: seq<SettingItem>, safe: set<string>)
    requires ExportsSettings(settings, items, safe)
    ensures RestoreSettings(settings, items, safe) == settings
  {
    PutSettingsAgree(settings - safe, items, safe, settings);
    var r := RestoreSettings(settings, items, safe);
    forall k | k in settings ensures k in r {
      if k in safe { assert SettingItem(k, settings[k]) in items; }
    }
  }

  // Whatever the payload, settings outside the safe list are left alone.
  lemma {:induction false} UnsafeSettingsKept(settings: map<string, string>, items: seq<SettingItem>, safe: set<string>)
    ensures PutSettings(settings, items, safe) - safe == settings - safe
    decreases |items|
  {
    if items != [] {
      var next := if items[0].key in safe then settings[items[0].key := items[0].value] else settings;
      UnsafeSettingsKept(next, items[1..], safe);
      assert next - safe == settings - safe;
    }
  }

  // ---------------------------------------------------------------- groups

  // ids holds exactly the groups other than the default one, each under its name.
  predicate IdsOf(s: State, ids: Ids) {
    && (forall low :: low in ids ==>
          ids[low] in s.groups && !s.groups[ids[low]].system && Lower(s.groups[ids[low]].name) == low)
    && (forall k :: k in s.groups && !s.groups[k].system ==>
          Lower(s.groups[k].name) in ids && ids[Lower(s.groups[k].name)] == k)
  }

  lemma NameIdsOf(s: State)
    requires Inv(s)
    ensures IdsOf(s, NameIds(s))
  {
  }

  lemma ClearedKeeps(s: State)
    requires Inv(s)
    ensures Inv(Cleared(s)) && IdsOf(Cleared(s), map[])
    ensures Cleared(s).groups == map[s.system := s.groups[s.system]]
    ensures Cleared(s).(members := s.members, groups := s.groups) == s
    ensures Cleared(s).members == map n | n in s.members :: s.system
  {
    hide Lower;
    assert s.groups[s.system].system && s.system in Cleared(s).groups;
    assert forall k :: k in Cleared(s).groups ==> k in s.groups && k == s.system;
  }

  lemma PutGroupKeeps(s: State, ids: Ids, item: GroupItem)
    requires Inv(s) && IdsOf(s, ids) && Usable(item)
    ensures var r := PutGroup(s, ids, item);
            && Inv(r.0) && IdsOf(r.0, r.1) && r.1.Keys == ids.Keys + {Lower(item.name)}
            && r.0.(groups := s.groups, nextId := s.nextId) == s
            && (forall low :: low in ids ==> r.1[low] == ids[low])
  {
    hide Lower;
    var low := Lower(item.name);
    if low in ids {
      PutGroupOver(s, ids, item);
    } else {
      PutGroupNew(s, ids, item);
    }
  }

  lemma PutGroupOver(s: State, ids: Ids, item: GroupItem)
    requires Inv(s) && IdsOf(s, ids) && Usable(item) && Lower(item.name) in ids
    ensures var r := PutGroup(s, ids, item);
            Inv(r.0) && IdsOf(r.0, r.1) && r.1 == ids && r.0.(groups := s.groups) == s
  {
    hide Lower;
  }

  lemma PutGroupNew(s: State, ids: Ids, item: GroupItem)
    requires Inv(s) && IdsOf(s, ids) && Usable(item) && Lower(item.name) !in ids
    ensures var r := PutGroup(s, ids, item);
            && Inv(r.0) && IdsOf(r.0, r.1) && r.1 == ids[Lower(item.name) := s.nextId]
            && r.0.(groups := s.groups, nextId := s.nextId) == s
  {
    hide Lower;
  }

  function UsableNames(items: seq<GroupItem>): set<string> {
    set item | item in items && Usable(item) :: Lower(item.name)
  }

  // After the groups of any payload the invariant holds, and the groups are known by exactly
  // the usable names of the payload.
  lemma {:induction false} PutGroupsKeeps(s: State, ids: Ids, items: seq<GroupItem>)
    requires Inv(s) && IdsOf(s, ids)
    ensures var r := PutGroups(s, ids, items);
            && Inv(r.0) && IdsOf(r.0, r.1) && r.1.Keys == ids.Keys + UsableNames(items)
            && r.0.(groups := s.groups, nextId := s.nextId) == s
            && (forall low :: low in ids ==> r.1[low] == ids[low])
    decreases |items|
  {
    hide Inv, IdsOf, Usable, Lower, PutGroup;
    if items == [] {
      assert UsableNames(items) == {};
    } else {
      var head, rest := items[0], items[1..];
      assert items == [head] + rest;
      assert UsableNames(items) == UsableNames(rest) + (if Usable(head) then {Lower(head.name)} else {});
      if Usable(head) {
        PutGroupKeeps(s, ids, head);
        var r := PutGroup(s, ids, head);
        PutGroupsKeeps(r.0, r.1, rest);
      } else {
        PutGroupsKeeps(s, ids, rest);
      }
    }
  }

  // The row that a restored group has.
  function RestoredRow(item: GroupItem): Group {
    Group(item.name, item.description, CountryCode(item.country), item.active, false)
  }

  predicate DistinctNames(items: seq<GroupItem>) {
    forall i, j :: 0 <= i < j < |items| ==> Lower(items[i].name) != Lower(items[j].name)
  }

  lemma RestNames(items: seq<GroupItem>)
    requires items != [] && DistinctNames(items)
    ensures DistinctNames(items[1..]) && forall item <- items[1..] :: Lower(item.name) != Lower(items[0].name)
  {
    var rest := items[1..];
    forall i, j | 0 <= i < j < |rest| ensures Lower(rest[i].name) != Lower(rest[j].name) {
      assert Lower(items[i + 1].name) != Lower(items[j + 1].name);
    }
    forall item | item in rest ensures Lower(item.name) != Lower(items[0].name) {
      var k :| 0 <= k < |rest| && rest[k] == item;
      assert Lower(items[0].name) != Lower(items[k + 1].name);
    }
  }

  // Groups with distinct names come out as the payload has them.
  lemma {:induction false} PutGroupsContent(s: State, ids: Ids, items: seq<GroupItem>)
    requires Inv(s) && IdsOf(s, ids) && DistinctNames(items) && forall item <- items :: Usable(item)
    requires forall item <- items :: Lower(item.name) !in ids
    ensures var r := PutGroups(s, ids, items);
            && (forall item <- items ::
                  Lower(item.name) in r.1 && r.1[Lower(item.name)] in r.0.groups
                  && r.0.groups[r.1[Lower(item.name)]] == RestoredRow(item))
            && (forall low :: low in ids ==>
                  low in r.1 && ids[low] in r.0.groups && ids[low] in s.groups
                  && r.0.groups[ids[low]] == s.groups[ids[low]])
    decreases |items|
  {
    hide Inv, IdsOf, Lower, CountryCode, Usable, PutGroup, UsableNames, RestoredRow;
    IdsPoint(s, ids);
    if items != [] {
      var head, rest := items[0], items[1..];
      assert items == [head] + rest && head in items;
      RestNames(items);
      PutGroupKeeps(s, ids, head);
      PutGroupNewRow(s, ids, head);
      var r := PutGroup(s, ids, head);
      assert forall item <- rest :: item in items;
      PutGroupsContent(r.0, r.1, rest);
      PutGroupsKeeps(r.0, r.1, rest);
    }
  }

  lemma IdsPoint(s: State, ids: Ids)
    requires IdsOf(s, ids)
    ensures forall low :: low in ids ==> ids[low] in s.groups
  {
  }

  lemma PutGroupNewRow(s: State, ids: Ids, item: GroupItem)
    requires Inv(s) && IdsOf(s, ids) && Lower(item.name) !in ids
    ensures var r := PutGroup(s, ids, item);
            && s.nextId !in s.groups
            && r == (s.(groups := s.groups[s.nextId := RestoredRow(item)], nextId := s.nextId + 1),
                     ids[Lower(item.name) := s.nextId])
  {
  }

  // ---------------------------------------------------------------- mappings

  // The group a payload wants a node in: the last of its mappings that names a known group.
  function Wanted(items: seq<Mapping>, ids: Ids, node: string): Option<string> {
    if items == [] then None
    else
      match Wanted(items[1..], ids, node)
      case Some(g) => Some(g)
      case None => if items[0].node == node && Applies(items[0], ids) then Some(items[0].group) else None
  }

  lemma {:induction false} WantedApplies(items: seq<Mapping>, ids: Ids, node: string)
    ensures Wanted(items, ids, node).Some? ==>
              node != "" && Lower(Wanted(items, ids, node).value) in ids
  {
    if items != [] { WantedApplies(items[1..], ids, node); }
  }

  // Every mapping is applied to a known node and kept for one that is not known yet; a node
  // without one is left where it is.
  lemma {:induction false} PutMappingsAt(s: State, ids: Ids, items: seq<Mapping>, node: string)
    ensures var t, w := PutMappings(s, ids, items), Wanted(items, ids, node);
            && (w.Some? ==> Lower(w.value) in ids)
            && (w.Some? && node in s.inventory ==> node in t.members && t.members[node] == ids[Lower(w.value)])
            && (w.Some? && node !in s.inventory ==> node in t.pending && t.pending[node] == w.value)
            && (w.None? || node !in s.inventory ==>
                  (node in t.members <==> node in s.members) && (node in s.members ==> t.members[node] == s.members[node]))
            && (w.None? || node in s.inventory ==>
                  (node in t.pending <==> node in s.pending) && (node in s.pending ==> t.pending[node] == s.pending[node]))
    ensures PutMappings(s, ids, items).(members := s.members, pending := s.pending) == s
    decreases |items|
  {
    hide Lower;
    WantedApplies(items, ids, node);
    if items != [] {
      var m := items[0];
      var next :=
        if !Applies(m, ids) then s
        else if m.node in s.inventory then s.(members := s.members[m.node := ids[Lower(m.group)]])
        else s.(pending := s.pending[m.node := m.group]);
      PutMappingsAt(next, ids, items[1..], node);
    }
  }

  lemma {:induction false} PutMappingsKeeps(s: State, ids: Ids, items: seq<Mapping>)
    requires Inv(s) && IdsOf(s, ids)
    ensures Inv(PutMappings(s, ids, items))
    decreases |items|
  {
    hide Lower;
    if items != [] {
      var m := items[0];
      if !Applies(m, ids) {
        PutMappingsKeeps(s, ids, items[1..]);
      } else if m.node in s.inventory {
        PutMappingsKeeps(s.(members := s.members[m.node := ids[Lower(m.group)]]), ids, items[1..]);
      } else {
        PutMappingsKeeps(s.(pending := s.pending[m.node := m.group]), ids, items[1..]);
      }
    }
  }

  // ---------------------------------------------------------------- into any state

  lemma RestoreKeeps(s: State, p: Payload, selected: set<Section>)
    requires Inv(s)
    ensures Inv(RestoreNodes(s, p, selected))
  {
    hide Inv, IdsOf, PutGroups, PutMappings, Cleared, NameIds;
    assert UniqueNames(s.groups) by { InvNames(s); }
    ClearedKeeps(s);
    PutGroupsKeeps(Cleared(s), map[], p.groups);
    NameIdsOf(s);
    var (grouped, ids) := if Groups in selected then RestoreGroups(s, p.groups) else (s, NameIds(s));
    PendingKeeps(grouped, ids);
    PutMappingsKeeps(grouped.(pending := map[]), ids, p.mappings);
  }

  lemma InvNames(s: State)
    requires Inv(s)
    ensures UniqueNames(s.groups)
  {
  }

  lemma PendingKeeps(s: State, ids: Ids)
    requires Inv(s) && IdsOf(s, ids)
    ensures Inv(s.(pending := map[])) && IdsOf(s.(pending := map[]), ids)
  {
  }

  // Restoring groups and mappings, whatever was there before: a known node that the payload
  // maps to one of its groups is in it, one it does not map is in the default group, and a
  // mapping of an unknown node waits for it.
  lemma NodesLand(s: State, p: Payload, node: string)
    requires Inv(s)
    ensures var ids := RestoreGroups(s, p.groups).1;
            var t, w := RestoreNodes(s, p, ALL), Wanted(p.mappings, ids, node);
            && ids.Keys == UsableNames(p.groups)
            && (w.Some? && node in s.inventory ==>
                  node in t.members && HasName(t.groups, t.members[node], w.value) && !t.groups[t.members[node]].system)
            && (w.None? ==> (node in t.members <==> node in s.members))
            && (w.None? && node in s.members ==> t.members[node] == t.system)
            && (node in t.pending <==> w.Some? && node !in s.inventory)
            && (node in t.pending ==> t.pending[node] == w.value)
  {
    hide Inv, PutGroups, PutMappings, Lower;
    ClearedKeeps(s);
    PutGroupsKeeps(Cleared(s), map[], p.groups);
    var (grouped, ids) := RestoreGroups(s, p.groups);
    PutMappingsAt(grouped.(pending := map[]), ids, p.mappings, node);
  }

  // A mapping that waits is honoured when its node appears.
  lemma PendingHonoured(s: State, p: Payload, node: string, visible: bool)
    requires Inv(s) && node !in s.inventory && Wanted(p.mappings, RestoreGroups(s, p.groups).1, node).Some?
    ensures Inv(RestoreNodes(s, p, ALL))
    ensures var w := Wanted(p.mappings, RestoreGroups(s, p.groups).1, node).value;
            var t := Appear(RestoreNodes(s, p, ALL), node, visible);
            node in t.members && HasName(t.groups, t.members[node], w) && node !in t.pending
  {
    hide Inv, RestoreGroups, RestoreNodes, Lower, Wanted;
    var t := RestoreNodes(s, p, ALL);
    var ids := RestoreGroups(s, p.groups).1;
    RestoreKeeps(s, p, ALL);
    NodesLand(s, p, node);
    WantedApplies(p.mappings, ids, node);
    var w := Wanted(p.mappings, ids, node).value;
    GroupOfName(s, p, Lower(w));
    NamedExists(t.groups, w, 1, t.nextId);
    InventoryKept(s, p);
  }

  lemma InventoryKept(s: State, p: Payload)
    requires Inv(s)
    ensures RestoreNodes(s, p, ALL).inventory == s.inventory
  {
    hide Inv, PutGroups, PutMappings;
    ClearedKeeps(s);
    PutGroupsKeeps(Cleared(s), map[], p.groups);
    var (grouped, ids) := RestoreGroups(s, p.groups);
    PutMappingsAt(grouped.(pending := map[]), ids, p.mappings, "");
  }

  lemma GroupOfName(s: State, p: Payload, low: string)
    requires Inv(s) && low in RestoreGroups(s, p.groups).1
    ensures var t := RestoreNodes(s, p, ALL);
            exists k :: 1 <= k < t.nextId && k in t.groups && !t.groups[k].system && Lower(t.groups[k].name) == low
  {
    hide PutGroups, PutMappings, Lower;
    ClearedKeeps(s);
    PutGroupsKeeps(Cleared(s), map[], p.groups);
    var (grouped, ids) := RestoreGroups(s, p.groups);
    PutMappingsAt(grouped.(pending := map[]), ids, p.mappings, "");
    var k, t := ids[low], RestoreNodes(s, p, ALL);
    assert t.groups == grouped.groups && t.nextId == grouped.nextId;
    assert 1 <= k < t.nextId && k in t.groups && !t.groups[k].system && Lower(t.groups[k].name) == low;
  }

  // ---------------------------------------------------------------- back into the same state

  // Groups that pass the restore's filter; the invariant does the rest.
  predicate StoredGroups(s: State) {
    forall k :: k in s.groups && !s.groups[k].system ==> s.groups[k].name != ""
  }

  lemma ExportedUsable(s: State, items: seq<GroupItem>)
    requires Inv(s) && StoredGroups(s) && ExportsGroups(s, items)
    ensures DistinctNames(items) && forall item <- items :: Usable(item)
  {
    hide Lower;
    forall item | item in items ensures Usable(item) {
      var k :| k in s.groups && !s.groups[k].system && ItemOf(s.groups[k]) == item;
      assert Lower(s.groups[k].name) != Lower(s.groups[s.system].name);
    }
  }

  // A stored group comes back under its name, its country code in upper case.
  lemma GroupComesBack(s: State, items: seq<GroupItem>, k: int)
    requires Inv(s) && StoredGroups(s) && ExportsGroups(s, items) && k in s.groups && !s.groups[k].system
    ensures var r := RestoreGroups(s, items);
            var low := Lower(s.groups[k].name);
            && low in r.1 && r.1[low] in r.0.groups
            && r.0.groups[r.1[low]] == s.groups[k].(country := CountryCode(s.groups[k].country))
  {
    hide Lower, CountryCode, Inv, PutGroups, Cleared;
    ClearedKeeps(s);
    ExportedUsable(s, items);
    PutGroupsContent(Cleared(s), map[], items);
    assert ItemOf(s.groups[k]) in items;
  }

  // And no other group comes back.
  lemma NoGroupAppears(s: State, items: seq<GroupItem>, k: int)
    requires Inv(s) && StoredGroups(s) && ExportsGroups(s, items)
    requires k in RestoreGroups(s, items).0.groups && !RestoreGroups(s, items).0.groups[k].system
    ensures exists j :: j in s.groups && !s.groups[j].system
                        && RestoreGroups(s, items).0.groups[k] == s.groups[j].(country := CountryCode(s.groups[j].country))
  {
    hide Lower, CountryCode, PutGroups, Cleared;
    ClearedKeeps(s);
    ExportedUsable(s, items);
    PutGroupsContent(Cleared(s), map[], items);
    PutGroupsKeeps(Cleared(s), map[], items);
    var r := RestoreGroups(s, items);
    var low := Lower(r.0.groups[k].name);
    assert low in r.1 && r.1[low] == k && low in UsableNames(items);
    var item :| item in items && Usable(item) && Lower(item.name) == low;
    var j :| j in s.groups && !s.groups[j].system && ItemOf(s.groups[j]) == item;
    assert r.0.groups[k] == s.groups[j].(country := CountryCode(s.groups[j].country));
  }

  lemma {:induction false} WantedAgrees(s: State, items: seq<Mapping>, ids: Ids, node: string)
    requires MembersPoint(s)
    requires forall m <- items ::
               m.node in s.members && !s.groups[s.members[m.node]].system && s.groups[s.members[m.node]].name == m.group
    ensures Wanted(items, ids, node).Some? ==>
              node in s.members && !s.groups[s.members[node]].system
              && Wanted(items, ids, node).value == s.groups[s.members[node]].name
    ensures forall m <- items :: m.node == node && Applies(m, ids) ==> Wanted(items, ids, node).Some?
  {
    hide Lower;
    if items != [] {
      assert items == [items[0]] + items[1..] && items[0] in items;
      assert forall m <- items[1..] :: m in items;
      WantedAgrees(s, items[1..], ids, node);
    }
  }

  // A member of a group other than the default one is wanted in the group of that name, a
  // member of the default group nowhere.
  lemma WantedOfExport(s: State, p: Payload, node: string)
    requires Inv(s) && StoredGroups(s) && ExportsGroups(s, p.groups) && ExportsMappings(s, p.mappings)
    requires node in s.members
    ensures var w := Wanted(p.mappings, RestoreGroups(s, p.groups).1, node);
            var g := s.groups[s.members[node]];
            w == if g.system then None else Some(g.name)
  {
    hide Lower, RestoreGroups, Wanted;
    var ids, g := RestoreGroups(s, p.groups).1, s.groups[s.members[node]];
    WantedAgrees(s, p.mappings, ids, node);
    if !g.system {
      GroupComesBack(s, p.groups, s.members[node]);
      assert Mapping(node, g.name) in p.mappings;
      assert Applies(Mapping(node, g.name), ids);
    }
  }

  // Every member is back in the group of the same name, and no mapping waits.
  lemma MemberComesBack(s: State, p: Payload, node: string)
    requires Inv(s) && StoredGroups(s) && ExportsGroups(s, p.groups) && ExportsMappings(s, p.mappings)
    requires node in s.members
    ensures var t := RestoreNodes(s, p, ALL);
            && node in t.members && t.members[node] in t.groups
            && t.groups[t.members[node]].name == s.groups[s.members[node]].name
            && t.groups[t.members[node]].system == s.groups[s.members[node]].system
            && node !in t.pending
  {
    hide Lower, Wanted, PutGroups, PutMappings, Cleared, CountryCode;
    WantedOfExport(s, p, node);
    ClearedKeeps(s);
    PutGroupsKeeps(Cleared(s), map[], p.groups);
    var (grouped, ids) := RestoreGroups(s, p.groups);
    PutMappingsAt(grouped.(pending := map[]), ids, p.mappings, node);
    var g := s.groups[s.members[node]];
    if g.system {
      SystemKept(s, p.groups);
    } else {
      GroupComesBack(s, p.groups, s.members[node]);
    }
  }

  // And no node becomes a member that was none.
  lemma NoMemberAppears(s: State, p: Payload)
    requires Inv(s) && StoredGroups(s) && ExportsGroups(s, p.groups) && ExportsMappings(s, p.mappings)
    ensures RestoreNodes(s, p, ALL).members.Keys == s.members.Keys
  {
    hide Lower, RestoreNodes, RestoreGroups, Wanted;
    forall node ensures node in RestoreNodes(s, p, ALL).members <==> node in s.members {
      WantedAgrees(s, p.mappings, RestoreGroups(s, p.groups).1, node);
      NodesLand(s, p, node);
      if node in s.members { MemberComesBack(s, p, node); }
    }
  }

  // The default group itself is never written by a restore.
  lemma {:induction false} SystemUntouched(s: State, ids: Ids, items: seq<GroupItem>)
    requires Inv(s) && IdsOf(s, ids)
    ensures var t := PutGroups(s, ids, items).0;
            s.system in s.groups && s.system in t.groups && t.groups[s.system] == s.groups[s.system]
    decreases |items|
  {
    hide Lower, Usable, CountryCode;
    if items != [] {
      if Usable(items[0]) {
        PutGroupKeeps(s, ids, items[0]);
        var r := PutGroup(s, ids, items[0]);
        SystemUntouched(r.0, r.1, items[1..]);
      } else {
        SystemUntouched(s, ids, items[1..]);
      }
    }
  }

  lemma SystemKept(s: State, items: seq<GroupItem>)
    requires Inv(s)
    ensures var t := RestoreGroups(s, items).0;
            s.system in t.groups && t.groups[s.system] == s.groups[s.system] && t.system == s.system
  {
    hide Lower, PutGroups, Cleared;
    ClearedKeeps(s);
    PutGroupsKeeps(Cleared(s), map[], items);
    SystemUntouched(Cleared(s), map[], items);
    assert Cleared(s).groups[s.system] == s.groups[s.system];
  }

  // What is stored passes the filters of a restore.
  predicate Stored(c: Config) {
    StoredUsers(c.users) && StoredKeys(c.keys) && StoredGroups(c.nodes)
  }

  // Restoring an export of all sections into the state it was taken from succeeds, and keeps
  // accounts, keys up to their counters and settings up to the session secret.
  lemma RoundTrip(c: Config, p: Payload, actor: string, safe: set<string>, secret: string)
    requires Inv(c.nodes) && Stored(c) && Exports(c, p, safe) && IsActor(c.users, actor)
    ensures var r := RestoreConfiguration(c, p, ALL, actor, safe, secret);
            && r.Some?
            && r.value.users == c.users
            && r.value.keys == (map k | k in c.keys :: KeyRow(c.keys[k].key, 0))
            && r.value.settings == c.settings[SECRET_KEY := secret]
            && r.value.nodes == RestoreNodes(c.nodes, p, ALL)
  {
    hide Inv, RestoreUsers, PutKeys, RestoreSettings, RestoreNodes;
    UsersRoundTrip(c.users, p.users, actor);
    KeysRoundTrip(c.keys, p.keys);
    SettingsRoundTrip(c.settings, p.settings, safe);
  }

  // A mapping that was still waiting is not exported, so restoring loses it: the pending
  // mappings survive exactly when there are none.
  lemma PendingSurvivesExactly(s: State, p: Payload)
    requires Inv(s) && StoredGroups(s) && ExportsGroups(s, p.groups) && ExportsMappings(s, p.mappings)
    ensures RestoreNodes(s, p, ALL).pending == s.pending <==> s.pending == map[]
  {
    hide Lower, RestoreNodes, RestoreGroups, Wanted;
    var t, ids := RestoreNodes(s, p, ALL), RestoreGroups(s, p.groups).1;
    forall node ensures node !in t.pending {
      NodesLand(s, p, node);
      WantedAgrees(s, p.mappings, ids, node);
    }
    assert t.pending == map[];
  }

  // Whoever restores stays an active super admin, and a section that is not selected is not
  // touched.
  lemma ActorAndUnselected(
    c: Config, p: Payload, selected: set<Section>, actor: string, safe: set<string>, secret: string)
    requires Inv(c.nodes) && RestoreConfiguration(c, p, selected, actor, safe, secret).Some?
    ensures var t := RestoreConfiguration(c, p, selected, actor, safe, secret).value;
            && IsActor(t.users, actor) && t.users[actor] == c.users[actor]
            && (Users !in selected ==> t.users == c.users)
            && (ApiKeys !in selected ==> t.keys == c.keys)
            && (t.settings - safe - {SECRET_KEY} == c.settings - safe - {SECRET_KEY})
            && (Settings !in selected && Users !in selected ==> t.settings == c.settings)
            && (Groups !in selected ==> t.nodes.groups == c.nodes.groups)
            && (Groups !in selected && Mappings !in selected ==> t.nodes == c.nodes)
            && (Mappings !in selected ==> t.nodes.pending == c.nodes.pending)
            && t.nodes.inventory == c.nodes.inventory && t.nodes.history == c.nodes.history
  {
    hide Inv, PutUsers, PutKeys, PutSettings, RestoreNodes;
    ActorKept(map u | u in c.users && u == actor :: c.users[u], p.users, actor);
    UnsafeSettingsKept(c.settings - safe, p.settings, safe);
    NodesFrame(c.nodes, p, selected);
    var t := RestoreConfiguration(c, p, selected, actor, safe, secret).value;
    var settings := if Settings in selected then RestoreSettings(c.settings, p.settings, safe) else c.settings;
    assert settings - safe == c.settings - safe;
    assert t.settings - safe - {SECRET_KEY} == (settings - safe) - {SECRET_KEY};
  }

  lemma NodesFrame(s: State, p: Payload, selected: set<Section>)
    requires Inv(s)
    ensures var t := RestoreNodes(s, p, selected);
            && (Groups !in selected ==> t.groups == s.groups)
            && (Groups !in selected && Mappings !in selected ==> t == s)
            && (Mappings !in selected ==> t.pending == s.pending)
            && t.inventory == s.inventory && t.history == s.history
  {
    hide Inv, IdsOf, PutGroups, PutMappings;
    assert UniqueNames(s.groups) by { InvNames(s); }
    ClearedKeeps(s);
    PutGroupsKeeps(Cleared(s), map[], p.groups);
    var (grouped, ids) := if Groups in selected then RestoreGroups(s, p.groups) else (s, NameIds(s));
    PutMappingsAt(grouped.(pending := map[]), ids, p.mappings, "");
  }
}
