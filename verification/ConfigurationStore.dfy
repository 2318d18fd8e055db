/** The restore as the program carries it out: section by section, in one transaction. */
module ConfigurationStore {
  import opened Options
  import opened NodeGroups
  import opened Configuration
  import opened ConfigurationRestore

  class Store {
    var users: map<string, Account>
    var keys: map<string, KeyRow>
    var settings: map<string, string>
    var nodes: State

    ghost function Tables(): Config
      reads this
    {
      Config(users, keys, settings, nodes)
    }

    method RestoreUserSection(items: seq<UserItem>, actor: string)
      modifies this`users
      ensures users == RestoreUsers(old(users), items, actor)
    {
      users := map u | u in users && u == actor :: users[u];
      for i := 0 to |items|
        invariant PutUsers(users, items[i..], actor) == RestoreUsers(old(users), items, actor)
      {
        var item := items[i];
        assert items[i..][1..] == items[i + 1..];
        if item.username == "" || item.username == actor || item.account.role !in ROLES || item.account.hash == "" {
          continue;
        }
        users := users[item.username := item.account];
      }
    }

    method RestoreKeySection(items: seq<KeyItem>) returns (ok: bool)
      modifies this`keys
      ensures ok == PutKeys(map[], items).Some?
      ensures ok ==> keys == PutKeys(map[], items).value
    {
      keys := map[];
      for i := 0 to |items|
        invariant PutKeys(keys, items[i..]) == PutKeys(map[], items)
      {
        var item := items[i];
        assert items[i..][1..] == items[i + 1..];
        if item.id == "" || item.key.secret == "" { continue; }
        if item.id in keys { return false; }
        keys := keys[item.id := KeyRow(item.key, 0)];
      }
      ok := true;
    }

    method RestoreSettingSection(items: seq<SettingItem>, safe: set<string>)
      modifies this`settings
      ensures settings == RestoreSettings(old(settings), items, safe)
    {
      settings := settings - safe;
      for i := 0 to |items|
        invariant PutSettings(settings, items[i..], safe) == RestoreSettings(old(settings), items, safe)
      {
        assert items[i..][1..] == items[i + 1..];
        if items[i].key !in safe { continue; }
        settings := settings[items[i].key := items[i].value];
      }
    }

    method RestoreGroupSection(items: seq<GroupItem>) returns (ids: Ids)
      modifies this`nodes
      ensures (nodes, ids) == RestoreGroups(old(nodes), items)
    {
      nodes := nodes.(members := map n | n in nodes.members :: nodes.system);
      nodes := nodes.(groups := map k | k in nodes.groups && nodes.groups[k].system :: nodes.groups[k]);
      ids := map[];
      for i := 0 to |items|
        invariant PutGroups(nodes, ids, items[i..]) == RestoreGroups(old(nodes), items)
      {
        assert items[i..][1..] == items[i + 1..];
        if items[i].name == "" || Lower(items[i].name) == UNGROUPED { continue; }
        var r := PutGroup(nodes, ids, items[i]);
        nodes, ids := r.0, r.1;
      }
    }

    method RestoreMappingSection(items: seq<Mapping>, ids: Ids)
      modifies this`nodes
      ensures nodes == RestoreMappings(old(nodes), ids, items)
    {
      nodes := nodes.(pending := map[]);
      for i := 0 to |items|
        invariant PutMappings(nodes, ids, items[i..]) == RestoreMappings(old(nodes), ids, items)
      {
        var m := items[i];
        assert items[i..][1..] == items[i + 1..];
        if m.node == "" || Lower(m.group) !in ids { continue; }
        if m.node in nodes.inventory {
          nodes := nodes.(members := nodes.members[m.node := ids[Lower(m.group)]]);
        } else {
          nodes := nodes.(pending := nodes.pending[m.node := m.group]);
        }
      }
    }

    // One transaction: either everything selected is restored, or nothing is changed.
    method Restore(p: Payload, selected: set<Section>, actor: string, safe: set<string>, secret: string)
      returns (ok: bool)
      requires Inv(nodes)
      modifies this
      ensures var r := RestoreConfiguration(old(Tables()), p, selected, actor, safe, secret);
              ok == r.Some? && Tables() == if ok then r.value else old(Tables())
      ensures Inv(nodes)
    {
      hide Inv, RestoreUsers, RestoreSettings, RestoreGroups, RestoreMappings, PutKeys;
      RestoreKeeps(nodes, p, selected);
      InvNames(nodes);
      if selected == {} { return false; }
      if !IsActor(users, actor) { return false; }
      var savedUsers, savedKeys := users, keys;
      if Users in selected {
        RestoreUserSection(p.users, actor);
      }
      if ApiKeys in selected {
        ok := RestoreKeySection(p.keys);
        if !ok {
          users, keys := savedUsers, savedKeys;
          return;
        }
      }
      if Settings in selected {
        RestoreSettingSection(p.settings, safe);
      }
      var ids: Ids;
      if Groups in selected {
        ids := RestoreGroupSection(p.groups);
      } else {
        ids := NameIds(nodes);
      }
      if Mappings in selected {
        RestoreMappingSection(p.mappings, ids);
      }
      if Users in selected {
        settings := settings[SECRET_KEY := secret];
      }
      ok := true;
    }
  }
}
