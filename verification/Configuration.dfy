/**
 * Configuration backup: what is exported, and the restore of the selected sections as a
 * function of the tables.  Texts arrive trimmed, flags and numbers read.
 */
module Configuration {
  import opened Options
  import opened NodeGroups

  datatype Account = Account(hash: string, role: string, active: bool)

  datatype ApiKey = ApiKey(
    name: string, secret: string, scopes: string, addresses: string, active: bool, createdBy: string,
    expires: Option<int>, revoked: Option<int>, revokedBy: string, rotatedFrom: string, note: string)

  // A stored key, with how often it was used.
  datatype KeyRow = KeyRow(key: ApiKey, uses: nat)

  datatype Config = Config(
    users: map<string, Account>, keys: map<string, KeyRow>, settings: map<string, string>, nodes: State)

  datatype UserItem = UserItem(username: string, account: Account)
  datatype KeyItem = KeyItem(id: string, key: ApiKey)
  datatype SettingItem = SettingItem(key: string, value: string)
  datatype GroupItem = GroupItem(name: string, description: string, country: string, active: bool)
  datatype Mapping = Mapping(node: string, group: string)

  datatype Payload = Payload(
    users: seq<UserItem>, keys: seq<KeyItem>, settings: seq<SettingItem>, groups: seq<GroupItem>,
    mappings: seq<Mapping>)

  datatype Section = Users | ApiKeys | Settings | Groups | Mappings

  const ALL := {Users, ApiKeys, Settings, Groups, Mappings}
  const ROLES := {"viewer", "admin", "super_admin"}
  const SECRET_KEY := "app_secret_key"

  predicate IsActor(users: map<string, Account>, actor: string) {
    actor in users && users[actor].role == "super_admin" && users[actor].active
  }

  // ---------------------------------------------------------------- the sections

  predicate UsableUser(item: UserItem, actor: string) {
    item.username != "" && item.username != actor && item.account.role in ROLES && item.account.hash != ""
  }

  function PutUsers(users: map<string, Account>, items: seq<UserItem>, actor: string): map<string, Account>
    decreases |items|
  {
    if items == [] then users
    else
      PutUsers(if UsableUser(items[0], actor) then users[items[0].username := items[0].account] else users,
               items[1..], actor)
  }

  // Every account but the actor's is replaced.
  function RestoreUsers(users: map<string, Account>, items: seq<UserItem>, actor: string): map<string, Account> {
    PutUsers(map u | u in users && u == actor :: users[u], items, actor)
  }

  predicate UsableKey(item: KeyItem) {
    item.id != "" && item.key.secret != ""
  }

  // A key listed twice violates the unique index and aborts the restore.
  function PutKeys(keys: map<string, KeyRow>, items: seq<KeyItem>): Option<map<string, KeyRow>>
    decreases |items|
  {
    if items == [] then Some(keys)
    else if !UsableKey(items[0]) then PutKeys(keys, items[1..])
    else if items[0].id in keys then None
    else PutKeys(keys[items[0].id := KeyRow(items[0].key, 0)], items[1..])
  }

  function PutSettings(settings: map<string, string>, items: seq<SettingItem>, safe: set<string>): map<string, string>
    decreases |items|
  {
    if items == [] then settings
    else
      PutSettings(if items[0].key in safe then settings[items[0].key := items[0].value] else settings, items[1..], safe)
  }

  function RestoreSettings(settings: map<string, string>, items: seq<SettingItem>, safe: set<string>): map<string, string> {
    PutSettings(settings - safe, items, safe)
  }

  function UpperChar(c: char): char {
    if 'a' <= c <= 'z' then (c as int - 32) as char else c
  }

  // [:2].upper()
  function CountryCode(country: string): string {
    if |country| >= 2 then [UpperChar(country[0]), UpperChar(country[1])]
    else if |country| == 1 then [UpperChar(country[0])]
    else ""
  }

  // The id of the group with this name, compared in lower case.
  predicate HasName(groups: map<int, Group>, id: int, name: string) {
    id in groups && Lower(groups[id].name) == Lower(name)
  }

  // The groups known by name while a restore runs.
  type Ids = map<string, int>

  predicate Usable(item: GroupItem) {
    item.name != "" && Lower(item.name) != UNGROUPED
  }

  // INSERT ... ON CONFLICT(LOWER(name)) DO UPDATE; ids remembers which name has which id.
  function PutGroup(s: State, ids: Ids, item: GroupItem): (State, Ids) {
    var row := Group(item.name, item.description, CountryCode(item.country), item.active, false);
    var low := Lower(item.name);
    if low in ids && ids[low] in s.groups then
      (s.(groups := s.groups[ids[low] := row.(name := s.groups[ids[low]].name)]), ids)
    else
      (s.(groups := s.groups[s.nextId := row], nextId := s.nextId + 1), ids[low := s.nextId])
  }

  function PutGroups(s: State, ids: Ids, items: seq<GroupItem>): (State, Ids)
    decreases |items|
  {
    if items == [] then (s, ids)
    else if !Usable(items[0]) then PutGroups(s, ids, items[1..])
    else
      var r := PutGroup(s, ids, items[0]);
      PutGroups(r.0, r.1, items[1..])
  }

  // Every node falls back to the default group and every other group is removed.
  function Cleared(s: State): State {
    s.(members := map n | n in s.members :: s.system,
       groups := map k | k in s.groups && s.groups[k].system :: s.groups[k])
  }

  function NameIds(s: State): Ids
    requires UniqueNames(s.groups)
  {
    map k | k in s.groups && !s.groups[k].system :: Lower(s.groups[k].name) := k
  }

  function RestoreGroups(s: State, items: seq<GroupItem>): (State, Ids) {
    PutGroups(Cleared(s), map[], items)
  }

  predicate Applies(m: Mapping, ids: Ids) {
    m.node != "" && Lower(m.group) in ids
  }

  function PutMappings(s: State, ids: Ids, items: seq<Mapping>): State
    decreases |items|
  {
    if items == [] then s
    else if !Applies(items[0], ids) then PutMappings(s, ids, items[1..])
    else
      var m := items[0];
      PutMappings(
        if m.node in s.inventory then s.(members := s.members[m.node := ids[Lower(m.group)]])
        else s.(pending := s.pending[m.node := m.group]),
        ids, items[1..])
  }

  function RestoreMappings(s: State, ids: Ids, items: seq<Mapping>): State {
    PutMappings(s.(pending := map[]), ids, items)
  }

  // ---------------------------------------------------------------- the whole restore

  function RestoreNodes(s: State, p: Payload, selected: set<Section>): State
    requires Inv(s)
  {
    var (grouped, ids) := if Groups in selected then RestoreGroups(s, p.groups) else (s, NameIds(s));
    if Mappings in selected then RestoreMappings(grouped, ids, p.mappings) else grouped
  }

  // None when the restore is refused or aborts; the tables are then as before.
  function RestoreConfiguration(
    c: Config, p: Payload, selected: set<Section>, actor: string, safe: set<string>, secret: string): Option<Config>
    requires Inv(c.nodes)
  {
    if selected == {} || !IsActor(c.users, actor) then None
    else
      var keys := if ApiKeys in selected then PutKeys(map[], p.keys) else Some(c.keys);
      if keys.None? then None
      else
        var settings := if Settings in selected then RestoreSettings(c.settings, p.settings, safe) else c.settings;
        Some(Config(
               if Users in selected then RestoreUsers(c.users, p.users, actor) else c.users,
               keys.value,
               if Users in selected then settings[SECRET_KEY := secret] else settings,
               RestoreNodes(c.nodes, p, selected)))
  }

  // ---------------------------------------------------------------- what an export holds

  // The rows of a section, each once, in any order.
  ghost predicate ExportsUsers(users: map<string, Account>, items: seq<UserItem>) {
    && (forall i, j :: 0 <= i < j < |items| ==> items[i].username != items[j].username)
    && (forall item <- items :: item.username in users && users[item.username] == item.account)
    && (forall u :: u in users ==> UserItem(u, users[u]) in items)
  }

  ghost predicate ExportsKeys(keys: map<string, KeyRow>, items: seq<KeyItem>) {
    && (forall i, j :: 0 <= i < j < |items| ==> items[i].id != items[j].id)
    && (forall item <- items :: item.id in keys && keys[item.id].key == item.key)
    && (forall k :: k in keys ==> KeyItem(k, keys[k].key) in items)
  }

  ghost predicate ExportsSettings(settings: map<string, string>, items: seq<SettingItem>, safe: set<string>) {
    && (forall i, j :: 0 <= i < j < |items| ==> items[i].key != items[j].key)
    && (forall item <- items :: item.key in settings && item.key in safe && settings[item.key] == item.value)
    && (forall k :: k in settings && k in safe ==> SettingItem(k, settings[k]) in items)
  }

  function ItemOf(g: Group): GroupItem {
    GroupItem(g.name, g.description, g.country, g.active)
  }

  ghost predicate ExportsGroups(s: State, items: seq<GroupItem>) {
    && (forall i, j :: 0 <= i < j < |items| ==> Lower(items[i].name) != Lower(items[j].name))
    && (forall item <- items :: exists k :: k in s.groups && !s.groups[k].system && ItemOf(s.groups[k]) == item)
    && (forall k :: k in s.groups && !s.groups[k].system ==> ItemOf(s.groups[k]) in items)
  }

  ghost predicate ExportsMappings(s: State, items: seq<Mapping>)
    requires MembersPoint(s)
  {
    && (forall i, j :: 0 <= i < j < |items| ==> items[i].node != items[j].node)
    && (forall m <- items ::
          m.node in s.members && !s.groups[s.members[m.node]].system && s.groups[s.members[m.node]].name == m.group)
    && (forall n :: n in s.members && !s.groups[s.members[n]].system ==>
          Mapping(n, s.groups[s.members[n]].name) in items)
  }

  ghost predicate Exports(c: Config, p: Payload, safe: set<string>)
    requires Inv(c.nodes)
  {
    && ExportsUsers(c.users, p.users) && ExportsKeys(c.keys, p.keys) && ExportsSettings(c.settings, p.settings, safe)
    && ExportsGroups(c.nodes, p.groups) && ExportsMappings(c.nodes, p.mappings)
  }
}
