/**
 The startup sync of the YAML model configuration into the two model tables: planning, upserting and
 disabling, inside one transaction.
 */
module ConfigSync {
  import opened Basics
  import opened Config
  import opened UpsertTable
  import Text

  const DEFAULT_WEIGHT: int := 100
  const DEFAULT_TIMEOUT_SECONDS: int := 60
  const DEFAULT_RETRY_TIMES: int := 1

  // ---------- Rows ----------

  datatype GroupFields = GroupFields(
    strategy: string,
    costPerInputToken: int,
    costPerOutputToken: int,
    requestDefaults: string)

  datatype EndpointKey = EndpointKey(groupId: int, name: string)

  datatype EndpointFields = EndpointFields(
    providerType: string,
    upstreamModelName: string,
    baseURL: string,
    apiKeySecretRef: string,
    weight: int,
    timeoutSeconds: int,
    retryTimes: int,
    skipTLSVerify: bool)

  type GroupTable = Table<string, GroupFields>
  type EndpointTable = Table<EndpointKey, EndpointFields>
  type WantedGroup = Wanted<string, GroupFields>

  datatype Db = Db(groups: GroupTable, endpoints: EndpointTable)

  /** Unique names, and every endpoint belongs to a group. */
  ghost predicate DbOk(db: Db) {
    && Valid(db.groups) && Valid(db.endpoints)
    && forall id :: id in db.endpoints.rows ==> db.endpoints.rows[id].key.groupId in db.groups.rows
  }

  // ---------- The plan ----------

  datatype PlanError =
    | EmptyGroupName
    | DuplicateGroup(name: string)
    | MarshalFailed(name: string)
    | EmptyEndpointName(groupName: string)
    | DuplicateEndpoint(groupName: string, name: string)

  datatype PlannedEndpoint = PlannedEndpoint(groupName: string, name: string, fields: EndpointFields)

  datatype Desired = Desired(groups: seq<WantedGroup>, endpoints: seq<PlannedEndpoint>)

  function NormalizePositive(value: int, fallback: int): int {
    if value > 0 then value else fallback
  }

  function NormalizeNonNegative(value: int, fallback: int): int {
    if value >= 0 then value else fallback
  }

  function GroupFieldsOf(g: ModelGroup): GroupFields
    requires g.requestDefaults.Some?
  {
    GroupFields(NormalizeStrategy(g.strategy), g.costPerInputToken, g.costPerOutputToken, g.requestDefaults.value)
  }

  function EndpointFieldsOf(m: ModelConfig): EndpointFields {
    EndpointFields(
      Text.Trim(m.kind), Text.Trim(m.name), Text.Trim(m.baseURL), Text.Trim(m.apiKeySecretRef),
      NormalizePositive(m.weight, DEFAULT_WEIGHT),
      NormalizePositive(m.timeoutSeconds, DEFAULT_TIMEOUT_SECONDS),
      NormalizeNonNegative(m.retryTimes, DEFAULT_RETRY_TIMES),
      m.skipTLSVerify)
  }

  function GroupNames(groups: seq<WantedGroup>): set<string> {
    WantedKeys(groups)
  }

  function EndpointNames(endpoints: seq<PlannedEndpoint>): set<string> {
    set i | 0 <= i < |endpoints| :: endpoints[i].name
  }

  /** The endpoints of one group, or the first reason to refuse them. */
  function PlanEndpoints(groupName: string, models: seq<ModelConfig>): Result<seq<PlannedEndpoint>, PlanError> {
    if models == [] then Ok([])
    else
      var before := PlanEndpoints(groupName, models[..|models| - 1]);
      var m := models[|models| - 1];
      var name := Text.Trim(m.name);
      if before.Err? then before
      else if name == "" then Err(EmptyEndpointName(groupName))
      else if name in EndpointNames(before.value) then Err(DuplicateEndpoint(groupName, name))
      else Ok(before.value + [PlannedEndpoint(groupName, name, EndpointFieldsOf(m))])
  }

  /** Adds one group to what earlier groups want, or gives the first reason to refuse it. */
  function PlanGroup(before: Desired, g: ModelGroup): Result<Desired, PlanError> {
    var name := Text.Trim(g.name);
    if name == "" then Err(EmptyGroupName)
    else if name in GroupNames(before.groups) then Err(DuplicateGroup(name))
    else if g.requestDefaults.None? then Err(MarshalFailed(name))
    else
      match PlanEndpoints(name, g.models)
      case Err(e) => Err(e)
      case Ok(endpoints) =>
        Ok(Desired(before.groups + [Wanted(name, GroupFieldsOf(g))], before.endpoints + endpoints))
  }

  function Plan(config: seq<ModelGroup>): Result<Desired, PlanError> {
    if config == [] then Ok(Desired([], []))
    else
      match Plan(config[..|config| - 1])
      case Err(e) => Err(e)
      case Ok(before) => PlanGroup(before, config[|config| - 1])
  }

  // ---------- Which configurations are accepted ----------

  ghost predicate ModelsOk(models: seq<ModelConfig>) {
    && (forall i :: 0 <= i < |models| ==> Text.Trim(models[i].name) != "")
    && (forall i, j :: 0 <= i < j < |models| ==> Text.Trim(models[i].name) != Text.Trim(models[j].name))
  }

  /** A group that may be accepted, as far as it alone tells. */
  ghost predicate GroupOk(g: ModelGroup) {
    Text.Trim(g.name) != "" && g.requestDefaults.Some? && ModelsOk(g.models)
  }

  ghost predicate DistinctGroups(config: seq<ModelGroup>) {
    forall i, j :: 0 <= i < j < |config| ==> Text.Trim(config[i].name) != Text.Trim(config[j].name)
  }

  ghost predicate ConfigOk(config: seq<ModelGroup>) {
    (forall i :: 0 <= i < |config| ==> GroupOk(config[i])) && DistinctGroups(config)
  }

  /** The planned endpoints are the configured ones, in order, by trimmed name and with normalized columns. */
  ghost predicate EndpointsPlanned(groupName: string, models: seq<ModelConfig>, endpoints: seq<PlannedEndpoint>) {
    && |endpoints| == |models|
    && forall i :: 0 <= i < |models| ==>
         endpoints[i] == PlannedEndpoint(groupName, Text.Trim(models[i].name), EndpointFieldsOf(models[i]))
  }

  lemma PlannedEndpointNames(groupName: string, models: seq<ModelConfig>, endpoints: seq<PlannedEndpoint>, name: string)
    requires EndpointsPlanned(groupName, models, endpoints)
    ensures name in EndpointNames(endpoints) <==> exists i :: 0 <= i < |models| && Text.Trim(models[i].name) == name
  {
    assert forall i :: 0 <= i < |models| ==> endpoints[i].name == Text.Trim(models[i].name);
  }

  lemma {:induction false} PlanEndpointsAccepts(groupName: string, models: seq<ModelConfig>)
    ensures PlanEndpoints(groupName, models).Ok? <==> ModelsOk(models)
    ensures PlanEndpoints(groupName, models).Ok? ==>
              EndpointsPlanned(groupName, models, PlanEndpoints(groupName, models).value)
  {
    if models != [] {
      var init, m := models[..|models| - 1], models[|models| - 1];
      PlanEndpointsAccepts(groupName, init);
      ModelsOkSnoc(models);
      if PlanEndpoints(groupName, init).Ok? {
        PlannedEndpointNames(groupName, init, PlanEndpoints(groupName, init).value, Text.Trim(m.name));
        EndpointsPlannedSnoc(groupName, models, PlanEndpoints(groupName, init).value);
      }
    }
  }

  lemma EndpointsPlannedSnoc(groupName: string, models: seq<ModelConfig>, endpoints: seq<PlannedEndpoint>)
    requires models != [] && EndpointsPlanned(groupName, models[..|models| - 1], endpoints)
    ensures var m := models[|models| - 1];
            var planned := PlannedEndpoint(groupName, Text.Trim(m.name), EndpointFieldsOf(m));
            EndpointsPlanned(groupName, models, endpoints + [planned])
  {
  }

  lemma ModelsOkSnoc(models: seq<ModelConfig>)
    requires models != []
    ensures var init, name := models[..|models| - 1], Text.Trim(models[|models| - 1].name);
            ModelsOk(models)
            <==> ModelsOk(init) && name != "" && !exists i :: 0 <= i < |init| && Text.Trim(init[i].name) == name
  {
    assert forall i :: 0 <= i < |models| - 1 ==> models[..|models| - 1][i] == models[i];
  }

  // ---------- What the plan wants ----------

  /** The trimmed names of the configured groups. */
  function ConfiguredGroups(config: seq<ModelGroup>): set<string> {
    set i | 0 <= i < |config| :: Text.Trim(config[i].name)
  }

  ghost predicate ConfigOkFrom(before: set<string>, g: ModelGroup) {
    GroupOk(g) && Text.Trim(g.name) !in before
  }

  lemma ConfigOkSnoc(config: seq<ModelGroup>)
    requires config != []
    ensures var last := |config| - 1;
            ConfigOk(config)
            <==> ConfigOk(config[..last]) && ConfigOkFrom(ConfiguredGroups(config[..last]), config[last])
  {
    DistinctGroupsSnoc(config[..|config| - 1], config[|config| - 1]);
    assert config == config[..|config| - 1] + [config[|config| - 1]];
  }

  lemma DistinctGroupsSnoc(init: seq<ModelGroup>, g: ModelGroup)
    ensures DistinctGroups(init + [g]) <==> DistinctGroups(init) && Text.Trim(g.name) !in ConfiguredGroups(init)
  {
    var all := init + [g];
    assert all[|init|] == g;
    assert forall i :: 0 <= i < |init| ==> all[i] == init[i];
  }

  lemma PlanGroupAccepts(before: Desired, g: ModelGroup)
    ensures var r := PlanGroup(before, g);
            && (r.Ok? <==> ConfigOkFrom(GroupNames(before.groups), g))
            && (r.Ok? ==> r.value.groups == before.groups + [Wanted(Text.Trim(g.name), GroupFieldsOf(g))])
  {
    PlanEndpointsAccepts(Text.Trim(g.name), g.models);
  }

  /** The planned groups are the configured ones, in order, by trimmed name and with normalized columns. */
  ghost predicate GroupsPlanned(config: seq<ModelGroup>, groups: seq<WantedGroup>) {
    && |groups| == |config|
    && forall i :: 0 <= i < |config| ==>
         config[i].requestDefaults.Some? && groups[i] == Wanted(Text.Trim(config[i].name), GroupFieldsOf(config[i]))
  }

  lemma GroupsPlannedSnoc(config: seq<ModelGroup>, groups: seq<WantedGroup>)
    requires config != [] && config[|config| - 1].requestDefaults.Some?
    requires GroupsPlanned(config[..|config| - 1], groups)
    ensures var g := config[|config| - 1];
            GroupsPlanned(config, groups + [Wanted(Text.Trim(g.name), GroupFieldsOf(g))])
  {
  }

  lemma PlannedNames(config: seq<ModelGroup>, groups: seq<WantedGroup>)
    requires GroupsPlanned(config, groups)
    ensures GroupNames(groups) == ConfiguredGroups(config)
  {
    assert forall i :: 0 <= i < |config| ==> groups[i].key == Text.Trim(config[i].name);
  }

  /** A plan is made exactly for the configurations without empty, duplicate or unmarshallable entries. */
  lemma {:induction false} PlanAccepts(config: seq<ModelGroup>)
    ensures Plan(config).Ok? <==> ConfigOk(config)
    ensures Plan(config).Ok? ==> GroupsPlanned(config, Plan(config).value.groups)
  {
    if config != [] {
      var last := |config| - 1;
      PlanAccepts(config[..last]);
      ConfigOkSnoc(config);
      var before := Plan(config[..last]);
      if before.Ok? {
        PlannedNames(config[..last], before.value.groups);
        PlanGroupAccepts(before.value, config[last]);
        if Plan(config).Ok? {
          GroupsPlannedSnoc(config, before.value.groups);
        }
      }
    }
  }

  // ---------- The endpoints the plan wants ----------

  datatype Pair = Pair(groupName: string, name: string)

  function Pairs(endpoints: seq<PlannedEndpoint>): set<Pair> {
    set i | 0 <= i < |endpoints| :: Pair(endpoints[i].groupName, endpoints[i].name)
  }

  ghost predicate DistinctPairs(endpoints: seq<PlannedEndpoint>) {
    forall i, j :: 0 <= i < j < |endpoints| ==>
      endpoints[i].groupName != endpoints[j].groupName || endpoints[i].name != endpoints[j].name
  }

  ghost predicate InGroups(endpoints: seq<PlannedEndpoint>, names: set<string>) {
    forall i :: 0 <= i < |endpoints| ==> endpoints[i].groupName in names
  }

  ghost predicate DesiredOk(d: Desired) {
    && DistinctWanted(d.groups)
    && DistinctPairs(d.endpoints)
    && InGroups(d.endpoints, GroupNames(d.groups))
  }

  /** An endpoint of the configuration, by trimmed names. */
  ghost predicate ConfiguredIn(g: ModelGroup, e: PlannedEndpoint) {
    && e.groupName == Text.Trim(g.name)
    && exists j :: 0 <= j < |g.models|
          && e.name == Text.Trim(g.models[j].name) && e.fields == EndpointFieldsOf(g.models[j])
  }

  ghost predicate Configured(config: seq<ModelGroup>, e: PlannedEndpoint) {
    exists i :: 0 <= i < |config| && ConfiguredIn(config[i], e)
  }

  lemma NewGroupKeepsPairs(before: Desired, name: string, endpoints: seq<PlannedEndpoint>)
    requires DistinctPairs(before.endpoints) && InGroups(before.endpoints, GroupNames(before.groups))
    requires name !in GroupNames(before.groups)
    requires DistinctPairs(endpoints) && forall i :: 0 <= i < |endpoints| ==> endpoints[i].groupName == name
    ensures DistinctPairs(before.endpoints + endpoints)
    ensures InGroups(before.endpoints + endpoints, GroupNames(before.groups) + {name})
  {
  }

  lemma NewGroupKeepsNames(groups: seq<WantedGroup>, w: WantedGroup)
    requires DistinctWanted(groups) && w.key !in GroupNames(groups)
    ensures DistinctWanted(groups + [w])
    ensures GroupNames(groups + [w]) == GroupNames(groups) + {w.key}
  {
    WantedKeysAppend(groups, w);
    assert forall i :: 0 <= i < |groups| ==> groups[i].key in GroupNames(groups);
  }

  lemma PlanGroupKeepsOk(before: Desired, g: ModelGroup)
    requires DesiredOk(before) && PlanGroup(before, g).Ok?
    ensures DesiredOk(PlanGroup(before, g).value)
  {
    var name := Text.Trim(g.name);
    var endpoints := PlanEndpoints(name, g.models).value;
    PlanEndpointsAccepts(name, g.models);
    NewGroupKeepsNames(before.groups, Wanted(name, GroupFieldsOf(g)));
    NewGroupKeepsPairs(before, name, endpoints);
  }

  lemma {:induction false} PlanIsOk(config: seq<ModelGroup>)
    requires Plan(config).Ok?
    ensures DesiredOk(Plan(config).value)
  {
    if config != [] {
      PlanIsOk(config[..|config| - 1]);
      PlanGroupKeepsOk(Plan(config[..|config| - 1]).value, config[|config| - 1]);
    }
  }

  lemma PlannedInGroup(g: ModelGroup, e: PlannedEndpoint)
    requires PlanEndpoints(Text.Trim(g.name), g.models).Ok?
    ensures e in PlanEndpoints(Text.Trim(g.name), g.models).value <==> ConfiguredIn(g, e)
  {
    PlanEndpointsAccepts(Text.Trim(g.name), g.models);
    var endpoints := PlanEndpoints(Text.Trim(g.name), g.models).value;
    if ConfiguredIn(g, e) {
      var j :| 0 <= j < |g.models| && e.name == Text.Trim(g.models[j].name)
               && e.fields == EndpointFieldsOf(g.models[j]);
      assert endpoints[j] == e;
    }
  }

  /** The planned endpoints are the configured ones. */
  lemma {:induction false} PlannedEndpoints(config: seq<ModelGroup>, e: PlannedEndpoint)
    requires Plan(config).Ok?
    ensures e in Plan(config).value.endpoints <==> Configured(config, e)
  {
    if config != [] {
      var init, g := config[..|config| - 1], config[|config| - 1];
      PlannedEndpoints(init, e);
      PlannedInGroup(g, e);
      ConfiguredSnoc(config, e);
    }
  }

  lemma ConfiguredSnoc(config: seq<ModelGroup>, e: PlannedEndpoint)
    requires config != []
    ensures Configured(config, e)
            <==> Configured(config[..|config| - 1], e) || ConfiguredIn(config[|config| - 1], e)
  {
    var init, g := config[..|config| - 1], config[|config| - 1];
    assert config == init + [g];
    if Configured(init, e) {
      var i :| 0 <= i < |init| && ConfiguredIn(init[i], e);
      ConfiguredAt(config, i, e);
    }
    if ConfiguredIn(g, e) {
      ConfiguredAt(config, |init|, e);
    }
    if Configured(config, e) && !ConfiguredIn(g, e) {
      var i :| 0 <= i < |config| && ConfiguredIn(config[i], e);
      ConfiguredAt(init, i, e);
    }
  }

  lemma ConfiguredAt(config: seq<ModelGroup>, i: nat, e: PlannedEndpoint)
    requires i < |config| && ConfiguredIn(config[i], e)
    ensures Configured(config, e)
  {
  }

  // ---------- The transaction ----------

  /** The endpoints with their groups' ids filled in. */
  function WithIds(endpoints: seq<PlannedEndpoint>, ids: map<string, int>)
    : (w: seq<Wanted<EndpointKey, EndpointFields>>)
    requires forall i :: 0 <= i < |endpoints| ==> endpoints[i].groupName in ids
    ensures |w| == |endpoints|
  {
    seq(|endpoints|, i requires 0 <= i < |endpoints| =>
      Wanted(EndpointKey(ids[endpoints[i].groupName], endpoints[i].name), endpoints[i].fields))
  }

  function StaleGroups(db: Db, d: Desired): set<int> {
    Stale(db.groups, GroupNames(d.groups))
  }

  /** The name of the group an endpoint belongs to. */
  function GroupNameOf(db: Db, key: EndpointKey): string {
    if key.groupId in db.groups.rows then db.groups.rows[key.groupId].key else ""
  }

  function StaleByPairs(db: Db, pairs: set<Pair>): set<int> {
    set id | && id in db.endpoints.rows && db.endpoints.rows[id].enabled
             && Pair(GroupNameOf(db, db.endpoints.rows[id].key), db.endpoints.rows[id].key.name) !in pairs
  }

  /** Found by name, through the names the groups had before the sync. */
  function StaleEndpoints(db: Db, d: Desired): set<int> {
    StaleByPairs(db, Pairs(d.endpoints))
  }

  /** The group id of every planned group, once the groups are written. */
  function GroupIds(db: Db, d: Desired): (ids: map<string, int>)
    requires DbOk(db) && DesiredOk(d)
    ensures forall i :: 0 <= i < |d.endpoints| ==> d.endpoints[i].groupName in ids
  {
    UpsertAllUpserts(db.groups, d.groups);
    GroupIdsCover(db, d);
    IndexOf(UpsertAll(db.groups, IndexOf(db.groups.rows), d.groups).rows)
  }

  lemma {:induction false} GroupIdsCover(db: Db, d: Desired)
    requires DbOk(db) && DesiredOk(d)
    ensures UniqueKeys(UpsertAll(db.groups, IndexOf(db.groups.rows), d.groups).rows)
    ensures forall k :: k in GroupNames(d.groups) ==>
              k in IndexOf(UpsertAll(db.groups, IndexOf(db.groups.rows), d.groups).rows)
  {
    UpsertAllUpserts(db.groups, d.groups);
    var u := UpsertAll(db.groups, IndexOf(db.groups.rows), d.groups);
    forall k | k in GroupNames(d.groups)
      ensures k in IndexOf(u.rows)
    {
      var w := HasKey(u.rows, d.groups, k);
      var id :| id in u.rows && u.rows[id] == Row(w.key, w.fields, true);
    }
  }

  function WantedEndpoints(db: Db, d: Desired): seq<Wanted<EndpointKey, EndpointFields>>
    requires DbOk(db) && DesiredOk(d)
  {
    WithIds(d.endpoints, GroupIds(db, d))
  }

  /** The groups, then the endpoints, then what the plan disables. */
  function Apply(db: Db, d: Desired): Db
    requires DbOk(db) && DesiredOk(d)
  {
    Db(Disable(UpsertAll(db.groups, IndexOf(db.groups.rows), d.groups), StaleGroups(db, d)),
       Disable(UpsertAll(db.endpoints, IndexOf(db.endpoints.rows), WantedEndpoints(db, d)), StaleEndpoints(db, d)))
  }

  function Sync(db: Db, config: seq<ModelGroup>): Result<Db, PlanError>
    requires DbOk(db)
  {
    match Plan(config)
    case Err(e) => Err(e)
    case Ok(d) => PlanIsOk(config); Ok(Apply(db, d))
  }

  // ---------- The sync reconciles ----------

  /** Disabling by name picks the same endpoints as disabling by group id. */
  lemma {:induction false} StaleEndpointsByName(db: Db, d: Desired)
    requires DbOk(db) && DesiredOk(d)
    ensures StaleEndpoints(db, d) == Stale(db.endpoints, WantedKeys(WantedEndpoints(db, d)))
  {
    var keys := WantedKeys(WantedEndpoints(db, d));
    forall id
      ensures id in StaleEndpoints(db, d) <==> id in Stale(db.endpoints, keys)
    {
      if id in db.endpoints.rows {
        PairIsWanted(db, d, db.endpoints.rows[id].key);
      }
    }
  }

  lemma PairIsWanted(db: Db, d: Desired, key: EndpointKey)
    requires DbOk(db) && DesiredOk(d) && key.groupId in db.groups.rows
    ensures Pair(db.groups.rows[key.groupId].key, key.name) in Pairs(d.endpoints)
            <==> key in WantedKeys(WantedEndpoints(db, d))
  {
    UpsertAllUpserts(db.groups, d.groups);
    var ids := GroupIds(db, d);
    var name := db.groups.rows[key.groupId].key;
    assert name in ids && ids[name] == key.groupId;
    var wanted := WantedEndpoints(db, d);
    if Pair(name, key.name) in Pairs(d.endpoints) {
      var i :| 0 <= i < |d.endpoints| && Pair(d.endpoints[i].groupName, d.endpoints[i].name) == Pair(name, key.name);
      assert wanted[i].key == key;
    }
    if key in WantedKeys(wanted) {
      var i :| 0 <= i < |wanted| && wanted[i].key == key;
      assert ids[d.endpoints[i].groupName] == ids[name];
      assert d.endpoints[i].groupName == name;
    }
  }

  lemma WantedEndpointsDistinct(db: Db, d: Desired)
    requires DbOk(db) && DesiredOk(d)
    ensures DistinctWanted(WantedEndpoints(db, d))
  {
    UpsertAllUpserts(db.groups, d.groups);
  }

  /** The transaction syncs each table for itself. */
  lemma {:induction false} ApplyReconciles(db: Db, d: Desired)
    requires DbOk(db) && DesiredOk(d)
    ensures Apply(db, d) == Db(Reconcile(db.groups, d.groups), Reconcile(db.endpoints, WantedEndpoints(db, d)))
    ensures DistinctWanted(WantedEndpoints(db, d))
  {
    StaleEndpointsByName(db, d);
    WantedEndpointsDistinct(db, d);
  }

  /** An endpoint of the configuration, by the trimmed names of its group and itself. */
  ghost predicate PairConfigured(config: seq<ModelGroup>, p: Pair) {
    exists i :: 0 <= i < |config| && PairIn(config[i], p)
  }

  ghost predicate PairIn(g: ModelGroup, p: Pair) {
    p.groupName == Text.Trim(g.name) && exists j :: 0 <= j < |g.models| && Text.Trim(g.models[j].name) == p.name
  }

  lemma PairsPlanned(config: seq<ModelGroup>, p: Pair)
    requires Plan(config).Ok?
    ensures p in Pairs(Plan(config).value.endpoints) <==> PairConfigured(config, p)
  {
    var endpoints := Plan(config).value.endpoints;
    if p in Pairs(endpoints) {
      var k :| 0 <= k < |endpoints| && Pair(endpoints[k].groupName, endpoints[k].name) == p;
      PlannedEndpoints(config, endpoints[k]);
      ConfiguredPair(config, endpoints[k]);
    }
    if PairConfigured(config, p) {
      var e := PairEndpoint(config, p);
      PlannedEndpoints(config, e);
      assert e in endpoints;
    }
  }

  lemma ConfiguredPair(config: seq<ModelGroup>, e: PlannedEndpoint)
    requires Configured(config, e)
    ensures PairConfigured(config, Pair(e.groupName, e.name))
  {
    var i :| 0 <= i < |config| && ConfiguredIn(config[i], e);
    assert PairIn(config[i], Pair(e.groupName, e.name));
  }

  lemma PairEndpoint(config: seq<ModelGroup>, p: Pair) returns (e: PlannedEndpoint)
    requires PairConfigured(config, p)
    ensures Configured(config, e) && Pair(e.groupName, e.name) == p
  {
    var i :| 0 <= i < |config| && PairIn(config[i], p);
    var j :| 0 <= j < |config[i].models| && Text.Trim(config[i].models[j].name) == p.name;
    e := PlannedEndpoint(p.groupName, p.name, EndpointFieldsOf(config[i].models[j]));
    assert ConfiguredIn(config[i], e);
  }

  /** No group is deleted or renamed, and one is enabled iff its trimmed name is configured, with its columns. */
  ghost predicate GroupsReconciled(db: Db, config: seq<ModelGroup>, after: Db) {
    && KeepsRows(db.groups, after.groups)
    && (forall id :: id in after.groups.rows ==>
          (after.groups.rows[id].enabled <==> after.groups.rows[id].key in ConfiguredGroups(config)))
    && (forall i :: 0 <= i < |config| ==>
          && config[i].requestDefaults.Some?
          && Has(after.groups.rows, Wanted(Text.Trim(config[i].name), GroupFieldsOf(config[i]))))
  }

  lemma {:induction false} SyncReconcilesGroups(db: Db, config: seq<ModelGroup>)
    requires DbOk(db)
    ensures Sync(db, config).Ok? ==> GroupsReconciled(db, config, Sync(db, config).value)
  {
    if Plan(config).Ok? {
      PlanReconcilesGroups(db, config);
    }
  }

  lemma {:induction false} PlanReconcilesGroups(db: Db, config: seq<ModelGroup>)
    requires DbOk(db) && Plan(config).Ok?
    ensures DesiredOk(Plan(config).value) && GroupsReconciled(db, config, Apply(db, Plan(config).value))
  {
    var d := Plan(config).value;
    PlanAccepts(config);
    PlanIsOk(config);
    PlannedNames(config, d.groups);
    ApplyReconciles(db, d);
    ReconcileReconciles(db.groups, d.groups);
  }

  /** What holds of the endpoints once a plan has been applied. */
  lemma {:induction false} AppliedEndpoints(db: Db, d: Desired)
    requires DbOk(db) && DesiredOk(d)
    ensures var after := Apply(db, d);
            && DbOk(after)
            && KeepsRows(db.endpoints, after.endpoints)
            && Reconciled(after.endpoints.rows, WantedEndpoints(db, d))
            && (forall k :: k in GroupNames(d.groups) ==>
                  k in GroupIds(db, d) && GroupIds(db, d)[k] in after.groups.rows
                  && after.groups.rows[GroupIds(db, d)[k]].key == k)
  {
    ApplyReconciles(db, d);
    GroupIdsCover(db, d);
    ReconcileReconciles(db.groups, d.groups);
    ReconcileReconciles(db.endpoints, WantedEndpoints(db, d));
    UpsertAllUpserts(db.groups, d.groups);
    UpsertAllUpserts(db.endpoints, WantedEndpoints(db, d));
    ForeignKeysHold(db, d);
  }

  lemma {:induction false} ForeignKeysHold(db: Db, d: Desired)
    requires DbOk(db) && DesiredOk(d)
    ensures var after := Apply(db, d);
            forall id :: id in after.endpoints.rows ==> after.endpoints.rows[id].key.groupId in after.groups.rows
  {
    var wanted := WantedEndpoints(db, d);
    UpsertAllUpserts(db.groups, d.groups);
    WantedEndpointsDistinct(db, d);
    UpsertAllUpserts(db.endpoints, wanted);
    var u := UpsertAll(db.endpoints, IndexOf(db.endpoints.rows), wanted);
    forall id | id in u.rows
      ensures u.rows[id].key.groupId in Apply(db, d).groups.rows
    {
      if id !in db.endpoints.rows {
        var i :| 0 <= i < |wanted| && wanted[i].key == u.rows[id].key;
        assert GroupIds(db, d)[d.endpoints[i].groupName] == u.rows[id].key.groupId;
      }
    }
  }

  /** Some enabled row holds the planned columns of an endpoint, under the id of its group. */
  ghost predicate EndpointStored(db: Db, e: PlannedEndpoint) {
    exists id :: id in db.endpoints.rows && StoredAt(db, id, e)
  }

  ghost predicate StoredAt(db: Db, id: int, e: PlannedEndpoint)
    requires id in db.endpoints.rows
  {
    var row := db.endpoints.rows[id];
    GroupNameOf(db, row.key) == e.groupName && row.key.name == e.name && row.fields == e.fields && row.enabled
  }

  /**
   No endpoint is deleted or moved, one is enabled exactly when its trimmed group and endpoint names are
   configured, and every configured one is stored with its normalized columns under its own group's id.
   */
  ghost predicate EndpointsReconciled(db: Db, config: seq<ModelGroup>, after: Db) {
    && DbOk(after) && KeepsRows(db.endpoints, after.endpoints)
    && (forall id :: id in after.endpoints.rows ==>
          var key := after.endpoints.rows[id].key;
          after.endpoints.rows[id].enabled <==> PairConfigured(config, Pair(GroupNameOf(after, key), key.name)))
    && (forall e :: Configured(config, e) ==> EndpointStored(after, e))
  }

  lemma {:induction false} SyncReconcilesEndpoints(db: Db, config: seq<ModelGroup>)
    requires DbOk(db)
    ensures Sync(db, config).Ok? ==> EndpointsReconciled(db, config, Sync(db, config).value)
  {
    if Plan(config).Ok? {
      PlanReconcilesEndpoints(db, config);
    }
  }

  lemma {:induction false} PlanReconcilesEndpoints(db: Db, config: seq<ModelGroup>)
    requires DbOk(db) && Plan(config).Ok?
    ensures DesiredOk(Plan(config).value) && EndpointsReconciled(db, config, Apply(db, Plan(config).value))
  {
    var d := Plan(config).value;
    PlanIsOk(config);
    AppliedEndpoints(db, d);
    var after := Apply(db, d);
    forall id | id in after.endpoints.rows
      ensures var key := after.endpoints.rows[id].key;
              after.endpoints.rows[id].enabled <==> PairConfigured(config, Pair(GroupNameOf(after, key), key.name))
    {
      var key := after.endpoints.rows[id].key;
      PairsPlanned(config, Pair(GroupNameOf(after, key), key.name));
      AppliedPairIsWanted(db, d, key);
    }
    forall e | Configured(config, e)
      ensures EndpointStored(after, e)
    {
      PlannedEndpoints(config, e);
      PlannedIsStored(db, d, e);
    }
  }

  lemma {:induction false} AppliedPairIsWanted(db: Db, d: Desired, key: EndpointKey)
    requires DbOk(db) && DesiredOk(d) && key.groupId in Apply(db, d).groups.rows
    ensures Pair(GroupNameOf(Apply(db, d), key), key.name) in Pairs(d.endpoints)
            <==> key in WantedKeys(WantedEndpoints(db, d))
  {
    AppliedEndpoints(db, d);
    var ids, after, wanted := GroupIds(db, d), Apply(db, d), WantedEndpoints(db, d);
    var name := after.groups.rows[key.groupId].key;
    if Pair(name, key.name) in Pairs(d.endpoints) {
      var i :| 0 <= i < |d.endpoints| && Pair(d.endpoints[i].groupName, d.endpoints[i].name) == Pair(name, key.name);
      assert name in GroupNames(d.groups);
      assert ids[name] == key.groupId;
      assert wanted[i].key == key;
    }
    if key in WantedKeys(wanted) {
      var i :| 0 <= i < |wanted| && wanted[i].key == key;
      assert d.endpoints[i].groupName in GroupNames(d.groups);
      assert d.endpoints[i].groupName == name;
    }
  }

  lemma PlannedIsStored(db: Db, d: Desired, e: PlannedEndpoint)
    requires DbOk(db) && DesiredOk(d) && e in d.endpoints
    ensures EndpointStored(Apply(db, d), e)
  {
    AppliedEndpoints(db, d);
    var ids, after, wanted := GroupIds(db, d), Apply(db, d), WantedEndpoints(db, d);
    var i :| 0 <= i < |d.endpoints| && d.endpoints[i] == e;
    assert e.groupName in GroupNames(d.groups);
    assert Has(after.endpoints.rows, wanted[i]);
    var id :| id in after.endpoints.rows && after.endpoints.rows[id] == Row(wanted[i].key, wanted[i].fields, true);
    assert StoredAt(after, id, e);
  }

  /** The ids the second sync finds for its groups are the ones the first one gave them. */
  lemma {:induction false} SameGroupIds(db: Db, d: Desired)
    requires DbOk(db) && DesiredOk(d) && DbOk(Apply(db, d))
    ensures WantedEndpoints(Apply(db, d), d) == WantedEndpoints(db, d)
    ensures Reconcile(Apply(db, d).groups, d.groups) == Apply(db, d).groups
  {
    var after := Apply(db, d);
    ApplyReconciles(db, d);
    ReconcileReconciles(db.groups, d.groups);
    ReconcileReconciledIsNoop(after.groups, d.groups);
    UpsertReconciledIsNoop(after.groups, d.groups);
    AppliedEndpoints(db, d);
    forall k | k in GroupNames(d.groups)
      ensures k in GroupIds(after, d) && GroupIds(after, d)[k] == GroupIds(db, d)[k]
    {
      assert after.groups.rows[GroupIds(db, d)[k]].key == k;
    }
  }

  /** A second sync with the same configuration changes nothing and plans no disables. */
  lemma {:induction false} SecondSyncIsNoop(db: Db, config: seq<ModelGroup>)
    requires DbOk(db)
    ensures Sync(db, config).Ok? ==> IsSynced(Sync(db, config).value, config)
  {
    if Plan(config).Ok? {
      PlanIsOk(config);
      AppliedIsSynced(db, config);
    }
  }

  /** Syncing would change nothing and disable nothing. */
  ghost predicate IsSynced(db: Db, config: seq<ModelGroup>) {
    && DbOk(db) && Sync(db, config) == Ok(db)
    && StaleGroups(db, Plan(config).value) == {} && StaleEndpoints(db, Plan(config).value) == {}
  }

  lemma {:induction false} AppliedIsSynced(db: Db, config: seq<ModelGroup>)
    requires DbOk(db) && Plan(config).Ok? && DesiredOk(Plan(config).value)
    ensures IsSynced(Apply(db, Plan(config).value), config)
  {
    var d := Plan(config).value;
    PlanIsOk(config);
    AppliedEndpoints(db, d);
    var after := Apply(db, d);
    SameGroupIds(db, d);
    ApplyReconciles(after, d);
    ApplyReconciles(db, d);
    ReconcileReconciles(db.groups, d.groups);
    ReconcileReconciledIsNoop(after.groups, d.groups);
    ReconcileReconciledIsNoop(after.endpoints, WantedEndpoints(db, d));
    StaleEndpointsByName(after, d);
  }

  // ---------- Column by column ----------

  /** The columns of an endpoint row, as the configuration names them. */
  ghost predicate EndpointColumns(f: EndpointFields, m: ModelConfig) {
    && f.providerType == Text.Trim(m.kind)
    && f.upstreamModelName == Text.Trim(m.name)
    && f.baseURL == Text.Trim(m.baseURL)
    && f.apiKeySecretRef == Text.Trim(m.apiKeySecretRef)
    && f.weight == (if m.weight > 0 then m.weight else 100)
    && f.timeoutSeconds == (if m.timeoutSeconds > 0 then m.timeoutSeconds else 60)
    && f.retryTimes == (if m.retryTimes >= 0 then m.retryTimes else 1)
    && f.skipTLSVerify == m.skipTLSVerify
  }

  ghost predicate GroupColumns(f: GroupFields, g: ModelGroup) {
    && f.strategy == NormalizeStrategy(g.strategy)
    && f.costPerInputToken == g.costPerInputToken
    && f.costPerOutputToken == g.costPerOutputToken
    && g.requestDefaults == Some(f.requestDefaults)
  }

  /** After a sync every configured group has its row, enabled, with each configured value in its own column. */
  lemma {:induction false} SyncWritesGroup(db: Db, config: seq<ModelGroup>, i: nat) returns (id: int)
    requires DbOk(db) && ConfigOk(config) && i < |config|
    ensures Sync(db, config).Ok?
    ensures var rows := Sync(db, config).value.groups.rows;
            && id in rows && rows[id].enabled && rows[id].key == Text.Trim(config[i].name)
            && GroupColumns(rows[id].fields, config[i])
  {
    PlanAccepts(config);
    SyncReconcilesGroups(db, config);
    var w := Wanted(Text.Trim(config[i].name), GroupFieldsOf(config[i]));
    var rows := Sync(db, config).value.groups.rows;
    assert Has(rows, w);
    id :| id in rows && rows[id] == Row(w.key, w.fields, true);
  }

  /** And so has every configured endpoint, under its own group. */
  lemma {:induction false} SyncWritesEndpoint(db: Db, config: seq<ModelGroup>, i: nat, j: nat) returns (id: int)
    requires DbOk(db) && ConfigOk(config) && i < |config| && j < |config[i].models|
    ensures Sync(db, config).Ok?
    ensures var after, m := Sync(db, config).value, config[i].models[j];
            && id in after.endpoints.rows && after.endpoints.rows[id].enabled
            && after.endpoints.rows[id].key.name == Text.Trim(m.name)
            && GroupNameOf(after, after.endpoints.rows[id].key) == Text.Trim(config[i].name)
            && EndpointColumns(after.endpoints.rows[id].fields, m)
  {
    PlanAccepts(config);
    SyncReconcilesEndpoints(db, config);
    id := ReconciledEndpoint(db, config, Sync(db, config).value, i, j);
  }

  lemma {:induction false} ReconciledEndpoint(db: Db, config: seq<ModelGroup>, after: Db, i: nat, j: nat)
    returns (id: int)
    requires EndpointsReconciled(db, config, after) && i < |config| && j < |config[i].models|
    ensures id in after.endpoints.rows && after.endpoints.rows[id].enabled
    ensures after.endpoints.rows[id].key.name == Text.Trim(config[i].models[j].name)
    ensures GroupNameOf(after, after.endpoints.rows[id].key) == Text.Trim(config[i].name)
    ensures EndpointColumns(after.endpoints.rows[id].fields, config[i].models[j])
  {
    var m := config[i].models[j];
    var e := PlannedEndpoint(Text.Trim(config[i].name), Text.Trim(m.name), EndpointFieldsOf(m));
    assert ConfiguredIn(config[i], e);
    ConfiguredAt(config, i, e);
    id := StoredId(after, e);
  }

  lemma StoredId(db: Db, e: PlannedEndpoint) returns (id: int)
    requires EndpointStored(db, e)
    ensures id in db.endpoints.rows && StoredAt(db, id, e)
  {
    id :| id in db.endpoints.rows && StoredAt(db, id, e);
  }

  // ---------- Refusals ----------

  /** What is wrong with an endpoint list, by the error it is refused with. */
  ghost predicate EndpointsExplain(groupName: string, models: seq<ModelConfig>, e: PlanError) {
    match e
    case EmptyEndpointName(g) => g == groupName && exists j :: 0 <= j < |models| && Text.Trim(models[j].name) == ""
    case DuplicateEndpoint(g, n) =>
      && g == groupName
      && exists j, k :: 0 <= j < k < |models| && Text.Trim(models[j].name) == n == Text.Trim(models[k].name)
    case _ => false
  }

  ghost predicate Explains(config: seq<ModelGroup>, e: PlanError) {
    match e
    case EmptyGroupName => exists i :: 0 <= i < |config| && Text.Trim(config[i].name) == ""
    case DuplicateGroup(n) =>
      exists i, j :: 0 <= i < j < |config| && Text.Trim(config[i].name) == n == Text.Trim(config[j].name)
    case MarshalFailed(n) =>
      exists i :: 0 <= i < |config| && Text.Trim(config[i].name) == n && config[i].requestDefaults.None?
    case _ => exists i :: 0 <= i < |config| && EndpointsExplain(Text.Trim(config[i].name), config[i].models, e)
  }

  lemma {:induction false} EndpointErrorExplains(groupName: string, models: seq<ModelConfig>)
    requires PlanEndpoints(groupName, models).Err?
    ensures EndpointsExplain(groupName, models, PlanEndpoints(groupName, models).error)
  {
    var last := |models| - 1;
    var before := PlanEndpoints(groupName, models[..last]);
    if before.Err? {
      EndpointErrorExplains(groupName, models[..last]);
      EndpointsExplainMore(groupName, models, before.error);
    } else if Text.Trim(models[last].name) != "" {
      PlanEndpointsAccepts(groupName, models[..last]);
      PlannedEndpointNames(groupName, models[..last], before.value, Text.Trim(models[last].name));
      var j :| 0 <= j < last && Text.Trim(models[..last][j].name) == Text.Trim(models[last].name);
      assert models[..last][j] == models[j];
    }
  }

  lemma EndpointsExplainMore(groupName: string, models: seq<ModelConfig>, e: PlanError)
    requires models != [] && EndpointsExplain(groupName, models[..|models| - 1], e)
    ensures EndpointsExplain(groupName, models, e)
  {
    var init := models[..|models| - 1];
    assert forall j :: 0 <= j < |init| ==> init[j] == models[j];
  }

  lemma ExplainsMore(config: seq<ModelGroup>, e: PlanError)
    requires config != [] && Explains(config[..|config| - 1], e)
    ensures Explains(config, e)
  {
    var init := config[..|config| - 1];
    assert forall j :: 0 <= j < |init| ==> init[j] == config[j];
  }

  /** A refusal names something that is wrong with the configuration. */
  lemma {:induction false} RefusalExplains(config: seq<ModelGroup>)
    requires Plan(config).Err?
    ensures Explains(config, Plan(config).error)
  {
    var last := |config| - 1;
    var before := Plan(config[..last]);
    PlanAccepts(config[..last]);
    if before.Err? {
      RefusalExplains(config[..last]);
      ExplainsMore(config, before.error);
    } else {
      PlannedNames(config[..last], before.value.groups);
      GroupErrorExplains(config, before.value);
    }
  }

  lemma {:induction false} GroupErrorExplains(config: seq<ModelGroup>, before: Desired)
    requires config != [] && GroupNames(before.groups) == ConfiguredGroups(config[..|config| - 1])
    requires PlanGroup(before, config[|config| - 1]).Err?
    ensures Explains(config, PlanGroup(before, config[|config| - 1]).error)
  {
    var last := |config| - 1;
    var g, name := config[last], Text.Trim(config[last].name);
    if name != "" {
      if name in GroupNames(before.groups) {
        var i :| 0 <= i < last && Text.Trim(config[..last][i].name) == name;
        assert config[..last][i] == config[i];
      } else if g.requestDefaults.Some? {
        EndpointErrorExplains(name, g.models);
      }
    }
  }

  /** A configuration is refused exactly when a trimmed name is empty or repeated, or defaults cannot be marshalled. */
  lemma {:induction false} SyncRefuses(db: Db, config: seq<ModelGroup>)
    requires DbOk(db)
    ensures Sync(db, config).Err? <==> !ConfigOk(config)
  {
    PlanAccepts(config);
  }

  // ---------- The code ----------

  datatype SyncPlan = SyncPlan(desired: Desired, disableGroups: set<int>, disableEndpoints: set<int>)

  lemma {:induction false} EndpointErrorStays(groupName: string, models: seq<ModelConfig>, j: nat)
    requires j <= |models| && PlanEndpoints(groupName, models[..j]).Err?
    ensures PlanEndpoints(groupName, models) == PlanEndpoints(groupName, models[..j])
  {
    if j < |models| {
      var init := models[..|models| - 1];
      assert init[..j] == models[..j];
      EndpointErrorStays(groupName, init, j);
    } else {
      assert models[..j] == models;
    }
  }

  lemma {:induction false} PlanErrorStays(config: seq<ModelGroup>, i: nat)
    requires i <= |config| && Plan(config[..i]).Err?
    ensures Plan(config) == Plan(config[..i])
  {
    if i < |config| {
      var init := config[..|config| - 1];
      assert init[..i] == config[..i];
      PlanErrorStays(init, i);
    } else {
      assert config[..i] == config;
    }
  }

  /** The inner loop of buildConfigSyncPlan, with the set of the pairs seen in any group. */
  method PlanGroupEndpoints(groupName: string, models: seq<ModelConfig>, seen: set<Pair>)
    returns (r: Result<seq<PlannedEndpoint>, PlanError>, desired: set<Pair>)
    requires forall p :: p in seen ==> p.groupName != groupName
    ensures r == PlanEndpoints(groupName, models)
    ensures r.Ok? ==> desired == seen + Pairs(r.value)
  {
    var endpoints: seq<PlannedEndpoint> := [];
    desired := seen;
    for j := 0 to |models|
      invariant PlanEndpoints(groupName, models[..j]) == Ok(endpoints)
      invariant desired == seen + Pairs(endpoints)
      invariant forall k :: 0 <= k < |endpoints| ==> endpoints[k].groupName == groupName
    {
      assert models[..j + 1][..j] == models[..j];
      var name := Text.Trim(models[j].name);
      if name == "" {
        EndpointErrorStays(groupName, models, j + 1);
        return Err(EmptyEndpointName(groupName)), desired;
      }
      SeenPair(groupName, endpoints, seen, name);
      if Pair(groupName, name) in desired {
        EndpointErrorStays(groupName, models, j + 1);
        return Err(DuplicateEndpoint(groupName, name)), desired;
      }
      var e := PlannedEndpoint(groupName, name, EndpointFieldsOf(models[j]));
      PairsAppend(endpoints, [e]);
      assert [e][0] == e && Pairs([e]) == {Pair(groupName, name)};
      desired := desired + {Pair(groupName, name)};
      endpoints := endpoints + [e];
    }
    assert models[..|models|] == models;
    r := Ok(endpoints);
  }

  lemma SeenPair(groupName: string, endpoints: seq<PlannedEndpoint>, seen: set<Pair>, name: string)
    requires forall p :: p in seen ==> p.groupName != groupName
    requires forall k :: 0 <= k < |endpoints| ==> endpoints[k].groupName == groupName
    ensures Pair(groupName, name) in seen + Pairs(endpoints) <==> name in EndpointNames(endpoints)
  {
    if name in EndpointNames(endpoints) {
      var k :| 0 <= k < |endpoints| && endpoints[k].name == name;
      assert Pair(endpoints[k].groupName, endpoints[k].name) in Pairs(endpoints);
    }
  }

  lemma PairsAppend(a: seq<PlannedEndpoint>, b: seq<PlannedEndpoint>)
    ensures Pairs(a + b) == Pairs(a) + Pairs(b)
  {
    var all := a + b;
    forall p | p in Pairs(a) + Pairs(b)
      ensures p in Pairs(all)
    {
      if p in Pairs(a) {
        var k :| 0 <= k < |a| && Pair(a[k].groupName, a[k].name) == p;
        assert all[k] == a[k];
      } else {
        var k :| 0 <= k < |b| && Pair(b[k].groupName, b[k].name) == p;
        assert all[|a| + k] == b[k];
      }
    }
  }

  class ConfigStore {
    var groups: GroupTable
    var endpoints: EndpointTable

    constructor (db: Db)
      ensures Now() == db
    {
      groups, endpoints := db.groups, db.endpoints;
    }

    ghost function Now(): Db
      reads this
    {
      Db(groups, endpoints)
    }

    method BuildConfigSyncPlan(config: seq<ModelGroup>) returns (r: Result<SyncPlan, PlanError>)
      ensures r == match Plan(config)
                   case Err(e) => Err(e)
                   case Ok(d) => Ok(SyncPlan(d, StaleGroups(Now(), d), StaleEndpoints(Now(), d)))
    {
      var desired := Desired([], []);
      var names: set<string> := {};
      var pairs: set<Pair> := {};
      for i := 0 to |config|
        invariant Plan(config[..i]) == Ok(desired)
        invariant names == GroupNames(desired.groups) && pairs == Pairs(desired.endpoints)
        invariant forall p :: p in pairs ==> p.groupName in names
      {
        var g := config[i];
        assert config[..i + 1][..i] == config[..i];
        var name := Text.Trim(g.name);
        if name == "" {
          PlanErrorStays(config, i + 1);
          return Err(EmptyGroupName);
        }
        if name in names {
          PlanErrorStays(config, i + 1);
          return Err(DuplicateGroup(name));
        }
        if g.requestDefaults.None? {
          PlanErrorStays(config, i + 1);
          return Err(MarshalFailed(name));
        }
        var planned, seen := PlanGroupEndpoints(name, g.models, pairs);
        if planned.Err? {
          PlanErrorStays(config, i + 1);
          return Err(planned.error);
        }
        PlanEndpointsAccepts(name, g.models);
        WantedKeysAppend(desired.groups, Wanted(name, GroupFieldsOf(g)));
        PairsAppend(desired.endpoints, planned.value);
        desired := Desired(desired.groups + [Wanted(name, GroupFieldsOf(g))], desired.endpoints + planned.value);
        names, pairs := names + {name}, seen;
      }
      assert config[..|config|] == config;
      var disableGroups := StaleGroupIds(names);
      var disableEndpoints := StaleEndpointIds(pairs);
      return Ok(SyncPlan(desired, disableGroups, disableEndpoints));
    }

    method StaleGroupIds(names: set<string>) returns (stale: set<int>)
      ensures stale == Stale(groups, names)
    {
      stale := {};
      var todo := groups.rows.Keys;
      while todo != {}
        invariant todo <= groups.rows.Keys
        invariant stale == Stale(groups, names) - todo
        decreases todo
      {
        NonEmptyHasMember(todo);
        var id :| id in todo;
        todo := todo - {id};
        if groups.rows[id].key !in names && groups.rows[id].enabled {
          stale := stale + {id};
        }
      }
    }

    method StaleEndpointIds(pairs: set<Pair>) returns (stale: set<int>)
      ensures stale == StaleByPairs(Now(), pairs)
    {
      stale := {};
      var todo := endpoints.rows.Keys;
      while todo != {}
        invariant todo <= endpoints.rows.Keys
        invariant stale == StaleByPairs(Now(), pairs) - todo
        decreases todo
      {
        NonEmptyHasMember(todo);
        var id :| id in todo;
        todo := todo - {id};
        var key := endpoints.rows[id].key;
        var groupName := if key.groupId in groups.rows then groups.rows[key.groupId].key else "";
        if Pair(groupName, key.name) !in pairs && endpoints.rows[id].enabled {
          stale := stale + {id};
        }
      }
    }

    /** applyModelGroupPlan: returns the id of every group it has written. */
    method ApplyModelGroupPlan(wanted: seq<WantedGroup>) returns (ids: map<string, int>)
      requires Valid(groups) && DistinctWanted(wanted)
      modifies this`groups
      ensures groups == UpsertAll(old(groups), IndexOf(old(groups).rows), wanted)
      ensures ids.Keys == GroupNames(wanted) && IdsOk(groups.rows, ids)
    {
      var existing := IndexOf(groups.rows);
      ghost var before := groups;
      ids := map[];
      for i := 0 to |wanted|
        invariant groups == UpsertAll(before, existing, wanted[..i])
        invariant Valid(groups) && KeepsRows(before, groups)
        invariant ids.Keys == GroupNames(wanted[..i]) && IdsOk(groups.rows, ids)
      {
        var w := wanted[i];
        var id := if w.key in existing then existing[w.key] else groups.nextId;
        OneMoreWrite(before, groups, wanted, i, ids, ids[w.key := id]);
        groups, ids := UpsertOne(groups, existing, w), ids[w.key := id];
      }
      assert wanted[..|wanted|] == wanted;
    }

    /** applyModelEndpointPlan, with the ids the groups were written under. */
    method ApplyModelEndpointPlan(planned: seq<PlannedEndpoint>, ids: map<string, int>)
      requires Valid(endpoints) && forall i :: 0 <= i < |planned| ==> planned[i].groupName in ids
      modifies this`endpoints
      ensures endpoints == UpsertAll(old(endpoints), IndexOf(old(endpoints).rows), WithIds(planned, ids))
    {
      var existing := IndexOf(endpoints.rows);
      ghost var before := endpoints;
      ghost var wanted := WithIds(planned, ids);
      for i := 0 to |planned|
        invariant endpoints == UpsertAll(before, existing, wanted[..i])
      {
        assert wanted[..i + 1][..i] == wanted[..i];
        var e := planned[i];
        endpoints := UpsertOne(endpoints, existing, Wanted(EndpointKey(ids[e.groupName], e.name), e.fields));
      }
      assert wanted[..|planned|] == wanted;
    }

    method DisableStaleModelConfig(staleGroups: set<int>, staleEndpoints: set<int>)
      modifies this
      ensures groups == Disable(old(groups), staleGroups) && endpoints == Disable(old(endpoints), staleEndpoints)
    {
      endpoints := DisableRows(endpoints, staleEndpoints);
      groups := DisableRows(groups, staleGroups);
    }

    /** The whole transaction: a refused configuration leaves both tables as they were. */
    method SyncConfig(config: seq<ModelGroup>) returns (r: Result<SyncPlan, PlanError>)
      requires DbOk(Now())
      modifies this
      ensures r.Err? ==> Now() == old(Now()) && Sync(old(Now()), config) == Err(r.error)
      ensures r.Ok? ==> Sync(old(Now()), config) == Ok(Now())
    {
      r := BuildConfigSyncPlan(config);
      if r.Err? {
        return;
      }
      var plan := r.value;
      PlanIsOk(config);
      ghost var db := Now();
      UpsertAllUpserts(db.groups, plan.desired.groups);
      var ids := ApplyModelGroupPlan(plan.desired.groups);
      GroupIdsAgree(db, plan.desired, ids);
      ApplyModelEndpointPlan(plan.desired.endpoints, ids);
      DisableStaleModelConfig(plan.disableGroups, plan.disableEndpoints);
    }
  }

  /** One update per id, in any order. */
  method DisableRows<K, F>(t: Table<K, F>, ids: set<int>) returns (u: Table<K, F>)
    ensures u == Disable(t, ids)
  {
    u := t;
    var todo := ids;
    ghost var done: set<int> := {};
    assert Disable(t, {}).rows == t.rows;
    while todo != {}
      invariant todo !! done && todo + done == ids
      invariant u == Disable(t, done)
      decreases todo
    {
      NonEmptyHasMember(todo);
      var id :| id in todo;
      todo := todo - {id};
      if id in u.rows {
        u := u.(rows := u.rows[id := u.rows[id].(enabled := false)]);
      }
      assert u.rows == Disable(t, done + {id}).rows;
      done := done + {id};
    }
  }

  lemma PrefixDistinct(wanted: seq<WantedGroup>, i: nat)
    requires i <= |wanted| && DistinctWanted(wanted)
    ensures DistinctWanted(wanted[..i])
  {
  }

  /** One round of the loop in ApplyModelGroupPlan. */
  lemma OneMoreWrite(t: GroupTable, u: GroupTable, wanted: seq<WantedGroup>, i: nat,
                     ids: map<string, int>, more: map<string, int>)
    requires Valid(t) && Valid(u) && KeepsRows(t, u) && IdsOk(u.rows, ids)
    requires i < |wanted| && DistinctWanted(wanted) && ids.Keys == GroupNames(wanted[..i])
    requires u == UpsertAll(t, IndexOf(t.rows), wanted[..i])
    requires var w := wanted[i];
             more == ids[w.key := if w.key in IndexOf(t.rows) then IndexOf(t.rows)[w.key] else u.nextId]
    ensures var v := UpsertOne(u, IndexOf(t.rows), wanted[i]);
            && v == UpsertAll(t, IndexOf(t.rows), wanted[..i + 1])
            && Valid(v) && KeepsRows(t, v)
            && more.Keys == GroupNames(wanted[..i + 1]) && IdsOk(v.rows, more)
  {
    assert wanted[..i + 1] == wanted[..i] + [wanted[i]];
    PrefixDistinct(wanted, i + 1);
    WantedKeysAppend(wanted[..i], wanted[i]);
    OneUpsert(t, u, wanted[..i], wanted[i]);
    OneMoreId(t, u, wanted[i], ids, more);
  }

  lemma {:induction false} OneUpsert(t: GroupTable, u: GroupTable, wanted: seq<WantedGroup>, w: WantedGroup)
    requires Valid(t) && Valid(u) && KeepsRows(t, u)
    requires u == UpsertAll(t, IndexOf(t.rows), wanted) && DistinctWanted(wanted + [w])
    ensures UpsertAll(t, IndexOf(t.rows), wanted + [w]) == UpsertOne(u, IndexOf(t.rows), w)
    ensures Valid(UpsertOne(u, IndexOf(t.rows), w)) && KeepsRows(t, UpsertOne(u, IndexOf(t.rows), w))
  {
    assert (wanted + [w])[..|wanted|] == wanted;
    UpsertAllUpserts(t, wanted + [w]);
  }

  /** Every name is mapped to the id of the group that has it. */
  ghost predicate IdsOk(rows: map<int, Row<string, GroupFields>>, ids: map<string, int>) {
    forall k :: k in ids ==> ids[k] in rows && rows[ids[k]].key == k
  }

  lemma OneMoreId(t: GroupTable, u: GroupTable, w: WantedGroup, ids: map<string, int>, more: map<string, int>)
    requires Valid(t) && Valid(u) && KeepsRows(t, u) && IdsOk(u.rows, ids)
    requires more == ids[w.key := if w.key in IndexOf(t.rows) then IndexOf(t.rows)[w.key] else u.nextId]
    ensures IdsOk(UpsertOne(u, IndexOf(t.rows), w).rows, more)
  {
  }

  lemma GroupIdsAgree(db: Db, d: Desired, ids: map<string, int>)
    requires DbOk(db) && DesiredOk(d) && ids.Keys == GroupNames(d.groups)
    requires var rows := UpsertAll(db.groups, IndexOf(db.groups.rows), d.groups).rows;
             IdsOk(rows, ids)
    ensures forall i :: 0 <= i < |d.endpoints| ==> d.endpoints[i].groupName in ids
    ensures WithIds(d.endpoints, ids) == WantedEndpoints(db, d)
  {
    UpsertAllUpserts(db.groups, d.groups);
    forall i | 0 <= i < |d.endpoints|
      ensures d.endpoints[i].groupName in ids
              && ids[d.endpoints[i].groupName] == GroupIds(db, d)[d.endpoints[i].groupName]
    {
    }
  }
}
