/** The relational store behind src/services/mapping.py: its key constraints
    (src/core/models.py), the two lookup joins, and bind_user_instance. */
module MappingStore {
  import opened PyText

  datatype Credentials = Credentials(
    deviceId: string, publicKey: string, privateKey: string, deviceToken: string, gatewayToken: string)

  datatype InstanceInfo = InstanceInfo(url: string, credentials: Credentials)

  datatype UserRow = UserRow(externalId: Option<string>, role: Option<string>)

  /** One map per table, from its primary key to its other columns. */
  datatype Store = Store(
    instances: map<string, InstanceInfo>,
    users: map<string, UserRow>,
    identities: map<(string, string), string>,
    assignments: map<string, string>)

  const EMPTY_STORE := Store(map[], map[], map[], map[])

  /** Unique columns and foreign keys. */
  ghost predicate Constraints(s: Store) {
    && (forall u, v | u in s.users && v in s.users && s.users[u].externalId.Some?
          && s.users[u].externalId == s.users[v].externalId :: u == v)
    && (forall k, l | k in s.identities && l in s.identities && k.0 == l.0
          && s.identities[k] == s.identities[l] :: k == l)
    && (forall i, j | i in s.assignments && j in s.assignments && s.assignments[i] == s.assignments[j] :: i == j)
    && (forall k | k in s.identities :: s.identities[k] in s.users)
    && (forall i | i in s.assignments :: i in s.instances && s.assignments[i] in s.users)
  }

  /*** Lookups ***/

  /** scalar_one_or_none() and one_or_none(): a second row is an error. */
  datatype Lookup<+V> = Found(value: V) | NotFound | MultipleResults

  /** instance JOIN user_instance JOIN app_user JOIN user_identity: instance i is a row
      of the result for an identity. */
  ghost predicate IdentityRow(s: Store, provider: string, providerUserId: string, i: string) {
    && (provider, providerUserId) in s.identities
    && i in s.assignments && i in s.instances && s.assignments[i] in s.users
    && s.identities[(provider, providerUserId)] == s.assignments[i]
  }

  /** app_user JOIN user_identity JOIN user_instance JOIN instance: identity k and
      instance i make a row of the result for an external id. */
  ghost predicate ExternalRow(s: Store, externalId: string, provider: string, k: (string, string), i: string) {
    && k in s.identities && k.0 == provider && s.identities[k] in s.users
    && s.users[s.identities[k]].externalId == Some(externalId)
    && i in s.assignments && i in s.instances
    && s.identities[k] == s.assignments[i]
  }

  ghost function LookupIdentity(s: Store, provider: string, providerUserId: string): Lookup<InstanceInfo> {
    if i :| IdentityRow(s, provider, providerUserId, i) then
      if forall j :: IdentityRow(s, provider, providerUserId, j) ==> j == i then Found(s.instances[i])
      else MultipleResults
    else NotFound
  }

  ghost function LookupExternal(s: Store, externalId: string, provider: string): Lookup<(string, InstanceInfo)> {
    if k, i :| ExternalRow(s, externalId, provider, k, i) then
      if forall l, j :: ExternalRow(s, externalId, provider, l, j) ==> l == k && j == i
      then Found((k.1, s.instances[i]))
      else MultipleResults
    else NotFound
  }

  /** The constraints alone keep both joins to one row. */
  lemma JoinsAreSingleRow(s: Store, provider: string, key: string)
    requires Constraints(s)
    ensures forall i, j :: IdentityRow(s, provider, key, i) && IdentityRow(s, provider, key, j) ==> i == j
    ensures forall k, i, l, j ::
              ExternalRow(s, key, provider, k, i) && ExternalRow(s, key, provider, l, j) ==> k == l && i == j
    ensures !LookupIdentity(s, provider, key).MultipleResults?
    ensures !LookupExternal(s, key, provider).MultipleResults?
  {
  }

  lemma LookupIdentityFinds(s: Store, provider: string, providerUserId: string, i: string)
    requires Constraints(s) && IdentityRow(s, provider, providerUserId, i)
    ensures LookupIdentity(s, provider, providerUserId) == Found(s.instances[i])
  {
    JoinsAreSingleRow(s, provider, providerUserId);
  }

  lemma LookupExternalFinds(s: Store, externalId: string, provider: string, k: (string, string), i: string)
    requires Constraints(s) && ExternalRow(s, externalId, provider, k, i)
    ensures LookupExternal(s, externalId, provider) == Found((k.1, s.instances[i]))
  {
    JoinsAreSingleRow(s, provider, externalId);
  }

  /*** Providers ***/

  predicate Supported(provider: string) {
    || provider == "mattermost" || provider == "telegram" || provider == "bitrix"
    || provider == "slack" || provider == "vk_teams" || provider == "teams"
  }

  /** _validate_provider: the normalised name, or None for UnsupportedProviderError. */
  function ValidateProvider(provider: string): (r: Option<string>)
    ensures r.Some? ==> Supported(r.value)
  {
    var normalized := Lower(Strip(provider));
    if Supported(normalized) then Some(normalized) else None
  }

  /** Every supported name passes as itself, space around a name makes no difference,
      and a name that passed passes again unchanged. */
  lemma ValidateProviderNormalises(lead: string, provider: string, tail: string)
    requires forall k | 0 <= k < |lead| :: IsSpace(lead[k])
    requires forall k | 0 <= k < |tail| :: IsSpace(tail[k])
    ensures ValidateProvider(lead + (provider + tail)) == ValidateProvider(provider)
    ensures Supported(provider) ==> ValidateProvider(provider) == Some(provider)
    ensures ValidateProvider(provider).Some? ==>
              ValidateProvider(ValidateProvider(provider).value) == ValidateProvider(provider)
  {
    StripPad(lead, provider, tail);
    if Supported(provider) {
      SupportedIsNormal(provider);
    }
    if ValidateProvider(provider).Some? {
      SupportedIsNormal(ValidateProvider(provider).value);
    }
  }

  predicate LowerName(name: string) {
    name != [] && forall k | 0 <= k < |name| :: 'a' <= name[k] <= 'z' || name[k] == '_'
  }

  lemma SupportedIsLower(provider: string)
    requires Supported(provider)
    ensures LowerName(provider)
  {
  }

  lemma LowerNameIsNormal(name: string)
    requires LowerName(name)
    ensures Lower(Strip(name)) == name
  {
    StripFixed(name);
    LowerFixed(name);
  }

  lemma SupportedIsNormal(provider: string)
    requires Supported(provider)
    ensures Lower(Strip(provider)) == provider
  {
    SupportedIsLower(provider);
    LowerNameIsNormal(provider);
  }

  /** The six providers, spelled out. */
  predicate IsProvider(name: string) {
    || name == "mattermost" || name == "telegram" || name == "bitrix"
    || name == "slack" || name == "vk_teams" || name == "teams"
  }

  lemma SupportedIsProvider(name: string)
    ensures Supported(name) <==> IsProvider(name)
  {
  }

  lemma StripAnyCaseName(text: string, name: string)
    requires LowerName(name) && AnyCase(text, name)
    ensures Strip(text) == text
  {
    assert !IsSpace(text[0]) && !IsSpace(text[|text| - 1]);
    StripFixed(text);
  }

  lemma LowerNameInAnyCase(name: string, lead: string, text: string, tail: string)
    requires LowerName(name) && AnyCase(text, name)
    requires forall k | 0 <= k < |lead| :: IsSpace(lead[k])
    requires forall k | 0 <= k < |tail| :: IsSpace(tail[k])
    ensures Lower(Strip(lead + (text + tail))) == name
  {
    StripPad(lead, text, tail);
    StripAnyCaseName(text, name);
    LowerAnyCase(text, name);
  }

  /** Each of them passes in any case and with any space around it, and comes out as
      written here; nothing else passes. */
  lemma ProvidersPassInAnyCase(name: string, lead: string, text: string, tail: string)
    requires IsProvider(name) && AnyCase(text, name)
    requires forall k | 0 <= k < |lead| :: IsSpace(lead[k])
    requires forall k | 0 <= k < |tail| :: IsSpace(tail[k])
    ensures ValidateProvider(lead + (text + tail)) == Some(name)
  {
    SupportedIsProvider(name);
    SupportedIsLower(name);
    LowerNameInAnyCase(name, lead, text, tail);
  }

  lemma OnlyProvidersPass(provider: string)
    ensures ValidateProvider(provider).Some? ==>
              IsProvider(ValidateProvider(provider).value) && ValidateProvider(provider).value == Lower(Strip(provider))
    ensures ValidateProvider(provider).None? ==> !IsProvider(Lower(Strip(provider)))
  {
    SupportedIsProvider(Lower(Strip(provider)));
  }

  lemma SupportedHasNoColon(provider: string)
    requires Supported(provider)
    ensures ':' !in provider
  {
  }

  function AppUserId(provider: string, providerUserId: string): string {
    provider + ":" + providerUserId
  }

  /** Provider names hold no colon, so the user key tells its two parts apart. */
  lemma {:induction false} AppUserIdInjective(p: string, a: string, q: string, b: string)
    requires ':' !in p && ':' !in q
    requires AppUserId(p, a) == AppUserId(q, b)
    ensures p == q && a == b
  {
    var x := AppUserId(p, a);
    assert x[|p|] == ':' && x[|q|] == ':';
    assert forall k | 0 <= k < |p| :: x[k] == p[k] && p[k] in p;
    assert forall k | 0 <= k < |q| :: x[k] == q[k] && q[k] in q;
    assert |p| == |q|;
    assert x[..|p|] == p && x[..|q|] == q;
    assert x[|p| + 1..] == a && x[|q| + 1..] == b;
  }

  /*** bind_user_instance ***/

  datatype Binding = Binding(
    provider: string, providerUserId: string, uuid: string, info: InstanceInfo,
    externalId: Option<string>, role: Option<string>)
  {
    function User(): string { AppUserId(provider, providerUserId) }

    /** `external_user_id or app_user_id` */
    function External(): string {
      if externalId.Some? && externalId.value != "" then externalId.value else User()
    }
  }

  function UpsertInstance(s: Store, b: Binding): Store {
    s.(instances := s.instances[b.uuid := b.info])
  }

  predicate ExternalTaken(s: Store, externalId: string) {
    exists u :: u in s.users && s.users[u].externalId == Some(externalId)
  }

  function UpsertUser(s: Store, b: Binding): Option<Store> {
    if b.User() !in s.users then
      if ExternalTaken(s, b.External()) then None
      else Some(s.(users := s.users[b.User() := UserRow(Some(b.External()), b.role)]))
    else if s.users[b.User()].role.None? && b.role.Some? then
      Some(s.(users := s.users[b.User() := s.users[b.User()].(role := b.role)]))
    else Some(s)
  }

  predicate HasIdentity(identities: map<(string, string), string>, provider: string, user: string) {
    exists k :: k in identities && k.0 == provider && identities[k] == user
  }

  function UpsertIdentity(s: Store, b: Binding): Option<Store> {
    if HasIdentity(s.identities, b.provider, b.User()) then Some(s)
    else if (b.provider, b.providerUserId) in s.identities then None
    else Some(s.(identities := s.identities[(b.provider, b.providerUserId) := b.User()]))
  }

  /** The new or moved row is keyed by the instance: another user's row there aborts. */
  function UpsertAssignment(s: Store, b: Binding): Option<Store> {
    if b.uuid in s.assignments then
      if s.assignments[b.uuid] == b.User() then Some(s) else None
    else
      var others := map i | i in s.assignments && s.assignments[i] != b.User() :: s.assignments[i];
      Some(s.(assignments := others[b.uuid := b.User()]))
  }

  /** The whole transaction: None when a constraint aborts it. */
  function Bind(s: Store, b: Binding): Option<Store> {
    var s1 := UpsertUser(UpsertInstance(s, b), b);
    if s1.None? then None
    else
      var s2 := UpsertIdentity(s1.value, b);
      if s2.None? then None else UpsertAssignment(s2.value, b)
  }

  lemma UpsertInstanceKeeps(s: Store, b: Binding)
    requires Constraints(s)
    ensures Constraints(UpsertInstance(s, b))
  {
  }

  lemma UpsertUserKeeps(s: Store, b: Binding)
    requires Constraints(s)
    ensures UpsertUser(s, b).Some? ==> Constraints(UpsertUser(s, b).value)
  {
  }

  lemma UpsertIdentityKeeps(s: Store, b: Binding)
    requires Constraints(s) && b.User() in s.users
    ensures UpsertIdentity(s, b).Some? ==> Constraints(UpsertIdentity(s, b).value)
  {
    if UpsertIdentity(s, b).Some? && !HasIdentity(s.identities, b.provider, b.User()) {
      var s' := UpsertIdentity(s, b).value;
      forall k, l | k in s'.identities && l in s'.identities && k.0 == l.0 && s'.identities[k] == s'.identities[l]
        ensures k == l
      {
        assert k in s.identities || k == (b.provider, b.providerUserId);
        assert l in s.identities || l == (b.provider, b.providerUserId);
      }
    }
  }

  lemma UpsertAssignmentKeeps(s: Store, b: Binding)
    requires Constraints(s) && b.User() in s.users && b.uuid in s.instances
    ensures UpsertAssignment(s, b).Some? ==> Constraints(UpsertAssignment(s, b).value)
  {
  }

  /** The tables each step leaves alone. */
  lemma UpsertFrames(s: Store, b: Binding)
    ensures UpsertUser(s, b).Some? ==>
              && b.User() in UpsertUser(s, b).value.users
              && UpsertUser(s, b).value.instances == s.instances
              && UpsertUser(s, b).value.identities == s.identities
              && UpsertUser(s, b).value.assignments == s.assignments
    ensures UpsertIdentity(s, b).Some? ==>
              && UpsertIdentity(s, b).value.instances == s.instances
              && UpsertIdentity(s, b).value.users == s.users
              && UpsertIdentity(s, b).value.assignments == s.assignments
    ensures UpsertAssignment(s, b).Some? ==>
              && UpsertAssignment(s, b).value.instances == s.instances
              && UpsertAssignment(s, b).value.users == s.users
              && UpsertAssignment(s, b).value.identities == s.identities
  {
  }

  /** A bind either aborts, changing nothing, or keeps every key constraint. */
  lemma BindKeepsConstraints(s: Store, b: Binding)
    requires Constraints(s)
    ensures Bind(s, b).Some? ==> Constraints(Bind(s, b).value)
  {
    if Bind(s, b).Some? {
      var s0 := UpsertInstance(s, b);
      UpsertInstanceKeeps(s, b);
      UpsertUserKeeps(s0, b);
      UpsertFrames(s0, b);
      var s1 := UpsertUser(s0, b).value;
      UpsertIdentityKeeps(s1, b);
      UpsertFrames(s1, b);
      UpsertAssignmentKeeps(UpsertIdentity(s1, b).value, b);
    }
  }

  ghost predicate UsersGrow(users: map<string, UserRow>, users': map<string, UserRow>, b: Binding) {
    && users'.Keys == users.Keys + {b.User()}
    && (forall u | u in users && u != b.User() :: users'[u] == users[u])
    && (b.User() in users ==> users'[b.User()].externalId == users[b.User()].externalId)
    && (b.User() !in users ==> users'[b.User()] == UserRow(Some(b.External()), b.role))
  }

  ghost predicate IdentitiesGrow(ids: map<(string, string), string>, ids': map<(string, string), string>, b: Binding) {
    && (forall k | k in ids :: k in ids' && ids'[k] == ids[k])
    && (forall k | k in ids' && k !in ids :: k == (b.provider, b.providerUserId) && ids'[k] == b.User())
    && HasIdentity(ids', b.provider, b.User())
  }

  ghost predicate AssignmentMoves(asg: map<string, string>, asg': map<string, string>, b: Binding) {
    && b.uuid in asg' && asg'[b.uuid] == b.User()
    && (forall i :: i in asg' && asg'[i] != b.User() <==> i in asg && asg[i] != b.User())
    && (forall i | i in asg && asg[i] != b.User() :: asg'[i] == asg[i])
  }

  lemma UpsertUserGrows(s: Store, b: Binding)
    requires UpsertUser(s, b).Some?
    ensures UsersGrow(s.users, UpsertUser(s, b).value.users, b)
  {
  }

  lemma UpsertAssignmentMoves(s: Store, b: Binding)
    requires UpsertAssignment(s, b).Some?
    ensures AssignmentMoves(s.assignments, UpsertAssignment(s, b).value.assignments, b)
  {
  }

  lemma UpsertIdentityGrows(s: Store, b: Binding)
    requires UpsertIdentity(s, b).Some?
    ensures IdentitiesGrow(s.identities, UpsertIdentity(s, b).value.identities, b)
  {
    if !HasIdentity(s.identities, b.provider, b.User()) {
      assert (b.provider, b.providerUserId) in UpsertIdentity(s, b).value.identities;
    }
  }

  /** What a committed bind did to each table. */
  lemma BindEffect(s: Store, b: Binding)
    requires Bind(s, b).Some?
    ensures var s' := Bind(s, b).value;
            && s'.instances == s.instances[b.uuid := b.info]
            && UsersGrow(s.users, s'.users, b)
            && IdentitiesGrow(s.identities, s'.identities, b)
            && AssignmentMoves(s.assignments, s'.assignments, b)
  {
    var s0 := UpsertInstance(s, b);
    UpsertFrames(s0, b);
    var s1 := UpsertUser(s0, b).value;
    UpsertUserGrows(s0, b);
    UpsertFrames(s1, b);
    UpsertIdentityGrows(s1, b);
    var s2 := UpsertIdentity(s1, b).value;
    UpsertFrames(s2, b);
    UpsertAssignmentMoves(s2, b);
  }

  /** Identities and external ids of every other user still resolve as before, even
      when the bind overwrote an existing instance row. */
  lemma OthersUnaffected(s: Store, b: Binding, provider: string, key: string)
    requires Constraints(s) && Bind(s, b).Some?
    ensures var s' := Bind(s, b).value;
            && ((provider, key) in s'.identities && s'.identities[(provider, key)] != b.User() ==>
                  LookupIdentity(s', provider, key) == LookupIdentity(s, provider, key))
            && ((forall u | u in s'.users && s'.users[u].externalId == Some(key) :: u != b.User()) ==>
                  LookupExternal(s', key, provider) == LookupExternal(s, key, provider))
  {
    var s' := Bind(s, b).value;
    BindKeepsConstraints(s, b);
    if (provider, key) in s'.identities && s'.identities[(provider, key)] != b.User() {
      SameIdentityRows(s, s', b, provider, key);
    }
    if forall u | u in s'.users && s'.users[u].externalId == Some(key) :: u != b.User() {
      SameExternalRows(s, s', b, key, provider);
    }
  }

  lemma SameIdentityRow(s: Store, s': Store, b: Binding, provider: string, key: string, i: string)
    requires Constraints(s) && Bind(s, b) == Some(s')
    requires (provider, key) in s'.identities && s'.identities[(provider, key)] != b.User()
    ensures IdentityRow(s, provider, key, i) <==> IdentityRow(s', provider, key, i)
    ensures IdentityRow(s, provider, key, i) ==> i in s'.instances && s'.instances[i] == s.instances[i]
  {
    BindEffect(s, b);
  }

  lemma SameIdentityRows(s: Store, s': Store, b: Binding, provider: string, key: string)
    requires Constraints(s) && Bind(s, b) == Some(s') && Constraints(s')
    requires (provider, key) in s'.identities && s'.identities[(provider, key)] != b.User()
    ensures LookupIdentity(s', provider, key) == LookupIdentity(s, provider, key)
  {
    forall i
      ensures IdentityRow(s, provider, key, i) <==> IdentityRow(s', provider, key, i)
      ensures IdentityRow(s, provider, key, i) ==> i in s'.instances && s'.instances[i] == s.instances[i]
    {
      SameIdentityRow(s, s', b, provider, key, i);
    }
    SameIdentityLookup(s, s', provider, key);
  }

  lemma SameIdentityLookup(s: Store, s': Store, provider: string, key: string)
    requires Constraints(s) && Constraints(s')
    requires forall i :: IdentityRow(s, provider, key, i) <==> IdentityRow(s', provider, key, i)
    requires forall i :: IdentityRow(s, provider, key, i) ==> i in s'.instances && s'.instances[i] == s.instances[i]
    ensures LookupIdentity(s', provider, key) == LookupIdentity(s, provider, key)
  {
    if i :| IdentityRow(s, provider, key, i) {
      LookupIdentityFinds(s, provider, key, i);
      LookupIdentityFinds(s', provider, key, i);
    }
  }

  lemma SameExternalRow(s: Store, s': Store, b: Binding, key: string, provider: string, k: (string, string), i: string)
    requires Constraints(s) && Bind(s, b) == Some(s')
    requires b.User() in s'.users ==> s'.users[b.User()].externalId != Some(key)
    ensures ExternalRow(s, key, provider, k, i) <==> ExternalRow(s', key, provider, k, i)
    ensures ExternalRow(s, key, provider, k, i) ==> s'.instances[i] == s.instances[i]
  {
    BindEffect(s, b);
    if ExternalRow(s, key, provider, k, i) {
      assert s.identities[k] != b.User();
    }
    if ExternalRow(s', key, provider, k, i) {
      assert s'.identities[k] != b.User();
    }
  }

  lemma SameExternalRows(s: Store, s': Store, b: Binding, key: string, provider: string)
    requires Constraints(s) && Bind(s, b) == Some(s') && Constraints(s')
    requires b.User() in s'.users ==> s'.users[b.User()].externalId != Some(key)
    ensures LookupExternal(s', key, provider) == LookupExternal(s, key, provider)
  {
    forall k, i
      ensures ExternalRow(s, key, provider, k, i) <==> ExternalRow(s', key, provider, k, i)
      ensures ExternalRow(s, key, provider, k, i) ==> s'.instances[i] == s.instances[i]
    {
      SameExternalRow(s, s', b, key, provider, k, i);
    }
    SameExternalLookup(s, s', key, provider);
  }

  lemma SameExternalLookup(s: Store, s': Store, key: string, provider: string)
    requires Constraints(s) && Constraints(s')
    requires forall k, i :: ExternalRow(s, key, provider, k, i) <==> ExternalRow(s', key, provider, k, i)
    requires forall k, i ::
               ExternalRow(s, key, provider, k, i) ==> i in s'.instances && s'.instances[i] == s.instances[i]
    ensures LookupExternal(s', key, provider) == LookupExternal(s, key, provider)
  {
    if k, i :| ExternalRow(s, key, provider, k, i) {
      LookupExternalFinds(s, key, provider, k, i);
      LookupExternalFinds(s', key, provider, k, i);
    }
  }

  /*** A store built only by binds ***/

  function Binds(bs: seq<Binding>): Store {
    if bs == [] then EMPTY_STORE
    else
      var s := Binds(bs[..|bs| - 1]);
      var b := bs[|bs| - 1];
      if Supported(b.provider) && Bind(s, b).Some? then Bind(s, b).value else s
  }

  ghost predicate WellBound(s: Store) {
    Constraints(s) && KeyedByName(s.identities) && HaveExternalId(s.users)
  }

  ghost predicate KeyedByName(identities: map<(string, string), string>) {
    forall k | k in identities :: ':' !in k.0 && identities[k] == AppUserId(k.0, k.1)
  }

  ghost predicate HaveExternalId(users: map<string, UserRow>) {
    forall u | u in users :: users[u].externalId.Some?
  }

  lemma UsersGrowKeepsExternalIds(users: map<string, UserRow>, users': map<string, UserRow>, b: Binding)
    requires HaveExternalId(users) && UsersGrow(users, users', b)
    ensures HaveExternalId(users')
  {
  }

  lemma IdentitiesGrowKeepsNames(ids: map<(string, string), string>, ids': map<(string, string), string>, b: Binding)
    requires KeyedByName(ids) && IdentitiesGrow(ids, ids', b) && ':' !in b.provider
    ensures KeyedByName(ids')
  {
  }

  lemma BindKeepsWellBound(s: Store, b: Binding)
    requires WellBound(s) && ':' !in b.provider
    ensures Bind(s, b).Some? ==> WellBound(Bind(s, b).value)
  {
    BindKeepsConstraints(s, b);
    if Bind(s, b).Some? {
      BindEffect(s, b);
      UsersGrowKeepsExternalIds(s.users, Bind(s, b).value.users, b);
      IdentitiesGrowKeepsNames(s.identities, Bind(s, b).value.identities, b);
    }
  }

  lemma {:induction false} BindsWellBound(bs: seq<Binding>)
    ensures WellBound(Binds(bs))
  {
    if bs != [] {
      BindsWellBound(bs[..|bs| - 1]);
      var b := bs[|bs| - 1];
      if Supported(b.provider) {
        SupportedHasNoColon(b.provider);
        BindKeepsWellBound(Binds(bs[..|bs| - 1]), b);
      }
    }
  }

  /** Where the bound identity is found: under exactly its own key. */
  lemma BoundIdentity(s: Store, b: Binding)
    requires WellBound(s) && ':' !in b.provider && Bind(s, b).Some?
    ensures var s' := Bind(s, b).value;
            && WellBound(s')
            && (b.provider, b.providerUserId) in s'.identities
            && s'.identities[(b.provider, b.providerUserId)] == b.User()
            && b.uuid in s'.assignments && s'.assignments[b.uuid] == b.User()
            && s'.instances[b.uuid] == b.info
  {
    BindKeepsWellBound(s, b);
    BindEffect(s, b);
    var s' := Bind(s, b).value;
    var k :| k in s'.identities && k.0 == b.provider && s'.identities[k] == b.User();
    AppUserIdInjective(k.0, k.1, b.provider, b.providerUserId);
    assert k == (b.provider, b.providerUserId);
  }

  /** A committed bind is read back by both lookups: by identity, and by the external
      id stored on that user's row. */
  lemma BindReadsBack(bs: seq<Binding>, b: Binding)
    requires Supported(b.provider) && Bind(Binds(bs), b).Some?
    ensures var s' := Bind(Binds(bs), b).value;
            && LookupIdentity(s', b.provider, b.providerUserId) == Found(b.info)
            && s'.users[b.User()].externalId.Some?
            && LookupExternal(s', s'.users[b.User()].externalId.value, b.provider) == Found((b.providerUserId, b.info))
  {
    var s := Binds(bs);
    BindsWellBound(bs);
    SupportedHasNoColon(b.provider);
    BoundIdentity(s, b);
    var s' := Bind(s, b).value;
    var k := (b.provider, b.providerUserId);
    LookupIdentityFinds(s', b.provider, b.providerUserId, b.uuid);
    LookupExternalFinds(s', s'.users[b.User()].externalId.value, b.provider, k, b.uuid);
  }

  /** x is the external id this bind asks for: the one passed, or when none or an empty
      one is passed, the user's own key. */
  predicate AsksFor(b: Binding, x: string) {
    || (b.externalId == Some(x) && x != "")
    || ((b.externalId == None || b.externalId == Some("")) && x == b.provider + ":" + b.providerUserId)
  }

  lemma AsksForExternal(b: Binding, x: string)
    ensures AsksFor(b, x) <==> x == b.External()
  {
  }

  /** A bind that creates its user stores the external id it asks for, and both parts of
      the binding are found under it. */
  lemma NewUserFoundByExternalId(bs: seq<Binding>, b: Binding, x: string)
    requires Supported(b.provider) && Bind(Binds(bs), b).Some? && AsksFor(b, x)
    requires b.provider + ":" + b.providerUserId !in Binds(bs).users
    ensures var s' := Bind(Binds(bs), b).value;
            && b.provider + ":" + b.providerUserId in s'.users
            && s'.users[b.provider + ":" + b.providerUserId].externalId == Some(x)
            && LookupExternal(s', x, b.provider) == Found((b.providerUserId, b.info))
  {
    AsksForExternal(b, x);
    BindExternalId(Binds(bs), b);
    BindReadsBack(bs, b);
  }

  /** The external id passed to a bind is used only when it creates the user: the bind
      can be read back by it exactly when the user is new or already carries it. */
  lemma PassedExternalIdReadsBack(bs: seq<Binding>, b: Binding, x: string)
    requires Supported(b.provider) && Bind(Binds(bs), b).Some? && AsksFor(b, x)
    ensures var s := Binds(bs);
            var user := b.provider + ":" + b.providerUserId;
            LookupExternal(Bind(s, b).value, x, b.provider) == Found((b.providerUserId, b.info))
            <==> user !in s.users || s.users[user].externalId == Some(x)
  {
    var s := Binds(bs);
    AsksForExternal(b, x);
    BindsWellBound(bs);
    BindExternalId(s, b);
    BindReadsBack(bs, b);
    if b.User() in s.users && s.users[b.User()].externalId != Some(x) {
      SupportedHasNoColon(b.provider);
      BoundIdentity(s, b);
      NotFoundUnderAnother(Bind(s, b).value, b.provider, b.providerUserId, x);
    }
  }

  lemma BindExternalId(s: Store, b: Binding)
    requires Bind(s, b).Some?
    ensures var s' := Bind(s, b).value;
            && b.User() in s'.users
            && s'.users[b.User()].externalId ==
               if b.User() in s.users then s.users[b.User()].externalId else Some(b.External())
  {
    BindEffect(s, b);
  }

  /** An external id its user does not carry never leads to that user's identity. */
  lemma NotFoundUnderAnother(s: Store, provider: string, providerUserId: string, externalId: string)
    requires WellBound(s) && (provider, providerUserId) in s.identities
    requires s.users[s.identities[(provider, providerUserId)]].externalId != Some(externalId)
    ensures LookupExternal(s, externalId, provider).Found? ==>
              LookupExternal(s, externalId, provider).value.0 != providerUserId
  {
    if k, i :| ExternalRow(s, externalId, provider, k, i) {
      LookupExternalFinds(s, externalId, provider, k, i);
      assert k != (provider, providerUserId);
    }
  }

  /** A rebind with a new external id commits and does not take it over. */
  lemma RebindIgnoresExternalId(b: Binding, other: string)
    requires Supported(b.provider) && !AsksFor(b, other) && other != ""
    ensures var b' := b.(externalId := Some(other));
            && Bind(Binds([b]), b').Some?
            && LookupExternal(Bind(Binds([b]), b').value, other, b.provider) != Found((b.providerUserId, b.info))
  {
    var b' := b.(externalId := Some(other));
    assert [b][..0] == [];
    assert Binds([b][..0]) == EMPTY_STORE;
    assert !HasIdentity(EMPTY_STORE.identities, b.provider, b.User());
    var s := Binds([b]);
    assert s == Bind(EMPTY_STORE, b).value;
    BindEffect(EMPTY_STORE, b);
    BindsWellBound([b]);
    AsksForExternal(b, other);
    BindAbortsIff([b], b', other);
    PassedExternalIdReadsBack([b], b', other);
  }

  /** In a store of binds the identity step never stops a bind. */
  lemma IdentityStepPasses(s: Store, b: Binding)
    requires WellBound(s) && UpsertUser(UpsertInstance(s, b), b).Some?
    ensures UpsertIdentity(UpsertUser(UpsertInstance(s, b), b).value, b).Some?
  {
    var s0 := UpsertInstance(s, b);
    UpsertFrames(s0, b);
    var s1 := UpsertUser(s0, b).value;
    var k := (b.provider, b.providerUserId);
    if k in s1.identities {
      assert s1.identities[k] == b.User();
    }
  }

  lemma BindNone(s: Store, b: Binding)
    requires WellBound(s)
    ensures Bind(s, b).None? <==>
              || (b.User() !in s.users && ExternalTaken(s, b.External()))
              || (b.uuid in s.assignments && s.assignments[b.uuid] != b.User())
  {
    var s0 := UpsertInstance(s, b);
    UpsertFrames(s0, b);
    if UpsertUser(s0, b).Some? {
      IdentityStepPasses(s, b);
      UpsertFrames(UpsertUser(s0, b).value, b);
    }
  }

  /** When a bind aborts: the external id of a new user is taken, or the instance is
      assigned to somebody else. */
  lemma BindAbortsIff(bs: seq<Binding>, b: Binding, x: string)
    requires Supported(b.provider) && AsksFor(b, x)
    ensures var s := Binds(bs);
            var user := b.provider + ":" + b.providerUserId;
            Bind(s, b).None? <==>
              || (user !in s.users && exists u :: u in s.users && s.users[u].externalId == Some(x))
              || (b.uuid in s.assignments && s.assignments[b.uuid] != user)
  {
    AsksForExternal(b, x);
    BindsWellBound(bs);
    BindNone(Binds(bs), b);
  }

  /** The role of the user after a committed bind: one that is set stays, a missing one is
      filled in, and nobody else's changes. */
  lemma RoleIsFilledOnce(s: Store, b: Binding, u: string)
    requires Bind(s, b).Some? && u in Bind(s, b).value.users
    ensures var role := Bind(s, b).value.users[u].role;
            && (u in s.users && s.users[u].role.Some? ==> role == s.users[u].role)
            && (u == b.provider + ":" + b.providerUserId && (u in s.users ==> s.users[u].role.None?) ==> role == b.role)
            && (u in s.users && u != b.provider + ":" + b.providerUserId ==> role == s.users[u].role)
  {
    var s0 := UpsertInstance(s, b);
    UpsertFrames(s0, b);
    UpsertFrames(UpsertUser(s0, b).value, b);
  }
}
