/** The version-checked, expiring caches of src/services/mapping.py, and the system of
    replicas that share one database. A lookup is four steps, because its version query,
    its cache check, its row query and its cache write are separated by awaits. */
module MappingCache {
  import opened PyText
  import opened MappingStore

  datatype Query =
    | ByIdentity(provider: string, providerUserId: string)
    | ByExternal(externalId: string, provider: string)

  datatype Answer = ForIdentity(info: InstanceInfo) | ForExternal(providerUserId: string, info: InstanceInfo)

  /** What the database answers to a query. */
  ghost function Ask(s: Store, q: Query): Lookup<Answer> {
    match q
    case ByIdentity(provider, id) =>
      (match LookupIdentity(s, provider, id)
       case Found(info) => Found(ForIdentity(info))
       case NotFound => NotFound
       case MultipleResults => MultipleResults)
    case ByExternal(externalId, provider) =>
      (match LookupExternal(s, externalId, provider)
       case Found(row) => Found(ForExternal(row.0, row.1))
       case NotFound => NotFound
       case MultipleResults => MultipleResults)
  }

  /*** One cache ***/

  const MAX_CACHE_ENTRIES := 1000

  datatype Entry = Entry(version: int, expires: real, value: Answer)

  type Cache = map<Query, Entry>

  predicate Usable(e: Entry, version: int, now: real) {
    now <= e.expires && e.version == version
  }

  function Get(cache: Cache, q: Query, version: int, now: real): Option<Answer> {
    if q in cache && Usable(cache[q], version, now) then Some(cache[q].value) else None
  }

  /** A stale or expired entry is dropped by the look that finds it. */
  function AfterGet(cache: Cache, q: Query, version: int, now: real): Cache {
    if Get(cache, q, version, now).Some? then cache else cache - {q}
  }

  /** A full cache is emptied before the next entry goes in. */
  function Put(cache: Cache, q: Query, e: Entry): Cache {
    (if |cache| >= MAX_CACHE_ENTRIES then map[] else cache)[q := e]
  }

  function Reload(cache: Cache, version: int): Cache {
    map q | q in cache && cache[q].version == version :: cache[q]
  }

  lemma PutStaysBounded(cache: Cache, q: Query, e: Entry)
    requires |cache| <= MAX_CACHE_ENTRIES
    ensures |Put(cache, q, e)| <= MAX_CACHE_ENTRIES
  {
  }

  lemma LookStaysBounded(cache: Cache, q: Query, version: int, now: real)
    ensures |AfterGet(cache, q, version, now)| <= |cache|
  {
    SubmapSize(AfterGet(cache, q, version, now), cache);
  }

  lemma ReloadStaysBounded(cache: Cache, version: int)
    ensures |Reload(cache, version)| <= |cache|
  {
    SubmapSize(Reload(cache, version), cache);
  }

  lemma SubmapSize(a: Cache, b: Cache)
    requires a.Keys <= b.Keys
    ensures |a| <= |b|
  {
    var rest := b.Keys - a.Keys;
    assert b.Keys == a.Keys + rest;
    assert |b.Keys| == |a.Keys| + |rest|;
  }

  /*** The system ***/

  datatype Replica = Replica(identities: Cache, externals: Cache)
  {
    function CacheFor(q: Query): Cache { if q.ByIdentity? then identities else externals }
    function With(q: Query, cache: Cache): Replica {
      if q.ByIdentity? then this.(identities := cache) else this.(externals := cache)
    }
  }

  /** The database after one commit, what it answers, and when that commit happened. */
  datatype Snapshot = Snapshot(store: Store, rows: Query -> Lookup<Answer>, version: int, since: real)

  ghost function Snap(store: Store, version: int, since: real): Snapshot {
    Snapshot(store, q => Ask(store, q), version, since)
  }

  datatype Stage =
    | Opened
    | Versioned(version: int)
    | Missed(version: int)
    | Fetched(version: int, rows: Lookup<Answer>, at: real)

  /** A lookup under way; `first` is the snapshot that was current when it began. */
  datatype Call = Call(replica: nat, query: Query, started: real, first: nat, stage: Stage)

  /** A finished lookup, with the snapshots its call spanned. */
  datatype Served = Served(
    replica: nat, query: Query, result: Lookup<Answer>, first: nat, last: nat, at: real, hit: bool)

  /** A cache write: by a call that began, read its rows and wrote at these times. */
  datatype Stored = Stored(replica: nat, query: Query, value: Answer, started: real, readAt: real, storedAt: real)

  datatype System = System(
    history: seq<Snapshot>,
    now: real,
    replicas: map<nat, Replica>,
    calls: map<nat, Call>,
    nextCall: nat,
    stored: seq<Stored>,
    served: seq<Served>)
  {
    function ReplicaAt(r: nat): Replica {
      if r in replicas then replicas[r] else Replica(map[], map[])
    }
    function Current(): Snapshot
      requires history != []
    {
      history[|history| - 1]
    }
  }

  datatype Event =
    | Advance(dt: real)
    | Open(replica: nat, query: Query)
    | ReadVersion(c: nat)
    | CheckCache(c: nat)
    | ReadRows(c: nat)
    | Finish(c: nat)
    | Fail(c: nat)
    | Commit(b: Binding)
    | Edit(store: Store)
    | Invalidate(replica: nat)
    | ReloadAt(replica: nat, version: int)

  ghost function Start(store: Store, now: real): System {
    System([Snap(store, 1, now)], now, map[], map[], 0, [], [])
  }

  function Serve(s: System, c: nat, result: Lookup<Answer>, hit: bool): System
    requires c in s.calls && s.history != []
  {
    var call := s.calls[c];
    s.(calls := s.calls - {c},
       served := s.served + [Served(call.replica, call.query, result, call.first, |s.history| - 1, s.now, hit)])
  }

  function SetCache(s: System, r: nat, q: Query, cache: Cache): System {
    s.(replicas := s.replicas[r := s.ReplicaAt(r).With(q, cache)])
  }

  function SetStage(s: System, c: nat, stage: Stage): System
    requires c in s.calls
  {
    s.(calls := s.calls[c := s.calls[c].(stage := stage)])
  }

  function OnCheckCache(s: System, c: nat): System
    requires c in s.calls && s.calls[c].stage.Versioned? && s.history != []
  {
    var call := s.calls[c];
    var cache := s.ReplicaAt(call.replica).CacheFor(call.query);
    var found := Get(cache, call.query, call.stage.version, s.now);
    var s1 := SetCache(s, call.replica, call.query, AfterGet(cache, call.query, call.stage.version, s.now));
    if found.Some? then Serve(s1, c, Found(found.value), true)
    else SetStage(s1, c, Missed(call.stage.version))
  }

  function PutEntry(s: System, r: nat, q: Query, e: Entry): System {
    SetCache(s, r, q, Put(s.ReplicaAt(r).CacheFor(q), q, e))
  }

  function Log(s: System, x: Stored): System {
    s.(stored := s.stored + [x])
  }

  /** The write a fetched row leads to. */
  function StoredBy(s: System, c: nat): Stored
    requires c in s.calls && s.calls[c].stage.Fetched? && s.calls[c].stage.rows.Found?
  {
    var call := s.calls[c];
    Stored(call.replica, call.query, call.stage.rows.value, call.started, call.stage.at, s.now)
  }

  function Write(s: System, version: int, x: Stored, ttl: real): System {
    Log(PutEntry(s, x.replica, x.query, Entry(version, s.now + ttl, x.value)), x)
  }

  /** The row found goes into the cache, under the version read before it. */
  function StoreEntry(s: System, c: nat, ttl: real): System
    requires c in s.calls && s.calls[c].stage.Fetched? && s.calls[c].stage.rows.Found?
  {
    Write(s, s.calls[c].stage.version, StoredBy(s, c), ttl)
  }

  function OnFinish(s: System, c: nat, ttl: real): System
    requires c in s.calls && s.calls[c].stage.Fetched? && s.history != []
  {
    var rows := s.calls[c].stage.rows;
    Serve(if rows.Found? then StoreEntry(s, c, ttl) else s, c, rows, false)
  }

  predicate Enabled(s: System, ev: Event) {
    s.history != [] &&
    match ev
    case Advance(dt) => dt >= 0.0
    case ReadVersion(c) => c in s.calls && s.calls[c].stage.Opened?
    case CheckCache(c) => c in s.calls && s.calls[c].stage.Versioned?
    case ReadRows(c) => c in s.calls && s.calls[c].stage.Missed?
    case Finish(c) => c in s.calls && s.calls[c].stage.Fetched?
    case Fail(c) => c in s.calls
    case Commit(b) => Bind(s.Current().store, b).Some?
    case _ => true
  }

  ghost function Step(s: System, ev: Event, ttl: real): System {
    if !Enabled(s, ev) then s
    else
      match ev
      case Advance(dt) => s.(now := s.now + dt)
      case Open(r, q) =>
        s.(calls := s.calls[s.nextCall := Call(r, q, s.now, |s.history| - 1, Opened)], nextCall := s.nextCall + 1)
      case ReadVersion(c) => SetStage(s, c, Versioned(s.Current().version))
      case CheckCache(c) => OnCheckCache(s, c)
      case ReadRows(c) =>
        SetStage(s, c, Fetched(s.calls[c].stage.version, s.Current().rows(s.calls[c].query), s.now))
      case Finish(c) => OnFinish(s, c, ttl)
      case Fail(c) => s.(calls := s.calls - {c})
      case Commit(b) =>
        s.(history := s.history + [Snap(Bind(s.Current().store, b).value, s.Current().version + 1, s.now)])
      case Edit(store) => s.(history := s.history + [Snap(store, s.Current().version, s.now)])
      case Invalidate(r) => s.(replicas := s.replicas[r := Replica(map[], map[])])
      case ReloadAt(r, version) =>
        s.(replicas := s.replicas[r := Replica(Reload(s.ReplicaAt(r).identities, version),
                                               Reload(s.ReplicaAt(r).externals, version))])
  }

  ghost function Run(evs: seq<Event>, store: Store, now: real, ttl: real): System {
    if evs == [] then Start(store, now)
    else Step(Run(evs[..|evs| - 1], store, now, ttl), evs[|evs| - 1], ttl)
  }

  /*** Answers come from inside the call ***/

  /** Some snapshot from lo to hi gives this answer. */
  ghost predicate AnsweredBetween(h: seq<Snapshot>, lo: int, hi: int, q: Query, r: Lookup<Answer>) {
    exists k :: Answers(h, k, q, r) && lo <= k <= hi
  }

  ghost predicate Answers(h: seq<Snapshot>, k: int, q: Query, r: Lookup<Answer>) {
    0 <= k < |h| && h[k].rows(q) == r
  }

  ghost predicate VersionInv(s: System) {
    && s.history != []
    && (forall i | 0 <= i < |s.history| :: s.history[i].version == i + 1)
    && (forall c | c in s.calls :: CallOk(s.history, s.calls[c]))
    && (forall r | r in s.replicas :: EntriesOk(s.history, s.replicas[r]))
    && (forall i | 0 <= i < |s.served| :: ServedOk(s.history, s.served[i]))
  }

  ghost predicate CallOk(h: seq<Snapshot>, call: Call) {
    && call.first < |h|
    && (!call.stage.Opened? ==> call.first + 1 <= call.stage.version <= |h|)
    && (call.stage.Fetched? ==>
          AnsweredBetween(h, call.stage.version - 1, |h| - 1, call.query, call.stage.rows))
  }

  ghost predicate EntriesOk(h: seq<Snapshot>, rep: Replica) {
    CacheOk(h, rep.identities) && CacheOk(h, rep.externals)
  }

  ghost predicate CacheOk(h: seq<Snapshot>, cache: Cache) {
    forall q | q in cache :: EntryOk(h, q, cache[q])
  }

  /** An entry tagged v holds an answer of snapshot v or of a later one; while v is
      still current that is the current rows' answer. */
  ghost predicate EntryOk(h: seq<Snapshot>, q: Query, e: Entry) {
    1 <= e.version <= |h| && AnsweredBetween(h, e.version - 1, |h| - 1, q, Found(e.value))
  }

  ghost predicate ServedOk(h: seq<Snapshot>, served: Served) {
    served.last < |h| && AnsweredBetween(h, served.first, served.last, served.query, served.result)
  }

  lemma HistoryGrows(h: seq<Snapshot>, next: Snapshot, lo: int, hi: int, q: Query, r: Lookup<Answer>)
    requires AnsweredBetween(h, lo, hi, q, r)
    ensures AnsweredBetween(h + [next], lo, hi, q, r)
  {
    var k :| Answers(h, k, q, r) && lo <= k <= hi;
    assert Answers(h + [next], k, q, r);
  }

  lemma ServeKeepsVersions(s: System, c: nat, result: Lookup<Answer>, hit: bool)
    requires VersionInv(s) && c in s.calls
    requires AnsweredBetween(s.history, s.calls[c].first, |s.history| - 1, s.calls[c].query, result)
    ensures VersionInv(Serve(s, c, result, hit))
  {
  }

  lemma SetCacheKeepsVersions(s: System, r: nat, q: Query, cache: Cache)
    requires VersionInv(s) && CacheOk(s.history, cache)
    ensures VersionInv(SetCache(s, r, q, cache))
  {
    assert EntriesOk(s.history, s.ReplicaAt(r));
  }

  lemma Weaken(h: seq<Snapshot>, lo: int, lo': int, q: Query, r: Lookup<Answer>)
    requires AnsweredBetween(h, lo', |h| - 1, q, r) && lo <= lo'
    ensures AnsweredBetween(h, lo, |h| - 1, q, r)
  {
    var k :| Answers(h, k, q, r) && lo' <= k <= |h| - 1;
  }

  lemma CheckCacheKeepsVersions(s: System, c: nat)
    requires VersionInv(s) && c in s.calls && s.calls[c].stage.Versioned?
    ensures VersionInv(OnCheckCache(s, c))
  {
    var call := s.calls[c];
    var cache := s.ReplicaAt(call.replica).CacheFor(call.query);
    assert EntriesOk(s.history, s.ReplicaAt(call.replica));
    assert CallOk(s.history, call);
    SetCacheKeepsVersions(s, call.replica, call.query, AfterGet(cache, call.query, call.stage.version, s.now));
    var s1 := SetCache(s, call.replica, call.query, AfterGet(cache, call.query, call.stage.version, s.now));
    if Get(cache, call.query, call.stage.version, s.now).Some? {
      var e := cache[call.query];
      assert EntryOk(s.history, call.query, e);
      Weaken(s.history, call.first, e.version - 1, call.query, Found(e.value));
      ServeKeepsVersions(s1, c, Found(e.value), true);
    }
  }

  lemma PutKeepsEntries(h: seq<Snapshot>, cache: Cache, q: Query, e: Entry)
    requires CacheOk(h, cache) && EntryOk(h, q, e)
    ensures CacheOk(h, Put(cache, q, e))
  {
  }

  lemma FetchedEntryOk(s: System, c: nat, expires: real)
    requires VersionInv(s) && c in s.calls && s.calls[c].stage.Fetched?
    ensures var call := s.calls[c];
            && AnsweredBetween(s.history, call.first, |s.history| - 1, call.query, call.stage.rows)
            && (call.stage.rows.Found? ==>
                  EntryOk(s.history, call.query, Entry(call.stage.version, expires, call.stage.rows.value)))
  {
    var call := s.calls[c];
    assert CallOk(s.history, call);
    Weaken(s.history, call.first, call.stage.version - 1, call.query, call.stage.rows);
  }

  lemma LogKeepsVersions(s: System, x: Stored)
    requires VersionInv(s)
    ensures VersionInv(Log(s, x))
  {
  }

  lemma PutEntryKeepsVersions(s: System, r: nat, q: Query, e: Entry)
    requires VersionInv(s) && EntryOk(s.history, q, e)
    ensures VersionInv(PutEntry(s, r, q, e))
  {
    assert EntriesOk(s.history, s.ReplicaAt(r));
    PutKeepsEntries(s.history, s.ReplicaAt(r).CacheFor(q), q, e);
    SetCacheKeepsVersions(s, r, q, Put(s.ReplicaAt(r).CacheFor(q), q, e));
  }

  lemma PutAndLogKeepVersions(s: System, r: nat, q: Query, e: Entry, x: Stored)
    requires VersionInv(s) && EntryOk(s.history, q, e)
    ensures VersionInv(Log(PutEntry(s, r, q, e), x))
  {
    PutEntryKeepsVersions(s, r, q, e);
    LogKeepsVersions(PutEntry(s, r, q, e), x);
  }

  lemma StoreKeepsVersions(s: System, c: nat, ttl: real)
    requires VersionInv(s) && c in s.calls && s.calls[c].stage.Fetched? && s.calls[c].stage.rows.Found?
    ensures VersionInv(StoreEntry(s, c, ttl))
  {
    var x := StoredBy(s, c);
    FetchedEntryOk(s, c, s.now + ttl);
    PutAndLogKeepVersions(s, x.replica, x.query, Entry(s.calls[c].stage.version, s.now + ttl, x.value), x);
  }

  lemma FinishKeepsVersions(s: System, c: nat, ttl: real)
    requires VersionInv(s) && c in s.calls && s.calls[c].stage.Fetched?
    ensures VersionInv(OnFinish(s, c, ttl))
  {
    FetchedEntryOk(s, c, 0.0);
    if s.calls[c].stage.rows.Found? {
      StoreKeepsVersions(s, c, ttl);
      ServeKeepsVersions(StoreEntry(s, c, ttl), c, s.calls[c].stage.rows, false);
    } else {
      ServeKeepsVersions(s, c, s.calls[c].stage.rows, false);
    }
  }

  lemma ReadRowsKeepsVersions(s: System, c: nat)
    requires VersionInv(s) && c in s.calls && s.calls[c].stage.Missed?
    ensures var call := s.calls[c];
            VersionInv(SetStage(s, c, Fetched(call.stage.version, s.Current().rows(call.query), s.now)))
  {
    var call := s.calls[c];
    assert CallOk(s.history, call);
    assert Answers(s.history, |s.history| - 1, call.query, s.Current().rows(call.query));
  }

  lemma CommitKeepsVersions(s: System, next: Snapshot)
    requires VersionInv(s) && next.version == s.Current().version + 1
    ensures VersionInv(s.(history := s.history + [next]))
  {
    var h := s.history + [next];
    forall c | c in s.calls
      ensures CallOk(h, s.calls[c])
    {
      var call := s.calls[c];
      assert CallOk(s.history, call);
      if call.stage.Fetched? {
        AnswerKept(s.history, next, call.stage.version - 1, call.query, call.stage.rows);
      }
    }
    forall r | r in s.replicas
      ensures EntriesOk(h, s.replicas[r])
    {
      assert EntriesOk(s.history, s.replicas[r]);
      CacheKept(s.history, next, s.replicas[r].identities);
      CacheKept(s.history, next, s.replicas[r].externals);
    }
    forall i | 0 <= i < |s.served|
      ensures ServedOk(h, s.served[i])
    {
      var x := s.served[i];
      assert ServedOk(s.history, x);
      HistoryGrows(s.history, next, x.first, x.last, x.query, x.result);
    }
  }

  lemma CacheKept(h: seq<Snapshot>, next: Snapshot, cache: Cache)
    requires CacheOk(h, cache)
    ensures CacheOk(h + [next], cache)
  {
    forall q | q in cache
      ensures EntryOk(h + [next], q, cache[q])
    {
      assert EntryOk(h, q, cache[q]);
      AnswerKept(h, next, cache[q].version - 1, q, Found(cache[q].value));
    }
  }

  lemma AnswerKept(h: seq<Snapshot>, next: Snapshot, lo: int, q: Query, r: Lookup<Answer>)
    requires AnsweredBetween(h, lo, |h| - 1, q, r)
    ensures AnsweredBetween(h + [next], lo, |h|, q, r)
  {
    HistoryGrows(h, next, lo, |h| - 1, q, r);
    var k :| Answers(h + [next], k, q, r) && lo <= k <= |h| - 1;
  }

  lemma SetCallKeepsVersions(s: System, c: nat, call: Call)
    requires VersionInv(s) && CallOk(s.history, call)
    ensures VersionInv(s.(calls := s.calls[c := call]))
  {
  }

  lemma SetReplicaKeepsVersions(s: System, r: nat, rep: Replica)
    requires VersionInv(s) && EntriesOk(s.history, rep)
    ensures VersionInv(s.(replicas := s.replicas[r := rep]))
  {
  }

  lemma ReloadKeepsEntries(h: seq<Snapshot>, cache: Cache, version: int)
    requires CacheOk(h, cache)
    ensures CacheOk(h, Reload(cache, version))
  {
  }

  lemma CallStepKeepsVersions(s: System, ev: Event, ttl: real)
    requires VersionInv(s) && Enabled(s, ev)
    requires ev.Open? || ev.ReadVersion? || ev.Fail?
    ensures VersionInv(Step(s, ev, ttl))
  {
    match ev
    case Open(r, q) =>
      SetCallKeepsVersions(s, s.nextCall, Call(r, q, s.now, |s.history| - 1, Opened));
    case ReadVersion(c) =>
      assert CallOk(s.history, s.calls[c]);
      SetCallKeepsVersions(s, c, s.calls[c].(stage := Versioned(s.Current().version)));
    case Fail(c) =>
  }

  lemma ReplicaStepKeepsVersions(s: System, ev: Event, ttl: real)
    requires VersionInv(s) && (ev.Invalidate? || ev.ReloadAt?)
    ensures VersionInv(Step(s, ev, ttl))
  {
    match ev
    case Invalidate(r) => SetReplicaKeepsVersions(s, r, Replica(map[], map[]));
    case ReloadAt(r, version) =>
      var rep := s.ReplicaAt(r);
      assert EntriesOk(s.history, rep);
      ReloadKeepsEntries(s.history, rep.identities, version);
      ReloadKeepsEntries(s.history, rep.externals, version);
      SetReplicaKeepsVersions(s, r, Replica(Reload(rep.identities, version), Reload(rep.externals, version)));
  }

  lemma StepKeepsVersions(s: System, ev: Event, ttl: real)
    requires VersionInv(s) && !ev.Edit?
    ensures VersionInv(Step(s, ev, ttl))
  {
    if Enabled(s, ev) {
      match ev
      case Advance(dt) =>
      case CheckCache(c) => CheckCacheKeepsVersions(s, c);
      case ReadRows(c) => ReadRowsKeepsVersions(s, c);
      case Finish(c) => FinishKeepsVersions(s, c, ttl);
      case Commit(b) =>
        CommitKeepsVersions(s, Snap(Bind(s.Current().store, b).value, s.Current().version + 1, s.now));
      case Invalidate(_) => ReplicaStepKeepsVersions(s, ev, ttl);
      case ReloadAt(_, _) => ReplicaStepKeepsVersions(s, ev, ttl);
      case _ => CallStepKeepsVersions(s, ev, ttl);
    }
  }

  lemma {:induction false} RunKeepsVersions(evs: seq<Event>, store: Store, now: real, ttl: real)
    requires forall ev | ev in evs :: !ev.Edit?
    ensures VersionInv(Run(evs, store, now, ttl))
  {
    if evs != [] {
      assert evs[|evs| - 1] in evs;
      RunKeepsVersions(evs[..|evs| - 1], store, now, ttl);
      StepKeepsVersions(Run(evs[..|evs| - 1], store, now, ttl), evs[|evs| - 1], ttl);
    }
  }

  lemma {:induction false} RunAnswers(evs: seq<Event>, store: Store, now: real, ttl: real)
    ensures var h := Run(evs, store, now, ttl).history;
            h != [] && forall i, q | 0 <= i < |h| :: h[i].rows(q) == Ask(h[i].store, q)
  {
    if evs != [] {
      RunAnswers(evs[..|evs| - 1], store, now, ttl);
      var s := Run(evs[..|evs| - 1], store, now, ttl);
      HistoryStep(s, evs[|evs| - 1], ttl);
    }
  }

  /** Each step appends at most one snapshot. */
  lemma HistoryStep(s: System, ev: Event, ttl: real)
    ensures var h := Step(s, ev, ttl).history;
            h == s.history || exists store, version :: h == s.history + [Snap(store, version, s.now)]
  {
  }

  /** While every writer is bind_user_instance: whatever the replicas, lookups, binds,
      reloads and expiries in between, a lookup returns what the database answered at
      some instant between its own start and end, whether or not it hit a cache. */
  lemma LookupsAreCurrent(evs: seq<Event>, store: Store, now: real, ttl: real, i: nat)
    requires forall ev | ev in evs :: !ev.Edit?
    requires i < |Run(evs, store, now, ttl).served|
    ensures var s := Run(evs, store, now, ttl);
            var x := s.served[i];
            exists k :: x.first <= k <= x.last < |s.history| && Ask(s.history[k].store, x.query) == x.result
  {
    RunAnswers(evs, store, now, ttl);
    RunKeepsVersions(evs, store, now, ttl);
    var s := Run(evs, store, now, ttl);
    var x := s.served[i];
    assert ServedOk(s.history, x);
    var k :| Answers(s.history, k, x.query, x.result) && x.first <= k <= x.last;
  }

  /** The cache agrees with what it speeds up: an entry never runs ahead of the current
      version, and one tagged with it is the current rows' answer. */
  lemma CurrentEntriesAgree(evs: seq<Event>, store: Store, now: real, ttl: real, r: nat, q: Query)
    requires forall ev | ev in evs :: !ev.Edit?
    requires r in Run(evs, store, now, ttl).replicas && q in Run(evs, store, now, ttl).replicas[r].CacheFor(q)
    ensures var s := Run(evs, store, now, ttl);
            var e := s.replicas[r].CacheFor(q)[q];
            && s.history != []
            && e.version <= s.Current().version
            && (e.version == s.Current().version ==> Ask(s.Current().store, q) == Found(e.value))
  {
    RunAnswers(evs, store, now, ttl);
    RunKeepsVersions(evs, store, now, ttl);
    EntriesAgree(Run(evs, store, now, ttl), r, q);
  }

  lemma EntriesAgree(s: System, r: nat, q: Query)
    requires VersionInv(s) && r in s.replicas && q in s.replicas[r].CacheFor(q)
    ensures var e := s.replicas[r].CacheFor(q)[q];
            && e.version <= s.Current().version
            && (e.version == s.Current().version ==> s.Current().rows(q) == Found(e.value))
  {
    assert EntriesOk(s.history, s.replicas[r]);
    TaggedCurrentAgrees(s.history, q, s.replicas[r].CacheFor(q)[q]);
    assert s.Current().version == |s.history|;
  }

  lemma TaggedCurrentAgrees(h: seq<Snapshot>, q: Query, e: Entry)
    requires EntryOk(h, q, e)
    ensures e.version == |h| ==> h[|h| - 1].rows(q) == Found(e.value)
  {
    var k :| Answers(h, k, q, Found(e.value)) && e.version - 1 <= k <= |h| - 1;
  }
}
