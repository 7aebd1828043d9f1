/** What the caches of src/services/mapping.py promise whatever is done to the rows,
    with or without a version bump: bounded staleness, bounded size, clean reloads. */
module MappingExpiry {
  import opened MappingStore
  import opened MappingCache

  /*** Staleness ***/

  /** Snapshot k was the database at time t. */
  ghost predicate CurrentAt(h: seq<Snapshot>, k: int, t: real) {
    0 <= k < |h| && h[k].since <= t && (k + 1 < |h| ==> t <= h[k + 1].since)
  }

  ghost predicate AnsweredAt(h: seq<Snapshot>, q: Query, r: Lookup<Answer>, t: real) {
    exists k :: CurrentAt(h, k, t) && h[k].rows(q) == r
  }

  ghost predicate ReadOk(h: seq<Snapshot>, now: real, call: Call) {
    call.started <= now &&
    (call.stage.Fetched? ==>
       call.started <= call.stage.at <= now && AnsweredAt(h, call.query, call.stage.rows, call.stage.at))
  }

  ghost predicate StoredOk(h: seq<Snapshot>, now: real, x: Stored) {
    x.started <= x.readAt <= x.storedAt <= now && AnsweredAt(h, x.query, Found(x.value), x.readAt)
  }

  /** The entry is one of the writes to this replica's cache. */
  ghost predicate Written(stored: seq<Stored>, ttl: real, r: nat, q: Query, e: Entry) {
    exists j :: 0 <= j < |stored| && Wrote(stored[j], ttl, r, q, e)
  }

  ghost predicate Wrote(x: Stored, ttl: real, r: nat, q: Query, e: Entry) {
    x.replica == r && x.query == q && x.value == e.value && x.storedAt + ttl == e.expires
  }

  ghost predicate CacheWritten(stored: seq<Stored>, ttl: real, r: nat, cache: Cache) {
    forall q | q in cache :: Written(stored, ttl, r, q, cache[q])
  }

  ghost predicate ReplicaWritten(stored: seq<Stored>, ttl: real, r: nat, rep: Replica) {
    CacheWritten(stored, ttl, r, rep.identities) && CacheWritten(stored, ttl, r, rep.externals)
  }

  /** A write of this very answer, by the serving replica, not yet expired. */
  ghost predicate ServedFrom(x: Stored, ttl: real, served: Served) {
    && x.replica == served.replica && x.query == served.query && served.result == Found(x.value)
    && x.storedAt <= served.at <= x.storedAt + ttl
  }

  ghost predicate ServedWritten(stored: seq<Stored>, ttl: real, served: Served) {
    served.result.Found? ==> exists j :: 0 <= j < |stored| && ServedFrom(stored[j], ttl, served)
  }

  ghost predicate TimeInv(s: System, ttl: real) {
    && s.history != [] && s.Current().since <= s.now
    && (forall c | c in s.calls :: ReadOk(s.history, s.now, s.calls[c]))
    && (forall j | 0 <= j < |s.stored| :: StoredOk(s.history, s.now, s.stored[j]))
    && (forall r | r in s.replicas :: ReplicaWritten(s.stored, ttl, r, s.replicas[r]))
    && (forall i | 0 <= i < |s.served| :: ServedWritten(s.stored, ttl, s.served[i]))
  }

  lemma StillAnswered(h: seq<Snapshot>, next: Snapshot, q: Query, r: Lookup<Answer>, t: real)
    requires AnsweredAt(h, q, r, t) && t <= next.since
    ensures AnsweredAt(h + [next], q, r, t)
  {
    var k :| CurrentAt(h, k, t) && h[k].rows(q) == r;
    assert CurrentAt(h + [next], k, t);
  }

  lemma AppendKeepsTime(s: System, next: Snapshot, ttl: real)
    requires TimeInv(s, ttl) && next.since == s.now
    ensures TimeInv(s.(history := s.history + [next]), ttl)
  {
    var h := s.history + [next];
    forall c | c in s.calls
      ensures ReadOk(h, s.now, s.calls[c])
    {
      var call := s.calls[c];
      assert ReadOk(s.history, s.now, call);
      if call.stage.Fetched? { StillAnswered(s.history, next, call.query, call.stage.rows, call.stage.at); }
    }
    forall j | 0 <= j < |s.stored|
      ensures StoredOk(h, s.now, s.stored[j])
    {
      var x := s.stored[j];
      assert StoredOk(s.history, s.now, x);
      StillAnswered(s.history, next, x.query, Found(x.value), x.readAt);
    }
  }

  lemma AdvanceKeepsTime(s: System, dt: real, ttl: real)
    requires TimeInv(s, ttl) && dt >= 0.0
    ensures TimeInv(s.(now := s.now + dt), ttl)
  {
    forall c | c in s.calls
      ensures ReadOk(s.history, s.now + dt, s.calls[c])
    {
      assert ReadOk(s.history, s.now, s.calls[c]);
    }
    forall j | 0 <= j < |s.stored|
      ensures StoredOk(s.history, s.now + dt, s.stored[j])
    {
      assert StoredOk(s.history, s.now, s.stored[j]);
    }
  }

  lemma SetCallKeepsTime(s: System, c: nat, call: Call, ttl: real)
    requires TimeInv(s, ttl) && ReadOk(s.history, s.now, call)
    ensures TimeInv(s.(calls := s.calls[c := call]), ttl)
  {
  }

  lemma SetReplicaKeepsTime(s: System, r: nat, rep: Replica, ttl: real)
    requires TimeInv(s, ttl) && ReplicaWritten(s.stored, ttl, r, rep)
    ensures TimeInv(s.(replicas := s.replicas[r := rep]), ttl)
  {
  }

  lemma ServeKeepsTime(s: System, c: nat, result: Lookup<Answer>, hit: bool, ttl: real)
    requires TimeInv(s, ttl) && c in s.calls
    requires var call := s.calls[c];
             ServedWritten(s.stored, ttl,
                           Served(call.replica, call.query, result, call.first, |s.history| - 1, s.now, hit))
    ensures TimeInv(Serve(s, c, result, hit), ttl)
  {
  }

  lemma ReadRowsKeepsTime(s: System, c: nat, ttl: real)
    requires TimeInv(s, ttl) && c in s.calls && s.calls[c].stage.Missed?
    ensures TimeInv(Step(s, ReadRows(c), ttl), ttl)
  {
    var call := s.calls[c];
    assert ReadOk(s.history, s.now, call);
    assert CurrentAt(s.history, |s.history| - 1, s.now);
    SetCallKeepsTime(s, c, call.(stage := Fetched(call.stage.version, s.Current().rows(call.query), s.now)), ttl);
  }

  lemma SetCacheKeepsTime(s: System, r: nat, q: Query, cache: Cache, ttl: real)
    requires TimeInv(s, ttl) && CacheWritten(s.stored, ttl, r, cache)
    ensures TimeInv(SetCache(s, r, q, cache), ttl)
  {
    assert ReplicaWritten(s.stored, ttl, r, s.ReplicaAt(r));
    SetReplicaKeepsTime(s, r, s.ReplicaAt(r).With(q, cache), ttl);
  }

  lemma CacheIsWritten(s: System, r: nat, q: Query, ttl: real)
    requires TimeInv(s, ttl)
    ensures CacheWritten(s.stored, ttl, r, s.ReplicaAt(r).CacheFor(q))
  {
    assert ReplicaWritten(s.stored, ttl, r, s.ReplicaAt(r));
  }

  lemma HitIsWritten(s: System, r: nat, cache: Cache, q: Query, ttl: real)
    requires TimeInv(s, ttl) && CacheWritten(s.stored, ttl, r, cache)
    requires q in cache && s.now <= cache[q].expires
    ensures forall first, last, hit ::
              ServedWritten(s.stored, ttl, Served(r, q, Found(cache[q].value), first, last, s.now, hit))
  {
    assert Written(s.stored, ttl, r, q, cache[q]);
    var j :| 0 <= j < |s.stored| && Wrote(s.stored[j], ttl, r, q, cache[q]);
    assert StoredOk(s.history, s.now, s.stored[j]);
    forall first, last, hit
      ensures ServedWritten(s.stored, ttl, Served(r, q, Found(cache[q].value), first, last, s.now, hit))
    {
      assert ServedFrom(s.stored[j], ttl, Served(r, q, Found(cache[q].value), first, last, s.now, hit));
    }
  }

  lemma CheckCacheKeepsTime(s: System, c: nat, ttl: real)
    requires TimeInv(s, ttl) && c in s.calls && s.calls[c].stage.Versioned?
    ensures TimeInv(OnCheckCache(s, c), ttl)
  {
    var call := s.calls[c];
    var cache := s.ReplicaAt(call.replica).CacheFor(call.query);
    var cache' := AfterGet(cache, call.query, call.stage.version, s.now);
    CacheIsWritten(s, call.replica, call.query, ttl);
    assert CacheWritten(s.stored, ttl, call.replica, cache');
    SetCacheKeepsTime(s, call.replica, call.query, cache', ttl);
    var s1 := SetCache(s, call.replica, call.query, cache');
    if Get(cache, call.query, call.stage.version, s.now).Some? {
      HitIsWritten(s, call.replica, cache, call.query, ttl);
      ServeKeepsTime(s1, c, Found(cache[call.query].value), true, ttl);
    } else {
      assert ReadOk(s.history, s.now, call);
      SetCallKeepsTime(s1, c, call.(stage := Missed(call.stage.version)), ttl);
    }
  }

  lemma WritesKept(stored: seq<Stored>, x: Stored, ttl: real, r: nat, cache: Cache)
    requires CacheWritten(stored, ttl, r, cache)
    ensures CacheWritten(stored + [x], ttl, r, cache)
  {
    forall q | q in cache
      ensures Written(stored + [x], ttl, r, q, cache[q])
    {
      assert Written(stored, ttl, r, q, cache[q]);
      var j :| 0 <= j < |stored| && Wrote(stored[j], ttl, r, q, cache[q]);
      assert (stored + [x])[j] == stored[j];
    }
  }

  lemma ServedKept(stored: seq<Stored>, x: Stored, ttl: real, served: Served)
    requires ServedWritten(stored, ttl, served)
    ensures ServedWritten(stored + [x], ttl, served)
  {
    if served.result.Found? {
      var j :| 0 <= j < |stored| && ServedFrom(stored[j], ttl, served);
      assert (stored + [x])[j] == stored[j];
    }
  }

  lemma LogKeepsTime(s: System, x: Stored, ttl: real)
    requires TimeInv(s, ttl) && StoredOk(s.history, s.now, x)
    ensures TimeInv(Log(s, x), ttl)
  {
    forall r | r in s.replicas
      ensures ReplicaWritten(Log(s, x).stored, ttl, r, s.replicas[r])
    {
      assert ReplicaWritten(s.stored, ttl, r, s.replicas[r]);
      WritesKept(s.stored, x, ttl, r, s.replicas[r].identities);
      WritesKept(s.stored, x, ttl, r, s.replicas[r].externals);
    }
    forall i | 0 <= i < |s.served|
      ensures ServedWritten(Log(s, x).stored, ttl, s.served[i])
    {
      ServedKept(s.stored, x, ttl, s.served[i]);
    }
  }

  lemma PutKeepsTime(s: System, r: nat, q: Query, e: Entry, ttl: real)
    requires TimeInv(s, ttl) && Written(s.stored, ttl, r, q, e)
    ensures TimeInv(PutEntry(s, r, q, e), ttl)
  {
    CacheIsWritten(s, r, q, ttl);
    PutIsWritten(s.stored, ttl, r, s.ReplicaAt(r).CacheFor(q), q, e);
    SetCacheKeepsTime(s, r, q, Put(s.ReplicaAt(r).CacheFor(q), q, e), ttl);
  }

  lemma PutIsWritten(stored: seq<Stored>, ttl: real, r: nat, cache: Cache, q: Query, e: Entry)
    requires CacheWritten(stored, ttl, r, cache) && Written(stored, ttl, r, q, e)
    ensures CacheWritten(stored, ttl, r, Put(cache, q, e))
  {
  }

  /** Putting and logging commute. */
  lemma WriteIsPutLast(s: System, version: int, x: Stored, ttl: real)
    ensures Write(s, version, x, ttl) == PutEntry(Log(s, x), x.replica, x.query, Entry(version, s.now + ttl, x.value))
  {
  }

  lemma JustWritten(stored: seq<Stored>, x: Stored, ttl: real, version: int)
    ensures Written(stored + [x], ttl, x.replica, x.query, Entry(version, x.storedAt + ttl, x.value))
  {
    assert (stored + [x])[|stored|] == x;
  }

  lemma WriteCacheKeepsTime(s: System, version: int, x: Stored, ttl: real)
    requires TimeInv(s, ttl) && StoredOk(s.history, s.now, x) && x.storedAt == s.now
    ensures TimeInv(Write(s, version, x, ttl), ttl)
  {
    WriteIsPutLast(s, version, x, ttl);
    LogKeepsTime(s, x, ttl);
    JustWritten(s.stored, x, ttl, version);
    PutKeepsTime(Log(s, x), x.replica, x.query, Entry(version, s.now + ttl, x.value), ttl);
  }

  lemma JustServed(stored: seq<Stored>, x: Stored, ttl: real, served: Served)
    requires ServedFrom(x, ttl, served)
    ensures ServedWritten(stored + [x], ttl, served)
  {
    assert (stored + [x])[|stored|] == x;
  }

  lemma FetchedIsStored(s: System, c: nat, ttl: real)
    requires TimeInv(s, ttl) && c in s.calls && s.calls[c].stage.Fetched? && s.calls[c].stage.rows.Found?
    ensures StoredOk(s.history, s.now, StoredBy(s, c)) && StoredBy(s, c).storedAt == s.now
  {
    assert ReadOk(s.history, s.now, s.calls[c]);
  }

  lemma FinishFoundKeepsTime(s: System, c: nat, ttl: real)
    requires TimeInv(s, ttl) && c in s.calls && s.calls[c].stage.Fetched? && s.calls[c].stage.rows.Found?
    ensures TimeInv(StoreEntry(s, c, ttl), ttl)
  {
    FetchedIsStored(s, c, ttl);
    WriteCacheKeepsTime(s, s.calls[c].stage.version, StoredBy(s, c), ttl);
  }

  lemma FinishKeepsTime(s: System, c: nat, ttl: real)
    requires TimeInv(s, ttl) && ttl >= 0.0 && c in s.calls && s.calls[c].stage.Fetched?
    ensures TimeInv(OnFinish(s, c, ttl), ttl)
  {
    var call := s.calls[c];
    var rows := call.stage.rows;
    if rows.Found? {
      FinishFoundKeepsTime(s, c, ttl);
      JustServed(s.stored, StoredBy(s, c), ttl,
                 Served(call.replica, call.query, rows, call.first, |s.history| - 1, s.now, false));
      ServeKeepsTime(StoreEntry(s, c, ttl), c, rows, false, ttl);
    } else {
      ServeKeepsTime(s, c, rows, false, ttl);
    }
  }

  lemma ReloadKeepsTime(s: System, r: nat, version: int, ttl: real)
    requires TimeInv(s, ttl)
    ensures TimeInv(Step(s, ReloadAt(r, version), ttl), ttl)
  {
    var rep := s.ReplicaAt(r);
    assert ReplicaWritten(s.stored, ttl, r, rep);
    assert CacheWritten(s.stored, ttl, r, Reload(rep.identities, version));
    assert CacheWritten(s.stored, ttl, r, Reload(rep.externals, version));
    SetReplicaKeepsTime(s, r, Replica(Reload(rep.identities, version), Reload(rep.externals, version)), ttl);
  }

  lemma CallStepKeepsTime(s: System, ev: Event, ttl: real)
    requires TimeInv(s, ttl) && Enabled(s, ev)
    requires ev.Open? || ev.ReadVersion? || ev.Fail?
    ensures TimeInv(Step(s, ev, ttl), ttl)
  {
    match ev
    case Open(r, q) => SetCallKeepsTime(s, s.nextCall, Call(r, q, s.now, |s.history| - 1, Opened), ttl);
    case ReadVersion(c) =>
      assert ReadOk(s.history, s.now, s.calls[c]);
      SetCallKeepsTime(s, c, s.calls[c].(stage := Versioned(s.Current().version)), ttl);
    case Fail(c) =>
  }

  lemma WriteKeepsTime(s: System, ev: Event, ttl: real)
    requires TimeInv(s, ttl) && Enabled(s, ev) && (ev.Commit? || ev.Edit?)
    ensures TimeInv(Step(s, ev, ttl), ttl)
  {
    var next := Step(s, ev, ttl).history[|s.history|];
    AppendKeepsTime(s, next, ttl);
  }

  lemma ClearKeepsTime(s: System, ev: Event, ttl: real)
    requires TimeInv(s, ttl) && (ev.Invalidate? || ev.ReloadAt?)
    ensures TimeInv(Step(s, ev, ttl), ttl)
  {
    match ev
    case Invalidate(r) => SetReplicaKeepsTime(s, r, Replica(map[], map[]), ttl);
    case ReloadAt(r, version) => ReloadKeepsTime(s, r, version, ttl);
  }

  lemma StepKeepsTime(s: System, ev: Event, ttl: real)
    requires TimeInv(s, ttl) && ttl >= 0.0
    ensures TimeInv(Step(s, ev, ttl), ttl)
  {
    if Enabled(s, ev) {
      match ev
      case Advance(dt) => AdvanceKeepsTime(s, dt, ttl);
      case CheckCache(c) => CheckCacheKeepsTime(s, c, ttl);
      case ReadRows(c) => ReadRowsKeepsTime(s, c, ttl);
      case Finish(c) => FinishKeepsTime(s, c, ttl);
      case Commit(_) => WriteKeepsTime(s, ev, ttl);
      case Edit(_) => WriteKeepsTime(s, ev, ttl);
      case Invalidate(_) => ClearKeepsTime(s, ev, ttl);
      case ReloadAt(_, _) => ClearKeepsTime(s, ev, ttl);
      case _ => CallStepKeepsTime(s, ev, ttl);
    }
  }

  lemma {:induction false} RunKeepsTime(evs: seq<Event>, store: Store, now: real, ttl: real)
    requires ttl >= 0.0
    ensures TimeInv(Run(evs, store, now, ttl), ttl)
  {
    if evs != [] {
      RunKeepsTime(evs[..|evs| - 1], store, now, ttl);
      StepKeepsTime(Run(evs[..|evs| - 1], store, now, ttl), evs[|evs| - 1], ttl);
    }
  }

  /** Rows may change without a version bump: still, a value served at time t was the
      database's answer no earlier than t, less the TTL, less the time taken by the
      lookup that stored it: a write of that answer by the replica that served it. */
  lemma StalenessIsBounded(evs: seq<Event>, store: Store, now: real, ttl: real, i: nat)
    requires ttl >= 0.0
    requires i < |Run(evs, store, now, ttl).served| && Run(evs, store, now, ttl).served[i].result.Found?
    ensures var s := Run(evs, store, now, ttl);
            var x := s.served[i];
            exists j, k :: 0 <= j < |s.stored| && ServedFrom(s.stored[j], ttl, x)
                           && s.stored[j].started <= s.stored[j].readAt <= s.stored[j].storedAt
                           && CurrentAt(s.history, k, s.stored[j].readAt)
                           && Ask(s.history[k].store, x.query) == x.result
                           && s.stored[j].readAt >= x.at - ttl - (s.stored[j].storedAt - s.stored[j].started)
                           && s.stored[j].readAt <= x.at
  {
    RunAnswers(evs, store, now, ttl);
    RunKeepsTime(evs, store, now, ttl);
    var s := Run(evs, store, now, ttl);
    var x := s.served[i];
    assert ServedWritten(s.stored, ttl, x);
    var j :| 0 <= j < |s.stored| && ServedFrom(s.stored[j], ttl, x);
    assert StoredOk(s.history, s.now, s.stored[j]);
    var k :| CurrentAt(s.history, k, s.stored[j].readAt) && s.history[k].rows(x.query) == Found(s.stored[j].value);
    assert Ask(s.history[k].store, x.query) == x.result;
  }

  /*** Size ***/

  ghost predicate Small(rep: Replica) {
    |rep.identities| <= MAX_CACHE_ENTRIES && |rep.externals| <= MAX_CACHE_ENTRIES
  }

  ghost predicate SizeInv(s: System) {
    forall r | r in s.replicas :: Small(s.replicas[r])
  }

  lemma SetCacheKeepsSize(s: System, r: nat, q: Query, cache: Cache)
    requires SizeInv(s) && |cache| <= MAX_CACHE_ENTRIES
    ensures SizeInv(SetCache(s, r, q, cache))
  {
    assert Small(s.ReplicaAt(r));
  }

  lemma CheckCacheKeepsSize(s: System, c: nat)
    requires SizeInv(s) && s.history != [] && c in s.calls && s.calls[c].stage.Versioned?
    ensures SizeInv(OnCheckCache(s, c))
  {
    var call := s.calls[c];
    assert Small(s.ReplicaAt(call.replica));
    var cache := s.ReplicaAt(call.replica).CacheFor(call.query);
    LookStaysBounded(cache, call.query, call.stage.version, s.now);
    SetCacheKeepsSize(s, call.replica, call.query, AfterGet(cache, call.query, call.stage.version, s.now));
  }

  lemma FinishKeepsSize(s: System, c: nat, ttl: real)
    requires SizeInv(s) && s.history != [] && c in s.calls && s.calls[c].stage.Fetched?
    ensures SizeInv(OnFinish(s, c, ttl))
  {
    var call := s.calls[c];
    assert Small(s.ReplicaAt(call.replica));
    if call.stage.rows.Found? {
      var cache := s.ReplicaAt(call.replica).CacheFor(call.query);
      var e := Entry(call.stage.version, s.now + ttl, call.stage.rows.value);
      PutStaysBounded(cache, call.query, e);
      SetCacheKeepsSize(s, call.replica, call.query, Put(cache, call.query, e));
    }
  }

  lemma StepKeepsSize(s: System, ev: Event, ttl: real)
    requires SizeInv(s)
    ensures SizeInv(Step(s, ev, ttl))
  {
    if Enabled(s, ev) {
      match ev
      case CheckCache(c) => CheckCacheKeepsSize(s, c);
      case Finish(c) => FinishKeepsSize(s, c, ttl);
      case ReloadAt(r, version) =>
        assert Small(s.ReplicaAt(r));
        ReloadStaysBounded(s.ReplicaAt(r).identities, version);
        ReloadStaysBounded(s.ReplicaAt(r).externals, version);
      case _ =>
    }
  }

  /** In every reachable state every cache of every replica holds at most 1000 entries. */
  lemma {:induction false} CachesStaySmall(evs: seq<Event>, store: Store, now: real, ttl: real, r: nat)
    requires r in Run(evs, store, now, ttl).replicas
    ensures var rep := Run(evs, store, now, ttl).replicas[r];
            |rep.identities| <= 1000 && |rep.externals| <= 1000
  {
    RunKeepsSize(evs, store, now, ttl);
    assert Small(Run(evs, store, now, ttl).replicas[r]);
  }

  lemma {:induction false} RunKeepsSize(evs: seq<Event>, store: Store, now: real, ttl: real)
    ensures SizeInv(Run(evs, store, now, ttl))
  {
    if evs != [] {
      RunKeepsSize(evs[..|evs| - 1], store, now, ttl);
      StepKeepsSize(Run(evs[..|evs| - 1], store, now, ttl), evs[|evs| - 1], ttl);
    }
  }
}
