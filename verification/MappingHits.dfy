/** What the caches of src/services/mapping.py are for: a lookup that follows another
    within the TTL is answered without reading the rows, and one that misses reads them. */
module MappingHits {
  import opened PyText
  import opened MappingStore
  import opened MappingCache

  /*** One cache ***/

  /** A write adds its entry and, while there is room, leaves the others. */
  lemma PutKeepsOthers(cache: Cache, q: Query, e: Entry, other: Query)
    ensures q in Put(cache, q, e) && Put(cache, q, e)[q] == e
    ensures other != q && |cache| < 1000 ==>
              (other in Put(cache, q, e) <==> other in cache)
              && (other in cache ==> Put(cache, q, e)[other] == cache[other])
    ensures other != q && |cache| >= 1000 ==> other !in Put(cache, q, e)
  {
  }

  /** A look leaves the other entries alone, and its own exactly while it is of use. */
  lemma LookKeepsOthers(cache: Cache, q: Query, version: int, now: real, other: Query)
    ensures other in AfterGet(cache, q, version, now) <==>
              other in cache && (other == q ==> now <= cache[q].expires && cache[q].version == version)
    ensures other in AfterGet(cache, q, version, now) ==> AfterGet(cache, q, version, now)[other] == cache[other]
    ensures Get(cache, q, version, now) ==
              if q in cache && now <= cache[q].expires && cache[q].version == version then Some(cache[q].value)
              else None
  {
  }

  /** A reload leaves exactly the entries of the version it read. */
  lemma ReloadKeepsVersion(cache: Cache, version: int, q: Query)
    ensures q in Reload(cache, version) <==> q in cache && cache[q].version == version
    ensures q in Reload(cache, version) ==> Reload(cache, version)[q] == cache[q]
  {
  }

  /*** Hits and misses ***/

  /** The first steps of a lookup, up to its look at the cache. */
  ghost function LookUp(s: System, r: nat, q: Query, ttl: real): System {
    Step(Step(Step(s, Open(r, q), ttl), ReadVersion(s.nextCall), ttl), CheckCache(s.nextCall), ttl)
  }

  /** An entry of the current version that has not expired is served as it stands. */
  lemma FreshEntryIsServed(s: System, r: nat, q: Query, ttl: real)
    requires s.history != [] && q in s.ReplicaAt(r).CacheFor(q)
    requires s.ReplicaAt(r).CacheFor(q)[q].version == s.Current().version
    requires s.now <= s.ReplicaAt(r).CacheFor(q)[q].expires
    ensures var last := |s.history| - 1;
            var e := s.ReplicaAt(r).CacheFor(q)[q];
            LookUp(s, r, q, ttl).served == s.served + [Served(r, q, Found(e.value), last, last, s.now, true)]
  {
    var s1 := Step(s, Open(r, q), ttl);
    assert s1.calls[s.nextCall] == Call(r, q, s.now, |s.history| - 1, Opened);
    var s2 := Step(s1, ReadVersion(s.nextCall), ttl);
    assert s2.calls[s.nextCall].stage == Versioned(s.Current().version);
  }

  /** What a finished lookup found is in its replica's cache, under its version and until
      the TTL has passed. */
  lemma FoundIsCached(s: System, c: nat, ttl: real)
    requires s.history != [] && c in s.calls && s.calls[c].stage.Fetched? && s.calls[c].stage.rows.Found?
    ensures var call := s.calls[c];
            var cache := Step(s, Finish(c), ttl).ReplicaAt(call.replica).CacheFor(call.query);
            call.query in cache &&
            cache[call.query] == Entry(call.stage.version, s.now + ttl, call.stage.rows.value)
  {
  }

  lemma AdvanceFrame(s: System, dt: real, ttl: real)
    requires s.history != [] && dt >= 0.0
    ensures var s' := Step(s, Advance(dt), ttl);
            s'.replicas == s.replicas && s'.history == s.history && s'.now == s.now + dt && s'.served == s.served
  {
  }

  lemma FinishFrame(s: System, c: nat, ttl: real)
    requires s.history != [] && c in s.calls && s.calls[c].stage.Fetched?
    ensures var call := s.calls[c];
            var s' := Step(s, Finish(c), ttl);
            && s'.history == s.history && s'.now == s.now
            && s'.served == s.served + [Served(call.replica, call.query, call.stage.rows, call.first,
                                               |s.history| - 1, s.now, false)]
  {
  }

  /** The same lookup again, no later than the TTL and at the same version, is a hit: it
      gets the value the first one found, and reads no rows. */
  lemma RepeatIsHit(s: System, c: nat, dt: real, ttl: real)
    requires s.history != [] && c in s.calls && s.calls[c].stage.Fetched? && s.calls[c].stage.rows.Found?
    requires s.calls[c].stage.version == s.Current().version && 0.0 <= dt <= ttl
    ensures var call := s.calls[c];
            var later := Step(Step(s, Finish(c), ttl), Advance(dt), ttl);
            var done := LookUp(later, call.replica, call.query, ttl);
            && done.served != []
            && done.served[|done.served| - 1]
               == Served(call.replica, call.query, call.stage.rows, |s.history| - 1, |s.history| - 1, s.now + dt, true)
  {
    var s1 := Step(s, Finish(c), ttl);
    FoundIsCached(s, c, ttl);
    FinishFrame(s, c, ttl);
    AdvanceFrame(s1, dt, ttl);
    FreshEntryIsServed(Step(s1, Advance(dt), ttl), s.calls[c].replica, s.calls[c].query, ttl);
  }

  /** Without such an entry the lookup reads the rows and answers with them. */
  lemma MissReadsRows(s: System, r: nat, q: Query, ttl: real)
    requires s.history != []
    requires q in s.ReplicaAt(r).CacheFor(q) ==>
               || s.ReplicaAt(r).CacheFor(q)[q].version != s.Current().version
               || s.now > s.ReplicaAt(r).CacheFor(q)[q].expires
    ensures var last := |s.history| - 1;
            var done := Step(Step(LookUp(s, r, q, ttl), ReadRows(s.nextCall), ttl), Finish(s.nextCall), ttl);
            done.served == s.served + [Served(r, q, s.Current().rows(q), last, last, s.now, false)]
  {
    var c := s.nextCall;
    var s1 := Step(s, Open(r, q), ttl);
    assert s1.calls[c] == Call(r, q, s.now, |s.history| - 1, Opened);
    var s2 := Step(s1, ReadVersion(c), ttl);
    assert s2.calls[c] == Call(r, q, s.now, |s.history| - 1, Versioned(s.Current().version));
    var s3 := Step(s2, CheckCache(c), ttl);
    assert c in s3.calls && s3.calls[c] == Call(r, q, s.now, |s.history| - 1, Missed(s.Current().version));
    var s4 := Step(s3, ReadRows(c), ttl);
    FinishFrame(s4, c, ttl);
  }
}
