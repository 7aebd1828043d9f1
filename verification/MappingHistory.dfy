/** Both lookups of src/services/mapping.py over whole histories of binds: what they
    answer, in terms of the binds alone. */
module MappingHistory {
  import opened PyText
  import opened MappingStore

  predicate Commits(s: Store, b: Binding) {
    Supported(b.provider) && Bind(s, b).Some?
  }

  predicate Of(b: Binding, provider: string, providerUserId: string) {
    b.provider == provider && b.providerUserId == providerUserId
  }

  /** The instance of the last committed bind of this identity. */
  function LastBound(bs: seq<Binding>, provider: string, providerUserId: string): Lookup<InstanceInfo> {
    if bs == [] then NotFound
    else
      var front, b := bs[..|bs| - 1], bs[|bs| - 1];
      if Commits(Binds(front), b) && Of(b, provider, providerUserId) then Found(b.info)
      else LastBound(front, provider, providerUserId)
  }

  /** The identity whose first committed bind asked for this external id. */
  function Holder(bs: seq<Binding>, x: string): Option<(string, string)> {
    if bs == [] then None
    else
      var front, b := bs[..|bs| - 1], bs[|bs| - 1];
      if Commits(Binds(front), b) && AsksFor(b, x) && LastBound(front, b.provider, b.providerUserId).NotFound?
      then Some((b.provider, b.providerUserId))
      else Holder(front, x)
  }

  lemma NoIdentityNotFound(s: Store, provider: string, providerUserId: string)
    requires (provider, providerUserId) !in s.identities
    ensures LookupIdentity(s, provider, providerUserId) == NotFound
  {
  }

  /** A bind of another identity leaves the answer alone. */
  lemma OtherBindKeepsIdentity(bs: seq<Binding>, b: Binding, provider: string, providerUserId: string)
    requires Commits(Binds(bs), b) && !Of(b, provider, providerUserId)
    ensures LookupIdentity(Bind(Binds(bs), b).value, provider, providerUserId)
         == LookupIdentity(Binds(bs), provider, providerUserId)
  {
    var s, k := Binds(bs), (provider, providerUserId);
    var s' := Bind(s, b).value;
    BindsWellBound(bs);
    SupportedHasNoColon(b.provider);
    BindEffect(s, b);
    if k in s'.identities {
      BindKeepsWellBound(s, b);
      assert ':' !in k.0 && s'.identities[k] == AppUserId(provider, providerUserId);
      if s'.identities[k] == b.User() {
        AppUserIdInjective(provider, providerUserId, b.provider, b.providerUserId);
      }
      OthersUnaffected(s, b, provider, providerUserId);
    } else {
      assert k !in s.identities;
      NoIdentityNotFound(s, provider, providerUserId);
      NoIdentityNotFound(s', provider, providerUserId);
    }
  }

  /** After any history of binds an identity resolves to the instance of its own last
      committed bind, and to nothing before its first: whatever anybody else bound, moved
      or overwrote in between. */
  lemma {:induction false} IdentityResolvesToLastBind(bs: seq<Binding>, provider: string, providerUserId: string)
    ensures LookupIdentity(Binds(bs), provider, providerUserId) == LastBound(bs, provider, providerUserId)
  {
    if bs == [] {
      NoIdentityNotFound(EMPTY_STORE, provider, providerUserId);
    } else {
      var front, b := bs[..|bs| - 1], bs[|bs| - 1];
      IdentityResolvesToLastBind(front, provider, providerUserId);
      if Commits(Binds(front), b) {
        if Of(b, provider, providerUserId) {
          BindReadsBack(front, b);
        } else {
          OtherBindKeepsIdentity(front, b, provider, providerUserId);
        }
      }
    }
  }

  /*** External ids ***/

  /** Users, identities and assignments come together. */
  ghost predicate Complete(s: Store) {
    && (forall u | u in s.users :: HasKey(s, u))
    && (forall k | k in s.identities :: s.identities[k] in s.users && HasInstance(s, s.identities[k]))
  }

  ghost predicate HasKey(s: Store, u: string) {
    exists k :: k in s.identities && s.identities[k] == u
  }

  ghost predicate HasInstance(s: Store, u: string) {
    exists i :: i in s.assignments && s.assignments[i] == u
  }

  lemma BindKeepsKeys(s: Store, b: Binding)
    requires Complete(s) && Bind(s, b).Some?
    ensures forall u | u in Bind(s, b).value.users :: HasKey(Bind(s, b).value, u)
  {
    BindEffect(s, b);
    var s' := Bind(s, b).value;
    forall u | u in s'.users
      ensures HasKey(s', u)
    {
      if u != b.User() {
        var k :| k in s.identities && s.identities[k] == u;
        assert k in s'.identities && s'.identities[k] == u;
      }
    }
  }

  lemma BindKeepsInstances(s: Store, b: Binding, u: string)
    requires Bind(s, b).Some? && (u == b.User() || HasInstance(s, u))
    ensures HasInstance(Bind(s, b).value, u)
  {
    BindEffect(s, b);
    var s' := Bind(s, b).value;
    if u == b.User() {
      assert b.uuid in s'.assignments && s'.assignments[b.uuid] == u;
    } else {
      var i :| i in s.assignments && s.assignments[i] == u;
      assert i in s'.assignments && s'.assignments[i] == u;
    }
  }

  lemma BindKeepsComplete(s: Store, b: Binding)
    requires Complete(s) && Constraints(s) && Bind(s, b).Some?
    ensures Complete(Bind(s, b).value)
  {
    var s' := Bind(s, b).value;
    BindEffect(s, b);
    BindKeepsKeys(s, b);
    BindKeepsConstraints(s, b);
    forall k | k in s'.identities
      ensures HasInstance(s', s'.identities[k])
    {
      BindKeepsInstances(s, b, s'.identities[k]);
    }
  }

  lemma {:induction false} BindsComplete(bs: seq<Binding>)
    ensures Complete(Binds(bs))
  {
    if bs != [] {
      var front, b := bs[..|bs| - 1], bs[|bs| - 1];
      BindsComplete(front);
      BindsWellBound(front);
      if Commits(Binds(front), b) {
        BindKeepsComplete(Binds(front), b);
      }
    }
  }

  /** A user exists once one of its binds has committed. */
  lemma UserIffBound(bs: seq<Binding>, provider: string, providerUserId: string)
    requires ':' !in provider
    ensures AppUserId(provider, providerUserId) in Binds(bs).users
       <==> LastBound(bs, provider, providerUserId) != NotFound
  {
    var s, u := Binds(bs), AppUserId(provider, providerUserId);
    BindsComplete(bs);
    BindsWellBound(bs);
    IdentityResolvesToLastBind(bs, provider, providerUserId);
    if u in s.users {
      var k :| k in s.identities && s.identities[k] == u;
      AppUserIdInjective(k.0, k.1, provider, providerUserId);
      assert k == (provider, providerUserId);
      var i :| i in s.assignments && s.assignments[i] == u;
      LookupIdentityFinds(s, provider, providerUserId, i);
    }
  }

  /** The external id on a user's row is the one its first bind asked for. */
  ghost predicate Carries(s: Store, k: (string, string), x: string) {
    AppUserId(k.0, k.1) in s.users && s.users[AppUserId(k.0, k.1)].externalId == Some(x)
  }

  lemma BindCarries(bs: seq<Binding>, b: Binding, k: (string, string), x: string)
    requires Commits(Binds(bs), b) && ':' !in k.0
    ensures Carries(Bind(Binds(bs), b).value, k, x) <==>
              if k == (b.provider, b.providerUserId) && LastBound(bs, k.0, k.1).NotFound? then AsksFor(b, x)
              else Carries(Binds(bs), k, x)
  {
    var s := Binds(bs);
    BindEffect(s, b);
    SupportedHasNoColon(b.provider);
    UserIffBound(bs, k.0, k.1);
    AsksForExternal(b, x);
    IdentityResolvesToLastBind(bs, k.0, k.1);
    BindsWellBound(bs);
    JoinsAreSingleRow(s, k.0, k.1);
    if AppUserId(k.0, k.1) == b.User() {
      AppUserIdInjective(k.0, k.1, b.provider, b.providerUserId);
    }
  }

  /** Nobody else carries an external id that is handed out. */
  lemma OneCarrier(bs: seq<Binding>, k: (string, string), l: (string, string), x: string)
    requires ':' !in k.0 && ':' !in l.0 && Carries(Binds(bs), k, x) && Carries(Binds(bs), l, x)
    ensures k == l
  {
    BindsWellBound(bs);
    AppUserIdInjective(k.0, k.1, l.0, l.1);
  }

  lemma HolderSnoc(bs: seq<Binding>, b: Binding, x: string)
    ensures Holder(bs + [b], x) ==
              if Commits(Binds(bs), b) && AsksFor(b, x) && LastBound(bs, b.provider, b.providerUserId).NotFound?
              then Some((b.provider, b.providerUserId)) else Holder(bs, x)
    ensures Binds(bs + [b]) == if Commits(Binds(bs), b) then Bind(Binds(bs), b).value else Binds(bs)
  {
    assert (bs + [b])[..|bs|] == bs;
  }

  lemma NewCarriesNothing(bs: seq<Binding>, k: (string, string), x: string)
    requires ':' !in k.0 && LastBound(bs, k.0, k.1).NotFound?
    ensures !Carries(Binds(bs), k, x)
  {
    UserIffBound(bs, k.0, k.1);
  }

  lemma HolderStep(bs: seq<Binding>, b: Binding, k: (string, string), x: string)
    requires Commits(Binds(bs), b) && ':' !in k.0
    requires Holder(bs, x) == Some(k) <==> Carries(Binds(bs), k, x)
    ensures Holder(bs + [b], x) == Some(k) <==> Carries(Binds(bs + [b]), k, x)
  {
    var own := (b.provider, b.providerUserId);
    HolderSnoc(bs, b, x);
    SupportedHasNoColon(b.provider);
    BindCarries(bs, b, k, x);
    if LastBound(bs, own.0, own.1).NotFound? {
      NewCarriesNothing(bs, own, x);
      BindCarries(bs, b, own, x);
      if AsksFor(b, x) && Carries(Binds(bs + [b]), k, x) {
        OneCarrier(bs + [b], k, own, x);
      }
    }
  }

  lemma {:induction false} HolderCarries(bs: seq<Binding>, k: (string, string), x: string)
    requires ':' !in k.0
    ensures Holder(bs, x) == Some(k) <==> Carries(Binds(bs), k, x)
  {
    if bs != [] {
      var front, b := bs[..|bs| - 1], bs[|bs| - 1];
      assert bs == front + [b];
      HolderCarries(front, k, x);
      HolderSnoc(front, b, x);
      if Commits(Binds(front), b) {
        HolderStep(front, b, k, x);
      }
    }
  }

  lemma {:induction false} HolderHasNoColon(bs: seq<Binding>, x: string)
    ensures Holder(bs, x).Some? ==> ':' !in Holder(bs, x).value.0
  {
    if bs != [] {
      var b := bs[|bs| - 1];
      HolderHasNoColon(bs[..|bs| - 1], x);
      if Supported(b.provider) {
        SupportedHasNoColon(b.provider);
      }
    }
  }

  /** What the holder's identity and the asked provider make of it. */
  function HolderAnswer(bs: seq<Binding>, x: string, provider: string): Lookup<(string, InstanceInfo)> {
    var h := Holder(bs, x);
    if h.None? || h.value.0 != provider then NotFound
    else
      match LastBound(bs, provider, h.value.1)
      case Found(info) => Found((h.value.1, info))
      case NotFound => NotFound
      case MultipleResults => MultipleResults
  }

  lemma RowIsCarriers(bs: seq<Binding>, x: string, provider: string, k: (string, string), i: string)
    requires ExternalRow(Binds(bs), x, provider, k, i)
    ensures ':' !in k.0 && k.0 == provider && Carries(Binds(bs), k, x)
    ensures LookupIdentity(Binds(bs), k.0, k.1) == Found(Binds(bs).instances[i])
    ensures LookupExternal(Binds(bs), x, provider) == Found((k.1, Binds(bs).instances[i]))
  {
    BindsWellBound(bs);
    LookupExternalFinds(Binds(bs), x, provider, k, i);
    LookupIdentityFinds(Binds(bs), k.0, k.1, i);
  }

  lemma CarrierHasRow(bs: seq<Binding>, x: string, k: (string, string))
    requires ':' !in k.0 && Carries(Binds(bs), k, x)
    ensures exists i :: ExternalRow(Binds(bs), x, k.0, k, i)
  {
    var s, u := Binds(bs), AppUserId(k.0, k.1);
    BindsComplete(bs);
    BindsWellBound(bs);
    var l :| l in s.identities && s.identities[l] == u;
    AppUserIdInjective(l.0, l.1, k.0, k.1);
    assert l == k;
    var i :| i in s.assignments && s.assignments[i] == u;
    assert ExternalRow(s, x, k.0, k, i);
  }

  /** After any history of binds an external id under a provider leads to the identity
      whose first bind asked for it, if that is an identity of the provider, and to the
      instance of that identity's last bind; and to nothing otherwise. */
  lemma ExternalIdResolvesToHolder(bs: seq<Binding>, x: string, provider: string)
    ensures LookupExternal(Binds(bs), x, provider) == HolderAnswer(bs, x, provider)
  {
    var h := Holder(bs, x);
    HolderHasNoColon(bs, x);
    if k, i :| ExternalRow(Binds(bs), x, provider, k, i) {
      RowIsCarriers(bs, x, provider, k, i);
      HolderCarries(bs, k, x);
      IdentityResolvesToLastBind(bs, k.0, k.1);
    } else if h.Some? && h.value.0 == provider {
      HolderCarries(bs, h.value, x);
      CarrierHasRow(bs, x, h.value);
    }
  }
}
