/** The bounded map from Teams conversations to service URLs (src/services/teams.py),
    least recently used out first. */
module ServiceUrls {
  import opened PyText

  const MAX_SERVICE_URLS := 10000
  const DEFAULT_SERVICE_URL := "https://smba.trafficmanager.net/teams"

  /** An OrderedDict: its keys in order, and its values. */
  datatype Lru = Lru(order: seq<string>, urls: map<string, string>)

  datatype Event = Register(conversation: string, url: string) | LookUp(conversation: string)

  function RStripSlash(s: string): string {
    if s != "" && s[|s| - 1] == '/' then RStripSlash(s[..|s| - 1]) else s
  }

  /** Exactly the slashes at the end go. */
  lemma {:induction false} RStripSlashTrims(url: string, slashes: string)
    requires url == "" || url[|url| - 1] != '/'
    requires forall i | 0 <= i < |slashes| :: slashes[i] == '/'
    ensures RStripSlash(url + slashes) == url
  {
    if slashes == "" {
      assert url + slashes == url;
    } else {
      assert (url + slashes)[..|url + slashes| - 1] == url + slashes[..|slashes| - 1];
      RStripSlashTrims(url, slashes[..|slashes| - 1]);
    }
  }

  function Without(order: seq<string>, k: string): seq<string> {
    if order == [] then []
    else
      var rest := Without(order[..|order| - 1], k);
      if order[|order| - 1] == k then rest else rest + [order[|order| - 1]]
  }

  function MoveToEnd(order: seq<string>, k: string): seq<string> {
    Without(order, k) + [k]
  }

  function Suffix(order: seq<string>, cap: nat): seq<string> {
    if |order| <= cap then order else order[|order| - cap..]
  }

  function Keep(l: Lru, order: seq<string>): Lru {
    Lru(order, map k | k in l.urls && k in order :: l.urls[k])
  }

  function OnRegister(l: Lru, k: string, url: string, cap: nat): Lru {
    var order := MoveToEnd(l.order, k);
    Keep(Lru(order, l.urls[k := RStripSlash(url)]), Suffix(order, cap))
  }

  function OnLookUp(l: Lru, k: string): Lru {
    if k in l.urls then l.(order := MoveToEnd(l.order, k)) else l
  }

  /** get_service_url */
  function UrlFor(l: Lru, k: string): string {
    if k in l.urls then l.urls[k] else DEFAULT_SERVICE_URL
  }

  function Step(l: Lru, ev: Event, cap: nat, allowed: string -> bool): Lru {
    match ev
    case Register(k, url) => if allowed(url) then OnRegister(l, k, url, cap) else l
    case LookUp(k) => OnLookUp(l, k)
  }

  function Run(evs: seq<Event>, cap: nat, allowed: string -> bool): Lru {
    if evs == [] then Lru([], map[])
    else Step(Run(evs[..|evs| - 1], cap, allowed), evs[|evs| - 1], cap, allowed)
  }

  /*** The specification, in terms of the events alone ***/

  /** The URL of the conversation's last accepted registration. */
  function LatestUrl(evs: seq<Event>, k: string, allowed: string -> bool): Option<string> {
    if evs == [] then None
    else
      var ev := evs[|evs| - 1];
      if ev.Register? && ev.conversation == k && allowed(ev.url) then Some(RStripSlash(ev.url))
      else LatestUrl(evs[..|evs| - 1], k, allowed)
  }

  /** The conversations touched, one after another: registered, or looked up and found. */
  function Touches(evs: seq<Event>, cap: nat, allowed: string -> bool): seq<string> {
    if evs == [] then []
    else
      var ev := evs[|evs| - 1];
      var before := Touches(evs[..|evs| - 1], cap, allowed);
      if Touched(before, ev, cap, allowed) then before + [ev.conversation] else before
  }

  predicate Touched(before: seq<string>, ev: Event, cap: nat, allowed: string -> bool) {
    match ev
    case Register(_, url) => allowed(url)
    case LookUp(k) => k in before && |Since(before, k)| < cap
  }

  /** The other conversations touched since the last touch of k. */
  function Since(touches: seq<string>, k: string): set<string> {
    if touches == [] || touches[|touches| - 1] == k then {}
    else Since(touches[..|touches| - 1], k) + {touches[|touches| - 1]}
  }

  /** Every touched conversation once, by last touch. */
  function Recency(touches: seq<string>): seq<string> {
    if touches == [] then []
    else MoveToEnd(Recency(touches[..|touches| - 1]), touches[|touches| - 1])
  }

  ghost predicate Distinct(order: seq<string>) {
    forall i, j | 0 <= i < j < |order| :: order[i] != order[j]
  }

  lemma {:induction false} WithoutMembers(order: seq<string>, k: string)
    ensures forall x :: x in Without(order, k) <==> x in order && x != k
  {
    if order != [] {
      WithoutMembers(order[..|order| - 1], k);
      assert order == order[..|order| - 1] + [order[|order| - 1]];
    }
  }

  lemma {:induction false} WithoutAbsent(order: seq<string>, k: string)
    requires k !in order
    ensures Without(order, k) == order
  {
    if order != [] {
      WithoutAbsent(order[..|order| - 1], k);
      assert order == order[..|order| - 1] + [order[|order| - 1]];
    }
  }

  lemma {:induction false} WithoutConcat(a: seq<string>, b: seq<string>, k: string)
    ensures Without(a + b, k) == Without(a, k) + Without(b, k)
  {
    if b == [] {
      assert a + b == a;
    } else {
      assert (a + b)[..|a + b| - 1] == a + b[..|b| - 1];
      WithoutConcat(a, b[..|b| - 1], k);
    }
  }

  lemma DistinctSnoc(order: seq<string>, x: string)
    requires Distinct(order) && x !in order
    ensures Distinct(order + [x])
  {
  }

  lemma {:induction false} WithoutDistinct(order: seq<string>, k: string)
    requires Distinct(order)
    ensures Distinct(Without(order, k))
  {
    if order != [] {
      var rest, last := order[..|order| - 1], order[|order| - 1];
      WithoutDistinct(rest, k);
      WithoutMembers(rest, k);
      assert last !in rest;
      if last != k {
        DistinctSnoc(Without(rest, k), last);
      }
    }
  }

  lemma {:induction false} WithoutLength(order: seq<string>, k: string)
    requires Distinct(order) && k in order
    ensures |Without(order, k)| == |order| - 1
  {
    var rest, last := order[..|order| - 1], order[|order| - 1];
    assert order == rest + [last];
    if last == k {
      assert k !in rest;
      WithoutAbsent(rest, k);
    } else {
      WithoutLength(rest, k);
    }
  }

  lemma MoveToEndDistinct(order: seq<string>, k: string)
    requires Distinct(order)
    ensures Distinct(MoveToEnd(order, k))
    ensures forall x :: x in MoveToEnd(order, k) <==> x in order || x == k
  {
    WithoutDistinct(order, k);
    WithoutMembers(order, k);
    DistinctSnoc(Without(order, k), k);
  }

  lemma DistinctConcat(p: seq<string>, s: seq<string>)
    requires Distinct(p + s)
    ensures Distinct(p) && Distinct(s)
    ensures forall x | x in s :: x !in p
  {
    var all := p + s;
    forall i, j | 0 <= i < j < |p|
      ensures p[i] != p[j]
    {
      assert all[i] == p[i] && all[j] == p[j];
    }
    forall i, j | 0 <= i < j < |s|
      ensures s[i] != s[j]
    {
      assert all[|p| + i] == s[i] && all[|p| + j] == s[j];
    }
    forall i, j | 0 <= i < |p| && 0 <= j < |s|
      ensures p[i] != s[j]
    {
      assert all[i] == p[i] && all[|p| + j] == s[j];
    }
  }

  lemma SuffixOfConcat(p: seq<string>, s: seq<string>, cap: nat)
    requires |s| == cap
    ensures Suffix(p + s, cap) == s
  {
  }

  lemma KeptMovesInside(p: seq<string>, s: seq<string>, k: string)
    requires Distinct(p + s) && k in s
    ensures Suffix(MoveToEnd(s, k), |s|) == Suffix(MoveToEnd(p + s, k), |s|)
  {
    DistinctConcat(p, s);
    WithoutConcat(p, s, k);
    WithoutAbsent(p, k);
    WithoutLength(s, k);
    assert MoveToEnd(p + s, k) == p + MoveToEnd(s, k);
    SuffixOfConcat(p, MoveToEnd(s, k), |s|);
  }

  lemma KeptMovesOutside(p: seq<string>, s: seq<string>, k: string)
    requires k !in s
    ensures Suffix(MoveToEnd(s, k), |s|) == Suffix(MoveToEnd(p + s, k), |s|)
  {
    WithoutConcat(p, s, k);
    WithoutAbsent(s, k);
    assert MoveToEnd(p + s, k) == Without(p, k) + (s + [k]);
    SuffixTwice(Without(p, k), s + [k], |s|);
  }

  lemma SuffixTwice(p: seq<string>, s: seq<string>, cap: nat)
    requires |s| >= cap
    ensures Suffix(p + s, cap) == Suffix(s, cap)
  {
  }

  /** Moving to the end and evicting is the same on the kept suffix as on everything. */
  lemma SuffixMoves(order: seq<string>, k: string, cap: nat)
    requires Distinct(order)
    ensures Suffix(MoveToEnd(Suffix(order, cap), k), cap) == Suffix(MoveToEnd(order, k), cap)
  {
    if |order| > cap {
      var p, s := order[..|order| - cap], order[|order| - cap..];
      assert order == p + s;
      if k in s { KeptMovesInside(p, s, k); } else { KeptMovesOutside(p, s, k); }
    }
  }

  lemma {:induction false} RecencyDistinct(touches: seq<string>)
    ensures Distinct(Recency(touches))
    ensures forall x :: x in Recency(touches) <==> x in touches
  {
    if touches != [] {
      RecencyDistinct(touches[..|touches| - 1]);
      MoveToEndDistinct(Recency(touches[..|touches| - 1]), touches[|touches| - 1]);
      assert touches == touches[..|touches| - 1] + [touches[|touches| - 1]];
    }
  }

  lemma {:induction false} SinceWithout(order: seq<string>, x: string, k: string)
    requires x != k
    ensures Since(Without(order, x), k) == Since(order, k) - {x}
  {
    if order != [] {
      var rest, last := order[..|order| - 1], order[|order| - 1];
      SinceWithout(rest, x, k);
      if last != x {
        assert (Without(rest, x) + [last])[..|Without(rest, x)|] == Without(rest, x);
      }
    }
  }

  lemma {:induction false} SinceRecency(touches: seq<string>, k: string)
    ensures Since(Recency(touches), k) == Since(touches, k)
  {
    if touches != [] {
      var before, x := touches[..|touches| - 1], touches[|touches| - 1];
      SinceRecency(before, k);
      var moved := MoveToEnd(Recency(before), x);
      assert moved[..|moved| - 1] == Without(Recency(before), x);
      if x != k {
        SinceWithout(Recency(before), x, k);
      }
    }
  }

  lemma {:induction false} SinceMembers(order: seq<string>, k: string)
    ensures forall x :: x in Since(order, k) ==> x in order
  {
    if order != [] {
      SinceMembers(order[..|order| - 1], k);
      assert order == order[..|order| - 1] + [order[|order| - 1]];
    }
  }

  lemma SuffixSnoc(rest: seq<string>, last: string, cap: nat)
    requires cap > 0
    ensures Suffix(rest + [last], cap) == Suffix(rest, cap - 1) + [last]
  {
  }

  lemma SinceSnoc(rest: seq<string>, last: string, k: string)
    ensures Since(rest + [last], k) == if last == k then {} else Since(rest, k) + {last}
    ensures last !in rest && last != k ==> |Since(rest + [last], k)| == |Since(rest, k)| + 1
  {
    assert (rest + [last])[..|rest|] == rest;
    SinceMembers(rest, k);
  }

  /** Kept, by a suffix of a list without repeats, is being followed by few. */
  lemma {:induction false} InSuffix(order: seq<string>, k: string, cap: nat)
    requires Distinct(order) && k in order
    ensures k in Suffix(order, cap) <==> |Since(order, k)| < cap
  {
    if cap > 0 {
      var rest, last := order[..|order| - 1], order[|order| - 1];
      assert order == rest + [last];
      DistinctConcat(rest, [last]);
      assert last in [last];
      SuffixSnoc(rest, last, cap);
      SinceSnoc(rest, last, k);
      if last != k {
        InSuffix(rest, k, cap - 1);
      }
    }
  }

  /*** What holds after every run ***/

  /** The map's order is the most recently touched conversations, at most cap of them. */
  ghost predicate Inv(l: Lru, evs: seq<Event>, cap: nat, allowed: string -> bool) {
    && l.order == Suffix(Recency(Touches(evs, cap, allowed)), cap)
    && SameKeys(l)
    && HoldsLatest(l.urls, evs, allowed)
  }

  ghost predicate SameKeys(l: Lru) {
    forall k :: k in l.urls <==> k in l.order
  }

  ghost predicate HoldsLatest(urls: map<string, string>, evs: seq<Event>, allowed: string -> bool) {
    forall k | k in urls :: LatestUrl(evs, k, allowed) == Some(urls[k])
  }

  lemma TouchesSnoc(evs: seq<Event>, ev: Event, cap: nat, allowed: string -> bool)
    ensures Touches(evs + [ev], cap, allowed)
         == if Touched(Touches(evs, cap, allowed), ev, cap, allowed) then Touches(evs, cap, allowed) + [ev.conversation]
            else Touches(evs, cap, allowed)
  {
    assert (evs + [ev])[..|evs|] == evs;
  }

  lemma LatestSnoc(evs: seq<Event>, ev: Event, k: string, allowed: string -> bool)
    ensures LatestUrl(evs + [ev], k, allowed)
         == if ev.Register? && ev.conversation == k && allowed(ev.url) then Some(RStripSlash(ev.url))
            else LatestUrl(evs, k, allowed)
  {
    assert (evs + [ev])[..|evs|] == evs;
  }

  lemma PresentIff(l: Lru, evs: seq<Event>, cap: nat, allowed: string -> bool, k: string)
    requires Inv(l, evs, cap, allowed)
    ensures var t := Touches(evs, cap, allowed);
            k in l.urls <==> k in t && |Since(t, k)| < cap
  {
    var t := Touches(evs, cap, allowed);
    RecencyDistinct(t);
    SinceRecency(t, k);
    if k in t {
      InSuffix(Recency(t), k, cap);
    }
  }

  lemma TouchKeepsOrder(l: Lru, t: seq<string>, k: string, cap: nat)
    requires l.order == Suffix(Recency(t), cap)
    ensures Suffix(MoveToEnd(l.order, k), cap) == Suffix(Recency(t + [k]), cap)
  {
    assert (t + [k])[..|t|] == t;
    RecencyDistinct(t);
    SuffixMoves(Recency(t), k, cap);
  }

  lemma SuffixMembers(order: seq<string>, cap: nat)
    ensures forall x | x in Suffix(order, cap) :: x in order
  {
  }

  lemma KeepEffect(l: Lru, order: seq<string>)
    requires forall x | x in order :: x in l.urls
    ensures Keep(l, order).order == order
    ensures forall x :: x in Keep(l, order).urls <==> x in order
    ensures forall x | x in order :: Keep(l, order).urls[x] == l.urls[x]
  {
  }

  lemma RegisterEffect(l: Lru, k: string, url: string, cap: nat)
    requires forall x :: x in l.urls <==> x in l.order
    ensures var l' := OnRegister(l, k, url, cap);
            && l'.order == Suffix(MoveToEnd(l.order, k), cap)
            && (forall x :: x in l'.urls <==> x in l'.order)
            && (forall x | x in l'.urls :: x == k || x in l.urls)
            && (forall x | x in l'.urls :: l'.urls[x] == if x == k then RStripSlash(url) else l.urls[x])
  {
    WithoutMembers(l.order, k);
    SuffixMembers(MoveToEnd(l.order, k), cap);
    KeepEffect(Lru(MoveToEnd(l.order, k), l.urls[k := RStripSlash(url)]), Suffix(MoveToEnd(l.order, k), cap));
  }

  lemma RegisterKeepsLatest(urls: map<string, string>, urls': map<string, string>, evs: seq<Event>, k: string,
                            url: string, allowed: string -> bool)
    requires HoldsLatest(urls, evs, allowed) && allowed(url)
    requires forall x | x in urls' && x != k :: x in urls && urls'[x] == urls[x]
    requires k in urls' ==> urls'[k] == RStripSlash(url)
    ensures HoldsLatest(urls', evs + [Register(k, url)], allowed)
  {
    forall x | x in urls'
      ensures LatestUrl(evs + [Register(k, url)], x, allowed) == Some(urls'[x])
    {
      LatestSnoc(evs, Register(k, url), x, allowed);
    }
  }

  lemma RegisterKeepsInv(l: Lru, evs: seq<Event>, k: string, url: string, cap: nat, allowed: string -> bool)
    requires Inv(l, evs, cap, allowed) && allowed(url)
    ensures Inv(OnRegister(l, k, url, cap), evs + [Register(k, url)], cap, allowed)
  {
    TouchKeepsOrder(l, Touches(evs, cap, allowed), k, cap);
    TouchesSnoc(evs, Register(k, url), cap, allowed);
    RegisterEffect(l, k, url, cap);
    RegisterKeepsLatest(l.urls, OnRegister(l, k, url, cap).urls, evs, k, url, allowed);
  }

  lemma LookUpKeepsLatest(urls: map<string, string>, evs: seq<Event>, k: string, allowed: string -> bool)
    requires HoldsLatest(urls, evs, allowed)
    ensures HoldsLatest(urls, evs + [LookUp(k)], allowed)
  {
    forall x | x in urls
      ensures LatestUrl(evs + [LookUp(k)], x, allowed) == Some(urls[x])
    {
      LatestSnoc(evs, LookUp(k), x, allowed);
    }
  }

  lemma MoveKeeps(order: seq<string>, k: string, cap: nat)
    requires Distinct(order) && k in order && |order| <= cap
    ensures Suffix(MoveToEnd(order, k), cap) == MoveToEnd(order, k)
    ensures forall x :: x in MoveToEnd(order, k) <==> x in order
  {
    WithoutLength(order, k);
    WithoutMembers(order, k);
  }

  /** A conversation that is found does not change which ones are kept. */
  lemma LookUpKeepsInv(l: Lru, evs: seq<Event>, k: string, cap: nat, allowed: string -> bool)
    requires Inv(l, evs, cap, allowed)
    ensures Inv(OnLookUp(l, k), evs + [LookUp(k)], cap, allowed)
  {
    var t := Touches(evs, cap, allowed);
    PresentIff(l, evs, cap, allowed, k);
    TouchesSnoc(evs, LookUp(k), cap, allowed);
    LookUpKeepsLatest(l.urls, evs, k, allowed);
    if k in l.urls {
      TouchKeepsOrder(l, t, k, cap);
      RecencyDistinct(t);
      SuffixDistinct(Recency(t), cap);
      MoveKeeps(l.order, k, cap);
    }
  }

  lemma SuffixDistinct(order: seq<string>, cap: nat)
    requires Distinct(order)
    ensures Distinct(Suffix(order, cap)) && |Suffix(order, cap)| <= cap
  {
  }

  lemma RejectedKeepsInv(l: Lru, evs: seq<Event>, k: string, url: string, cap: nat, allowed: string -> bool)
    requires Inv(l, evs, cap, allowed) && !allowed(url)
    ensures Inv(l, evs + [Register(k, url)], cap, allowed)
  {
    TouchesSnoc(evs, Register(k, url), cap, allowed);
    forall x | x in l.urls
      ensures LatestUrl(evs + [Register(k, url)], x, allowed) == Some(l.urls[x])
    {
      LatestSnoc(evs, Register(k, url), x, allowed);
    }
  }

  lemma {:induction false} RunKeepsInv(evs: seq<Event>, cap: nat, allowed: string -> bool)
    ensures Inv(Run(evs, cap, allowed), evs, cap, allowed)
  {
    if evs != [] {
      var before, ev := evs[..|evs| - 1], evs[|evs| - 1];
      RunKeepsInv(before, cap, allowed);
      assert evs == before + [ev];
      match ev
      case Register(k, url) =>
        if allowed(url) {
          RegisterKeepsInv(Run(before, cap, allowed), before, k, url, cap, allowed);
        } else {
          RejectedKeepsInv(Run(before, cap, allowed), before, k, url, cap, allowed);
        }
      case LookUp(k) => LookUpKeepsInv(Run(before, cap, allowed), before, k, cap, allowed);
    }
  }

  /** After any run the map never exceeds its cap, and a lookup returns the latest
      accepted URL of a conversation exactly when fewer than cap distinct others have
      been touched since its own last touch, and the default otherwise. */
  lemma LruRetention(evs: seq<Event>, cap: nat, allowed: string -> bool, k: string)
    ensures var l := Run(evs, cap, allowed);
            var t := Touches(evs, cap, allowed);
            && |l.urls| <= cap
            && (k in l.urls <==> k in t && |Since(t, k)| < cap)
            && (k in l.urls ==> LatestUrl(evs, k, allowed) == Some(UrlFor(l, k)))
            && (k !in l.urls ==> UrlFor(l, k) == "https://smba.trafficmanager.net/teams")
  {
    RunKeepsInv(evs, cap, allowed);
    var l := Run(evs, cap, allowed);
    PresentIff(l, evs, cap, allowed, k);
    RecencyDistinct(Touches(evs, cap, allowed));
    SuffixDistinct(Recency(Touches(evs, cap, allowed)), cap);
    KeysFit(l.order, l.urls.Keys);
  }

  lemma {:induction false} KeysFit(order: seq<string>, keys: set<string>)
    requires forall k | k in keys :: k in order
    ensures |keys| <= |order|
  {
    if order != [] {
      var rest, last := order[..|order| - 1], order[|order| - 1];
      assert order == rest + [last];
      KeysFit(rest, keys - {last});
    } else {
      assert keys == {};
    }
  }

  /** What a registration does for its own conversation: the URL, without slashes at its
      end, is what the next lookup returns; a URL that is not allowed changes nothing. */
  lemma RegisteredIsReturned(evs: seq<Event>, cap: nat, allowed: string -> bool, k: string,
                             url: string, slashes: string)
    requires cap > 0 && (url == "" || url[|url| - 1] != '/')
    requires forall i | 0 <= i < |slashes| :: slashes[i] == '/'
    ensures var before := Run(evs, cap, allowed);
            var after := Run(evs + [Register(k, url + slashes)], cap, allowed);
            if allowed(url + slashes) then k in after.urls && UrlFor(after, k) == url else after == before
  {
    var all := evs + [Register(k, url + slashes)];
    assert all[..|evs|] == evs;
    if allowed(url + slashes) {
      TouchesSnoc(evs, Register(k, url + slashes), cap, allowed);
      LatestSnoc(evs, Register(k, url + slashes), k, allowed);
      RStripSlashTrims(url, slashes);
      LruRetention(all, cap, allowed, k);
      JustTouched(Touches(evs, cap, allowed), k);
    }
  }

  lemma JustTouched(touches: seq<string>, k: string)
    ensures k in touches + [k] && Since(touches + [k], k) == {}
  {
    assert (touches + [k])[|touches|] == k;
  }

  /*** The adapter ***/

  lemma SuffixTail(order: seq<string>, n: nat)
    requires 0 < n == |Suffix(order, n)|
    ensures Suffix(order, n)[1..] == Suffix(order, n - 1)
  {
  }

  lemma KeepTail(l: Lru, order: seq<string>)
    requires Distinct(order) && order != []
    ensures Keep(l, order).urls - {order[0]} == Keep(l, order[1..]).urls
    ensures Distinct(order[1..])
  {
    assert order == [order[0]] + order[1..];
    DistinctConcat([order[0]], order[1..]);
  }

  class TeamsAdapter {
    const cap: nat := MAX_SERVICE_URLS
    const allowed: string -> bool
    var order: seq<string>
    var urls: map<string, string>

    function View(): Lru
      reads this
    {
      Lru(order, urls)
    }

    ghost predicate Valid()
      reads this
    {
      Distinct(order) && (forall k :: k in urls <==> k in order) && |order| <= cap
    }

    constructor (allowed: string -> bool)
      ensures Valid() && View() == Lru([], map[]) && this.allowed == allowed && cap == 10000
    {
      this.allowed := allowed;
      order, urls := [], map[];
    }

    method RegisterServiceUrl(conversation: string, url: string)
      requires Valid()
      modifies this
      ensures Valid()
      ensures View() == Step(old(View()), Register(conversation, url), cap, allowed)
    {
      if !allowed(url) {
        return;
      }
      urls := urls[conversation := RStripSlash(url)];
      MoveToEndDistinct(order, conversation);
      order := MoveToEnd(order, conversation);
      Evict();
    }

    /** Drops the least recently used entries until the rest fit. */
    method Evict()
      requires Distinct(order) && (forall k :: k in urls <==> k in order)
      modifies this
      ensures Valid()
      ensures View() == Keep(old(View()), Suffix(old(order), cap))
    {
      ghost var before := View();
      KeepEffect(before, order);
      assert urls == Keep(before, order).urls;
      while |order| > cap
        invariant order == Suffix(before.order, |order|)
        invariant |order| >= cap || order == before.order
        invariant Distinct(order)
        invariant urls == Keep(before, order).urls
        decreases |order|
      {
        KeepTail(before, order);
        SuffixTail(before.order, |order|);
        urls := urls - {order[0]};
        order := order[1..];
      }
      SuffixMembers(before.order, |order|);
      KeepEffect(before, order);
    }

    method GetServiceUrl(conversation: string) returns (url: string)
      requires Valid()
      modifies this`order
      ensures Valid()
      ensures url == UrlFor(old(View()), conversation)
      ensures View() == Step(old(View()), LookUp(conversation), cap, allowed)
    {
      if conversation !in urls {
        return DEFAULT_SERVICE_URL;
      }
      MoveToEndDistinct(order, conversation);
      WithoutLength(order, conversation);
      order := MoveToEnd(order, conversation);
      url := urls[conversation];
    }
  }
}
