/** The media-path handling of a chat.final inside OpenClawClient._dispatch
    (src/services/openclaw_client.py): container paths are collected from the
    text and then removed from it. */
module Scrub {
  import opened PyText

  /** The prefix "/home/node/.openclaw/" around its dot. The source's pattern does not
      escape the dot, so there it stands for any character but a newline. */
  const BEFORE_DOT := "/home/node/"
  const AFTER_DOT := "openclaw/"
  const DOT := 11
  const PREFIX_LEN := 21

  predicate MatchesPrefix(s: string) {
    && |s| >= PREFIX_LEN
    && s[0] == '/' && s[1] == 'h' && s[2] == 'o' && s[3] == 'm' && s[4] == 'e' && s[5] == '/'
    && s[6] == 'n' && s[7] == 'o' && s[8] == 'd' && s[9] == 'e' && s[10] == '/'
    && s[DOT] != '\n'
    && s[12] == 'o' && s[13] == 'p' && s[14] == 'e' && s[15] == 'n' && s[16] == 'c' && s[17] == 'l'
    && s[18] == 'a' && s[19] == 'w' && s[20] == '/'
  }

  predicate PathChar(c: char) {
    !IsSpace(c) && c != '"' && c != '\'' && c != ')'
  }

  /** Length of the longest run of path characters at the head of s. */
  function Span(s: string): (n: nat)
    ensures n <= |s|
    ensures forall k | 0 <= k < n :: PathChar(s[k])
    ensures n < |s| ==> !PathChar(s[n])
  {
    if s == [] || !PathChar(s[0]) then 0
    else
      var n := Span(s[1..]);
      assert forall k | 0 < k <= n :: s[k] == s[1..][k - 1];
      n + 1
  }

  /** The raw-path pattern matches at the head of s. */
  predicate RawMatch(s: string) {
    MatchesPrefix(s) && |s| > PREFIX_LEN && PathChar(s[PREFIX_LEN])
  }

  function RawLength(s: string): (n: nat)
    requires RawMatch(s)
    ensures PREFIX_LEN < n <= |s|
    ensures forall k | PREFIX_LEN <= k < n :: PathChar(s[k])
    ensures n < |s| ==> !PathChar(s[n])
  {
    assert forall k | PREFIX_LEN <= k < |s| :: s[k] == s[PREFIX_LEN..][k - PREFIX_LEN];
    PREFIX_LEN + Span(s[PREFIX_LEN..])
  }

  /** path_pattern.finditer, each match stripped */
  function FindPaths(s: string): seq<string>
    decreases |s|
  {
    if s == [] then []
    else if RawMatch(s) then [Strip(s[..RawLength(s)])] + FindPaths(s[RawLength(s)..])
    else FindPaths(s[1..])
  }

  /** raw_pattern.sub("", ·) */
  function RemovePaths(s: string): string
    decreases |s|
  {
    if s == [] then []
    else if RawMatch(s) then RemovePaths(s[RawLength(s)..])
    else [s[0]] + RemovePaths(s[1..])
  }

  function IndexOf(s: string, c: char): (i: nat)
    ensures i <= |s| && c !in s[..i]
    ensures i < |s| ==> s[i] == c
  {
    if s == [] || s[0] == c then 0
    else
      var i := IndexOf(s[1..], c);
      assert s[..i + 1] == [s[0]] + s[1..][..i];
      i + 1
  }

  /** Length of the markdown link at the head of s, or 0 when there is none: a
      bracketed label, then in parentheses the prefix and at least one character. */
  function LinkLength(s: string): (n: nat)
    ensures n <= |s|
  {
    if s == [] || s[0] != '[' then 0
    else
      var close := 1 + IndexOf(s[1..], ']');
      if close + 2 > |s| || s[close + 1] != '(' || !MatchesPrefix(s[close + 2..]) then 0
      else
        var start := close + 2 + PREFIX_LEN;
        var len := IndexOf(s[start..], ')');
        if len == 0 || start + len == |s| then 0 else start + len + 1
  }

  /** markdown_pattern.sub("", ·) */
  function RemoveLinks(s: string): string
    decreases |s|
  {
    if s == [] then []
    else if LinkLength(s) > 0 then RemoveLinks(s[LinkLength(s)..])
    else [s[0]] + RemoveLinks(s[1..])
  }

  /** The text a chat.final is delivered with. */
  function FinalText(text: string): (r: string)
    ensures Strip(r) == r
  {
    StripIdempotent(RemovePaths(RemoveLinks(text)));
    Strip(RemovePaths(RemoveLinks(text)))
  }

  /*** One pass is complete ***/

  /** A scanned text is its kept characters and its cut paths, interleaved. */
  datatype Piece = Keep(c: char) | Cut(path: string)

  function Scan(s: string): seq<Piece>
    decreases |s|
  {
    if s == [] then []
    else if RawMatch(s) then [Cut(s[..RawLength(s)])] + Scan(s[RawLength(s)..])
    else [Keep(s[0])] + Scan(s[1..])
  }

  function Whole(ps: seq<Piece>): string {
    if ps == [] then []
    else (match ps[0] case Keep(c) => [c] case Cut(p) => p) + Whole(ps[1..])
  }

  function Kept(ps: seq<Piece>): string {
    if ps == [] then [] else (if ps[0].Keep? then [ps[0].c] else []) + Kept(ps[1..])
  }

  function Cuts(ps: seq<Piece>): seq<string> {
    if ps == [] then [] else (if ps[0].Cut? then [ps[0].path] else []) + Cuts(ps[1..])
  }

  /** Nothing but the found paths is lost, and what is kept keeps its order. */
  lemma {:induction false} ScanConserves(s: string)
    ensures Whole(Scan(s)) == s
    ensures Kept(Scan(s)) == RemovePaths(s)
    decreases |s|
  {
    if s != [] {
      if RawMatch(s) {
        var n := RawLength(s);
        assert s == s[..n] + s[n..];
        ScanConserves(s[n..]);
        assert Scan(s)[1..] == Scan(s[n..]);
      } else {
        assert s == [s[0]] + s[1..];
        ScanConserves(s[1..]);
        assert Scan(s)[1..] == Scan(s[1..]);
      }
    }
  }

  lemma {:induction false} ScanCutsFound(s: string)
    ensures Cuts(Scan(s)) == FindPaths(s)
    decreases |s|
  {
    if s != [] {
      if RawMatch(s) {
        var path, rest := s[..RawLength(s)], s[RawLength(s)..];
        CutsCons(Cut(path), Scan(rest));
        ScanCutsFound(rest);
        MatchIsStripped(s);
      } else {
        CutsCons(Keep(s[0]), Scan(s[1..]));
        ScanCutsFound(s[1..]);
      }
    }
  }

  lemma CutsCons(p: Piece, ps: seq<Piece>)
    ensures Cuts([p] + ps) == if p.Cut? then [p.path] + Cuts(ps) else Cuts(ps)
  {
    assert ([p] + ps)[1..] == ps;
  }

  /** A found path starts with '/' and ends with a path character: strip keeps it. */
  lemma MatchIsStripped(s: string)
    requires RawMatch(s)
    ensures Strip(s[..RawLength(s)]) == s[..RawLength(s)]
  {
    var n := RawLength(s);
    var p := s[..n];
    PrefixIsPathChars(s);
    assert p[0] == s[0] && PathChar(p[0]);
    assert p[n - 1] == s[n - 1] && PathChar(p[n - 1]);
    StripFixed(p);
  }

  /** What follows a cut path is not a path character. */
  lemma CutEndsRun(s: string)
    ensures RawMatch(s) && RemovePaths(s) != [] ==> !PathChar(RemovePaths(s)[0])
  {
    if RawMatch(s) {
      var rest := s[RawLength(s)..];
      if rest != [] {
        assert !PathChar(rest[0]);
      }
    }
  }

  /** A run of path characters in the result was already a run in the input. */
  lemma {:induction false} RunIsOriginal(s: string, m: nat)
    requires m <= |RemovePaths(s)| && forall k | 0 <= k < m :: PathChar(RemovePaths(s)[k])
    ensures m <= |s| && s[..m] == RemovePaths(s)[..m]
    ensures m > 0 ==> !RawMatch(s)
    decreases |s|
  {
    CutEndsRun(s);
    if m > 0 && !RawMatch(s) {
      var r := RemovePaths(s[1..]);
      assert forall k | 0 <= k < m - 1 :: r[k] == RemovePaths(s)[k + 1];
      RunIsOriginal(s[1..], m - 1);
      assert s[..m] == [s[0]] + s[1..][..m - 1];
      assert RemovePaths(s)[..m] == [s[0]] + r[..m - 1];
    }
  }

  /** Whether the pattern matches depends on the first characters only. */
  lemma MatchIsLocal(a: string, b: string)
    ensures |a| > PREFIX_LEN && |b| > PREFIX_LEN && a[..PREFIX_LEN + 1] == b[..PREFIX_LEN + 1] ==>
              (RawMatch(a) <==> RawMatch(b))
  {
    if |a| > PREFIX_LEN && |b| > PREFIX_LEN && a[..PREFIX_LEN + 1] == b[..PREFIX_LEN + 1] {
      assert forall k | 0 <= k <= PREFIX_LEN :: a[k] == a[..PREFIX_LEN + 1][k] == b[k];
    }
  }

  lemma PrefixIsPathChars(s: string)
    requires MatchesPrefix(s)
    ensures forall k | 0 <= k < PREFIX_LEN && k != DOT :: PathChar(s[k])
  {
  }

  /** After the pass the pattern can match only with a character in the dot's place
      that ends a path: wherever a removal joined two fragments. */
  lemma {:induction false} OnlyJoinsSurvive(s: string, i: nat)
    requires i <= |RemovePaths(s)| && RawMatch(RemovePaths(s)[i..])
    ensures !PathChar(RemovePaths(s)[i + DOT])
    decreases |s|
  {
    var r := RemovePaths(s);
    if RawMatch(s) {
      OnlyJoinsSurvive(s[RawLength(s)..], i);
    } else if i > 0 {
      assert r[i..] == RemovePaths(s[1..])[i - 1..];
      OnlyJoinsSurvive(s[1..], i - 1);
    } else {
      assert r[0..] == r;
      MatchIsLocal(s, r);
      PrefixIsPathChars(r);
      if PathChar(r[DOT]) {
        RunIsOriginal(s, PREFIX_LEN + 1);
        assert false;
      }
    }
  }

  /** The literal prefix (with a dot in the dot's place), then a path character. */
  ghost predicate LiteralAt(s: string, i: nat) {
    i <= |s| && RawMatch(s[i..]) && s[i + DOT] == '.'
  }

  lemma PassIsComplete(s: string, i: nat)
    ensures !LiteralAt(RemovePaths(s), i)
  {
    if LiteralAt(RemovePaths(s), i) {
      OnlyJoinsSurvive(s, i);
    }
  }

  lemma SliceKeepsLiteral(s: string, lead: nat, part: string, i: nat)
    requires lead + |part| <= |s| && part == s[lead..lead + |part|]
    ensures LiteralAt(part, i) ==> LiteralAt(s, lead + i)
  {
    if LiteralAt(part, i) {
      assert forall k | 0 <= k <= PREFIX_LEN :: part[i..][k] == part[i + k] == s[lead + i + k];
      assert part[i..][..PREFIX_LEN + 1] == s[lead + i..][..PREFIX_LEN + 1];
      MatchIsLocal(part[i..], s[lead + i..]);
    }
  }

  /** The text handed on never contains the literal prefix followed by a path
      character, whatever links and paths were removed around it. */
  lemma ScrubIsComplete(text: string, i: nat)
    ensures !LiteralAt(FinalText(text), i)
  {
    forall j: nat
      ensures !LiteralAt(RemovePaths(RemoveLinks(text)), j)
    {
      PassIsComplete(RemoveLinks(text), j);
    }
    StripKeepsClean(RemovePaths(RemoveLinks(text)), i);
  }

  lemma StripKeepsClean(s: string, i: nat)
    requires forall j: nat :: !LiteralAt(s, j)
    ensures !LiteralAt(Strip(s), i)
  {
    StripIsSlice(s);
    SliceKeepsLiteral(s, StripLead(s), Strip(s), i);
    assert !LiteralAt(s, StripLead(s) + i);
  }

  /*** When the pattern survives its own pass ***/

  /** The pattern matches somewhere in the text. */
  ghost predicate Matches(s: string) {
    exists i :: MatchAt(s, i)
  }

  predicate MatchAt(s: string, i: int) { 0 <= i <= |s| && RawMatch(s[i..]) }

  /** The scan of s stops at j on its way: no cut runs over it. */
  predicate Reaches(s: string, j: nat)
    requires j <= |s|
    decreases |s|
  {
    if j == 0 then true
    else if RawMatch(s) then RawLength(s) <= j && Reaches(s[RawLength(s)..], j - RawLength(s))
    else Reaches(s[1..], j - 1)
  }

  /** "/home/node/" at the head of s. */
  predicate HomeNode(s: string) {
    && |s| >= DOT
    && s[0] == '/' && s[1] == 'h' && s[2] == 'o' && s[3] == 'm' && s[4] == 'e' && s[5] == '/'
    && s[6] == 'n' && s[7] == 'o' && s[8] == 'd' && s[9] == 'e' && s[10] == '/'
  }

  const AFTER_LEN := 10

  /** At the head of s: a character no path holds, other than a newline, then
      "openclaw/", then a path character; and no path is cut out of that. */
  predicate Tail(s: string) {
    && |s| > AFTER_LEN && !PathChar(s[0]) && s[0] != '\n'
    && s[1] == 'o' && s[2] == 'p' && s[3] == 'e' && s[4] == 'n' && s[5] == 'c' && s[6] == 'l'
    && s[7] == 'a' && s[8] == 'w' && s[9] == '/' && PathChar(s[AFTER_LEN])
    && !RawMatch(s[AFTER_LEN - 1..]) && !RawMatch(s[AFTER_LEN..])
  }

  /** "/home/node/", a path right behind it, and a tail right behind that. */
  predicate JoinHere(s: string) {
    HomeNode(s) && RawMatch(s[DOT..]) && Tail(s[DOT..][RawLength(s[DOT..])..])
  }

  ghost predicate HasJoin(s: string) {
    exists j :: JoinAt(s, j)
  }

  predicate JoinAt(s: string, j: int) { 0 <= j <= |s| && Reaches(s, j) && JoinHere(s[j..]) }

  /** Text in which no match starts is kept as it is. */
  lemma {:induction false} KeepsUpTo(s: string, n: nat)
    requires n <= |s| && forall k | 0 <= k < n :: !RawMatch(s[k..])
    ensures RemovePaths(s) == s[..n] + RemovePaths(s[n..])
  {
    if n > 0 {
      assert s[0..] == s;
      forall k | 0 <= k < n - 1
        ensures !RawMatch(s[1..][k..])
      {
        assert s[1..][k..] == s[k + 1..];
      }
      KeepsUpTo(s[1..], n - 1);
      var rest := RemovePaths(s[n..]);
      assert s[1..][n - 1..] == s[n..];
      assert s[..n] + rest == [s[0]] + (s[1..][..n - 1] + rest);
    }
  }

  /** What follows a kept run of path characters is scanned on its own. */
  lemma {:induction false} RunSplits(s: string, m: nat)
    requires m <= |RemovePaths(s)| && forall k | 0 <= k < m :: PathChar(RemovePaths(s)[k])
    ensures m <= |s| && RemovePaths(s)[m..] == RemovePaths(s[m..])
    decreases |s|
  {
    RunIsOriginal(s, m);
    if m == 0 {
      assert s[0..] == s && RemovePaths(s)[0..] == RemovePaths(s);
    } else {
      var r := RemovePaths(s[1..]);
      assert RemovePaths(s) == [s[0]] + r;
      assert forall k | 0 <= k < m - 1 :: r[k] == RemovePaths(s)[k + 1];
      RunSplits(s[1..], m - 1);
      assert s[1..][m - 1..] == s[m..];
      assert RemovePaths(s)[m..] == r[m - 1..];
    }
  }

  lemma MatchHead(s: string)
    requires RawMatch(s)
    ensures HomeNode(s) && s[0] == '/' && PathChar(s[0])
    ensures forall k | 0 <= k < DOT :: PathChar(s[k])
    ensures forall k | DOT < k <= PREFIX_LEN :: PathChar(s[k])
  {
    PrefixIsPathChars(s);
  }

  /** Behind a character no path holds, the scan keeps a run of path characters as it
      stands, and no match starts in it. */
  lemma RunAfterStop(w: string)
    requires RemovePaths(w) != [] && !PathChar(RemovePaths(w)[0]) && !RawMatch(w) && |RemovePaths(w)| > AFTER_LEN
    requires forall k | 0 < k <= AFTER_LEN :: PathChar(RemovePaths(w)[k])
    ensures |w| > AFTER_LEN && w[..AFTER_LEN + 1] == RemovePaths(w)[..AFTER_LEN + 1]
    ensures !RawMatch(w[AFTER_LEN - 1..]) && !RawMatch(w[AFTER_LEN..])
  {
    var r := RemovePaths(w[1..]);
    assert RemovePaths(w) == [w[0]] + r;
    assert forall k | 0 <= k < AFTER_LEN :: r[k] == RemovePaths(w)[k + 1];
    RunIsOriginal(w[1..], AFTER_LEN);
    assert w[..AFTER_LEN + 1] == [w[0]] + w[1..][..AFTER_LEN];
    assert RemovePaths(w)[..AFTER_LEN + 1] == [w[0]] + r[..AFTER_LEN];
    NoMatchInRun(w[1..], AFTER_LEN, AFTER_LEN - 2);
    NoMatchInRun(w[1..], AFTER_LEN, AFTER_LEN - 1);
    assert w[1..][AFTER_LEN - 2..] == w[AFTER_LEN - 1..] && w[1..][AFTER_LEN - 1..] == w[AFTER_LEN..];
  }

  lemma NoMatchInRun(s: string, m: nat, k: nat)
    requires m <= |RemovePaths(s)| && forall i | 0 <= i < m :: PathChar(RemovePaths(s)[i])
    requires k < m
    ensures k <= |s| && !RawMatch(s[k..])
  {
    RunSplits(s, k);
    assert RemovePaths(s)[k..][0] == RemovePaths(s)[k];
    RunIsOriginal(s[k..], 1);
  }

  /** "/home/node/" at the head of the result is at the head of the text. */
  lemma HeadIsKept(s: string)
    requires RawMatch(RemovePaths(s))
    ensures HomeNode(s) && s[..DOT] == RemovePaths(s)[..DOT] && RemovePaths(s)[DOT..] == RemovePaths(s[DOT..])
  {
    var r := RemovePaths(s);
    MatchHead(r);
    RunIsOriginal(s, DOT);
    RunSplits(s, DOT);
    assert forall k | 0 <= k < DOT :: s[k] == s[..DOT][k] == r[..DOT][k] == r[k];
  }

  /** What stands behind it in the result starts like a tail. */
  lemma HeadTail(s: string, w: string)
    requires RawMatch(RemovePaths(s)) && RemovePaths(s)[DOT..] == RemovePaths(w)
    ensures |RemovePaths(w)| > AFTER_LEN && !PathChar(RemovePaths(w)[0])
    ensures forall k | 0 < k <= AFTER_LEN :: PathChar(RemovePaths(w)[k])
    ensures forall k | 0 <= k <= AFTER_LEN :: RemovePaths(w)[k] == RemovePaths(s)[DOT + k]
  {
    var r := RemovePaths(s);
    assert r[0..] == r;
    OnlyJoinsSurvive(s, 0);
    MatchHead(r);
    forall k | 0 <= k <= AFTER_LEN
      ensures RemovePaths(w)[k] == r[DOT + k]
    {
      assert r[DOT..][k] == r[DOT + k];
    }
  }

  lemma HeadsAgree(s: string, r: string)
    requires |s| > PREFIX_LEN && |r| > PREFIX_LEN
    requires s[..DOT] == r[..DOT] && s[DOT..][..AFTER_LEN + 1] == r[DOT..][..AFTER_LEN + 1]
    ensures s[..PREFIX_LEN + 1] == r[..PREFIX_LEN + 1]
  {
    assert s[..PREFIX_LEN + 1] == s[..DOT] + s[DOT..][..AFTER_LEN + 1];
    assert r[..PREFIX_LEN + 1] == r[..DOT] + r[DOT..][..AFTER_LEN + 1];
  }

  /** Had nothing been cut there, the text itself would have matched. */
  lemma UncutMatches(s: string)
    requires RawMatch(RemovePaths(s)) && DOT <= |s| && s[..DOT] == RemovePaths(s)[..DOT]
    requires RemovePaths(s)[DOT..] == RemovePaths(s[DOT..]) && !RawMatch(s[DOT..])
    ensures RawMatch(s)
  {
    HeadTail(s, s[DOT..]);
    RunAfterStop(s[DOT..]);
    HeadsAgree(s, RemovePaths(s));
    MatchIsLocal(s, RemovePaths(s));
  }

  lemma HeadIsCut(s: string)
    requires RawMatch(RemovePaths(s)) && !RawMatch(s)
    ensures DOT <= |s| && RawMatch(s[DOT..])
  {
    HeadIsKept(s);
    if !RawMatch(s[DOT..]) {
      UncutMatches(s);
    }
  }

  lemma TailStands(w: string, r: string)
    requires !RawMatch(w) && RawMatch(r) && |RemovePaths(w)| > AFTER_LEN && !PathChar(RemovePaths(w)[0])
    requires forall k | 0 < k <= AFTER_LEN :: PathChar(RemovePaths(w)[k])
    requires forall k | 0 <= k <= AFTER_LEN :: RemovePaths(w)[k] == r[DOT + k]
    ensures Tail(w)
  {
    RunAfterStop(w);
    assert forall k | 0 <= k <= AFTER_LEN :: w[k] == w[..AFTER_LEN + 1][k] == RemovePaths(w)[k];
    assert w[0] == r[DOT] && w[1] == r[12] && w[2] == r[13] && w[3] == r[14] && w[4] == r[15] && w[5] == r[16];
    assert w[6] == r[17] && w[7] == r[18] && w[8] == r[19] && w[9] == r[20] && w[10] == r[21];
  }

  /** A match at the head of the result was joined there. */
  lemma HeadMatchIsJoin(s: string)
    requires RawMatch(RemovePaths(s)) && !RawMatch(s)
    ensures JoinHere(s)
  {
    HeadIsKept(s);
    HeadIsCut(s);
    var w := s[DOT..][RawLength(s[DOT..])..];
    HeadTail(s, w);
    StopNotMatched(w);
    TailStands(w, RemovePaths(s));
  }

  lemma StopNotMatched(w: string)
    requires w == [] || !PathChar(w[0])
    ensures !RawMatch(w)
  {
    if RawMatch(w) {
      MatchHead(w);
    }
  }

  /** Scan positions behind a cut, and behind a kept character. */
  lemma JoinBehindCut(s: string, j: nat)
    requires RawMatch(s) && RawLength(s) <= j <= |s|
    ensures JoinAt(s, j) <==> JoinAt(s[RawLength(s)..], j - RawLength(s))
  {
    assert s[RawLength(s)..][j - RawLength(s)..] == s[j..];
  }

  lemma JoinBehindKept(s: string, j: nat)
    requires !RawMatch(s) && 0 < j <= |s|
    ensures JoinAt(s, j) <==> JoinAt(s[1..], j - 1)
  {
    assert s[1..][j - 1..] == s[j..];
  }

  lemma MatchBehindKept(s: string, i: nat)
    requires s != [] && !RawMatch(s)
    ensures MatchAt(RemovePaths(s), i + 1) <==> MatchAt(RemovePaths(s[1..]), i)
  {
    assert RemovePaths(s) == [s[0]] + RemovePaths(s[1..]);
    if i <= |RemovePaths(s[1..])| {
      assert RemovePaths(s)[i + 1..] == RemovePaths(s[1..])[i..];
    }
  }

  lemma {:induction false} SurvivorIsJoin(s: string, i: nat) returns (j: nat)
    requires MatchAt(RemovePaths(s), i)
    ensures JoinAt(s, j)
    decreases |s|
  {
    if RawMatch(s) {
      j := SurvivorIsJoin(s[RawLength(s)..], i);
      j := RawLength(s) + j;
      JoinBehindCut(s, j);
    } else if i > 0 {
      MatchBehindKept(s, i - 1);
      j := SurvivorIsJoin(s[1..], i - 1);
      j := 1 + j;
      JoinBehindKept(s, j);
    } else {
      assert RemovePaths(s)[0..] == RemovePaths(s) && s[0..] == s;
      HeadMatchIsJoin(s);
      j := 0;
    }
  }

  lemma HomeNodeIsKept(s: string)
    requires HomeNode(s) && RawMatch(s[DOT..])
    ensures RemovePaths(s) == s[..DOT] + RemovePaths(s[DOT..])
  {
    assert s[DOT + 1] == s[DOT..][1] == 'h';
    forall k | 0 <= k < DOT
      ensures !RawMatch(s[k..])
    {
      assert s[k..][0] == s[k] && s[k..][1] == s[k + 1] && s[k..][DOT + 1] == s[k + DOT + 1];
    }
    KeepsUpTo(s, DOT);
  }

  lemma TailIsKept(w: string)
    requires Tail(w)
    ensures RemovePaths(w) == w[..AFTER_LEN + 1] + RemovePaths(w[AFTER_LEN + 1..])
  {
    forall k | 0 <= k < AFTER_LEN + 1
      ensures !RawMatch(w[k..])
    {
      assert w[k..][0] == w[k];
    }
    KeepsUpTo(w, AFTER_LEN + 1);
  }

  lemma JoinMatches(s: string)
    requires JoinHere(s)
    ensures RawMatch(RemovePaths(s))
  {
    var w := s[DOT..][RawLength(s[DOT..])..];
    HomeNodeIsKept(s);
    TailIsKept(w);
    var r := RemovePaths(s);
    assert r == s[..DOT] + (w[..AFTER_LEN + 1] + RemovePaths(w[AFTER_LEN + 1..]));
    assert forall k | 0 <= k < DOT :: r[k] == s[k];
    assert forall k | 0 <= k <= AFTER_LEN :: r[DOT + k] == w[k];
  }

  lemma {:induction false} JoinSurvives(s: string, j: nat) returns (i: nat)
    requires JoinAt(s, j)
    ensures MatchAt(RemovePaths(s), i)
    decreases |s|
  {
    if j == 0 {
      assert s[0..] == s && RemovePaths(s)[0..] == RemovePaths(s);
      JoinMatches(s);
      i := 0;
    } else if RawMatch(s) {
      JoinBehindCut(s, j);
      i := JoinSurvives(s[RawLength(s)..], j - RawLength(s));
    } else {
      JoinBehindKept(s, j);
      i := JoinSurvives(s[1..], j - 1);
      MatchBehindKept(s, i);
      i := 1 + i;
    }
  }

  /** The source's pattern matches again after its own pass if and only if the scan
      passes "/home/node/" with a path cut right behind it, and right behind the cut
      stand a character no path holds, "openclaw/" and a path character. */
  lemma PatternSurvivesIffJoined(s: string)
    ensures Matches(RemovePaths(s)) <==> HasJoin(s)
  {
    if i :| MatchAt(RemovePaths(s), i) {
      var j := SurvivorIsJoin(s, i);
    }
    if j :| JoinAt(s, j) {
      var i := JoinSurvives(s, j);
    }
  }

  lemma JoinHasTail(s: string, j: nat) returns (k: nat)
    requires JoinAt(s, j)
    ensures k <= |s| && Tail(s[k..])
  {
    k := j + DOT + RawLength(s[j..][DOT..]);
    assert s[j..][DOT..] == s[j + DOT..] && s[j + DOT..][k - j - DOT..] == s[k..];
  }

  /** Without such a tail anywhere in the text, one pass leaves nothing to match. */
  lemma NoTailNoSurvivor(s: string)
    requires forall k | 0 <= k <= |s| :: !Tail(s[k..])
    ensures !Matches(RemovePaths(s))
  {
    PatternSurvivesIffJoined(s);
    if j :| JoinAt(s, j) {
      var k := JoinHasTail(s, j);
    }
  }

  lemma MatchParts(dot: char, tail: string)
    requires dot != '\n' && tail != [] && PathChar(tail[0])
    ensures RawMatch(BEFORE_DOT + [dot] + AFTER_DOT + tail)
    ensures (BEFORE_DOT + [dot] + AFTER_DOT + tail)[PREFIX_LEN..] == tail
  {
    var s := BEFORE_DOT + [dot] + AFTER_DOT + tail;
    assert s[DOT] == dot && s[PREFIX_LEN] == tail[0];
  }

  lemma HomeNodeParts(rest: string)
    ensures HomeNode(BEFORE_DOT + rest) && (BEFORE_DOT + rest)[DOT..] == rest
  {
  }

  lemma TailParts()
    ensures Tail([')'] + AFTER_DOT + "x")
  {
    var w := [')'] + AFTER_DOT + "x";
    assert |w| == AFTER_LEN + 1 && w[AFTER_LEN] == 'x';
  }

  /** A text with such a join: "/home/node/", the path "/home/node/.openclaw/a", and
      ")openclaw/x". */
  lemma PatternSurvivesOnePass()
    ensures var tail := [')'] + AFTER_DOT + "x";
            var text := BEFORE_DOT + (BEFORE_DOT + ['.'] + AFTER_DOT + ("a" + tail));
            JoinAt(text, 0) && Matches(RemovePaths(text))
  {
    var tail := [')'] + AFTER_DOT + "x";
    var path := BEFORE_DOT + ['.'] + AFTER_DOT + ("a" + tail);
    HomeNodeParts(path);
    MatchParts('.', "a" + tail);
    TailParts();
    OneCharPath(path, 'a', tail);
    JoinOf(BEFORE_DOT + path, path, tail);
    PatternSurvivesIffJoined(BEFORE_DOT + path);
  }

  lemma OneCharPath(path: string, c: char, tail: string)
    requires RawMatch(path) && path[PREFIX_LEN..] == [c] + tail && Tail(tail)
    ensures path[RawLength(path)..] == tail
  {
    assert path[PREFIX_LEN] == path[PREFIX_LEN..][0] && path[PREFIX_LEN + 1] == path[PREFIX_LEN..][1];
    assert RawLength(path) == PREFIX_LEN + 1;
    assert path[PREFIX_LEN + 1..] == path[PREFIX_LEN..][1..];
  }

  lemma JoinOf(text: string, path: string, tail: string)
    requires HomeNode(text) && text[DOT..] == path && RawMatch(path) && path[RawLength(path)..] == tail && Tail(tail)
    ensures JoinAt(text, 0)
  {
    assert text[0..] == text;
  }

  lemma SliceKeepsMatch(s: string, lead: nat, part: string, i: nat)
    requires lead + |part| <= |s| && part == s[lead..lead + |part|] && MatchAt(part, i)
    ensures MatchAt(s, lead + i)
  {
    assert forall k | 0 <= k <= PREFIX_LEN :: part[i..][k] == part[i + k] == s[lead + i + k];
    assert part[i..][..PREFIX_LEN + 1] == s[lead + i..][..PREFIX_LEN + 1];
    MatchIsLocal(part[i..], s[lead + i..]);
  }

  lemma MatchInside(s: string, lead: nat, part: string, i: nat)
    requires lead + |part| <= |s| && part == s[lead..lead + |part|] && MatchAt(s, i)
    requires lead <= i && i + PREFIX_LEN < lead + |part|
    ensures MatchAt(part, i - lead)
  {
    var k := i - lead;
    assert forall n | 0 <= n <= PREFIX_LEN :: part[k..][n] == part[k + n] == s[i + n] == s[i..][n];
    assert part[k..][..PREFIX_LEN + 1] == s[i..][..PREFIX_LEN + 1];
    MatchIsLocal(part[k..], s[i..]);
  }

  /** A match starts and ends with a path character, so strip() cannot cut it. */
  lemma MatchEnds(s: string, i: nat)
    requires MatchAt(s, i)
    ensures i + PREFIX_LEN < |s| && !IsSpace(s[i]) && !IsSpace(s[i + PREFIX_LEN])
  {
    MatchHead(s[i..]);
    assert s[i] == s[i..][0] && s[i + PREFIX_LEN] == s[i..][PREFIX_LEN];
  }

  lemma StripKeepsMatch(s: string, i: nat)
    requires MatchAt(s, i)
    ensures StripLead(s) <= i && MatchAt(Strip(s), i - StripLead(s))
  {
    MatchEnds(s, i);
    StripKeeps(s, i);
    StripKeeps(s, i + PREFIX_LEN);
    StripIsSlice(s);
    MatchInside(s, StripLead(s), Strip(s), i);
  }

  lemma StripAddsNoMatch(s: string, i: nat)
    requires MatchAt(Strip(s), i)
    ensures MatchAt(s, StripLead(s) + i)
  {
    StripIsSlice(s);
    SliceKeepsMatch(s, StripLead(s), Strip(s), i);
  }

  lemma StripKeepsMatches(s: string)
    ensures Matches(Strip(s)) <==> Matches(s)
  {
    if i :| MatchAt(s, i) {
      StripKeepsMatch(s, i);
    }
    if i :| MatchAt(Strip(s), i) {
      StripAddsNoMatch(s, i);
    }
  }

  /** So the text a final is delivered with still shows a path to the pattern exactly
      when its text without the markdown links holds such a join. */
  lemma FinalTextMatchesIffJoined(text: string)
    ensures Matches(FinalText(text)) <==> HasJoin(RemoveLinks(text))
  {
    StripKeepsMatches(RemovePaths(RemoveLinks(text)));
    PatternSurvivesIffJoined(RemoveLinks(text));
  }

  /*** What the two removals take out ***/

  lemma {:induction false} FindsUpTo(s: string, n: nat)
    requires n <= |s| && forall k | 0 <= k < n :: !RawMatch(s[k..])
    ensures FindPaths(s) == FindPaths(s[n..])
  {
    if n > 0 {
      assert s[0..] == s;
      forall k | 0 <= k < n - 1
        ensures !RawMatch(s[1..][k..])
      {
        assert s[1..][k..] == s[k + 1..];
      }
      FindsUpTo(s[1..], n - 1);
      assert s[1..][n - 1..] == s[n..];
    } else {
      assert s[0..] == s;
    }
  }

  lemma {:induction false} SpanOf(run: string, rest: string)
    requires forall k | 0 <= k < |run| :: PathChar(run[k])
    requires rest == "" || !PathChar(rest[0])
    ensures Span(run + rest) == |run|
  {
    if run == "" {
      assert run + rest == rest;
    } else {
      assert (run + rest)[1..] == run[1..] + rest;
      SpanOf(run[1..], rest);
    }
  }

  /** The path under the prefix, up to where the text stops being a path. */
  lemma PathLength(run: string, rest: string)
    requires run != "" && forall k | 0 <= k < |run| :: PathChar(run[k])
    requires rest == "" || !PathChar(rest[0])
    ensures var s := "/home/node/.openclaw/" + (run + rest);
            && RawMatch(s) && RawLength(s) == 21 + |run|
            && s[..21 + |run|] == "/home/node/.openclaw/" + run && s[21 + |run|..] == rest
  {
    PrefixSpelled();
    var prefix := BEFORE_DOT + ['.'] + AFTER_DOT;
    MatchParts('.', run + rest);
    SpanOf(run, rest);
    var s := prefix + (run + rest);
    assert s[PREFIX_LEN..] == run + rest;
  }

  lemma PrefixSpelled()
    ensures BEFORE_DOT + ['.'] + AFTER_DOT == "/home/node/.openclaw/"
  {
  }

  lemma NoMatchBefore(before: string, s: string, k: nat)
    requires '/' !in before && k < |before|
    ensures !RawMatch((before + s)[k..])
  {
    assert (before + s)[k..][0] == before[k];
  }

  /** Text without a slash is kept, and holds no path. */
  lemma KeepsBefore(before: string, s: string)
    requires '/' !in before
    ensures FindPaths(before + s) == FindPaths(s) && RemovePaths(before + s) == before + RemovePaths(s)
  {
    var text := before + s;
    forall k | 0 <= k < |before|
      ensures !RawMatch(text[k..])
    {
      NoMatchBefore(before, s, k);
    }
    assert text[|before|..] == s && text[..|before|] == before;
    KeepsUpTo(text, |before|);
    FindsUpTo(text, |before|);
  }

  lemma FindAtHead(s: string)
    requires RawMatch(s)
    ensures FindPaths(s) == [s[..RawLength(s)]] + FindPaths(s[RawLength(s)..])
  {
    var path, rest := s[..RawLength(s)], s[RawLength(s)..];
    ScanCutsFound(s);
    ScanCutsFound(rest);
    CutsCons(Cut(path), Scan(rest));
  }

  lemma CutAtHead(s: string)
    requires RawMatch(s)
    ensures RemovePaths(s) == RemovePaths(s[RawLength(s)..])
  {
  }

  /** A path under the container's prefix is found and cut whole: everything up to the
      next space, quote or closing parenthesis, and nothing around it. */
  lemma PathIsFoundAndCut(before: string, run: string, rest: string)
    requires '/' !in before
    requires run != "" && forall k | 0 <= k < |run| ::
               !IsSpace(run[k]) && run[k] != '"' && run[k] != '\'' && run[k] != ')'
    requires rest == "" || IsSpace(rest[0]) || rest[0] == '"' || rest[0] == '\'' || rest[0] == ')'
    ensures var text := before + ("/home/node/.openclaw/" + (run + rest));
            && FindPaths(text) == ["/home/node/.openclaw/" + run] + FindPaths(rest)
            && RemovePaths(text) == before + RemovePaths(rest)
  {
    PathLength(run, rest);
    var s := "/home/node/.openclaw/" + (run + rest);
    FindAtHead(s);
    CutAtHead(s);
    KeepsBefore(before, s);
  }

  lemma {:induction false} IndexOfFirst(a: string, c: char, b: string)
    requires c !in a
    ensures IndexOf(a + [c] + b, c) == |a|
  {
    var s := a + [c] + b;
    if a == "" {
      assert s[0] == c;
    } else {
      assert s[0] == a[0] && s[1..] == a[1..] + [c] + b;
      IndexOfFirst(a[1..], c, b);
    }
  }

  /** `[shown](prefix target)` */
  function Link(shown: string, prefix: string, target: string): string {
    "[" + shown + "](" + prefix + target + ")"
  }

  lemma LinkLengthOf(shown: string, prefix: string, target: string, after: string)
    requires ']' !in shown && ')' !in target && target != "" && |prefix| == PREFIX_LEN && MatchesPrefix(prefix)
    ensures LinkLength(Link(shown, prefix, target) + after) == |Link(shown, prefix, target)|
  {
    var s := Link(shown, prefix, target) + after;
    var inner := "(" + prefix + target + ")" + after;
    assert s[1..] == shown + [']'] + inner;
    IndexOfFirst(shown, ']', inner);
    var close := 1 + |shown|;
    var tail := prefix + target + ")" + after;
    assert s[close + 1] == '(' && s[close + 2..] == tail;
    assert forall k | 0 <= k < PREFIX_LEN :: tail[k] == prefix[k];
    assert s[close + 2 + PREFIX_LEN..] == target + [')'] + after;
    IndexOfFirst(target, ')', after);
  }

  /** Text without a bracket is kept. */
  lemma {:induction false} LinksUpTo(before: string, s: string)
    requires '[' !in before
    ensures RemoveLinks(before + s) == before + RemoveLinks(s)
  {
    if before == "" {
      assert before + s == s;
    } else {
      assert (before + s)[1..] == before[1..] + s;
      LinksUpTo(before[1..], s);
    }
  }

  /** A markdown link to a container path is cut whole, label and all. */
  lemma LinkIsCut(before: string, shown: string, target: string, after: string)
    requires '[' !in before && ']' !in shown && ')' !in target && target != ""
    ensures RemoveLinks(before + (Link(shown, "/home/node/.openclaw/", target) + after)) == before + RemoveLinks(after)
  {
    PrefixSpelled();
    var prefix := BEFORE_DOT + ['.'] + AFTER_DOT;
    PrefixMatches(prefix);
    var s := Link(shown, prefix, target) + after;
    LinkLengthOf(shown, prefix, target, after);
    assert s[|Link(shown, prefix, target)|..] == after;
    LinksUpTo(before, s);
  }

  lemma PrefixMatches(prefix: string)
    requires prefix == BEFORE_DOT + ['.'] + AFTER_DOT
    ensures |prefix| == PREFIX_LEN && MatchesPrefix(prefix)
  {
    assert prefix[DOT] == '.';
  }

  ghost predicate IsLink(s: string, shown: string, prefix: string, target: string) {
    && s == Link(shown, prefix, target)
    && ']' !in shown && ')' !in target && target != "" && |prefix| == PREFIX_LEN && MatchesPrefix(prefix)
  }

  lemma LinkParts(s: string, close: nat, len: nat)
    requires close + 2 + PREFIX_LEN + len < |s| && 0 < close && s[0] == '[' && s[close] == ']' && s[close + 1] == '('
    requires s[close + 2 + PREFIX_LEN + len] == ')'
    ensures var start := close + 2 + PREFIX_LEN;
            s[..start + len + 1] == Link(s[1..close], s[close + 2..start], s[start..start + len])
  {
  }

  lemma HeadMatches(s: string)
    requires MatchesPrefix(s)
    ensures MatchesPrefix(s[..PREFIX_LEN])
  {
  }

  /** Only such links are cut: label, container prefix, target, closing parenthesis. */
  lemma OnlyLinksAreCut(s: string) returns (shown: string, prefix: string, target: string)
    requires LinkLength(s) > 0
    ensures IsLink(s[..LinkLength(s)], shown, prefix, target)
  {
    var close := 1 + IndexOf(s[1..], ']');
    var start := close + 2 + PREFIX_LEN;
    var len := IndexOf(s[start..], ')');
    shown, prefix, target := s[1..close], s[close + 2..start], s[start..start + len];
    assert shown == s[1..][..close - 1] && target == s[start..][..len] && prefix == s[close + 2..][..PREFIX_LEN];
    assert s[close] == s[1..][close - 1] && s[start + len] == s[start..][len];
    HeadMatches(s[close + 2..]);
    LinkParts(s, close, len);
  }

  /*** The media list ***/

  function NonBlankOnly(urls: seq<string>): seq<string> {
    if urls == [] then []
    else NonBlankOnly(urls[..|urls| - 1])
         + (if Strip(urls[|urls| - 1]) != [] then [urls[|urls| - 1]] else [])
  }

  function AppendNew(media: seq<string>, p: string): seq<string> {
    if p in media then media else media + [p]
  }

  function AppendAllNew(media: seq<string>, ps: seq<string>): seq<string> {
    if ps == [] then media
    else AppendNew(AppendAllNew(media, ps[..|ps| - 1]), ps[|ps| - 1])
  }

  function Listed(urls: seq<string>, single: string): seq<string> {
    var listed := NonBlankOnly(urls);
    if Strip(single) != [] then AppendNew(listed, Strip(single)) else listed
  }

  function MediaPaths(urls: seq<string>, single: string, text: string): seq<string> {
    AppendAllNew(Listed(urls, single), FindPaths(text))
  }

  method CollectListed(urls: seq<string>, single: string) returns (media: seq<string>)
    ensures media == Listed(urls, single)
  {
    media := [];
    for i := 0 to |urls|
      invariant media == NonBlankOnly(urls[..i])
    {
      assert urls[..i + 1][..i] == urls[..i];
      if Strip(urls[i]) != [] {
        media := media + [urls[i]];
      }
    }
    assert urls[..|urls|] == urls;
    if Strip(single) != [] && Strip(single) !in media {
      media := media + [Strip(single)];
    }
  }

  method CollectMediaPaths(urls: seq<string>, single: string, text: string) returns (media: seq<string>)
    ensures media == MediaPaths(urls, single, text)
  {
    media := CollectListed(urls, single);
    ghost var listed := media;
    var found := FindPaths(text);
    for i := 0 to |found|
      invariant media == AppendAllNew(listed, found[..i])
    {
      assert found[..i + 1][..i] == found[..i];
      if found[i] !in media {
        media := media + [found[i]];
      }
    }
    assert found[..|found|] == found;
  }

  function Count(ps: seq<string>, p: string): (n: nat)
    ensures n > 0 <==> p in ps
  {
    if ps == [] then 0
    else
      assert ps == ps[..|ps| - 1] + [ps[|ps| - 1]];
      Count(ps[..|ps| - 1], p) + if ps[|ps| - 1] == p then 1 else 0
  }

  lemma AppendNewCount(media: seq<string>, q: string, p: string)
    ensures Count(AppendNew(media, q), p) == if p in media then Count(media, p) else if p == q then 1 else 0
  {
    assert (media + [q])[..|media|] == media;
  }

  lemma {:induction false} AppendAllCount(media: seq<string>, ps: seq<string>, p: string)
    ensures Count(AppendAllNew(media, ps), p) ==
            if p in media then Count(media, p) else if p in ps then 1 else 0
  {
    if ps != [] {
      var front, last := ps[..|ps| - 1], ps[|ps| - 1];
      assert ps == front + [last];
      AppendAllCount(media, front, p);
      AppendNewCount(AppendAllNew(media, front), last, p);
    }
  }

  /** Every path found in the text is in the media list, and it is there exactly once
      if and only if the event's own list did not already repeat it. */
  lemma FoundPathListedOnce(urls: seq<string>, single: string, text: string, p: string)
    requires p in FindPaths(text)
    ensures var n := Count(MediaPaths(urls, single, text), p);
            && n >= 1
            && (n == 1 <==> Count(NonBlankOnly(urls), p) <= 1)
  {
    AppendNewCount(NonBlankOnly(urls), Strip(single), p);
    AppendAllCount(Listed(urls, single), FindPaths(text), p);
  }

  lemma {:induction false} NonBlankMembers(urls: seq<string>)
    ensures forall p :: p in NonBlankOnly(urls) <==> p in urls && Strip(p) != []
  {
    if urls != [] {
      NonBlankMembers(urls[..|urls| - 1]);
      assert urls == urls[..|urls| - 1] + [urls[|urls| - 1]];
    }
  }

  lemma {:induction false} AppendAllMembers(media: seq<string>, ps: seq<string>)
    ensures media <= AppendAllNew(media, ps)
    ensures forall p :: p in AppendAllNew(media, ps) <==> p in media || p in ps
  {
    if ps != [] {
      AppendAllMembers(media, ps[..|ps| - 1]);
      assert ps == ps[..|ps| - 1] + [ps[|ps| - 1]];
    }
  }

  /** The media list holds the event's own non-blank URLs, its single URL stripped, and
      the paths of the text, and nothing else. */
  lemma MediaListed(urls: seq<string>, single: string, text: string, p: string)
    ensures p in MediaPaths(urls, single, text) <==>
              || (p in urls && Strip(p) != [])
              || (Strip(single) != [] && p == Strip(single))
              || p in FindPaths(text)
  {
    NonBlankMembers(urls);
    AppendAllMembers(Listed(urls, single), FindPaths(text));
  }

  /** The event's own URLs come first, as they are, when none of them is blank. */
  lemma UrlsComeFirst(urls: seq<string>, single: string, text: string)
    requires forall p | p in urls :: Strip(p) != []
    ensures urls <= MediaPaths(urls, single, text)
  {
    AllNonBlank(urls);
    AppendAllMembers(Listed(urls, single), FindPaths(text));
  }

  lemma {:induction false} AllNonBlank(urls: seq<string>)
    requires forall p | p in urls :: Strip(p) != []
    ensures NonBlankOnly(urls) == urls
  {
    if urls != [] {
      var front, last := urls[..|urls| - 1], urls[|urls| - 1];
      assert urls == front + [last] && last in urls;
      AllNonBlank(front);
    }
  }
}
