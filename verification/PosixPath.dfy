/** Python's posixpath on strings: join, normpath, and what a normalised path is. */
module PosixPath {
  import opened PyText

  /** path.split('/') */
  function Split(s: string): (r: seq<string>)
    ensures r != []
  {
    if s == "" then [""]
    else
      var before := Split(s[..|s| - 1]);
      if s[|s| - 1] == '/' then before + [""] else Extend(before, s[|s| - 1])
  }

  /** The character added to the last piece. */
  function Extend(comps: seq<string>, ch: char): (r: seq<string>)
    requires comps != []
    ensures |r| == |comps|
  {
    comps[..|comps| - 1] + [comps[|comps| - 1] + [ch]]
  }

  /** '/'.join(comps) */
  function Join(comps: seq<string>): string {
    if comps == [] then ""
    else if |comps| == 1 then comps[0]
    else Join(comps[..|comps| - 1]) + "/" + comps[|comps| - 1]
  }

  predicate NoSlash(c: string) { '/' !in c }

  /** A component that names something: not empty, no separator, not "." or "..". */
  predicate IsPlain(c: string) { c != "" && NoSlash(c) && c != "." && c != ".." }

  /** The leading slashes that count: exactly two are kept, three or more are one. */
  function RootOf(path: string): nat {
    if |path| == 0 || path[0] != '/' then 0
    else if |path| >= 2 && path[1] == '/' && !(|path| >= 3 && path[2] == '/') then 2
    else 1
  }

  function Slashes(n: nat): (r: string)
    ensures |r| == n && forall i | 0 <= i < n :: r[i] == '/'
  {
    seq(n, _ => '/')
  }

  /** One component in turn: ".." pops, unless there is nothing to pop above a relative start. */
  function Fold1(comps: seq<string>, c: string, rooted: bool): seq<string> {
    if c == "" || c == "." then comps
    else if c != ".." || (!rooted && comps == []) || (comps != [] && comps[|comps| - 1] == "..") then comps + [c]
    else if comps != [] then comps[..|comps| - 1]
    else comps
  }

  function Fold(comps: seq<string>, more: seq<string>, rooted: bool): seq<string> {
    if more == [] then comps
    else Fold1(Fold(comps, more[..|more| - 1], rooted), more[|more| - 1], rooted)
  }

  function Comps(path: string): seq<string> {
    Fold([], Split(path), RootOf(path) > 0)
  }

  function Render(root: nat, comps: seq<string>): string {
    var path := Slashes(root) + Join(comps);
    if path == "" then "." else path
  }

  /** os.path.normpath */
  function NormPath(path: string): string {
    Render(RootOf(path), Comps(path))
  }

  /** os.path.join */
  function JoinPath(a: string, b: string): string {
    if b != "" && b[0] == '/' then b
    else if a == "" || a[|a| - 1] == '/' then a + b
    else a + "/" + b
  }

  predicate Normalised(path: string) { NormPath(path) == path }

  /*** Splitting and joining ***/

  lemma SplitSnoc(s: string, ch: char)
    ensures Split(s + [ch]) == if ch == '/' then Split(s) + [""] else Extend(Split(s), ch)
  {
    assert (s + [ch])[..|s|] == s;
  }

  lemma ExtendConcat(a: seq<string>, b: seq<string>, ch: char)
    requires b != []
    ensures Extend(a + b, ch) == a + Extend(b, ch)
  {
  }

  lemma SlashSnoc(a: string, b: string)
    requires b != ""
    ensures a + "/" + b == (a + "/" + b[..|b| - 1]) + [b[|b| - 1]]
  {
  }

  lemma {:induction false} SplitConcat(a: string, b: string)
    ensures Split(a + "/" + b) == Split(a) + Split(b)
  {
    if b == "" {
      assert a + "/" + b == a + ['/'];
      SplitSnoc(a, '/');
    } else {
      SplitConcat(a, b[..|b| - 1]);
      SlashSnoc(a, b);
      SplitConcatSnoc(a, b[..|b| - 1], b[|b| - 1]);
      assert b == b[..|b| - 1] + [b[|b| - 1]];
    }
  }

  lemma SplitConcatSnoc(a: string, front: string, ch: char)
    requires Split(a + "/" + front) == Split(a) + Split(front)
    ensures Split((a + "/" + front) + [ch]) == Split(a) + Split(front + [ch])
  {
    SplitSnoc(a + "/" + front, ch);
    SplitSnoc(front, ch);
    if ch == '/' {
      assert Split(a) + Split(front) + [""] == Split(a) + (Split(front) + [""]);
    } else {
      ExtendConcat(Split(a), Split(front), ch);
    }
  }

  lemma {:induction false} SplitNoSlash(c: string)
    requires NoSlash(c)
    ensures Split(c) == [c]
  {
    if c != "" {
      SplitNoSlash(c[..|c| - 1]);
      assert c == c[..|c| - 1] + [c[|c| - 1]];
    }
  }

  lemma {:induction false} SplitPieces(s: string)
    ensures forall i | 0 <= i < |Split(s)| :: NoSlash(Split(s)[i])
  {
    if s != "" {
      SplitPieces(s[..|s| - 1]);
    }
  }

  lemma {:induction false} SplitJoin(comps: seq<string>)
    requires comps != [] && forall i | 0 <= i < |comps| :: NoSlash(comps[i])
    ensures Split(Join(comps)) == comps
  {
    var last := comps[|comps| - 1];
    SplitNoSlash(last);
    if |comps| > 1 {
      SplitJoin(comps[..|comps| - 1]);
      SplitConcat(Join(comps[..|comps| - 1]), last);
      assert comps == comps[..|comps| - 1] + [last];
    }
  }

  lemma JoinSnoc(comps: seq<string>, c: string)
    requires comps != []
    ensures Join(comps + [c]) == Join(comps) + "/" + c
  {
    assert (comps + [c])[..|comps|] == comps;
  }

  lemma {:induction false} JoinSplit(s: string)
    ensures Join(Split(s)) == s
  {
    if s != "" {
      var before, ch := s[..|s| - 1], s[|s| - 1];
      JoinSplit(before);
      var comps := Split(before);
      if ch == '/' {
        JoinSnoc(comps, "");
      } else {
        JoinExtend(comps, ch);
        assert Split(s) == Extend(comps, ch);
      }
      assert s == before + [ch];
    }
  }

  lemma JoinExtend(comps: seq<string>, ch: char)
    requires comps != []
    ensures Join(Extend(comps, ch)) == Join(comps) + [ch]
  {
    var front, last := comps[..|comps| - 1], comps[|comps| - 1];
    assert comps == front + [last];
    if front == [] {
      assert Extend(comps, ch) == [last + [ch]];
    } else {
      JoinSnoc(front, last + [ch]);
      JoinSnoc(front, last);
      Associate(Join(front) + "/", last, [ch]);
    }
  }

  lemma Associate(a: string, b: string, c: string)
    ensures a + b + c == a + (b + c)
  {
  }

  lemma {:induction false} JoinConcat(a: seq<string>, b: seq<string>)
    requires a != [] && b != []
    ensures Join(a + b) == Join(a) + "/" + Join(b)
  {
    var front, last := b[..|b| - 1], b[|b| - 1];
    assert a + b == (a + front) + [last];
    JoinSnoc(a + front, last);
    if front == [] {
      assert a + front == a;
    } else {
      JoinConcat(a, front);
      assert Join(a) + "/" + Join(front) + "/" + last == Join(a) + "/" + (Join(front) + "/" + last);
    }
  }

  /*** Folding ***/

  lemma {:induction false} FoldConcat(comps: seq<string>, a: seq<string>, b: seq<string>, rooted: bool)
    ensures Fold(comps, a + b, rooted) == Fold(Fold(comps, a, rooted), b, rooted)
  {
    if b == [] {
      assert a + b == a;
    } else {
      assert (a + b)[..|a + b| - 1] == a + b[..|b| - 1];
      FoldConcat(comps, a, b[..|b| - 1], rooted);
    }
  }

  /** What the fold leaves: named components, and ".." only in front of a relative path. */
  ghost predicate Clean(comps: seq<string>, rooted: bool) {
    && (forall i | 0 <= i < |comps| :: IsPlain(comps[i]) || comps[i] == "..")
    && (forall i | 0 <= i < |comps| && comps[i] == ".." :: !rooted && forall j | 0 <= j < i :: comps[j] == "..")
  }

  lemma Fold1Clean(comps: seq<string>, c: string, rooted: bool)
    requires Clean(comps, rooted) && NoSlash(c)
    ensures Clean(Fold1(comps, c, rooted), rooted)
  {
  }

  lemma {:induction false} FoldClean(comps: seq<string>, more: seq<string>, rooted: bool)
    requires Clean(comps, rooted) && forall i | 0 <= i < |more| :: NoSlash(more[i])
    ensures Clean(Fold(comps, more, rooted), rooted)
  {
    if more != [] {
      FoldClean(comps, more[..|more| - 1], rooted);
      Fold1Clean(Fold(comps, more[..|more| - 1], rooted), more[|more| - 1], rooted);
    }
  }

  lemma Fold1OfClean(front: seq<string>, last: string, rooted: bool)
    requires Clean(front + [last], rooted)
    ensures Fold1(front, last, rooted) == front + [last]
  {
    var comps := front + [last];
    assert comps[|front|] == last;
    if last == ".." && front != [] {
      assert comps[|front| - 1] == "..";
    }
  }

  lemma {:induction false} FoldOfClean(comps: seq<string>, rooted: bool)
    requires Clean(comps, rooted)
    ensures Fold([], comps, rooted) == comps
  {
    if comps != [] {
      var front, last := comps[..|comps| - 1], comps[|comps| - 1];
      assert comps == front + [last];
      CleanPrefix(front, [last], rooted);
      FoldOfClean(front, rooted);
      Fold1OfClean(front, last, rooted);
    }
  }

  lemma {:induction false} FoldEmpties(comps: seq<string>, n: nat, rooted: bool)
    ensures Fold(comps, Empties(n), rooted) == comps
  {
    if n > 0 {
      assert Empties(n)[..n - 1] == Empties(n - 1);
      FoldEmpties(comps, n - 1, rooted);
    }
  }

  /*** Normalised paths ***/

  /** A root and clean components a normalised path can be made of. */
  ghost predicate Parts(root: nat, comps: seq<string>) {
    root <= 2 && Clean(comps, root > 0)
  }

  lemma PartsOf(path: string)
    ensures Parts(RootOf(path), Comps(path))
  {
    SplitPieces(path);
    FoldClean([], Split(path), RootOf(path) > 0);
  }

  lemma JoinHead(comps: seq<string>)
    requires comps != [] && comps[0] != ""
    ensures Join(comps) != "" && Join(comps)[0] == comps[0][0]
  {
    if |comps| > 1 {
      JoinHead(comps[..|comps| - 1]);
    }
  }

  lemma RootOfSlashes(root: nat, path: string)
    requires root <= 2 && (path != "" ==> path[0] != '/')
    ensures RootOf(Slashes(root) + path) == root
  {
    var p := Slashes(root) + path;
    assert |p| == root + |path|;
    assert forall i | 0 <= i < |p| :: p[i] == if i < root then '/' else path[i - root];
  }

  lemma CleanHead(comps: seq<string>, rooted: bool)
    requires Clean(comps, rooted) && comps != []
    ensures Join(comps) != "" && Join(comps)[0] != '/'
  {
    assert IsPlain(comps[0]) || comps[0] == "..";
    assert comps[0][0] in comps[0];
    JoinHead(comps);
  }

  function Empties(n: nat): (r: seq<string>)
    ensures |r| == n && forall i | 0 <= i < n :: r[i] == ""
  {
    seq(n, _ => "")
  }

  lemma SlashFirst(n: nat, path: string)
    requires n > 0
    ensures Slashes(n) + path == "" + "/" + (Slashes(n - 1) + path)
  {
  }

  lemma EmptyFirst(n: nat, comps: seq<string>)
    requires n > 0
    ensures Empties(n) + comps == [""] + (Empties(n - 1) + comps)
  {
  }

  /** The slashes split off as empty pieces. */
  lemma {:induction false} SplitSlashes(n: nat, path: string)
    ensures Split(Slashes(n) + path) == Empties(n) + Split(path)
  {
    if n == 0 {
      assert Slashes(0) + path == path;
    } else {
      SlashFirst(n, path);
      SplitConcat("", Slashes(n - 1) + path);
      SplitSlashes(n - 1, path);
      EmptyFirst(n, Split(path));
    }
  }

  lemma SplitRender(root: nat, comps: seq<string>)
    requires Parts(root, comps) && comps != []
    ensures Render(root, comps) == Slashes(root) + Join(comps)
    ensures Split(Render(root, comps)) == Empties(root) + comps
  {
    CleanHead(comps, root > 0);
    SplitSlashes(root, Join(comps));
    SplitJoin(comps);
  }

  lemma RenderEmpty(root: nat)
    requires root <= 2
    ensures RootOf(Render(root, [])) == root && Comps(Render(root, [])) == []
  {
    if root == 0 {
      SplitNoSlash(".");
      assert Fold([], ["."], false) == Fold1(Fold([], [], false), ".", false);
    } else {
      assert Slashes(root) + "" == Slashes(root);
      RootOfSlashes(root, "");
      SplitSlashes(root, "");
      assert Empties(root) + [""] == Empties(root + 1);
      FoldEmpties([], root + 1, true);
    }
  }

  /** A rendered path gives its root and components back: it is normalised, and
      different parts give different paths. */
  lemma RenderParses(root: nat, comps: seq<string>)
    requires Parts(root, comps)
    ensures RootOf(Render(root, comps)) == root && Comps(Render(root, comps)) == comps
    ensures Normalised(Render(root, comps))
  {
    if comps == [] {
      RenderEmpty(root);
    } else {
      SplitRender(root, comps);
      CleanHead(comps, root > 0);
      RootOfSlashes(root, Join(comps));
      FoldConcat([], Empties(root), comps, root > 0);
      FoldEmpties([], root, root > 0);
      FoldOfClean(comps, root > 0);
    }
  }

  /** normpath is a projection onto the normalised paths. */
  lemma NormPathIdempotent(path: string)
    ensures Normalised(NormPath(path))
  {
    PartsOf(path);
    RenderParses(RootOf(path), Comps(path));
  }

  /** The last piece of the path is a name. */
  predicate EndsInName(path: string) { IsPlain(Split(path)[|Split(path)| - 1]) }

  lemma NamedEnd(path: string)
    requires EndsInName(path)
    ensures path != "" && path[|path| - 1] != '/' && path != "."
    ensures Comps(path) != [] && Comps(path)[|Comps(path)| - 1] == Split(path)[|Split(path)| - 1]
  {
    SplitNoSlash(".");
  }

  lemma RootOfLonger(base: string, rest: string)
    requires EndsInName(base)
    ensures RootOf(base + rest) == RootOf(base)
  {
    NamedEnd(base);
    var p := base + rest;
    assert forall i | 0 <= i < |base| :: p[i] == base[i];
  }

  /** normpath of a path below base folds the rest over the base's components. */
  lemma NormPathBelow(base: string, rest: string)
    requires EndsInName(base)
    ensures NormPath(base + "/" + rest) == Render(RootOf(base), Fold(Comps(base), Split(rest), RootOf(base) > 0))
  {
    RootOfLonger(base, "/" + rest);
    assert base + "/" + rest == base + ("/" + rest);
    SplitConcat(base, rest);
    FoldConcat([], Split(base), Split(rest), RootOf(base) > 0);
  }

  /** Rendering a longer list continues the shorter path. */
  lemma RenderLonger(root: nat, comps: seq<string>, more: seq<string>)
    requires Parts(root, comps + more) && comps != [] && more != []
    ensures Render(root, comps + more) == Render(root, comps) + "/" + Join(more)
  {
    CleanPrefix(comps, more, root > 0);
    SplitRender(root, comps + more);
    SplitRender(root, comps);
    JoinConcat(comps, more);
    Associate(Slashes(root), Join(comps) + "/", Join(more));
    Associate(Slashes(root), Join(comps), "/");
  }

  lemma CleanPrefix(comps: seq<string>, more: seq<string>, rooted: bool)
    requires Clean(comps + more, rooted)
    ensures Clean(comps, rooted)
  {
    assert forall i | 0 <= i < |comps| :: (comps + more)[i] == comps[i];
  }

  lemma CutAfterRoot(root: nat, comps: seq<string>, a: seq<string>, b: seq<string>) returns (k: nat)
    requires a + b == Empties(root) + comps && a != [] && a[|a| - 1] != ""
    ensures 0 < k <= |comps| && a == Empties(root) + comps[..k]
  {
    var n := |a|;
    assert a == (a + b)[..n];
    assert a[n - 1] == (Empties(root) + comps)[n - 1];
    k := n - root;
  }

  lemma SplitInjective(a: string, b: string)
    requires Split(a) == Split(b)
    ensures a == b
  {
    JoinSplit(a);
    JoinSplit(b);
  }

  /** What a normalised path continues is made of its first components. */
  lemma PrefixIsRendered(root: nat, comps: seq<string>, base: string, rest: string)
    requires Parts(root, comps) && EndsInName(base)
    requires Render(root, comps) == base + "/" + rest
    ensures exists k :: 0 < k <= |comps| && base == Render(root, comps[..k])
  {
    if comps == [] {
      NotRootAlone(root, base, rest);
    } else {
      SplitRender(root, comps);
      SplitConcat(base, rest);
      var k := CutAfterRoot(root, comps, Split(base), Split(rest));
      assert comps == comps[..k] + comps[k..];
      CleanPrefix(comps[..k], comps[k..], root > 0);
      SplitRender(root, comps[..k]);
      SplitInjective(base, Render(root, comps[..k]));
    }
  }

  lemma NotRootAlone(root: nat, base: string, rest: string)
    requires root <= 2 && EndsInName(base)
    ensures Render(root, []) != base + "/" + rest && Render(root, []) != base
  {
    NamedEnd(base);
    var all := base + "/" + rest;
    assert all[|base| - 1] == base[|base| - 1];
    var path := Render(root, []);
    assert root > 0 ==> forall i | 0 <= i < |path| :: path[i] == '/';
  }

  /** Components at or below those of base. */
  predicate Beneath(base: seq<string>, comps: seq<string>) { base <= comps }

  lemma BeneathStarts(root: nat, comps: seq<string>, base: string)
    requires Parts(root, comps) && EndsInName(base)
    requires Normalised(base) && RootOf(base) == root && Beneath(Comps(base), comps)
    ensures Render(root, comps) == base || StartsWith(Render(root, comps), base + "/")
  {
    NamedEnd(base);
    var more := comps[|Comps(base)|..];
    assert comps == Comps(base) + more;
    if more != [] {
      RenderLonger(root, Comps(base), more);
    } else {
      assert comps == Comps(base);
    }
  }

  lemma RenderedBase(root: nat, comps: seq<string>, base: string, k: nat)
    requires Parts(root, comps) && k <= |comps| && base == Render(root, comps[..k])
    ensures Normalised(base) && RootOf(base) == root && Beneath(Comps(base), comps)
  {
    assert comps == comps[..k] + comps[k..];
    CleanPrefix(comps[..k], comps[k..], root > 0);
    RenderParses(root, comps[..k]);
  }

  /** For a path ending in a name, being that path or continuing it after a slash is
      having it normalised, with its root, and its components in front. */
  lemma StartsAtBase(root: nat, comps: seq<string>, base: string)
    requires Parts(root, comps) && EndsInName(base)
    ensures Render(root, comps) == base || StartsWith(Render(root, comps), base + "/")
       <==> Normalised(base) && RootOf(base) == root && Beneath(Comps(base), comps)
  {
    var path := Render(root, comps);
    if Normalised(base) && RootOf(base) == root && Beneath(Comps(base), comps) {
      BeneathStarts(root, comps, base);
    } else if path == base {
      assert comps[..|comps|] == comps;
      RenderedBase(root, comps, base, |comps|);
    } else if StartsWith(path, base + "/") {
      var rest := path[|base| + 1..];
      assert path == base + "/" + rest;
      PrefixIsRendered(root, comps, base, rest);
      var k :| 0 < k <= |comps| && base == Render(root, comps[..k]);
      RenderedBase(root, comps, base, k);
    }
  }
}
