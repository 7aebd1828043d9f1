/** Paths and names between an OpenClaw container and the host (src/services/file_manager.py). */
module FilePaths {
  import opened PyText
  import opened PosixPath

  const OPENCLAW_ROOT := "/home/node/.openclaw/"

  function BasePath(workspaceBase: string, uuid: string): string {
    workspaceBase + "/" + uuid
  }

  /** container_path_to_host; "" rejects. The check of resolved symlinks is any filter
      of the candidate. */
  function ContainerPathToHost(path: string, base: string, linksInside: string -> bool): string {
    if !StartsWith(path, OPENCLAW_ROOT) then ""
    else
      var candidate := NormPath(JoinPath(base, path[|OPENCLAW_ROOT|..]));
      if candidate != base && !StartsWith(candidate, base + "/") then ""
      else if !linksInside(candidate) then ""
      else candidate
  }

  /*** Containment ***/

  /** Where the rest of the path leads: from base, or anew if it is absolute. */
  function LandingRoot(base: string, rest: string): nat {
    if rest != "" && rest[0] == '/' then RootOf(rest) else RootOf(base)
  }

  function Landing(base: string, rest: string): seq<string> {
    if rest != "" && rest[0] == '/' then Fold([], Split(rest), true)
    else Fold(Comps(base), Split(rest), RootOf(base) > 0)
  }

  lemma BaseEndsInName(workspaceBase: string, uuid: string)
    requires IsPlain(uuid)
    ensures EndsInName(BasePath(workspaceBase, uuid))
  {
    SplitConcat(workspaceBase, uuid);
    SplitNoSlash(uuid);
  }

  lemma CandidateLands(base: string, rest: string)
    requires EndsInName(base)
    ensures NormPath(JoinPath(base, rest)) == Render(LandingRoot(base, rest), Landing(base, rest))
    ensures Parts(LandingRoot(base, rest), Landing(base, rest))
  {
    NamedEnd(base);
    PartsOf(JoinPath(base, rest));
    if !(rest != "" && rest[0] == '/') {
      NormPathBelow(base, rest);
      PartsOf(base);
      SplitPieces(rest);
      FoldClean(Comps(base), Split(rest), RootOf(base) > 0);
    }
  }

  /** Before the symlink check a path is accepted exactly when folding its components
      over the base, popping on ".." and restarting on an absolute tail, ends inside
      the base; and the base itself is written in normal form. */
  lemma AcceptedIffInside(path: string, workspaceBase: string, uuid: string, linksInside: string -> bool)
    requires IsPlain(uuid)
    ensures var base := BasePath(workspaceBase, uuid);
            ContainerPathToHost(path, base, linksInside) != "" <==>
              StartsWith(path, OPENCLAW_ROOT) &&
              var rest := path[|OPENCLAW_ROOT|..];
              && Normalised(base)
              && LandingRoot(base, rest) == RootOf(base) && Beneath(Comps(base), Landing(base, rest))
              && linksInside(Render(LandingRoot(base, rest), Landing(base, rest)))
  {
    var base := BasePath(workspaceBase, uuid);
    BaseEndsInName(workspaceBase, uuid);
    if StartsWith(path, OPENCLAW_ROOT) {
      var rest := path[|OPENCLAW_ROOT|..];
      CandidateLands(base, rest);
      StartsAtBase(LandingRoot(base, rest), Landing(base, rest), base);
      RenderNotEmpty(LandingRoot(base, rest), Landing(base, rest));
    }
  }

  lemma RenderNotEmpty(root: nat, comps: seq<string>)
    ensures Render(root, comps) != ""
  {
  }

  lemma NoUpAfterName(comps: seq<string>, k: nat, rooted: bool)
    requires Clean(comps, rooted) && 0 < k <= |comps| && IsPlain(comps[k - 1])
    ensures forall i | k <= i < |comps| :: IsPlain(comps[i])
  {
  }

  /** Whatever the path: the result is empty, or a normalised path that is the base or
      lies beneath it component by component, never climbing after it. */
  lemma ResultStaysInside(path: string, workspaceBase: string, uuid: string, linksInside: string -> bool)
    requires IsPlain(uuid)
    ensures var base := BasePath(workspaceBase, uuid);
            var r := ContainerPathToHost(path, base, linksInside);
            r == "" ||
            (&& Normalised(r) && RootOf(r) == RootOf(base)
             && Beneath(Comps(base), Comps(r))
             && (forall i | |Comps(base)| <= i < |Comps(r)| :: IsPlain(Comps(r)[i])))
  {
    var base := BasePath(workspaceBase, uuid);
    var r := ContainerPathToHost(path, base, linksInside);
    if r != "" {
      AcceptedIffInside(path, workspaceBase, uuid, linksInside);
      BaseEndsInName(workspaceBase, uuid);
      NamedEnd(base);
      var rest := path[|OPENCLAW_ROOT|..];
      CandidateLands(base, rest);
      RenderParses(LandingRoot(base, rest), Landing(base, rest));
      var k := |Comps(base)|;
      assert Comps(r)[k - 1] == Comps(base)[k - 1];
      PartsOf(r);
      NoUpAfterName(Comps(r), k, RootOf(r) > 0);
    }
  }

  predicate Accepts(path: string, base: string) { ContainerPathToHost(path, base, _ => true) != "" }

  /** A base that is not in normal form rejects every path, and no other base does. */
  lemma RejectsAllIffNotNormalised(workspaceBase: string, uuid: string)
    requires IsPlain(uuid)
    ensures var base := BasePath(workspaceBase, uuid);
            Normalised(base) <==> exists path :: Accepts(path, base)
  {
    var base := BasePath(workspaceBase, uuid);
    if Normalised(base) {
      BaseEndsInName(workspaceBase, uuid);
      NamedEnd(base);
      JoinPathEmpty(base);
      NormPathBelow(base, "");
      var rooted := RootOf(base) > 0;
      assert Fold(Comps(base), [""], rooted) == Fold1(Fold(Comps(base), [], rooted), "", rooted);
      assert OPENCLAW_ROOT[|OPENCLAW_ROOT|..] == "";
      assert Accepts(OPENCLAW_ROOT, base);
    }
    forall path | Accepts(path, base)
      ensures Normalised(base)
    {
      AcceptedIffInside(path, workspaceBase, uuid, _ => true);
    }
  }

  lemma JoinPathEmpty(base: string)
    requires base != "" && base[|base| - 1] != '/'
    ensures JoinPath(base, "") == base + "/" + ""
  {
  }

  lemma SlashPair(w: string, uuid: string)
    requires NoSlash(uuid)
    ensures Split(BasePath(w + "/", uuid)) == Split(w) + ([""] + [uuid])
  {
    SplitConcat(w + "/", uuid);
    SplitSnoc(w, '/');
    SplitNoSlash(uuid);
  }

  /** An empty piece among a normalised path's pieces is one of its root's slashes. */
  lemma EmptyPieceIsRoot(before: seq<string>, last: string, root: nat, comps: seq<string>)
    requires before != [] && root <= 2 && comps != [] && Clean(comps, root > 0)
    requires before + ([""] + [last]) == Empties(root) + comps
    ensures root == 2 && before == [""]
  {
    var pieces := before + ([""] + [last]);
    assert pieces[|before|] == "";
    assert pieces[0] == before[0];
  }

  lemma DoubleSlashIsRoot(w: string, uuid: string)
    requires IsPlain(uuid) && Normalised(BasePath(w + "/", uuid))
    ensures w == ""
  {
    var base := BasePath(w + "/", uuid);
    BaseEndsInName(w + "/", uuid);
    NamedEnd(base);
    PartsOf(base);
    SplitRender(RootOf(base), Comps(base));
    SlashPair(w, uuid);
    EmptyPieceIsRoot(Split(w), uuid, RootOf(base), Comps(base));
    SplitInjective(w, "");
  }

  lemma RootBaseIsNormalised(uuid: string)
    requires IsPlain(uuid)
    ensures Normalised(BasePath("/", uuid))
  {
    RenderParses(2, [uuid]);
    assert Slashes(2) + uuid == BasePath("/", uuid);
  }

  lemma SlashedIffRoot(w: string, uuid: string)
    requires IsPlain(uuid)
    ensures Normalised(BasePath(w + "/", uuid)) <==> w == ""
  {
    if w == "" {
      assert w + "/" == "/";
      RootBaseIsNormalised(uuid);
    }
    if Normalised(BasePath(w + "/", uuid)) {
      DoubleSlashIsRoot(w, uuid);
    }
  }

  /** A workspace base that ends in a slash is one such, so that nothing is ever accepted,
      unless it is "/" alone: two leading slashes are a normal form. */
  lemma TrailingSlashAcceptsIffRoot(workspaceBase: string, uuid: string)
    requires IsPlain(uuid) && workspaceBase != "" && workspaceBase[|workspaceBase| - 1] == '/'
    ensures (exists path :: Accepts(path, BasePath(workspaceBase, uuid))) <==> workspaceBase == "/"
  {
    var w := workspaceBase[..|workspaceBase| - 1];
    assert workspaceBase == w + "/";
    SlashedIffRoot(w, uuid);
    RejectsAllIffNotNormalised(workspaceBase, uuid);
  }

  /*** Where paths lead ***/

  lemma RestOf(rest: string)
    ensures StartsWith("/home/node/.openclaw/" + rest, OPENCLAW_ROOT)
    ensures ("/home/node/.openclaw/" + rest)[|OPENCLAW_ROOT|..] == rest
  {
  }

  /** Two rests that land in one place are translated alike. */
  lemma SameLanding(a: string, b: string, workspaceBase: string, uuid: string, linksInside: string -> bool)
    requires IsPlain(uuid)
    requires var base := BasePath(workspaceBase, uuid);
             LandingRoot(base, a) == LandingRoot(base, b) && Landing(base, a) == Landing(base, b)
    ensures ContainerPathToHost("/home/node/.openclaw/" + a, BasePath(workspaceBase, uuid), linksInside)
         == ContainerPathToHost("/home/node/.openclaw/" + b, BasePath(workspaceBase, uuid), linksInside)
  {
    var base := BasePath(workspaceBase, uuid);
    BaseEndsInName(workspaceBase, uuid);
    RestOf(a);
    RestOf(b);
    CandidateLands(base, a);
    CandidateLands(base, b);
  }

  lemma {:induction false} FoldAllPlain(comps: seq<string>, more: seq<string>, rooted: bool)
    requires forall i | 0 <= i < |more| :: IsPlain(more[i])
    ensures Fold(comps, more, rooted) == comps + more
  {
    if more == [] {
      assert comps + more == comps;
    } else {
      var front, last := more[..|more| - 1], more[|more| - 1];
      FoldAllPlain(comps, front, rooted);
      assert more == front + [last];
      assert comps + front + [last] == comps + more;
    }
  }

  lemma JoinedLands(pieces: seq<string>, base: string)
    requires pieces != [] && pieces[0] != "" && forall i | 0 <= i < |pieces| :: NoSlash(pieces[i])
    ensures Landing(base, Join(pieces)) == Fold(Comps(base), pieces, RootOf(base) > 0)
    ensures LandingRoot(base, Join(pieces)) == RootOf(base)
  {
    SplitJoin(pieces);
    JoinHead(pieces);
    assert pieces[0][0] in pieces[0];
  }

  /** The translation in terms of where the rest lands, without a link filter. */
  lemma TranslatedTo(rest: string, workspaceBase: string, uuid: string)
    requires IsPlain(uuid)
    ensures var base := BasePath(workspaceBase, uuid);
            ContainerPathToHost("/home/node/.openclaw/" + rest, base, _ => true) ==
            (if Normalised(base) && LandingRoot(base, rest) == RootOf(base) && Beneath(Comps(base), Landing(base, rest))
             then Render(RootOf(base), Landing(base, rest)) else "")
  {
    BaseEndsInName(workspaceBase, uuid);
    RestOf(rest);
    CandidateLands(BasePath(workspaceBase, uuid), rest);
    AcceptedIffInside("/home/node/.openclaw/" + rest, workspaceBase, uuid, _ => true);
  }

  /** A path of plain names is the base with those names behind it. */
  lemma PlainPathTranslates(names: seq<string>, workspaceBase: string, uuid: string)
    requires IsPlain(uuid) && Normalised(BasePath(workspaceBase, uuid))
    requires names != [] && forall i | 0 <= i < |names| :: IsPlain(names[i])
    ensures ContainerPathToHost("/home/node/.openclaw/" + Join(names), BasePath(workspaceBase, uuid), _ => true)
         == BasePath(workspaceBase, uuid) + "/" + Join(names)
  {
    var base := BasePath(workspaceBase, uuid);
    JoinedLands(names, base);
    FoldAllPlain(Comps(base), names, RootOf(base) > 0);
    TranslatedTo(Join(names), workspaceBase, uuid);
    NamesBehindBase(names, workspaceBase, uuid);
  }

  lemma NamesBehindBase(names: seq<string>, workspaceBase: string, uuid: string)
    requires IsPlain(uuid) && Normalised(BasePath(workspaceBase, uuid))
    requires names != [] && forall i | 0 <= i < |names| :: IsPlain(names[i])
    ensures var base := BasePath(workspaceBase, uuid);
            Render(RootOf(base), Comps(base) + names) == base + "/" + Join(names)
  {
    var base := BasePath(workspaceBase, uuid);
    BaseEndsInName(workspaceBase, uuid);
    NamedEnd(base);
    PartsOf(base);
    CleanThenPlain(Comps(base), names, RootOf(base) > 0);
    RenderLonger(RootOf(base), Comps(base), names);
  }

  lemma CleanThenPlain(comps: seq<string>, names: seq<string>, rooted: bool)
    requires Clean(comps, rooted) && forall i | 0 <= i < |names| :: IsPlain(names[i])
    ensures Clean(comps + names, rooted)
  {
  }

  lemma SplitMiddle(a: string, mid: string, b: string)
    ensures Split(a + "/" + (mid + "/" + b)) == Split(a) + (Split(mid) + Split(b))
    ensures Split(a + "/" + b) == Split(a) + Split(b)
  {
    SplitConcat(a, mid + "/" + b);
    SplitConcat(mid, b);
    SplitConcat(a, b);
  }

  /** Pieces that fold to nothing may be left out of the middle of a path. */
  lemma MiddleDrops(a: string, mid: string, b: string, base: string)
    requires a != "" && a[0] != '/'
    requires forall comps: seq<string>, rooted :: Fold(comps, Split(mid), rooted) == comps
    ensures LandingRoot(base, a + "/" + (mid + "/" + b)) == LandingRoot(base, a + "/" + b)
    ensures Landing(base, a + "/" + (mid + "/" + b)) == Landing(base, a + "/" + b)
  {
    var rooted := RootOf(base) > 0;
    SplitMiddle(a, mid, b);
    FoldConcat(Comps(base), Split(a), Split(mid) + Split(b), rooted);
    FoldConcat(Fold(Comps(base), Split(a), rooted), Split(mid), Split(b), rooted);
    FoldConcat(Comps(base), Split(a), Split(b), rooted);
  }

  lemma FoldOfDown(comps: seq<string>, c: string, rooted: bool)
    requires IsPlain(c)
    ensures Fold(comps, [c] + [".."], rooted) == comps
  {
    assert ([c] + [".."])[..1] == [c] && [c][..0] == [];
    assert Fold(comps, [c], rooted) == comps + [c];
  }

  lemma FoldOfIdle(comps: seq<string>, c: string, rooted: bool)
    requires c == "" || c == "."
    ensures Fold(comps, [c], rooted) == comps
  {
    assert [c][..0] == [];
  }

  /** Going into a directory and out of it again changes nothing. */
  lemma UpCancelsName(a: string, c: string, b: string, workspaceBase: string, uuid: string, linksInside: string -> bool)
    requires IsPlain(uuid) && IsPlain(c) && a != "" && a[0] != '/'
    ensures ContainerPathToHost("/home/node/.openclaw/" + (a + "/" + (c + "/.." + "/" + b)),
                                BasePath(workspaceBase, uuid), linksInside)
         == ContainerPathToHost("/home/node/.openclaw/" + (a + "/" + b), BasePath(workspaceBase, uuid), linksInside)
  {
    var mid := c + "/..";
    SplitNoSlash(c);
    SplitNoSlash("..");
    SplitConcat(c, "..");
    assert c + "/" + ".." == mid;
    forall comps: seq<string>, rooted
      ensures Fold(comps, Split(mid), rooted) == comps
    {
      FoldOfDown(comps, c, rooted);
    }
    MiddleDrops(a, mid, b, BasePath(workspaceBase, uuid));
    SameLanding(a + "/" + (mid + "/" + b), a + "/" + b, workspaceBase, uuid, linksInside);
  }

  /** Nor do doubled slashes and dots. */
  lemma IdlePiecesDrop(a: string, c: string, b: string, workspaceBase: string, uuid: string,
                       linksInside: string -> bool)
    requires IsPlain(uuid) && (c == "" || c == ".") && a != "" && a[0] != '/'
    ensures ContainerPathToHost("/home/node/.openclaw/" + (a + "/" + (c + "/" + b)),
                                BasePath(workspaceBase, uuid), linksInside)
         == ContainerPathToHost("/home/node/.openclaw/" + (a + "/" + b), BasePath(workspaceBase, uuid), linksInside)
  {
    SplitNoSlash(c);
    forall comps: seq<string>, rooted
      ensures Fold(comps, Split(c), rooted) == comps
    {
      FoldOfIdle(comps, c, rooted);
    }
    MiddleDrops(a, c, b, BasePath(workspaceBase, uuid));
    SameLanding(a + "/" + (c + "/" + b), a + "/" + b, workspaceBase, uuid, linksInside);
  }

  /** Another tenant's directory beside the base is out of reach. */
  lemma SiblingIsRejected(other: string, names: seq<string>, workspaceBase: string, uuid: string)
    requires IsPlain(uuid) && IsPlain(other) && other != uuid
    requires forall i | 0 <= i < |names| :: IsPlain(names[i])
    ensures ContainerPathToHost("/home/node/.openclaw/" + Join([".."] + ([other] + names)),
                                BasePath(workspaceBase, uuid), _ => true) == ""
  {
    var base, pieces := BasePath(workspaceBase, uuid), [".."] + ([other] + names);
    BaseEndsInName(workspaceBase, uuid);
    NamedEnd(base);
    SplitConcat(workspaceBase, uuid);
    SplitNoSlash(uuid);
    UpIsNoSlash(other, names);
    JoinedLands(pieces, base);
    SiblingLands(Comps(base), other, names, RootOf(base) > 0);
    TranslatedTo(Join(pieces), workspaceBase, uuid);
  }

  lemma UpIsNoSlash(other: string, names: seq<string>)
    requires IsPlain(other) && forall i | 0 <= i < |names| :: IsPlain(names[i])
    ensures var pieces := [".."] + ([other] + names);
            pieces[0] != "" && forall i | 0 <= i < |pieces| :: NoSlash(pieces[i])
  {
  }

  lemma SiblingLands(comps: seq<string>, other: string, names: seq<string>, rooted: bool)
    requires comps != [] && IsPlain(comps[|comps| - 1]) && IsPlain(other) && other != comps[|comps| - 1]
    requires forall i | 0 <= i < |names| :: IsPlain(names[i])
    ensures !Beneath(comps, Fold(comps, [".."] + ([other] + names), rooted))
  {
    var up := comps[..|comps| - 1];
    FoldConcat(comps, [".."], [other] + names, rooted);
    assert [".."][..0] == [];
    assert Fold(comps, [".."], rooted) == up;
    FoldAllPlain(up, [other] + names, rooted);
    assert (up + ([other] + names))[|comps| - 1] == other;
  }

  /*** Names ***/

  predicate IsControl(c: char) { c as int < 0x20 || c as int == 0x7f }

  function ReplaceBackslashes(s: string): (r: string)
    ensures |r| == |s| && forall i | 0 <= i < |s| :: r[i] == if s[i] == '\\' then '/' else s[i]
  {
    seq(|s|, i requires 0 <= i < |s| => if s[i] == '\\' then '/' else s[i])
  }

  /** os.path.basename */
  function BaseName(s: string): string {
    if s == "" then ""
    else if s[|s| - 1] == '/' then ""
    else BaseName(s[..|s| - 1]) + [s[|s| - 1]]
  }

  function RemoveControls(s: string): string {
    if s == "" then ""
    else
      var rest := RemoveControls(s[..|s| - 1]);
      if IsControl(s[|s| - 1]) then rest else rest + [s[|s| - 1]]
  }

  /** lstrip(". ") */
  function LStripDots(s: string): string {
    if s != "" && (s[0] == '.' || s[0] == ' ') then LStripDots(s[1..]) else s
  }

  function SanitizeFilename(name: string, fallback: string): string {
    if name == "" then fallback
    else
      var clean := LStripDots(RemoveControls(BaseName(ReplaceBackslashes(name))));
      if clean == "" then fallback else clean
  }

  predicate SafeChar(c: char) { c != '/' && c != '\\' && !IsControl(c) }

  predicate SafeChars(s: string) { forall i | 0 <= i < |s| :: SafeChar(s[i]) }

  /** One visible component: no separator, no control character, no leading dot or space. */
  predicate SafeName(s: string) { s != "" && SafeChars(s) && s[0] != '.' && s[0] != ' ' }

  lemma SafeIsPlain(s: string)
    requires SafeName(s)
    ensures IsPlain(s)
  {
  }

  lemma {:induction false} BaseNameConcat(dir: string, c: string)
    requires NoSlash(c)
    ensures BaseName(dir + "/" + c) == c && BaseName(c) == c
  {
    if c != "" {
      BaseNameConcat(dir, c[..|c| - 1]);
      SlashSnoc(dir, c);
      assert (dir + "/" + c)[..|dir + "/" + c| - 1] == dir + "/" + c[..|c| - 1];
    }
  }

  lemma {:induction false} BaseNameNoSlash(s: string)
    ensures NoSlash(BaseName(s))
    ensures forall c | c in BaseName(s) :: c in s
  {
    if s != "" && s[|s| - 1] != '/' {
      BaseNameNoSlash(s[..|s| - 1]);
    }
  }

  lemma {:induction false} RemoveControlsEffect(s: string)
    ensures forall c :: c in RemoveControls(s) <==> c in s && !IsControl(c)
    ensures (forall c | c in s :: !IsControl(c)) ==> RemoveControls(s) == s
  {
    if s != "" {
      RemoveControlsEffect(s[..|s| - 1]);
      assert s == s[..|s| - 1] + [s[|s| - 1]];
    }
  }

  lemma {:induction false} LStripDotsEffect(s: string)
    ensures forall c | c in LStripDots(s) :: c in s
    ensures LStripDots(s) != "" ==> LStripDots(s)[0] != '.' && LStripDots(s)[0] != ' '
  {
    if s != "" && (s[0] == '.' || s[0] == ' ') {
      LStripDotsEffect(s[1..]);
    }
  }

  /** Any name at all is made safe, given a safe fallback. */
  lemma SanitizeIsSafe(name: string, fallback: string)
    ensures SanitizeFilename(name, fallback) == fallback || SafeName(SanitizeFilename(name, fallback))
  {
    var slashed := ReplaceBackslashes(name);
    var base := BaseName(slashed);
    BaseNameNoSlash(slashed);
    RemoveControlsEffect(base);
    LStripDotsEffect(RemoveControls(base));
    var clean := LStripDots(RemoveControls(base));
    assert forall c | c in clean :: c in base && !IsControl(c);
    assert forall c | c in slashed :: c != '\\';
    assert forall i | 0 <= i < |clean| :: clean[i] in clean;
  }

  lemma {:induction false} LStripDotsConcat(lead: string, name: string)
    requires forall i | 0 <= i < |lead| :: lead[i] == '.' || lead[i] == ' '
    requires name != "" ==> name[0] != '.' && name[0] != ' '
    ensures LStripDots(lead + name) == name
  {
    if lead == "" {
      assert lead + name == name;
    } else {
      assert (lead + name)[1..] == lead[1..] + name;
      LStripDotsConcat(lead[1..], name);
    }
  }

  lemma RemoveControlsNone(s: string)
    requires SafeChars(s)
    ensures RemoveControls(s) == s
  {
    RemoveControlsEffect(s);
    assert forall c | c in s :: !IsControl(c);
  }

  lemma ReplaceNone(s: string)
    requires SafeChars(s)
    ensures ReplaceBackslashes(s) == s && NoSlash(s)
  {
  }

  lemma LeadIsSafe(lead: string, name: string)
    requires SafeName(name) && forall i | 0 <= i < |lead| :: lead[i] == '.' || lead[i] == ' '
    ensures SafeChars(lead + name)
  {
    var s := lead + name;
    forall i | 0 <= i < |s|
      ensures SafeChar(s[i])
    {
      if i < |lead| { assert s[i] == lead[i]; } else { assert s[i] == name[i - |lead|]; }
    }
  }

  /** Directories of either kind, and leading dots and spaces, come off a safe name, and
      nothing else does. */
  lemma SanitizeStrips(dir: string, separator: char, lead: string, name: string, fallback: string)
    requires SafeName(name) && (separator == '/' || separator == '\\')
    requires forall i | 0 <= i < |lead| :: lead[i] == '.' || lead[i] == ' '
    ensures SanitizeFilename(dir + [separator] + (lead + name), fallback) == name
    ensures SanitizeFilename(lead + name, fallback) == name
  {
    var rest := lead + name;
    LeadIsSafe(lead, name);
    ReplaceNone(rest);
    assert ReplaceBackslashes(dir + [separator] + rest) == ReplaceBackslashes(dir) + "/" + rest;
    BaseNameConcat(ReplaceBackslashes(dir), rest);
    RemoveControlsNone(rest);
    LStripDotsConcat(lead, name);
  }

  /** Exactly the safe names are left alone; so sanitizing twice is sanitizing once. */
  lemma SanitizeKeepsExactlySafe(name: string, fallback: string)
    requires fallback != name
    ensures SanitizeFilename(name, fallback) == name <==> SafeName(name)
  {
    SanitizeIsSafe(name, fallback);
    if SafeName(name) {
      SanitizeStrips("", '/', "", name, fallback);
      assert "" + name == name;
    }
  }

  lemma SanitizeIdempotent(name: string, fallback: string)
    requires SafeName(fallback)
    ensures SanitizeFilename(SanitizeFilename(name, fallback), fallback) == SanitizeFilename(name, fallback)
  {
    var r := SanitizeFilename(name, fallback);
    SanitizeIsSafe(name, fallback);
    if r != fallback {
      SanitizeKeepsExactlySafe(r, fallback);
    } else {
      SanitizeStrips("", '/', "", r, fallback);
      assert "" + r == r;
    }
  }

  lemma {:induction false} BaseNameSnoc(s: string, c: char)
    ensures BaseName(s + [c]) == if c == '/' then "" else BaseName(s) + [c]
  {
    assert (s + [c])[..|s|] == s;
  }

  lemma RemoveControlsSnoc(s: string, c: char)
    ensures RemoveControls(s + [c]) == if IsControl(c) then RemoveControls(s) else RemoveControls(s) + [c]
  {
    assert (s + [c])[..|s|] == s;
  }

  /** What is left of a name before the leading dots and spaces go. */
  function Visible(name: string): string {
    RemoveControls(BaseName(ReplaceBackslashes(name)))
  }

  lemma VisibleSnoc(s: string, c: char)
    ensures Visible(s + [c]) == if c == '/' || c == '\\' then ""
                                else if IsControl(c) then Visible(s) else Visible(s) + [c]
  {
    var r := ReplaceBackslashes(s + [c]);
    assert r == ReplaceBackslashes(s) + [if c == '\\' then '/' else c];
    BaseNameSnoc(ReplaceBackslashes(s), if c == '\\' then '/' else c);
    RemoveControlsSnoc(BaseName(ReplaceBackslashes(s)), c);
  }

  lemma {:induction false} ControlVanishes(a: string, c: char, b: string)
    requires IsControl(c)
    ensures Visible(a + [c] + b) == Visible(a + b)
  {
    if b == "" {
      assert a + [c] + b == a + [c] && a + b == a;
      VisibleSnoc(a, c);
    } else {
      var front, last := b[..|b| - 1], b[|b| - 1];
      assert a + [c] + b == (a + [c] + front) + [last] && a + b == (a + front) + [last];
      VisibleSnoc(a + [c] + front, last);
      VisibleSnoc(a + front, last);
      ControlVanishes(a, c, front);
    }
  }

  /** A control character anywhere in a name makes no difference to what it becomes. */
  lemma SanitizeIgnoresControls(a: string, c: char, b: string, fallback: string)
    requires IsControl(c)
    ensures SanitizeFilename(a + [c] + b, fallback) == SanitizeFilename(a + b, fallback)
  {
    ControlVanishes(a, c, b);
    assert ReplaceBackslashes("") == "";
  }
}
