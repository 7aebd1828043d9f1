/** Downloading attachments (src/services/file_manager.py): the name and the two paths
    each gets, and that the container's path leads back to the host's. */
module Attachments {
  import opened PyText
  import opened PosixPath
  import opened FilePaths

  const CONTAINER_WORKSPACE_ROOT := "/home/node/.openclaw/workspace"

  datatype Downloaded = Downloaded(filename: string, hostPath: string, containerPath: string)

  /** What the server says about a file, and the six random digits drawn for it. */
  datatype Attachment =
    | HttpError(id: string)
    | Info(id: string, name: string, size: int, hex: string)

  /** The index of the last c in s, or -1. */
  function RFind(s: string, c: char): (k: int)
    ensures -1 <= k < |s|
  {
    if s == "" then -1 else if s[|s| - 1] == c then |s| - 1 else RFind(s[..|s| - 1], c)
  }

  /** Where os.path.splitext cuts: before the last dot of the last component, unless
      only dots stand in front of it there. */
  function ExtAt(p: string): (k: nat)
    ensures k <= |p|
  {
    var sep, dot := RFind(p, '/'), RFind(p, '.');
    if dot > sep && exists i :: sep < i < dot && p[i] != '.' then dot else |p|
  }

  /** `{base}_{hex}{ext}` */
  function Suffixed(filename: string, hex: string): string {
    filename[..ExtAt(filename)] + "_" + hex + filename[ExtAt(filename)..]
  }

  function HostDir(base: string): string {
    base + "/workspace/downloads"
  }

  function RawName(a: Attachment): string
    requires a.Info?
  {
    if a.name == "" then a.id else a.name
  }

  function PlainName(a: Attachment): string
    requires a.Info?
  {
    SanitizeFilename(RawName(a), a.id)
  }

  function FinalName(a: Attachment, base: string, disk: set<string>): string
    requires a.Info?
  {
    if JoinPath(HostDir(base), PlainName(a)) in disk then Suffixed(PlainName(a), a.hex) else PlainName(a)
  }

  function Download(a: Attachment, base: string, disk: set<string>): Downloaded
    requires a.Info?
  {
    var filename := FinalName(a, base, disk);
    Downloaded(filename, JoinPath(HostDir(base), filename), CONTAINER_WORKSPACE_ROOT + "/downloads/" + filename)
  }

  predicate Taken(a: Attachment, maxBytes: int) {
    a.Info? && a.size <= maxBytes
  }

  /** All of them in order, each seeing the files written before it. */
  function DownloadAll(files: seq<Attachment>, base: string, maxBytes: int, disk: set<string>)
    : (seq<Downloaded>, set<string>)
  {
    if files == [] then ([], disk)
    else
      var before := DownloadAll(files[..|files| - 1], base, maxBytes, disk);
      var a := files[|files| - 1];
      if Taken(a, maxBytes) then
        var d := Download(a, base, before.1);
        (before.0 + [d], before.1 + {d.hostPath})
      else before
  }

  /*** The names ***/

  predicate SafeAttachment(a: Attachment) {
    a.Info? && SafeName(a.id) && SafeChars(a.hex)
  }

  lemma SuffixedIsSafe(filename: string, hex: string)
    requires SafeName(filename) && SafeChars(hex)
    ensures SafeName(Suffixed(filename, hex))
  {
    var k := ExtAt(filename);
    assert k > 0;
    var s := Suffixed(filename, hex);
    assert s[0] == filename[0];
    forall i | 0 <= i < |s|
      ensures SafeChar(s[i])
    {
      if i < k {
        assert s[i] == filename[i];
      } else if i == k {
        assert s[i] == '_';
      } else if i <= k + |hex| {
        assert s[i] == hex[i - k - 1];
      } else {
        assert s[i] == filename[i - |hex| - 1];
      }
    }
  }

  lemma FinalNameIsSafe(a: Attachment, base: string, disk: set<string>)
    requires SafeAttachment(a)
    ensures SafeName(FinalName(a, base, disk))
  {
    SanitizeIsSafe(RawName(a), a.id);
    SuffixedIsSafe(PlainName(a), a.hex);
  }

  /** A download overwrites a file exactly when both its name and its suffixed name are
      taken: the second one is not checked. */
  lemma OverwritesIff(a: Attachment, base: string, disk: set<string>)
    requires a.Info?
    ensures Download(a, base, disk).hostPath in disk <==>
              && JoinPath(HostDir(base), PlainName(a)) in disk
              && JoinPath(HostDir(base), Suffixed(PlainName(a), a.hex)) in disk
  {
  }

  lemma {:induction false} RFindLast(a: string, c: char, b: string)
    requires c !in b
    ensures RFind(a + [c] + b, c) == |a|
  {
    var s := a + [c] + b;
    if b == "" {
      assert s[|s| - 1] == c;
    } else {
      assert s[|s| - 1] == b[|b| - 1] && b[|b| - 1] in b;
      assert s[..|s| - 1] == a + [c] + b[..|b| - 1];
      RFindLast(a, c, b[..|b| - 1]);
    }
  }

  lemma {:induction false} RFindNone(s: string, c: char)
    requires c !in s
    ensures RFind(s, c) == -1
  {
    if s != "" {
      assert s[|s| - 1] in s;
      RFindNone(s[..|s| - 1], c);
    }
  }

  /** The suffix goes in front of the last extension, */
  lemma SuffixBeforeExtension(stem: string, ext: string, hex: string, i: nat)
    requires '/' !in stem && '/' !in ext && '.' !in ext && i < |stem| && stem[i] != '.'
    ensures Suffixed(stem + ['.'] + ext, hex) == stem + "_" + hex + (['.'] + ext)
  {
    var name := stem + ['.'] + ext;
    RFindLast(stem, '.', ext);
    assert '/' !in name;
    RFindNone(name, '/');
    assert name[i] == stem[i];
    assert ExtAt(name) == |stem|;
    assert name[..|stem|] == stem && name[|stem|..] == ['.'] + ext;
  }

  /** and at the end of a name without one. */
  lemma SuffixWithoutExtension(name: string, hex: string)
    requires '/' !in name && '.' !in name
    ensures Suffixed(name, hex) == name + "_" + hex
  {
    RFindNone(name, '/');
    RFindNone(name, '.');
    assert name[..|name|] == name && name[|name|..] == "";
    assert name + "_" + hex + "" == name + "_" + hex;
  }

  /** Where a download goes: both paths end in its name, which is the sanitized name of the
      file, or its id when it has none, suffixed exactly when that is taken. */
  lemma DownloadGoesTo(a: Attachment, base: string, disk: set<string>)
    requires SafeAttachment(a)
    ensures var d := Download(a, base, disk);
            var name := SanitizeFilename(if a.name == "" then a.id else a.name, a.id);
            && d.hostPath == base + "/workspace/downloads/" + d.filename
            && d.containerPath == "/home/node/.openclaw/workspace/downloads/" + d.filename
            && d.filename == (if base + "/workspace/downloads/" + name in disk then Suffixed(name, a.hex) else name)
  {
    FinalNameIsSafe(a, base, disk);
    SanitizeIsSafe(RawName(a), a.id);
    InDownloads(base, PlainName(a));
    InDownloads(base, FinalName(a, base, disk));
    ContainerDownloads();
  }

  lemma InDownloads(base: string, filename: string)
    requires SafeName(filename)
    ensures JoinPath(HostDir(base), filename) == base + "/workspace/downloads/" + filename
  {
    var dir := HostDir(base);
    assert dir[|dir| - 1] == 's';
    assert base + "/workspace/downloads/" == dir + "/";
  }

  lemma ContainerDownloads()
    ensures CONTAINER_WORKSPACE_ROOT + "/downloads/" == "/home/node/.openclaw/workspace/downloads/"
  {
  }

  /*** When nothing is overwritten ***/

  /** The two paths a file may be written to. */
  datatype Claim = Claim(plain: string, suffixed: string)

  function ClaimOf(a: Attachment, base: string): Claim
    requires a.Info?
  {
    Claim(JoinPath(HostDir(base), PlainName(a)), JoinPath(HostDir(base), Suffixed(PlainName(a), a.hex)))
  }

  /** Those of the files that are downloaded, in order. */
  function Claims(files: seq<Attachment>, base: string, maxBytes: int): seq<Claim> {
    if files == [] then []
    else
      var before := Claims(files[..|files| - 1], base, maxBytes);
      var a := files[|files| - 1];
      if Taken(a, maxBytes) then before + [ClaimOf(a, base)] else before
  }

  /** File k finds its plain path taken: by an older file, by an earlier file of that
      name, or by the suffixed name of an earlier file that was crowded itself. */
  ghost predicate Crowded(cs: seq<Claim>, disk: set<string>, k: nat)
    requires k < |cs|
    decreases k, 1
  {
    cs[k].plain in disk || Reserved(cs, disk, k, cs[k].plain)
  }

  /** One of the first n files puts this path out of reach. */
  ghost predicate Reserved(cs: seq<Claim>, disk: set<string>, n: nat, path: string)
    requires n <= |cs|
    decreases n, 0
  {
    exists i :: 0 <= i < n && Claimed(cs, disk, i, path)
  }

  ghost predicate Claimed(cs: seq<Claim>, disk: set<string>, i: nat, path: string)
    requires i < |cs|
    decreases i, 2
  {
    cs[i].plain == path || (Crowded(cs, disk, i) && cs[i].suffixed == path)
  }

  /** A crowded file finds its suffixed path free. */
  ghost predicate Clear(cs: seq<Claim>, disk: set<string>, k: nat)
    requires k < |cs|
  {
    Crowded(cs, disk, k) ==> cs[k].suffixed !in disk && !Reserved(cs, disk, k, cs[k].suffixed)
  }

  ghost predicate AllClear(cs: seq<Claim>, disk: set<string>) {
    forall k | 0 <= k < |cs| :: Clear(cs, disk, k)
  }

  /** Every file written is new: not on the disk before, and not written twice. */
  ghost predicate NewAndDistinct(ds: seq<Downloaded>, disk: set<string>) {
    && (forall i | 0 <= i < |ds| :: ds[i].hostPath !in disk)
    && (forall i, j | 0 <= i < j < |ds| :: ds[i].hostPath != ds[j].hostPath)
  }

  /** Only earlier files decide. */
  lemma {:induction false} CrowdedPrefix(cs: seq<Claim>, c: Claim, disk: set<string>, k: nat)
    requires k < |cs|
    ensures Crowded(cs + [c], disk, k) <==> Crowded(cs, disk, k)
    decreases k, 1
  {
    ReservedPrefix(cs, c, disk, k, cs[k].plain);
  }

  lemma {:induction false} ReservedPrefix(cs: seq<Claim>, c: Claim, disk: set<string>, n: nat, path: string)
    requires n <= |cs|
    ensures Reserved(cs + [c], disk, n, path) <==> Reserved(cs, disk, n, path)
    decreases n, 0
  {
    forall i: nat | i < n
      ensures Claimed(cs + [c], disk, i, path) <==> Claimed(cs, disk, i, path)
    {
      CrowdedPrefix(cs, c, disk, i);
    }
  }

  lemma ReservedBy(cs: seq<Claim>, disk: set<string>, n: nat, path: string) returns (i: nat)
    requires n <= |cs| && Reserved(cs, disk, n, path)
    ensures i < n && Claimed(cs, disk, i, path)
  {
    i :| 0 <= i < n && Claimed(cs, disk, i, path);
  }

  lemma ReservedSnoc(cs: seq<Claim>, disk: set<string>, n: nat, path: string)
    requires n < |cs|
    ensures Reserved(cs, disk, n + 1, path) <==> Reserved(cs, disk, n, path) || Claimed(cs, disk, n, path)
  {
  }

  function PathOf(c: Claim, crowded: bool): string { if crowded then c.suffixed else c.plain }

  /** What the downloads do, in terms of the claims. */
  ghost predicate Follows(ds: seq<Downloaded>, disk': set<string>, cs: seq<Claim>, disk: set<string>) {
    && |ds| == |cs|
    && (forall k | 0 <= k < |cs| :: ds[k].hostPath == PathOf(cs[k], Crowded(cs, disk, k)))
    && (forall path :: path in disk' <==> path in disk || Reserved(cs, disk, |cs|, path))
  }

  lemma {:induction false} DownloadsFollow(files: seq<Attachment>, base: string, maxBytes: int, disk: set<string>)
    ensures var r := DownloadAll(files, base, maxBytes, disk);
            Follows(r.0, r.1, Claims(files, base, maxBytes), disk)
  {
    if files != [] {
      var before, a := files[..|files| - 1], files[|files| - 1];
      DownloadsFollow(before, base, maxBytes, disk);
      if Taken(a, maxBytes) {
        var r := DownloadAll(before, base, maxBytes, disk);
        FollowsSnoc(r.0, r.1, Claims(before, base, maxBytes), disk, ClaimOf(a, base), Download(a, base, r.1));
      }
    }
  }

  lemma SnocPath(cs: seq<Claim>, disk: set<string>, c: Claim, disk': set<string>, path: string)
    requires forall x :: x in disk' <==> x in disk || Reserved(cs, disk, |cs|, x)
    ensures Crowded(cs + [c], disk, |cs|) <==> c.plain in disk'
    ensures path in disk' + {PathOf(c, c.plain in disk')} <==> path in disk || Reserved(cs + [c], disk, |cs| + 1, path)
  {
    ReservedPrefix(cs, c, disk, |cs|, c.plain);
    ReservedPrefix(cs, c, disk, |cs|, path);
    ReservedSnoc(cs + [c], disk, |cs|, path);
  }

  lemma FollowsSnoc(ds: seq<Downloaded>, disk': set<string>, cs: seq<Claim>, disk: set<string>, c: Claim, d: Downloaded)
    requires Follows(ds, disk', cs, disk) && d.hostPath == PathOf(c, c.plain in disk')
    ensures Follows(ds + [d], disk' + {d.hostPath}, cs + [c], disk)
  {
    var longer := cs + [c];
    SnocPath(cs, disk, c, disk', c.plain);
    forall k | 0 <= k < |longer|
      ensures (ds + [d])[k].hostPath == PathOf(longer[k], Crowded(longer, disk, k))
    {
      if k < |cs| {
        CrowdedPrefix(cs, c, disk, k);
      }
    }
    forall path
      ensures path in disk' + {d.hostPath} <==> path in disk || Reserved(longer, disk, |longer|, path)
    {
      SnocPath(cs, disk, c, disk', path);
    }
  }

  /** Whatever path file i put out of reach was there before, or has been written. */
  lemma {:induction false} ClaimedIsWritten(ds: seq<Downloaded>, disk': set<string>, cs: seq<Claim>, disk: set<string>,
                                            i: nat, path: string)
    requires Follows(ds, disk', cs, disk) && i < |cs| && Claimed(cs, disk, i, path) && path !in disk
    ensures exists j :: 0 <= j <= i && ds[j].hostPath == path
  {
    if ds[i].hostPath != path {
      assert Crowded(cs, disk, i) && cs[i].plain == path;
      var j := ReservedBy(cs, disk, i, path);
      ClaimedIsWritten(ds, disk', cs, disk, j, path);
    }
  }

  lemma NewMeansClear(ds: seq<Downloaded>, disk': set<string>, cs: seq<Claim>, disk: set<string>, k: nat)
    requires Follows(ds, disk', cs, disk) && NewAndDistinct(ds, disk) && k < |cs|
    ensures Clear(cs, disk, k)
  {
    if Crowded(cs, disk, k) && Reserved(cs, disk, k, cs[k].suffixed) {
      var i := ReservedBy(cs, disk, k, cs[k].suffixed);
      assert ds[k].hostPath == cs[k].suffixed;
      ClaimedIsWritten(ds, disk', cs, disk, i, cs[k].suffixed);
    }
  }

  lemma ClearMeansNew(ds: seq<Downloaded>, disk': set<string>, cs: seq<Claim>, disk: set<string>)
    requires Follows(ds, disk', cs, disk) && AllClear(cs, disk)
    ensures NewAndDistinct(ds, disk)
  {
    forall i, j | 0 <= i < j < |ds|
      ensures ds[i].hostPath != ds[j].hostPath
    {
      assert Claimed(cs, disk, i, ds[i].hostPath);
      assert Clear(cs, disk, j);
      if ds[i].hostPath == ds[j].hostPath {
        assert Reserved(cs, disk, j, ds[j].hostPath);
      }
    }
    forall k | 0 <= k < |ds|
      ensures ds[k].hostPath !in disk
    {
      assert Clear(cs, disk, k);
    }
  }

  /** The files of a message overwrite neither one another nor an older file if and only
      if every crowded one finds its suffixed path free: a condition on the names, the
      digits drawn and the disk before the call. */
  lemma OverwritesNothingIffClear(files: seq<Attachment>, base: string, maxBytes: int, disk: set<string>)
    ensures NewAndDistinct(DownloadAll(files, base, maxBytes, disk).0, disk)
       <==> AllClear(Claims(files, base, maxBytes), disk)
  {
    var cs, r := Claims(files, base, maxBytes), DownloadAll(files, base, maxBytes, disk);
    DownloadsFollow(files, base, maxBytes, disk);
    if NewAndDistinct(r.0, disk) {
      forall k | 0 <= k < |cs|
        ensures Clear(cs, disk, k)
      {
        NewMeansClear(r.0, r.1, cs, disk, k);
      }
    }
    if AllClear(cs, disk) {
      ClearMeansNew(r.0, r.1, cs, disk);
    }
  }

  /** No suffixed path is on the disk, is drawn twice, or is a file's plain path. */
  ghost predicate FreshSuffixes(cs: seq<Claim>, disk: set<string>) {
    && (forall k | 0 <= k < |cs| :: cs[k].suffixed !in disk)
    && (forall i, k | 0 <= i < |cs| && 0 <= k < |cs| :: cs[i].plain != cs[k].suffixed)
    && (forall i, k | 0 <= i < k < |cs| :: cs[i].suffixed != cs[k].suffixed)
  }

  /** In particular fresh suffixes are enough, whatever names the files share. */
  lemma NothingOverwritten(files: seq<Attachment>, base: string, maxBytes: int, disk: set<string>)
    requires FreshSuffixes(Claims(files, base, maxBytes), disk)
    ensures NewAndDistinct(DownloadAll(files, base, maxBytes, disk).0, disk)
  {
    var cs := Claims(files, base, maxBytes);
    forall k | 0 <= k < |cs|
      ensures Clear(cs, disk, k)
    {
      if Reserved(cs, disk, k, cs[k].suffixed) {
        var i := ReservedBy(cs, disk, k, cs[k].suffixed);
      }
    }
    OverwritesNothingIffClear(files, base, maxBytes, disk);
  }

  /*** The two routes agree ***/

  function RestPath(filename: string): string {
    "workspace" + "/" + ("downloads" + "/" + filename)
  }

  lemma RootLiteral()
    ensures CONTAINER_WORKSPACE_ROOT == OPENCLAW_ROOT + "workspace"
  {
  }

  lemma FourPieces(root: string, a: string, b: string, c: string)
    ensures root + a + ("/" + b + "/") + c == root + (a + "/" + (b + "/" + c))
  {
  }

  lemma ContainerPathOf(filename: string)
    ensures CONTAINER_WORKSPACE_ROOT + "/downloads/" + filename == OPENCLAW_ROOT + RestPath(filename)
  {
    RootLiteral();
    assert "/downloads/" == "/" + "downloads" + "/";
    FourPieces(OPENCLAW_ROOT, "workspace", "downloads", filename);
  }

  lemma PrefixOff(root: string, rest: string)
    ensures StartsWith(root + rest, root) && (root + rest)[|root|..] == rest
  {
  }

  lemma SplitThree(a: string, b: string, c: string)
    requires NoSlash(a) && NoSlash(b) && NoSlash(c)
    ensures Split(a + "/" + (b + "/" + c)) == [a, b, c]
  {
    SplitConcat(a, b + "/" + c);
    SplitConcat(b, c);
    SplitNoSlash(a);
    SplitNoSlash(b);
    SplitNoSlash(c);
  }

  lemma DirectoriesArePlain()
    ensures IsPlain("workspace") && IsPlain("downloads")
  {
  }

  lemma SplitRest(filename: string)
    requires SafeName(filename)
    ensures Split(RestPath(filename)) == ["workspace", "downloads", filename]
  {
    DirectoriesArePlain();
    SplitThree("workspace", "downloads", filename);
  }

  lemma HostPathOf(base: string, filename: string)
    requires SafeName(filename)
    ensures JoinPath(HostDir(base), filename) == base + "/" + RestPath(filename)
  {
  }

  lemma FoldPlain(comps: seq<string>, a: string, b: string, c: string, rooted: bool)
    requires IsPlain(a) && IsPlain(b) && IsPlain(c)
    ensures Fold(comps, [a, b, c], rooted) == comps + [a, b, c]
  {
    assert [a, b, c][..2] == [a, b] && [a, b][..1] == [a] && [a][..0] == [];
    assert Fold(comps, [a], rooted) == comps + [a];
    assert Fold(comps, [a, b], rooted) == comps + [a, b];
  }

  lemma JoinThree(a: string, b: string, c: string)
    ensures Join([a, b, c]) == a + "/" + (b + "/" + c)
  {
    assert [a, b, c] == [a] + [b, c] && [b, c] == [b] + [c];
    JoinConcat([a], [b, c]);
    JoinConcat([b], [c]);
  }

  lemma LandingOf(base: string, filename: string)
    requires SafeName(filename)
    ensures Landing(base, RestPath(filename)) == Comps(base) + ["workspace", "downloads", filename]
    ensures LandingRoot(base, RestPath(filename)) == RootOf(base)
  {
    SplitRest(filename);
    DirectoriesArePlain();
    SafeIsPlain(filename);
    FoldPlain(Comps(base), "workspace", "downloads", filename, RootOf(base) > 0);
    assert RestPath(filename)[0] == 'w';
  }

  /** Where the container's path leads. */
  lemma DownloadLands(workspaceBase: string, uuid: string, filename: string)
    requires IsPlain(uuid) && SafeName(filename) && Normalised(BasePath(workspaceBase, uuid))
    ensures var base := BasePath(workspaceBase, uuid);
            var rest := RestPath(filename);
            Beneath(Comps(base), Landing(base, rest)) && Render(RootOf(base), Landing(base, rest)) == base + "/" + rest
  {
    var base := BasePath(workspaceBase, uuid);
    BaseEndsInName(workspaceBase, uuid);
    NamedEnd(base);
    LandingOf(base, filename);
    JoinThree("workspace", "downloads", filename);
    CandidateLands(base, RestPath(filename));
    RenderLonger(RootOf(base), Comps(base), ["workspace", "downloads", filename]);
  }

  /** For every raw name, with or without the collision suffix: the container path
      recorded for a download leads back to exactly the host path written, provided the
      base is in normal form and the symlink check lets it pass, and nowhere otherwise. */
  lemma RoutesAgree(a: Attachment, workspaceBase: string, uuid: string, disk: set<string>, linksInside: string -> bool)
    requires SafeAttachment(a) && IsPlain(uuid)
    ensures var base := BasePath(workspaceBase, uuid);
            var d := Download(a, base, disk);
            ContainerPathToHost(d.containerPath, base, linksInside) ==
            (if Normalised(base) && linksInside(d.hostPath) then d.hostPath else "")
  {
    var base := BasePath(workspaceBase, uuid);
    var filename := FinalName(a, base, disk);
    FinalNameIsSafe(a, base, disk);
    ContainerPathOf(filename);
    PrefixOff(OPENCLAW_ROOT, RestPath(filename));
    HostPathOf(base, filename);
    var path := CONTAINER_WORKSPACE_ROOT + "/downloads/" + filename;
    AcceptedIffInside(path, workspaceBase, uuid, linksInside);
    if Normalised(base) {
      DownloadLands(workspaceBase, uuid, filename);
      BaseEndsInName(workspaceBase, uuid);
      CandidateLands(base, path[|OPENCLAW_ROOT|..]);
    }
  }

  predicate LeadsBack(d: Downloaded, base: string) {
    ContainerPathToHost(d.containerPath, base, _ => true) == d.hostPath
  }

  lemma OneLeadsBack(a: Attachment, workspaceBase: string, uuid: string, disk: set<string>)
    requires SafeAttachment(a) && IsPlain(uuid) && Normalised(BasePath(workspaceBase, uuid))
    ensures LeadsBack(Download(a, BasePath(workspaceBase, uuid), disk), BasePath(workspaceBase, uuid))
  {
    RoutesAgree(a, workspaceBase, uuid, disk, _ => true);
  }

  /** So for every file of a whole message. */
  lemma {:induction false} AllRoutesAgree(files: seq<Attachment>, workspaceBase: string, uuid: string, maxBytes: int,
                                          disk: set<string>)
    requires IsPlain(uuid) && Normalised(BasePath(workspaceBase, uuid))
    requires forall a | a in files && a.Info? :: SafeAttachment(a)
    ensures var base := BasePath(workspaceBase, uuid);
            forall d | d in DownloadAll(files, base, maxBytes, disk).0 :: LeadsBack(d, base)
  {
    if files != [] {
      var a := files[|files| - 1];
      assert a in files;
      AllRoutesAgree(files[..|files| - 1], workspaceBase, uuid, maxBytes, disk);
      if Taken(a, maxBytes) {
        OneLeadsBack(a, workspaceBase, uuid,
                     DownloadAll(files[..|files| - 1], BasePath(workspaceBase, uuid), maxBytes, disk).1);
      }
    }
  }

  /*** The methods ***/

  /** None for a file over the limit. */
  method DownloadOne(a: Attachment, hostDir: string, base: string, maxBytes: int, disk: set<string>)
    returns (r: Option<Downloaded>)
    requires a.Info? && hostDir == HostDir(base)
    ensures r.None? <==> a.size > maxBytes
    ensures r.Some? ==> r.value == Download(a, base, disk)
  {
    var rawName := a.name;
    if rawName == "" {
      rawName := a.id;
    }
    var filename := SanitizeFilename(rawName, a.id);
    if a.size > maxBytes {
      return None;
    }
    var hostPath := JoinPath(hostDir, filename);
    if hostPath in disk {
      var k := ExtAt(filename);
      filename := filename[..k] + "_" + a.hex + filename[k..];
      hostPath := JoinPath(hostDir, filename);
    }
    return Some(Downloaded(filename, hostPath, CONTAINER_WORKSPACE_ROOT + "/downloads/" + filename));
  }

  /** Files that fail or are too large are skipped; the rest keep their order. */
  method DownloadAttachments(files: seq<Attachment>, base: string, maxBytes: int, disk: set<string>)
    returns (results: seq<Downloaded>, disk': set<string>)
    ensures (results, disk') == DownloadAll(files, base, maxBytes, disk)
  {
    results, disk' := [], disk;
    for i := 0 to |files|
      invariant (results, disk') == DownloadAll(files[..i], base, maxBytes, disk)
    {
      assert files[..i + 1][..i] == files[..i];
      if files[i].Info? {
        var d := DownloadOne(files[i], HostDir(base), base, maxBytes, disk');
        assert Taken(files[i], maxBytes) <==> d.Some?;
        if d.Some? {
          results := results + [d.value];
          disk' := disk' + {d.value.hostPath};
        }
      }
    }
    assert files[..|files|] == files;
  }
}
