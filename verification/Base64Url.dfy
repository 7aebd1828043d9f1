/** The unpadded base64url pair of src/services/openclaw_client.py: section 5 of
    RFC 4648, with padding dropped as its section 3.2 permits. */
module Base64Url {
  import opened PyText

  type Byte = x: int | 0 <= x < 256
  type Sextet = x: int | 0 <= x < 64

  datatype DecodeError = NotAscii | DataCountIsOneMoreThanFours | IncorrectPadding

  datatype Decoded = Ok(bytes: seq<Byte>) | Err(error: DecodeError)

  /*** The alphabet ***/

  function UrlChar(v: Sextet): char {
    if v < 26 then ('A' as int + v) as char
    else if v < 52 then ('a' as int + v - 26) as char
    else if v < 62 then ('0' as int + v - 52) as char
    else if v == 62 then '-'
    else '_'
  }

  predicate IsUrlChar(ch: char) {
    'A' <= ch <= 'Z' || 'a' <= ch <= 'z' || '0' <= ch <= '9' || ch == '-' || ch == '_'
  }

  /** The decoder's table: '-' and '_' are translated to '+' and '/' first, so both
      spellings are data, and anything else is not. */
  function Value(ch: char): (v: Option<Sextet>)
    ensures IsUrlChar(ch) ==> v.Some? && UrlChar(v.value) == ch
  {
    if 'A' <= ch <= 'Z' then Some(ch as int - 'A' as int)
    else if 'a' <= ch <= 'z' then Some(ch as int - 'a' as int + 26)
    else if '0' <= ch <= '9' then Some(ch as int - '0' as int + 52)
    else if ch == '-' || ch == '+' then Some(62)
    else if ch == '_' || ch == '/' then Some(63)
    else None
  }

  lemma ValueOfUrlChar(v: Sextet)
    ensures IsUrlChar(UrlChar(v)) && Value(UrlChar(v)) == Some(v)
  {
  }

  /*** Three bytes as four sextets ***/

  function S0(x: Byte): Sextet { x / 4 }
  function S1(x: Byte, y: Byte): Sextet { x % 4 * 16 + y / 16 }
  function S2(y: Byte, z: Byte): Sextet { y % 16 * 4 + z / 64 }
  function S3(z: Byte): Sextet { z % 64 }

  function B0(a: Sextet, b: Sextet): Byte { a * 4 + b / 16 }
  function B1(b: Sextet, c: Sextet): Byte { b % 16 * 16 + c / 4 }
  function B2(c: Sextet, d: Sextet): Byte { c % 4 * 64 + d }

  /** The bits of the bytes by sixes, the last ones filled up with zeros. */
  function Sextets(b: seq<Byte>): seq<Sextet> {
    if |b| == 0 then []
    else if |b| == 1 then [S0(b[0]), S1(b[0], 0)]
    else if |b| == 2 then [S0(b[0]), S1(b[0], b[1]), S2(b[1], 0)]
    else [S0(b[0]), S1(b[0], b[1]), S2(b[1], b[2]), S3(b[2])] + Sextets(b[3..])
  }

  /** The bits of the sextets by eights, the leftover ones dropped. */
  function Bytes(v: seq<Sextet>): seq<Byte> {
    if |v| < 2 then []
    else if |v| == 2 then [B0(v[0], v[1])]
    else if |v| == 3 then [B0(v[0], v[1]), B1(v[1], v[2])]
    else [B0(v[0], v[1]), B1(v[1], v[2]), B2(v[2], v[3])] + Bytes(v[4..])
  }

  /** Whole bytes, and no leftover bit set. */
  predicate Tight(v: seq<Sextet>) {
    && |v| % 4 != 1
    && (|v| % 4 == 2 ==> v[|v| - 1] % 16 == 0)
    && (|v| % 4 == 3 ==> v[|v| - 1] % 4 == 0)
  }

  lemma Regroup(a: Sextet, b: Sextet, c: Sextet, d: Sextet)
    ensures S0(B0(a, b)) == a && S1(B0(a, b), B1(b, c)) == b && S2(B1(b, c), B2(c, d)) == c && S3(B2(c, d)) == d
    ensures b % 16 == 0 ==> S1(B0(a, b), 0) == b
    ensures c % 4 == 0 ==> S2(B1(b, c), 0) == c
  {
    assert B0(a, b) % 4 == b / 16;
    assert B1(b, c) / 16 == b % 16 && B1(b, c) % 16 == c / 4;
    assert B2(c, d) / 64 == c % 4;
  }

  lemma Ungroup(x: Byte, y: Byte, z: Byte)
    ensures B0(S0(x), S1(x, y)) == x && B1(S1(x, y), S2(y, z)) == y && B2(S2(y, z), S3(z)) == z
    ensures S1(x, 0) % 16 == 0 && S2(y, 0) % 4 == 0
  {
    assert S1(x, y) / 16 == x % 4 && S1(x, y) % 16 == y / 16;
    assert S2(y, z) / 4 == y % 16 && S2(y, z) % 4 == z / 64;
  }

  lemma SextetsCons(x: Byte, y: Byte, z: Byte, b: seq<Byte>)
    ensures Sextets([x, y, z] + b) == [S0(x), S1(x, y), S2(y, z), S3(z)] + Sextets(b)
  {
    assert ([x, y, z] + b)[3..] == b;
  }

  lemma BytesCons(a: Sextet, b: Sextet, c: Sextet, d: Sextet, v: seq<Sextet>)
    ensures Bytes([a, b, c, d] + v) == [B0(a, b), B1(b, c), B2(c, d)] + Bytes(v)
  {
    assert ([a, b, c, d] + v)[4..] == v;
  }

  lemma TightCons(a: Sextet, b: Sextet, c: Sextet, d: Sextet, v: seq<Sextet>)
    ensures Tight([a, b, c, d] + v) <==> Tight(v)
  {
    var w := [a, b, c, d] + v;
    assert |w| % 4 == |v| % 4;
    assert v != [] ==> w[|w| - 1] == v[|v| - 1];
  }

  lemma BytesOfTwo(a: Sextet, b: Sextet)
    ensures Bytes([a, b]) == [B0(a, b)] && (Tight([a, b]) <==> b % 16 == 0)
  {
  }

  lemma BytesOfThree(a: Sextet, b: Sextet, c: Sextet)
    ensures Bytes([a, b, c]) == [B0(a, b), B1(b, c)] && (Tight([a, b, c]) <==> c % 4 == 0)
  {
  }

  lemma SextetsOfFew(x: Byte, y: Byte)
    ensures Sextets([x]) == [S0(x), S1(x, 0)]
    ensures Sextets([x, y]) == [S0(x), S1(x, y), S2(y, 0)]
  {
  }

  lemma OneByte(x: Byte)
    ensures Tight(Sextets([x])) && Bytes(Sextets([x])) == [x]
  {
    SextetsOfFew(x, 0);
    BytesOfTwo(S0(x), S1(x, 0));
    Ungroup(x, 0, 0);
  }

  lemma TwoBytes(x: Byte, y: Byte)
    ensures Tight(Sextets([x, y])) && Bytes(Sextets([x, y])) == [x, y]
  {
    SextetsOfFew(x, y);
    BytesOfThree(S0(x), S1(x, y), S2(y, 0));
    Ungroup(x, y, 0);
  }

  lemma {:induction false} BytesOfSextets(b: seq<Byte>)
    ensures Tight(Sextets(b)) && Bytes(Sextets(b)) == b
  {
    if |b| == 1 {
      assert b == [b[0]];
      OneByte(b[0]);
    } else if |b| == 2 {
      assert b == [b[0], b[1]];
      TwoBytes(b[0], b[1]);
    } else if |b| > 2 {
      var x, y, z, t := b[0], b[1], b[2], b[3..];
      assert b == [x, y, z] + t;
      SextetsCons(x, y, z, t);
      BytesCons(S0(x), S1(x, y), S2(y, z), S3(z), Sextets(t));
      TightCons(S0(x), S1(x, y), S2(y, z), S3(z), Sextets(t));
      Ungroup(x, y, z);
      BytesOfSextets(t);
    }
  }

  lemma {:induction false} SextetsLength(b: seq<Byte>)
    ensures |Sextets(b)| == (4 * |b| + 2) / 3
  {
    if |b| > 2 {
      SextetsLength(b[3..]);
    }
  }

  lemma SextetsOfFewBytes(v: seq<Sextet>)
    requires Tight(v) && |v| < 4
    ensures Sextets(Bytes(v)) == v
  {
    if |v| == 2 {
      assert v == [v[0], v[1]];
      BytesOfTwo(v[0], v[1]);
      SextetsOfFew(B0(v[0], v[1]), 0);
      Regroup(v[0], v[1], 0, 0);
    } else if |v| == 3 {
      assert v == [v[0], v[1], v[2]];
      BytesOfThree(v[0], v[1], v[2]);
      SextetsOfFew(B0(v[0], v[1]), B1(v[1], v[2]));
      Regroup(v[0], v[1], v[2], 0);
    }
  }

  lemma {:induction false} SextetsOfBytes(v: seq<Sextet>)
    requires Tight(v)
    ensures Sextets(Bytes(v)) == v
  {
    if |v| < 4 {
      SextetsOfFewBytes(v);
    } else {
      var a, b, c, d, t := v[0], v[1], v[2], v[3], v[4..];
      assert v == [a, b, c, d] + t;
      TightCons(a, b, c, d, t);
      BytesCons(a, b, c, d, t);
      SextetsCons(B0(a, b), B1(b, c), B2(c, d), Bytes(t));
      Regroup(a, b, c, d);
      SextetsOfBytes(t);
    }
  }

  function InBase64(a: int, b: int, c: int, d: int): int { a * 262144 + b * 4096 + c * 64 + d }
  function InBase256(x: int, y: int, z: int): int { x * 65536 + y * 256 + z }

  /** Three bytes and their four sextets are the same number, in base 256 and base 64. */
  lemma QuadIsNumber(x: Byte, y: Byte, z: Byte)
    ensures InBase64(S0(x), S1(x, y), S2(y, z), S3(z)) == InBase256(x, y, z)
  {
    assert x == x / 4 * 4 + x % 4 && y == y / 16 * 16 + y % 16 && z == z / 64 * 64 + z % 64;
  }

  lemma {:induction false} SextetsAt(b: seq<Byte>, i: nat)
    requires 3 * i + 2 < |b|
    ensures 4 * i + 3 < |Sextets(b)|
    ensures Sextets(b)[4 * i] == S0(b[3 * i]) && Sextets(b)[4 * i + 1] == S1(b[3 * i], b[3 * i + 1])
    ensures Sextets(b)[4 * i + 2] == S2(b[3 * i + 1], b[3 * i + 2]) && Sextets(b)[4 * i + 3] == S3(b[3 * i + 2])
  {
    if i > 0 {
      SextetsAt(b[3..], i - 1);
    }
  }

  /** So every whole quad of the encoding spells its three bytes as one 24-bit number. */
  lemma QuadsSpellBytes(b: seq<Byte>, i: nat)
    requires 3 * i + 2 < |b|
    ensures 4 * i + 3 < |Sextets(b)|
    ensures var v := Sextets(b);
            InBase64(v[4 * i], v[4 * i + 1], v[4 * i + 2], v[4 * i + 3])
            == InBase256(b[3 * i], b[3 * i + 1], b[3 * i + 2])
  {
    SextetsAt(b, i);
    QuadIsNumber(b[3 * i], b[3 * i + 1], b[3 * i + 2]);
  }

  /** The last one or two bytes are spelled as if zeros followed, and the sextets that
      would only spell those zeros are left out. */
  lemma TailSpellsBytes(x: Byte, y: Byte)
    ensures |Sextets([x])| == 2 && InBase64(Sextets([x])[0], Sextets([x])[1], 0, 0) == InBase256(x, 0, 0)
    ensures |Sextets([x, y])| == 3
    ensures InBase64(Sextets([x, y])[0], Sextets([x, y])[1], Sextets([x, y])[2], 0) == InBase256(x, y, 0)
  {
    SextetsOfFew(x, y);
    QuadIsNumber(x, 0, 0);
    QuadIsNumber(x, y, 0);
  }

  /** The alphabet in order: section 5 of RFC 4648. */
  lemma AlphabetInOrder(v: Sextet)
    ensures v < 26 ==> UrlChar(v) == "ABCDEFGHIJKLMNOPQRSTUVWXYZ"[v]
    ensures 26 <= v < 52 ==> UrlChar(v) == "abcdefghijklmnopqrstuvwxyz"[v - 26]
    ensures 52 <= v < 62 ==> UrlChar(v) == "0123456789"[v - 52]
    ensures v == 62 ==> UrlChar(v) == '-'
    ensures v == 63 ==> UrlChar(v) == '_'
  {
  }

  /*** Encoding ***/

  function Spell(v: seq<Sextet>): (s: string)
    ensures |s| == |v| && forall i | 0 <= i < |v| :: s[i] == UrlChar(v[i])
  {
    seq(|v|, i requires 0 <= i < |v| => UrlChar(v[i]))
  }

  function Pads(n: nat): (r: string)
    ensures |r| == n && forall i | 0 <= i < n :: r[i] == '='
  {
    seq(n, _ => '=')
  }

  function Padding(n: nat): nat {
    if n % 4 == 0 then 0 else 4 - n % 4
  }

  /** urlsafe_b64encode: whole quads, the last one padded. */
  function UrlsafeB64Encode(b: seq<Byte>): string {
    Spell(Sextets(b)) + Pads(Padding(|Sextets(b)|))
  }

  function RStripPads(s: string): string {
    if s != "" && s[|s| - 1] == '=' then RStripPads(s[..|s| - 1]) else s
  }

  function Encode(b: seq<Byte>): string {
    RStripPads(UrlsafeB64Encode(b))
  }

  /*** Decoding ***/

  function Repad(s: string): string {
    var padding := 4 - |s| % 4;
    if padding != 4 then s + Pads(padding) else s
  }

  datatype Symbol = Data(v: Sextet) | Pad | Junk

  function Lex(s: string): (r: seq<Symbol>)
    ensures |r| == |s|
    ensures forall i | 0 <= i < |s| ::
              r[i] == if s[i] == '=' then Pad else if Value(s[i]).Some? then Data(Value(s[i]).value) else Junk
  {
    seq(|s|, i requires 0 <= i < |s| =>
      if s[i] == '=' then Pad else if Value(s[i]).Some? then Data(Value(s[i]).value) else Junk)
  }

  /** The library's lenient scanner: its place in the quad, the bits left over, the
      pads seen since the last data character, and whether it stopped. */
  datatype Scanner = Scanner(quad: nat, left: nat, pads: nat, out: seq<Byte>, stopped: bool)
  {
    ghost predicate Valid() {
      quad < 4 && left < (if quad == 1 then 64 else if quad == 2 then 16 else if quad == 3 then 4 else 1)
    }
  }

  const START := Scanner(0, 0, 0, [], false)

  function Take(st: Scanner, v: Sextet): (st': Scanner)
    requires st.Valid()
    ensures st'.Valid()
  {
    if st.quad == 0 then st.(quad := 1, left := v, pads := 0)
    else if st.quad == 1 then st.(quad := 2, left := v % 16, pads := 0, out := st.out + [st.left * 4 + v / 16])
    else if st.quad == 2 then st.(quad := 3, left := v % 4, pads := 0, out := st.out + [st.left * 16 + v / 4])
    else st.(quad := 0, left := 0, pads := 0, out := st.out + [st.left * 64 + v])
  }

  /** Pads before the third place of a quad, like junk, are passed over; the pads that
      complete a quad stop the scan. */
  function Feed(st: Scanner, x: Symbol): (st': Scanner)
    requires st.Valid()
    ensures st'.Valid()
  {
    if st.stopped || x.Junk? then st
    else if x.Pad? then
      if st.quad >= 2 then st.(pads := st.pads + 1, stopped := st.quad + st.pads + 1 >= 4) else st
    else Take(st, x.v)
  }

  function Scan(xs: seq<Symbol>, st: Scanner): (st': Scanner)
    requires st.Valid()
    ensures st'.Valid()
  {
    if xs == [] then st else Scan(xs[1..], Feed(st, xs[0]))
  }

  function Close(st: Scanner): Decoded {
    if st.stopped || st.quad == 0 then Ok(st.out)
    else if st.quad == 1 then Err(DataCountIsOneMoreThanFours)
    else Err(IncorrectPadding)
  }

  function Decode(s: string): Decoded {
    if exists i :: 0 <= i < |s| && s[i] >= 128 as char then Err(NotAscii)
    else Close(Scan(Lex(Repad(s)), START))
  }

  /*** What the scanner computes ***/

  /** The sextets as data, padded to whole quads. */
  function Symbols(v: seq<Sextet>): seq<Symbol> {
    if |v| >= 4 then [Data(v[0]), Data(v[1]), Data(v[2]), Data(v[3])] + Symbols(v[4..])
    else if |v| == 0 then []
    else if |v| == 1 then [Data(v[0]), Pad, Pad, Pad]
    else if |v| == 2 then [Data(v[0]), Data(v[1]), Pad, Pad]
    else [Data(v[0]), Data(v[1]), Data(v[2]), Pad]
  }

  lemma ScanFour(w: Symbol, x: Symbol, y: Symbol, z: Symbol, xs: seq<Symbol>, st: Scanner)
    requires st.Valid()
    ensures Scan([w, x, y, z] + xs, st) == Scan(xs, Feed(Feed(Feed(Feed(st, w), x), y), z))
  {
    ScanTwo(w, x, [y, z] + xs, st);
    ScanTwo(y, z, xs, Feed(Feed(st, w), x));
    assert [w, x, y, z] + xs == [w, x] + ([y, z] + xs);
  }

  lemma ScanTwo(w: Symbol, x: Symbol, xs: seq<Symbol>, st: Scanner)
    requires st.Valid()
    ensures Scan([w, x] + xs, st) == Scan(xs, Feed(Feed(st, w), x))
  {
    ScanCons(w, [x] + xs, st);
    ScanCons(x, xs, Feed(st, w));
    assert [w, x] + xs == [w] + ([x] + xs);
  }

  lemma ScanCons(x: Symbol, xs: seq<Symbol>, st: Scanner)
    requires st.Valid()
    ensures Scan([x] + xs, st) == Scan(xs, Feed(st, x))
  {
    assert ([x] + xs)[1..] == xs;
  }

  function AfterQuad(st: Scanner, bytes: seq<Byte>): (st': Scanner)
    requires st.Valid() && st.quad == 0
    ensures st'.Valid() && st'.quad == 0 && st'.stopped == st.stopped && st'.out == st.out + bytes
  {
    st.(left := 0, pads := 0, out := st.out + bytes)
  }

  lemma FeedQuad(st: Scanner, a: Sextet, b: Sextet, c: Sextet, d: Sextet)
    requires st.Valid() && st.quad == 0 && !st.stopped
    ensures Feed(Feed(Feed(Feed(st, Data(a)), Data(b)), Data(c)), Data(d))
         == AfterQuad(st, [B0(a, b), B1(b, c), B2(c, d)])
  {
  }

  lemma FeedShort(st: Scanner, a: Sextet, b: Sextet, c: Sextet)
    requires st.Valid() && st.quad == 0 && !st.stopped
    ensures Close(Feed(Feed(Feed(Feed(st, Data(a)), Data(b)), Data(c)), Pad)) == Ok(st.out + [B0(a, b), B1(b, c)])
    ensures Close(Feed(Feed(Feed(Feed(st, Data(a)), Data(b)), Pad), Pad)) == Ok(st.out + [B0(a, b)])
    ensures Close(Feed(Feed(Feed(Feed(st, Data(a)), Pad), Pad), Pad)) == Err(DataCountIsOneMoreThanFours)
  {
  }

  function Expected(v: seq<Sextet>, out: seq<Byte>): Decoded {
    if |v| % 4 == 1 then Err(DataCountIsOneMoreThanFours) else Ok(out + Bytes(v))
  }

  lemma ScanLast(v: seq<Sextet>, st: Scanner)
    requires |v| < 4 && st.Valid() && st.quad == 0 && !st.stopped
    ensures Close(Scan(Symbols(v), st)) == Expected(v, st.out)
  {
    if |v| == 0 {
      assert st.out + [] == st.out;
    } else {
      var s := Symbols(v);
      assert s == [s[0], s[1], s[2], s[3]] + [];
      ScanFour(s[0], s[1], s[2], s[3], [], st);
      FeedShort(st, v[0], if |v| > 1 then v[1] else 0, if |v| > 2 then v[2] else 0);
    }
  }

  lemma {:induction false} ScanSymbols(v: seq<Sextet>, st: Scanner)
    requires st.Valid() && st.quad == 0 && !st.stopped
    ensures Close(Scan(Symbols(v), st)) == Expected(v, st.out)
  {
    if |v| < 4 {
      ScanLast(v, st);
    } else {
      ScanFirst(v, st);
      ScanSymbols(v[4..], AfterQuad(st, [B0(v[0], v[1]), B1(v[1], v[2]), B2(v[2], v[3])]));
      ExpectedFirst(v, st.out);
    }
  }

  lemma ExpectedFirst(v: seq<Sextet>, out: seq<Byte>)
    requires |v| >= 4
    ensures Expected(v[4..], out + [B0(v[0], v[1]), B1(v[1], v[2]), B2(v[2], v[3])]) == Expected(v, out)
  {
    BytesFirst(v);
    Regrouped(out, [B0(v[0], v[1]), B1(v[1], v[2]), B2(v[2], v[3])], Bytes(v[4..]));
  }

  lemma BytesFirst(v: seq<Sextet>)
    requires |v| >= 4
    ensures Bytes(v) == [B0(v[0], v[1]), B1(v[1], v[2]), B2(v[2], v[3])] + Bytes(v[4..])
  {
  }

  lemma Regrouped(a: seq<Byte>, b: seq<Byte>, c: seq<Byte>)
    ensures a + b + c == a + (b + c)
  {
  }

  lemma ScanFirst(v: seq<Sextet>, st: Scanner)
    requires |v| >= 4 && st.Valid() && st.quad == 0 && !st.stopped
    ensures Scan(Symbols(v), st)
         == Scan(Symbols(v[4..]), AfterQuad(st, [B0(v[0], v[1]), B1(v[1], v[2]), B2(v[2], v[3])]))
  {
    ScanFour(Data(v[0]), Data(v[1]), Data(v[2]), Data(v[3]), Symbols(v[4..]), st);
    FeedQuad(st, v[0], v[1], v[2], v[3]);
  }

  /*** Strings of the alphabet ***/

  predicate AllUrl(s: string) {
    forall i | 0 <= i < |s| :: IsUrlChar(s[i])
  }

  function Values(s: string): (v: seq<Sextet>)
    requires AllUrl(s)
    ensures |v| == |s| && forall i | 0 <= i < |s| :: Value(s[i]) == Some(v[i])
  {
    seq(|s|, i requires 0 <= i < |s| => Value(s[i]).value)
  }

  lemma SpellValues(s: string)
    requires AllUrl(s)
    ensures Spell(Values(s)) == s
  {
  }

  lemma ValuesSpell(v: seq<Sextet>)
    ensures AllUrl(Spell(v)) && Values(Spell(v)) == v
  {
    forall i | 0 <= i < |v|
      ensures IsUrlChar(Spell(v)[i]) && Value(Spell(v)[i]) == Some(v[i])
    {
      ValueOfUrlChar(v[i]);
    }
  }

  /** The data symbols, then the pads. */
  function Padded(v: seq<Sextet>): (xs: seq<Symbol>)
    ensures |xs| == |v| + Padding(|v|)
    ensures forall i | 0 <= i < |xs| :: xs[i] == if i < |v| then Data(v[i]) else Pad
  {
    seq(|v| + Padding(|v|), i requires 0 <= i < |v| + Padding(|v|) => if i < |v| then Data(v[i]) else Pad)
  }

  lemma {:induction false} SymbolsPadded(v: seq<Sextet>)
    ensures Symbols(v) == Padded(v)
  {
    if |v| >= 4 {
      SymbolsPadded(v[4..]);
      PaddedCons(v);
    }
  }

  lemma PaddedCons(v: seq<Sextet>)
    requires |v| >= 4
    ensures Padded(v) == [Data(v[0]), Data(v[1]), Data(v[2]), Data(v[3])] + Padded(v[4..])
  {
    assert |v[4..]| % 4 == |v| % 4;
  }

  lemma LexRepadded(s: string)
    requires AllUrl(s)
    ensures Lex(Repad(s)) == Symbols(Values(s))
  {
    var p := Repad(s);
    assert |p| == |s| + Padding(|s|);
    assert forall i | 0 <= i < |p| :: p[i] == if i < |s| then s[i] else '=';
    SymbolsPadded(Values(s));
  }

  lemma NotAlphabetAscii(s: string)
    requires AllUrl(s)
    ensures forall i | 0 <= i < |s| :: s[i] < 128 as char
  {
  }

  /** On strings of the alphabet the decoder spells out the bits, and fails exactly on
      lengths of 1 modulo 4. */
  lemma DecodeAlphabet(s: string)
    requires AllUrl(s)
    ensures Decode(s) == if |s| % 4 == 1 then Err(DataCountIsOneMoreThanFours) else Ok(Bytes(Values(s)))
  {
    NotAlphabetAscii(s);
    LexRepadded(s);
    ScanSymbols(Values(s), START);
    assert START.out + Bytes(Values(s)) == Bytes(Values(s));
  }

  /** Strings that already carry their padding decode alike. */
  lemma DecodePadded(s: string)
    requires AllUrl(s)
    ensures Decode(Repad(s)) == Decode(s)
  {
    assert Repad(Repad(s)) == Repad(s);
    NotAlphabetAscii(s);
    var p := Repad(s);
    assert forall i | 0 <= i < |p| :: p[i] < 128 as char;
  }

  lemma {:induction false} RStripPadsOf(s: string, n: nat)
    requires AllUrl(s)
    ensures RStripPads(s + Pads(n)) == s
  {
    if n == 0 {
      assert s + Pads(0) == s;
    } else {
      assert (s + Pads(n))[..|s| + n - 1] == s + Pads(n - 1);
      RStripPadsOf(s, n - 1);
    }
  }

  /** rstrip takes off the padding and nothing else. */
  lemma EncodeIsSpelling(b: seq<Byte>)
    ensures Encode(b) == Spell(Sextets(b))
  {
    ValuesSpell(Sextets(b));
    RStripPadsOf(Spell(Sextets(b)), Padding(|Sextets(b)|));
  }

  /*** The pair ***/

  /** Decoding the encoding of any bytes gives them back, padded or not, and the
      unpadded length is never 1 modulo 4. */
  lemma RoundTrip(b: seq<Byte>)
    ensures Decode(Encode(b)) == Ok(b)
    ensures Decode(UrlsafeB64Encode(b)) == Ok(b)
    ensures |Encode(b)| % 4 != 1 && |Encode(b)| == (4 * |b| + 2) / 3
  {
    EncodeIsSpelling(b);
    BytesOfSextets(b);
    SextetsLength(b);
    var s := Spell(Sextets(b));
    ValuesSpell(Sextets(b));
    DecodeAlphabet(s);
    DecodePadded(s);
    assert s + Pads(0) == s;
    assert UrlsafeB64Encode(b) == Repad(s);
  }

  /** Alphabet only, length not 1 modulo 4, and no leftover bit set. */
  predicate Canonical(s: string) {
    AllUrl(s) && Tight(Values(s))
  }

  /** Re-encoding what was decoded gives the string back exactly for canonical strings. */
  lemma ReencodesIffCanonical(s: string)
    ensures Canonical(s) <==> Decode(s).Ok? && Encode(Decode(s).bytes) == s
  {
    if Canonical(s) {
      DecodeAlphabet(s);
      SextetsOfBytes(Values(s));
      EncodeIsSpelling(Bytes(Values(s)));
      SpellValues(s);
    }
    if Decode(s).Ok? {
      EncodeIsSpelling(Decode(s).bytes);
      BytesOfSextets(Decode(s).bytes);
      ValuesSpell(Sextets(Decode(s).bytes));
    }
  }

  lemma OneAlike(a: string, c: char, d: char, b: string)
    requires Lex([c]) == Lex([d]) && (c >= 128 as char <==> d >= 128 as char)
    ensures Decode(a + [c] + b) == Decode(a + [d] + b)
  {
    var s, t := a + [c] + b, a + [d] + b;
    assert Lex([c])[0] == Lex([d])[0];
    forall i | 0 <= i < |s|
      ensures Lex(s)[i] == Lex(t)[i] && (s[i] >= 128 as char <==> t[i] >= 128 as char)
    {
      assert i != |a| ==> s[i] == t[i];
    }
    SameSymbols(s, t);
  }

  /** The standard alphabet's two other characters decode alike. */
  lemma StandardSpellingDecodes(a: string, b: string)
    ensures Decode(a + ['+'] + b) == Decode(a + ['-'] + b)
    ensures Decode(a + ['/'] + b) == Decode(a + ['_'] + b)
  {
    OneAlike(a, '+', '-', b);
    OneAlike(a, '/', '_', b);
  }

  /** The test vectors of section 10 of RFC 4648 that fit in one quad. */
  lemma RfcVectors()
    ensures Encode([]) == "" && Encode([0x66]) == "Zg" && Encode([0x66, 0x6f]) == "Zm8"
    ensures Encode([0x66, 0x6f, 0x6f]) == "Zm9v"
  {
    EncodeIsSpelling([]);
    EncodeIsSpelling([0x66]);
    EncodeIsSpelling([0x66, 0x6f]);
    EncodeIsSpelling([0x66, 0x6f, 0x6f]);
    SextetsOfFew(0x66, 0x6f);
    SextetsCons(0x66, 0x6f, 0x6f, []);
    assert [0x66, 0x6f, 0x6f] + [] == [0x66, 0x6f, 0x6f];
    assert Sextets([0x66, 0x6f, 0x6f]) == [25, 38, 61, 47];
  }

  lemma SameSymbols(s: string, t: string)
    requires |s| == |t| && Lex(s) == Lex(t)
    requires forall i | 0 <= i < |s| :: s[i] >= 128 as char <==> t[i] >= 128 as char
    ensures Decode(s) == Decode(t)
  {
    var p, q := Repad(s), Repad(t);
    forall i | 0 <= i < |p|
      ensures Lex(p)[i] == Lex(q)[i]
    {
      if i < |s| {
        assert Lex(s)[i] == Lex(t)[i];
      }
    }
    assert Lex(p) == Lex(q);
    AsciiAlike(s, t);
    AsciiAlike(p, q);
  }

  lemma AsciiAlike(s: string, t: string)
    requires |s| == |t| && forall i | 0 <= i < |s| :: s[i] >= 128 as char <==> t[i] >= 128 as char
    ensures (exists i :: 0 <= i < |s| && s[i] >= 128 as char) <==> (exists i :: 0 <= i < |t| && t[i] >= 128 as char)
  {
  }
}
