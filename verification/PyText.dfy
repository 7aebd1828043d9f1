/** The handful of Python string operations the modelled code relies on. */
module PyText {

  datatype Option<+T> = None | Some(value: T)

  /** The characters for which Python's str.isspace() holds; str.strip() removes
      exactly these, and the regex class \s matches exactly these. */
  predicate IsSpace(c: char) {
    var n := c as int;
    || 0x09 <= n <= 0x0d
    || 0x1c <= n <= 0x20
    || n == 0x85 || n == 0xa0 || n == 0x1680
    || 0x2000 <= n <= 0x200a
    || n == 0x2028 || n == 0x2029 || n == 0x202f || n == 0x205f || n == 0x3000
  }

  function LStrip(s: string): (r: string)
    ensures r != [] ==> !IsSpace(r[0])
    ensures |r| <= |s| && r == s[|s| - |r|..]
  {
    if s != [] && IsSpace(s[0]) then LStrip(s[1..]) else s
  }

  function RStrip(s: string): (r: string)
    ensures r != [] ==> !IsSpace(r[|r| - 1])
    ensures r <= s
  {
    if s != [] && IsSpace(s[|s| - 1]) then RStrip(s[..|s| - 1]) else s
  }

  /** str.strip() */
  function Strip(s: string): (r: string)
    ensures r != [] ==> !IsSpace(r[0]) && !IsSpace(r[|r| - 1])
  {
    RStrip(LStrip(s))
  }

  lemma StripIdempotent(s: string)
    ensures Strip(Strip(s)) == Strip(s)
  {
  }

  /** How many characters strip() takes off the front. */
  function StripLead(s: string): (lead: nat)
    ensures lead + |Strip(s)| <= |s|
  {
    |s| - |LStrip(s)|
  }

  /** strip() cuts a contiguous piece out of its argument. */
  lemma StripIsSlice(s: string)
    ensures Strip(s) == s[StripLead(s)..StripLead(s) + |Strip(s)|]
  {
  }

  lemma {:induction false} LStripKeeps(s: string, i: nat)
    requires i < |s| && !IsSpace(s[i])
    ensures |s| - |LStrip(s)| <= i && LStrip(s)[i - (|s| - |LStrip(s)|)] == s[i]
  {
    if IsSpace(s[0]) {
      assert s[i] == s[1..][i - 1];
      LStripKeeps(s[1..], i - 1);
    }
  }

  lemma {:induction false} RStripKeeps(s: string, i: nat)
    requires i < |s| && !IsSpace(s[i])
    ensures i < |RStrip(s)|
  {
    if IsSpace(s[|s| - 1]) {
      assert s[i] == s[..|s| - 1][i];
      RStripKeeps(s[..|s| - 1], i);
    }
  }

  /** Only space is left out of it. */
  lemma StripKeeps(s: string, i: nat)
    requires i < |s| && !IsSpace(s[i])
    ensures StripLead(s) <= i < StripLead(s) + |Strip(s)|
  {
    LStripKeeps(s, i);
    RStripKeeps(LStrip(s), i - StripLead(s));
  }

  lemma StripFixed(s: string)
    requires s != [] ==> !IsSpace(s[0]) && !IsSpace(s[|s| - 1])
    ensures Strip(s) == s
  {
  }

  lemma {:induction false} LStripPad(lead: string, s: string)
    requires forall k | 0 <= k < |lead| :: IsSpace(lead[k])
    ensures LStrip(lead + s) == LStrip(s)
  {
    if lead == [] {
      assert lead + s == s;
    } else {
      assert (lead + s)[1..] == lead[1..] + s;
      LStripPad(lead[1..], s);
    }
  }

  lemma {:induction false} RStripPad(s: string, tail: string)
    requires forall k | 0 <= k < |tail| :: IsSpace(tail[k])
    ensures RStrip(s + tail) == RStrip(s)
  {
    if tail == [] {
      assert s + tail == s;
    } else {
      assert (s + tail)[..|s + tail| - 1] == s + tail[..|tail| - 1];
      RStripPad(s, tail[..|tail| - 1]);
    }
  }

  lemma {:induction false} LStripThenTail(s: string, tail: string)
    requires forall k | 0 <= k < |tail| :: IsSpace(tail[k])
    ensures LStrip(s + tail) == if LStrip(s) == [] then [] else LStrip(s) + tail
  {
    if s == [] {
      assert s + tail == tail + [];
      LStripPad(tail, []);
    } else if IsSpace(s[0]) {
      assert (s + tail)[1..] == s[1..] + tail;
      LStripThenTail(s[1..], tail);
    }
  }

  /** Space around the argument makes no difference to strip(). */
  lemma StripPad(lead: string, s: string, tail: string)
    requires forall k | 0 <= k < |lead| :: IsSpace(lead[k])
    requires forall k | 0 <= k < |tail| :: IsSpace(tail[k])
    ensures Strip(lead + (s + tail)) == Strip(s)
  {
    LStripPad(lead, s + tail);
    LStripThenTail(s, tail);
    if LStrip(s) != [] {
      RStripPad(LStrip(s), tail);
    }
  }

  /** str.lower() on one character, exact wherever the result is an ASCII letter:
      the only non-ASCII character that lowers to one is the Kelvin sign. */
  function LowerChar(c: char): char {
    if 'A' <= c <= 'Z' then (c as int + 32) as char
    else if c == '\U{212A}' then 'k'
    else c
  }

  function Lower(s: string): (r: string)
    ensures |r| == |s|
  {
    if s == [] then [] else [LowerChar(s[0])] + Lower(s[1..])
  }

  lemma {:induction false} LowerFixed(s: string)
    requires forall k | 0 <= k < |s| :: LowerChar(s[k]) == s[k]
    ensures Lower(s) == s
  {
    if s != [] {
      LowerFixed(s[1..]);
    }
  }

  /** The word again, each of its letters in either case. */
  predicate AnyCase(text: string, word: string) {
    |text| == |word| &&
    forall i | 0 <= i < |word| ::
      text[i] == word[i] || ('a' <= word[i] <= 'z' && text[i] as int == word[i] as int - 32)
  }

  lemma {:induction false} LowerAnyCase(text: string, word: string)
    requires AnyCase(text, word) && forall i | 0 <= i < |word| :: LowerChar(word[i]) == word[i]
    ensures Lower(text) == word
  {
    if text != "" {
      LowerAnyCase(text[1..], word[1..]);
      assert LowerChar(text[0]) == word[0];
      assert word == [word[0]] + word[1..];
    }
  }

  predicate StartsWith(s: string, prefix: string) {
    prefix <= s
  }
}
