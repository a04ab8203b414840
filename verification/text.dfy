/**
  Text as the inference layer sees it: a Rust `String`, that is the bytes of its UTF-8 encoding.
  Every `char` of a `Text` stands for one byte, so `|s|` is `s.len()` and indices are byte offsets.
 */
module Texts {
  import opened Wrappers

  type Text = seq<char>

  predicate MatchesAt(s: Text, p: Text, i: nat) {
    i + |p| <= |s| && s[i..i + |p|] == p
  }

  /** `p` occurs in `s` at `i` and nowhere before. */
  ghost predicate FirstAt(s: Text, p: Text, i: nat) {
    MatchesAt(s, p, i) && forall j: nat :: j < i ==> !MatchesAt(s, p, j)
  }

  ghost predicate Occurs(s: Text, p: Text) {
    exists i: nat :: MatchesAt(s, p, i)
  }

  predicate EndsWith(s: Text, p: Text) {
    |p| <= |s| && s[|s| - |p|..] == p
  }

  /** `str::find`: the offset of the first occurrence. */
  function Find(s: Text, p: Text): (r: Option<nat>)
    ensures r.Some? ==> FirstAt(s, p, r.value)
    ensures r.None? <==> !Occurs(s, p)
  {
    FindFrom(s, p, 0)
  }

  function FindFrom(s: Text, p: Text, i: nat): (r: Option<nat>)
    requires i <= |s| + 1
    requires forall j: nat :: j < i ==> !MatchesAt(s, p, j)
    ensures r.Some? ==> FirstAt(s, p, r.value)
    ensures r.None? <==> !Occurs(s, p)
    decreases |s| + 1 - i
  {
    if i > |s| then None
    else if MatchesAt(s, p, i) then Some(i)
    else FindFrom(s, p, i + 1)
  }

  /** The first occurrence is unique, so any witness of it is what `Find` returns. */
  lemma FindIs(s: Text, p: Text, i: nat)
    requires FirstAt(s, p, i)
    ensures Find(s, p) == Some(i)
  {
  }

  lemma FindAtMost(s: Text, p: Text, i: nat)
    requires MatchesAt(s, p, i)
    ensures Find(s, p).Some? && Find(s, p).value <= i
  {
  }

  /** An occurrence seen byte by byte. */
  lemma MatchBytes(s: Text, p: Text, i: nat, k: nat)
    requires MatchesAt(s, p, i) && k < |p|
    ensures s[i + k] == p[k]
  {
    assert s[i..i + |p|][k] == s[i + k];
  }

  /** One differing byte rules an occurrence out. */
  lemma NoMatchByByte(s: Text, p: Text, i: nat, k: nat)
    requires k < |p|
    requires i + k < |s| ==> s[i + k] != p[k]
    ensures !MatchesAt(s, p, i)
  {
    if i + |p| <= |s| {
      assert s[i..i + |p|][k] == s[i + k];
    }
  }

  /**
    An occurrence that starts inside `a` cannot reach into what follows `a`
    when the first following byte is none of the pattern's later bytes.
   */
  lemma MatchStaysInside(a: Text, b: Text, p: Text, j: nat)
    requires j < |a| && p != [] && b != [] && b[0] !in p[1..]
    ensures MatchesAt(a + b, p, j) <==> MatchesAt(a, p, j)
  {
    if |a| < j + |p| {
      var k := |a| - j;
      assert p[k] == p[1..][k - 1];
      NoMatchByByte(a + b, p, j, k);
    } else {
      assert a[j..j + |p|] == (a + b)[j..j + |p|];
    }
  }

  /** An occurrence in `a + b` that starts at or after `|a|` is an occurrence in `b`. */
  lemma MatchInTail(a: Text, b: Text, p: Text, j: nat)
    requires |a| <= j
    ensures MatchesAt(a + b, p, j) <==> MatchesAt(b, p, j - |a|)
  {
    if j + |p| <= |a + b| {
      assert (a + b)[j..j + |p|] == b[j - |a|..j - |a| + |p|];
    }
  }

  /** An occurrence that ends inside `a` is one of `a`. */
  lemma MatchWithin(a: Text, b: Text, p: Text, j: nat)
    requires j + |p| <= |a|
    ensures MatchesAt(a + b, p, j) <==> MatchesAt(a, p, j)
  {
    assert a[j..j + |p|] == (a + b)[j..j + |p|];
  }

  lemma TailEnds(a: Text, b: Text)
    ensures EndsWith(a + b, b)
  {
  }

  lemma EndsWithin(a: Text, b: Text, suffix: Text)
    requires EndsWith(b, suffix)
    ensures EndsWith(a + b, suffix)
  {
    assert (a + b)[|a + b| - |suffix|..] == b[|b| - |suffix|..];
  }

  // ------------------------------------------------------------------
  // Trimming
  // ------------------------------------------------------------------

  /** The UTF-8 encodings of the characters with Unicode property White_Space. */
  predicate IsSpaceChar(c: Text) {
    || (|c| == 1 && ('\t' <= c[0] <= '\r' || c[0] == ' '))
    || c == "\U{C2}\U{85}" || c == "\U{C2}\U{A0}"
    || c == "\U{E1}\U{9A}\U{80}"
    || (|c| == 3 && c[..2] == "\U{E2}\U{80}" && ('\U{80}' <= c[2] <= '\U{8A}' || c[2] in "\U{A8}\U{A9}\U{AF}"))
    || c == "\U{E2}\U{81}\U{9F}" || c == "\U{E3}\U{80}\U{80}"
  }

  /** Length of the white-space character at the front of `s`, 0 if there is none. */
  function LeadingSpace(s: Text): (n: nat)
    ensures n <= |s| && (n > 0 ==> IsSpaceChar(s[..n]))
  {
    if |s| >= 1 && IsSpaceChar(s[..1]) then 1
    else if |s| >= 2 && IsSpaceChar(s[..2]) then 2
    else if |s| >= 3 && IsSpaceChar(s[..3]) then 3
    else 0
  }

  function TrailingSpace(s: Text): (n: nat)
    ensures n <= |s| && (n > 0 ==> IsSpaceChar(s[|s| - n..]))
  {
    if |s| >= 1 && IsSpaceChar(s[|s| - 1..]) then 1
    else if |s| >= 2 && IsSpaceChar(s[|s| - 2..]) then 2
    else if |s| >= 3 && IsSpaceChar(s[|s| - 3..]) then 3
    else 0
  }

  function TrimStart(s: Text): Text {
    var n := LeadingSpace(s);
    if n == 0 then s else TrimStart(s[n..])
  }

  function TrimEnd(s: Text): Text {
    var n := TrailingSpace(s);
    if n == 0 then s else TrimEnd(s[..|s| - n])
  }

  /** `str::trim`. */
  function Trim(s: Text): Text {
    TrimEnd(TrimStart(s))
  }

  /** A run of white-space characters. */
  ghost predicate IsBlank(s: Text) {
    s == [] || exists n: nat :: 0 < n <= |s| && IsSpaceChar(s[..n]) && IsBlank(s[n..])
  }

  lemma {:induction false} BlankConcat(a: Text, b: Text)
    requires IsBlank(a) && IsBlank(b)
    ensures IsBlank(a + b)
    decreases |a|
  {
    hide IsSpaceChar;
    if a == [] {
      assert a + b == b;
    } else {
      var n: nat :| 0 < n <= |a| && IsSpaceChar(a[..n]) && IsBlank(a[n..]);
      BlankConcat(a[n..], b);
      assert (a + b)[..n] == a[..n] && (a + b)[n..] == a[n..] + b;
    }
  }

  lemma BlankNothing()
    ensures IsBlank([])
  {
  }

  lemma BlankOne(c: Text)
    requires IsSpaceChar(c)
    ensures IsBlank(c)
  {
    assert c[..|c|] == c && c[|c|..] == [];
  }

  lemma {:induction false} TrimStartSplits(s: Text) returns (l: Text)
    ensures s == l + TrimStart(s) && IsBlank(l) && LeadingSpace(TrimStart(s)) == 0
    decreases |s|
  {
    hide IsSpaceChar, IsBlank, LeadingSpace, TrailingSpace;
    BlankNothing();
    var n := LeadingSpace(s);
    if n == 0 {
      l := [];
    } else {
      var m := TrimStartSplits(s[n..]);
      BlankOne(s[..n]);
      BlankConcat(s[..n], m);
      l := s[..n] + m;
      assert s == s[..n] + s[n..];
    }
  }

  lemma {:induction false} TrimEndSplits(s: Text) returns (r: Text)
    ensures s == TrimEnd(s) + r && IsBlank(r) && TrailingSpace(TrimEnd(s)) == 0
    decreases |s|
  {
    hide IsSpaceChar, IsBlank, LeadingSpace, TrailingSpace;
    BlankNothing();
    var n := TrailingSpace(s);
    if n == 0 {
      r := [];
    } else {
      var k := |s| - n;
      var m := TrimEndSplits(s[..k]);
      BlankOne(s[k..]);
      BlankConcat(m, s[k..]);
      r := m + s[k..];
      assert s == s[..k] + s[k..];
    }
  }

  /** Trimming removes exactly the white space around a text: blank ends off, none left at either end. */
  lemma TrimRemovesBlankEnds(s: Text) returns (l: Text, r: Text)
    ensures s == l + Trim(s) + r && IsBlank(l) && IsBlank(r)
    ensures LeadingSpace(Trim(s)) == 0 && TrailingSpace(Trim(s)) == 0
  {
    hide IsSpaceChar, IsBlank, LeadingSpace, TrailingSpace, TrimStart, TrimEnd;
    l := TrimStartSplits(s);
    r := TrimEndSplits(TrimStart(s));
    PrefixHasNoLeadingSpace(Trim(s), r);
    assert s == l + (Trim(s) + r);
  }

  lemma PrefixHasNoLeadingSpace(t: Text, r: Text)
    requires LeadingSpace(t + r) == 0
    ensures LeadingSpace(t) == 0
  {
    hide IsSpaceChar;
    assert forall n :: 0 <= n <= |t| ==> (t + r)[..n] == t[..n];
  }

  // ------------------------------------------------------------------
  // Truncation
  // ------------------------------------------------------------------

  /** `str::is_char_boundary`: the offset does not fall on a continuation byte. */
  predicate IsCharBoundary(s: Text, i: nat) {
    i >= |s| || !('\U{80}' <= s[i] < '\U{C0}')
  }

  /** `str::ceil_char_boundary`: the closest boundary at or after `i`. */
  function CeilCharBoundary(s: Text, i: nat): (r: nat)
    requires i <= |s|
    ensures i <= r <= |s| && IsCharBoundary(s, r)
    ensures forall j :: i <= j < r ==> !IsCharBoundary(s, j)
    decreases |s| - i
  {
    if IsCharBoundary(s, i) then i else CeilCharBoundary(s, i + 1)
  }

  const ELLIPSIS: Text := "[...] "

  /** `truncate_tail`: keep at most `cap` trailing bytes, without splitting a character. */
  function TruncateTail(s: Text, cap: nat): (r: Text)
    ensures |r| <= cap + |ELLIPSIS|
  {
    if |s| <= cap then s else ELLIPSIS + s[CeilCharBoundary(s, |s| - cap)..]
  }

  /** The kept part is the longest suffix of at most `cap` bytes that starts on a character boundary. */
  lemma TruncateTailKeepsLongestSuffix(s: Text, cap: nat)
    ensures |s| <= cap ==> TruncateTail(s, cap) == s
    ensures |s| > cap ==> exists cut: nat ::
                && |s| - cap <= cut <= |s| && IsCharBoundary(s, cut)
                && (forall j :: |s| - cap <= j < cut ==> !IsCharBoundary(s, j))
                && TruncateTail(s, cap) == ELLIPSIS + s[cut..]
  {
    if |s| > cap {
      var cut := CeilCharBoundary(s, |s| - cap);
      assert IsCharBoundary(s, cut);
    }
  }

  // ------------------------------------------------------------------
  // Bytes and characters
  // ------------------------------------------------------------------

  /** A byte. */
  function Byte(n: nat): char
    requires n < 0x100
  {
    n as char
  }

  /** The UTF-8 encoding of a code point. */
  function Utf8(c: nat): Text
    requires c < 0x11_0000
  {
    if c < 0x80 then [Byte(c)]
    else if c < 0x800 then [Byte(0xC0 + c / 0x40), Byte(0x80 + c % 0x40)]
    else if c < 0x1_0000 then [Byte(0xE0 + c / 0x1000), Byte(0x80 + c / 0x40 % 0x40), Byte(0x80 + c % 0x40)]
    else [Byte(0xF0 + c / 0x4_0000), Byte(0x80 + c / 0x1000 % 0x40),
          Byte(0x80 + c / 0x40 % 0x40), Byte(0x80 + c % 0x40)]
  }

  /** The code points with Unicode property White_Space. */
  predicate IsWhiteSpace(c: nat) {
    || 0x9 <= c <= 0xD || c == 0x20 || c == 0x85 || c == 0xA0 || c == 0x1680
    || 0x2000 <= c <= 0x200A || c == 0x2028 || c == 0x2029 || c == 0x202F || c == 0x205F || c == 0x3000
  }

  /** The white-space code point that a white-space character encodes. */
  function SpaceOf(c: Text): nat
    requires IsSpaceChar(c)
  {
    var last := c[|c| - 1] as int;
    if |c| == 1 then last
    else if |c| == 2 then last
    else if c[0] == '\U{E1}' then 0x1680
    else if c[0] == '\U{E3}' then 0x3000
    else if c[1] == '\U{81}' then 0x205F
    else 0x2000 + (last - 0x80)
  }

  lemma SpaceIsWhite(c: Text)
    requires IsSpaceChar(c)
    ensures IsWhiteSpace(SpaceOf(c)) && c == Utf8(SpaceOf(c))
  {
  }

  lemma WhiteIsSpace(p: nat)
    requires IsWhiteSpace(p)
    ensures IsSpaceChar(Utf8(p))
  {
  }

  /** The characters that trimming removes are exactly the encoded white-space code points. */
  lemma SpaceCharIff(c: Text)
    ensures IsSpaceChar(c) <==> exists p: nat :: IsWhiteSpace(p) && c == Utf8(p)
  {
    hide IsSpaceChar, Utf8, SpaceOf;
    if IsSpaceChar(c) {
      SpaceIsWhite(c);
    }
    if p: nat :| IsWhiteSpace(p) && c == Utf8(p) {
      WhiteIsSpace(p);
    }
  }

  /** A character boundary is where an encoding starts, never inside one. */
  lemma BoundariesOfCharacter(before: Text, p: nat, after: Text, i: nat)
    requires p < 0x11_0000 && i < |Utf8(p)|
    ensures IsCharBoundary(before + Utf8(p) + after, |before| + i) <==> i == 0
  {
    assert (before + Utf8(p) + after)[|before| + i] == Utf8(p)[i];
  }

  // ------------------------------------------------------------------
  // Decimal rendering
  // ------------------------------------------------------------------

  function Digit(d: nat): char
    requires d < 10
  {
    "0123456789"[d]
  }

  function DecimalNat(n: nat): (r: Text)
    ensures r != []
  {
    if n < 10 then [Digit(n)] else DecimalNat(n / 10) + [Digit(n % 10)]
  }

  function Decimal(n: int): (r: Text)
    ensures r != []
  {
    if n < 0 then "-" + DecimalNat(-n) else DecimalNat(n)
  }

  lemma {:induction false} DecimalGrows(a: nat, b: nat)
    requires a <= b
    ensures |DecimalNat(a)| <= |DecimalNat(b)|
    decreases a
  {
    if 10 <= a {
      DecimalGrows(a / 10, b / 10);
    }
  }

  /** The number a digit string denotes. */
  function Value(s: Text): nat {
    if s == [] then 0
    else
      var c := s[|s| - 1];
      10 * Value(s[..|s| - 1]) + if '0' <= c <= '9' then (c as int) - ('0' as int) else 0
  }

  /** The number a digit string with an optional minus sign denotes. */
  function SignedValue(s: Text): int {
    if s != [] && s[0] == '-' then 0 - Value(s[1..]) else Value(s)
  }

  lemma {:induction false} DigitsDenote(n: nat)
    ensures Value(DecimalNat(n)) == n && DecimalNat(n)[0] != '-'
  {
    if n < 10 {
      assert [Digit(n)][..0] == [];
      DigitDenotes(n);
    } else {
      var rest, last := DecimalNat(n / 10), Digit(n % 10);
      DigitsDenote(n / 10);
      DigitDenotes(n % 10);
      assert (rest + [last])[..|rest|] == rest;
    }
  }

  lemma DigitDenotes(d: nat)
    requires d < 10
    ensures '0' <= Digit(d) <= '9' && (Digit(d) as int) - ('0' as int) == d
  {
  }

  /** Rendering a number loses nothing, neither its value nor its sign. */
  lemma DecimalDenotes(n: int)
    ensures SignedValue(Decimal(n)) == n
  {
    DigitsDenote(if n < 0 then -n else n);
    if n < 0 {
      assert ("-" + DecimalNat(-n))[1..] == DecimalNat(-n);
    }
  }
}
