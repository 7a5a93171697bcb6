/** Text as Python and JavaScript hold it: a sequence of code points in which a
    lone surrogate is possible. Dafny's own `char` excludes surrogates, and the
    difference between a pair and two lone ones is what the answer decoder
    trips over, so every module here works on numbers instead. */
module Codes {

  datatype Option<+T> = None | Some(value: T)

  type Code = int
  type Text = seq<Code>

  const QUOTE: Code := 0x22
  const BACKSLASH: Code := 0x5C
  const LF: Code := 0x0A
  const CR: Code := 0x0D
  const SPACE: Code := 0x20

  function Lit(s: string): (t: Text)
    ensures |t| == |s| && forall i :: 0 <= i < |s| ==> t[i] == s[i] as int
  {
    seq(|s|, i requires 0 <= i < |s| => s[i] as int)
  }

  /** Python's str.isspace on one code point. */
  predicate IsSpace(c: Code) {
    || 0x09 <= c <= 0x0D || 0x1C <= c <= 0x20 || c == 0x85 || c == 0xA0
    || c == 0x1680 || 0x2000 <= c <= 0x200A || c == 0x2028 || c == 0x2029
    || c == 0x202F || c == 0x205F || c == 0x3000
  }

  predicate IsDigit(c: Code) { 0x30 <= c <= 0x39 }

  predicate IsHex(c: Code) {
    IsDigit(c) || 0x41 <= c <= 0x46 || 0x61 <= c <= 0x66
  }

  function HexDigit(c: Code): (d: nat)
    requires IsHex(c)
    ensures d < 16
  {
    if IsDigit(c) then c - 0x30 else if c <= 0x46 then c - 0x41 + 10 else c - 0x61 + 10
  }

  /** The hex digits of RFC 8259, section 7, and what they count. */
  lemma HexIs(c: Code)
    ensures var lower, upper := Lit("0123456789abcdef"), Lit("0123456789ABCDEF");
      && (IsHex(c) <==> c in lower || c in upper)
      && (IsHex(c) ==> lower[HexDigit(c)] == c || upper[HexDigit(c)] == c)
  {
    var lower, upper := Lit("0123456789abcdef"), Lit("0123456789ABCDEF");
    assert forall i :: 0 <= i < 16 ==>
      lower[i] == (if i < 10 then 0x30 + i else 0x57 + i) && upper[i] == (if i < 10 then 0x30 + i else 0x37 + i);
    if IsHex(c) { assert lower[HexDigit(c)] == c || upper[HexDigit(c)] == c; }
  }

  predicate IsHex4(h: Text) {
    |h| == 4 && forall i :: 0 <= i < 4 ==> IsHex(h[i])
  }

  function Hex4(h: Text): (c: Code)
    requires IsHex4(h)
    ensures 0 <= c < 0x10000
  {
    ((HexDigit(h[0]) * 16 + HexDigit(h[1])) * 16 + HexDigit(h[2])) * 16 + HexDigit(h[3])
  }

  predicate IsHigh(c: Code) { 0xD800 <= c <= 0xDBFF }

  predicate IsLow(c: Code) { 0xDC00 <= c <= 0xDFFF }

  function Join(high: Code, low: Code): Code {
    0x10000 + (high - 0xD800) * 0x400 + (low - 0xDC00)
  }

  function LStrip(s: Text): (t: Text)
    ensures |t| <= |s|
  {
    if s != [] && IsSpace(s[0]) then LStrip(s[1..]) else s
  }

  function RStrip(s: Text): (t: Text)
    ensures |t| <= |s|
  {
    if s != [] && IsSpace(s[|s| - 1]) then RStrip(s[..|s| - 1]) else s
  }

  /** Python's str.strip. */
  function Strip(s: Text): Text { RStrip(LStrip(s)) }

  predicate Blank(t: Text) { Strip(t) == [] }

  /** JavaScript's white space, as `trim` and `\s` know it. */
  predicate IsJsSpace(c: Code) {
    || 0x09 <= c <= 0x0D || c == 0x20 || c == 0xA0 || c == 0x1680 || 0x2000 <= c <= 0x200A
    || c == 0x2028 || c == 0x2029 || c == 0x202F || c == 0x205F || c == 0x3000 || c == 0xFEFF
  }

  function JsTrimStart(s: Text): Text {
    if s != [] && IsJsSpace(s[0]) then JsTrimStart(s[1..]) else s
  }

  function JsTrimEnd(s: Text): Text {
    if s != [] && IsJsSpace(s[|s| - 1]) then JsTrimEnd(s[..|s| - 1]) else s
  }

  /** String.prototype.trim. */
  function JsTrim(s: Text): Text { JsTrimEnd(JsTrimStart(s)) }

  function Digits(n: nat): Text {
    if n < 10 then [0x30 + n] else Digits(n / 10) + [0x30 + n % 10]
  }

  /** str(n). */
  function Decimal(n: int): Text { if n < 0 then ['-' as int] + Digits(-n) else Digits(n) }

  predicate StartsWith(s: Text, p: Text) { p <= s }

  /** sep.join(parts). */
  function Joined(parts: seq<Text>, sep: Text): Text {
    if parts == [] then []
    else if |parts| == 1 then parts[0]
    else parts[0] + sep + Joined(parts[1..], sep)
  }

  /** All of a list of texts, end to end. */
  function Concat(parts: seq<Text>): Text {
    if parts == [] then [] else parts[0] + Concat(parts[1..])
  }

  lemma {:induction false} ConcatAppend(a: seq<Text>, b: seq<Text>)
    ensures Concat(a + b) == Concat(a) + Concat(b)
  {
    if a == [] {
      assert a + b == b;
    } else {
      assert (a + b)[1..] == a[1..] + b;
      ConcatAppend(a[1..], b);
    }
  }

  lemma ConcatSnoc(parts: seq<Text>, last: Text)
    ensures Concat(parts + [last]) == Concat(parts) + last
  {
    ConcatAppend(parts, [last]);
    assert [last][1..] == [];
    assert Concat([last]) == last + [];
  }

  // --- one text inside another ----------------------------------------------------------------

  predicate OccursAt(t: Text, s: Text, i: int) { 0 <= i && i + |t| <= |s| && s[i..i + |t|] == t }

  ghost predicate Within(part: Text, whole: Text) { exists i :: OccursAt(part, whole, i) }

  lemma WithinMiddle(before: Text, part: Text, after: Text)
    ensures Within(part, before + part + after)
  {
    assert OccursAt(part, before + part + after, |before|);
  }

  lemma WithinChain(a: Text, b: Text, c: Text)
    requires Within(a, b) && Within(b, c)
    ensures Within(a, c)
  {
    var i :| OccursAt(a, b, i);
    var j :| OccursAt(b, c, j);
    SliceOfSlice(c, j, |b|, i, |a|);
    assert OccursAt(a, c, j + i);
  }

  lemma SliceOfSlice(s: Text, j: int, n: nat, i: int, m: nat)
    requires 0 <= j && j + n <= |s| && 0 <= i && i + m <= n
    ensures s[j..j + n][i..i + m] == s[j + i..j + i + m]
  {
    var a, b := s[j..j + n][i..i + m], s[j + i..j + i + m];
    assert |a| == m && |b| == m;
    forall k | 0 <= k < m ensures a[k] == b[k] {
      assert a[k] == s[j..j + n][i + k] == s[j + (i + k)];
      assert b[k] == s[(j + i) + k];
    }
  }

  lemma {:induction false} JoinedHolds(parts: seq<Text>, i: nat, sep: Text) returns (before: Text, after: Text)
    requires i < |parts|
    ensures Joined(parts, sep) == before + parts[i] + after
  {
    if |parts| == 1 {
      before, after := [], [];
      assert parts[0] == [] + parts[0] + [];
    } else if i == 0 {
      before, after := [], sep + Joined(parts[1..], sep);
      assert Joined(parts, sep) == [] + parts[0] + after;
    } else {
      var b, a := JoinedHolds(parts[1..], i - 1, sep);
      before, after := parts[0] + sep + b, a;
      assert parts[0] + sep + (b + parts[i] + a) == (parts[0] + sep + b) + parts[i] + a;
    }
  }

  lemma {:induction false} LStripCut(s: Text) returns (n: nat)
    ensures n <= |s| && LStrip(s) == s[n..] && forall k :: 0 <= k < n ==> IsSpace(s[k])
  {
    if s != [] && IsSpace(s[0]) {
      var m := LStripCut(s[1..]);
      n := m + 1;
      forall k | 0 <= k < n ensures IsSpace(s[k]) { if k > 0 { assert s[1..][k - 1] == s[k]; } }
    } else {
      n := 0;
    }
  }

  lemma {:induction false} RStripCut(s: Text) returns (n: nat)
    ensures n <= |s| && RStrip(s) == s[..n] && forall k :: n <= k < |s| ==> IsSpace(s[k])
  {
    if s != [] && IsSpace(s[|s| - 1]) {
      n := RStripCut(s[..|s| - 1]);
    } else {
      n := |s|;
    }
  }

  /** Stripping keeps whatever begins and ends with something else than white space. */
  lemma StripKeeps(s: Text, i: nat, j: nat) returns (o: nat)
    requires i < j <= |s| && !IsSpace(s[i]) && !IsSpace(s[j - 1])
    ensures o + (j - i) <= |Strip(s)| && Strip(s)[o..o + (j - i)] == s[i..j]
  {
    hide IsSpace, LStrip, RStrip;
    var n := LStripKeeps(s, i);
    assert LStrip(s)[j - 1 - n] == s[j - 1];
    var m := RStripKeeps(LStrip(s), j - 1 - n);
    o := i - n;
    SliceInside(s, n, m, i, j);
  }

  lemma LStripKeeps(s: Text, i: nat) returns (n: nat)
    requires i < |s| && !IsSpace(s[i])
    ensures n <= i && LStrip(s) == s[n..]
  {
    n := LStripCut(s);
  }

  lemma RStripKeeps(s: Text, i: nat) returns (m: nat)
    requires i < |s| && !IsSpace(s[i])
    ensures i < m <= |s| && RStrip(s) == s[..m]
  {
    m := RStripCut(s);
  }

  lemma SliceInside(s: Text, n: nat, m: nat, i: nat, j: nat)
    requires n <= i < j <= n + m <= |s|
    ensures s[n..][..m][i - n..j - n] == s[i..j]
  {
  }
}
