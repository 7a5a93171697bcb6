/** Which words of a query count (ragsvc/tools.py:95-117), told by the places of its
    characters. */
module Terms {
  import opened Codes
  import opened Snippet

  // --- compound identifiers ---------------------------------------------------------------------

  /** A joint with a letter or digit on either side. */
  predicate Joins(s: Text, k: int) {
    0 < k < |s| - 1 && IsJoint(s[k]) && IsAlnum(s[k - 1]) && IsAlnum(s[k + 1])
  }

  /** Character `k` belongs to an identifier. */
  predicate Inside(s: Text, k: int) { 0 <= k < |s| && (IsAlnum(s[k]) || Joins(s, k)) }

  /** An identifier: letters and digits, single joints between them, and no way to
      make it longer. */
  predicate IsRun(s: Text, a: int, b: int) {
    0 <= a < b <= |s| && (forall k :: a <= k < b ==> Inside(s, k)) && !Inside(s, a - 1) && !Inside(s, b)
  }

  /** A part of it, between joints. */
  predicate IsPart(s: Text, a: int, b: int, c: int, d: int) {
    && 0 <= a <= c < d <= b <= |s| && (forall k :: c <= k < d ==> IsAlnum(s[k]))
    && (c == a || IsJoint(s[c - 1])) && (d == b || IsJoint(s[d]))
  }

  lemma SignsAre(c: Code)
    ensures IsAlnum(c) <==> '0' as int <= c <= '9' as int || 'a' as int <= c <= 'z' as int
    ensures IsJoint(c) <==> c == '-' as int || c == '_' as int || c == '/' as int || c == '.' as int
  {
  }

  // --- the matches ----------------------------------------------------------------------------------

  lemma {:induction false} RunEndStops(s: Text, i: nat)
    requires i <= |s|
    ensures RunEnd(s, i) < |s| ==> !IsAlnum(s[RunEnd(s, i)])
    decreases |s| - i
  {
    if i < |s| && IsAlnum(s[i]) { RunEndStops(s, i + 1); }
  }

  /** From the end of a run of letters and digits, the match goes on to the end of
      the identifier. */
  lemma {:induction false} CompoundEndIs(s: Text, j: nat)
    requires 0 < j <= |s| && IsAlnum(s[j - 1]) && (j < |s| ==> !IsAlnum(s[j]))
    ensures !Inside(s, CompoundEnd(s, j)) && forall k :: j <= k < CompoundEnd(s, j) ==> Inside(s, k)
    decreases |s| - j
  {
    if j + 1 < |s| && IsJoint(s[j]) && IsAlnum(s[j + 1]) {
      var m := RunEnd(s, j + 1);
      RunEndStops(s, j + 1);
      CompoundEndIs(s, m);
      assert Joins(s, j);
      assert forall k :: j + 1 <= k < m ==> Inside(s, k);
    }
  }

  lemma MatchIs(s: Text, i: nat)
    requires i < |s| && IsAlnum(s[i]) && !Inside(s, i - 1)
    ensures IsRun(s, i, CompoundEnd(s, RunEnd(s, i)))
  {
    var j := RunEnd(s, i);
    RunEndStops(s, i);
    CompoundEndIs(s, j);
  }

  lemma RunsApart(s: Text, a: int, b: int, c: int, d: int)
    requires IsRun(s, a, b) && IsRun(s, c, d) && a <= c < b
    ensures a == c && b == d
  {
    assert c > a ==> Inside(s, c - 1);
    assert b < d ==> Inside(s, b);
    assert d < b ==> Inside(s, d);
  }

  /** No identifier lies across `i`. */
  predicate Clear(s: Text, i: int) { !Inside(s, i - 1) || !Inside(s, i) }

  ghost predicate RunFrom(s: Text, i: int, w: Text) { exists a, b :: i <= a && IsRun(s, a, b) && s[a..b] == w }

  /** TERM_RE.findall finds the identifiers, all of them, and nothing else. */
  lemma {:induction false} MatchesAre(s: Text, i: nat, w: Text)
    requires i <= |s| && Clear(s, i)
    ensures w in Matches(s, i) <==> RunFrom(s, i, w)
    decreases |s| - i
  {
    hide IsAlnum, IsJoint;
    if i < |s| {
      if IsAlnum(s[i]) {
        MatchIs(s, i);
        var e := CompoundEnd(s, RunEnd(s, i));
        hide Inside;
        MatchesAre(s, e, w);
        NextRun(s, i, e, w);
      } else {
        NotInside(s, i);
        MatchesAre(s, i + 1, w);
        LaterRun(s, i, w);
      }
    }
  }

  lemma NotInside(s: Text, i: nat)
    requires i < |s| && Clear(s, i) && !IsAlnum(s[i])
    ensures !Inside(s, i)
  {
  }

  lemma NextRun(s: Text, i: nat, e: nat, w: Text)
    requires IsRun(s, i, e)
    ensures RunFrom(s, i, w) <==> s[i..e] == w || RunFrom(s, e, w)
  {
    hide Inside;
    if RunFrom(s, i, w) {
      var a, b :| i <= a && IsRun(s, a, b) && s[a..b] == w;
      if a < e { RunsApart(s, i, e, a, b); }
    }
  }

  lemma LaterRun(s: Text, i: nat, w: Text)
    requires i < |s| && !Inside(s, i)
    ensures RunFrom(s, i, w) <==> RunFrom(s, i + 1, w)
  {
    if RunFrom(s, i, w) {
      var a, b :| i <= a && IsRun(s, a, b) && s[a..b] == w;
      assert a == i ==> Inside(s, i);
    }
  }

  // --- the parts --------------------------------------------------------------------------------------

  predicate NoJoint(w: Text, c: int, d: int) { 0 <= c <= d <= |w| && forall k :: c <= k < d ==> !IsJoint(w[k]) }

  /** A stretch between joints that is `p`. */
  predicate Between(w: Text, c: int, d: int, p: Text) {
    && NoJoint(w, c, d) && (c == 0 || IsJoint(w[c - 1])) && (d == |w| || IsJoint(w[d])) && w[c..d] == p
  }

  lemma {:induction false} PartsAre(w: Text, from: nat, i: nat, p: Text)
    requires from <= i <= |w| && NoJoint(w, from, i) && (from == 0 || IsJoint(w[from - 1]))
    ensures p in Parts(w, from, i) <==> exists c, d :: from <= c && Between(w, c, d, p)
    decreases |w| - i
  {
    hide IsJoint;
    if i == |w| {
      assert w[from..|w|] == w[from..];
      if c, d :| from <= c && Between(w, c, d, p) { UpToEnd(w, from, c, d, p); }
      if p in Parts(w, from, i) { assert Between(w, from, |w|, p); }
    } else if IsJoint(w[i]) {
      PartsAre(w, i + 1, i + 1, p);
      if p == w[from..i] { assert Between(w, from, i, p); }
      if c, d :| from <= c && Between(w, c, d, p) {
        if c <= i { UpToJoint(w, from, i, c, d, p); }
      }
    } else {
      PartsAre(w, from, i + 1, p);
    }
  }

  lemma UpToEnd(w: Text, from: nat, c: int, d: int, p: Text)
    requires from <= c && NoJoint(w, from, |w|) && Between(w, c, d, p)
    ensures c == from && d == |w|
  {
    hide IsJoint;
  }

  lemma UpToJoint(w: Text, from: nat, i: nat, c: int, d: int, p: Text)
    requires from <= c <= i < |w| && NoJoint(w, from, i) && IsJoint(w[i]) && Between(w, c, d, p)
    ensures c == from && d == i
  {
    hide IsJoint;
  }

  lemma Slices(s: Text, a: int, b: int, c: int, d: int)
    requires 0 <= a <= b <= |s| && 0 <= c <= d <= b - a
    ensures s[a..b][c..d] == s[a + c..a + d]
  {
    var whole, l, r := s[a..b], s[a..b][c..d], s[a + c..a + d];
    assert |l| == d - c && |r| == d - c;
    forall k | 0 <= k < d - c ensures l[k] == r[k] { assert l[k] == whole[c + k] && r[k] == s[a + c + k]; }
  }

  /** The parts of an identifier, told by places in the query. */
  lemma RunParts(s: Text, a: int, b: int, p: Text)
    requires IsRun(s, a, b) && p != []
    ensures p in Parts(s[a..b], 0, 0) <==> exists c, d :: IsPart(s, a, b, c, d) && s[c..d] == p
  {
    var w := s[a..b];
    PartsAre(w, 0, 0, p);
    if p in Parts(w, 0, 0) {
      var c, d :| 0 <= c && Between(w, c, d, p);
      PlainInRun(s, a, b, c, d);
      Slices(s, a, b, c, d);
      assert IsPart(s, a, b, a + c, a + d);
    }
    if c, d :| IsPart(s, a, b, c, d) && s[c..d] == p {
      PlainPart(s, a, b, c, d);
      assert Between(w, c - a, d - a, p);
    }
  }

  lemma PlainInRun(s: Text, a: int, b: int, c: int, d: int)
    requires IsRun(s, a, b) && NoJoint(s[a..b], c, d)
    ensures forall k :: a + c <= k < a + d ==> IsAlnum(s[k])
  {
    forall k | a + c <= k < a + d ensures IsAlnum(s[k]) { assert Inside(s, k) && !IsJoint(s[a..b][k - a]); }
  }

  lemma PlainPart(s: Text, a: int, b: int, c: int, d: int)
    requires IsPart(s, a, b, c, d)
    ensures NoJoint(s[a..b], c - a, d - a) && s[a..b][c - a..d - a] == s[c..d]
  {
    forall k | c - a <= k < d - a ensures !IsJoint(s[a..b][k]) { assert IsAlnum(s[k + a]); }
    Slices(s, a, b, c - a, d - a);
  }

  // --- the terms ----------------------------------------------------------------------------------------

  lemma {:induction false} AllTermsAre(words: seq<Text>, stopwords: set<Text>, t: Text)
    ensures t in AllTerms(words, stopwords) <==> exists w :: w in words && t in TermsOf(w, stopwords)
  {
    hide TermsOf;
    if words != [] {
      AllTermsAre(words[1..], stopwords, t);
      assert words == [words[0]] + words[1..];
      assert words[0] in words;
    }
  }

  /** An identifier that is longer than two characters and no stopword, and `t` is it
      or one of its parts. */
  ghost predicate Yields(s: Text, a: int, b: int, stopwords: set<Text>, t: Text) {
    && IsRun(s, a, b) && b - a > 2 && s[a..b] !in stopwords
    && (t == s[a..b] || exists c, d :: IsPart(s, a, b, c, d) && t == s[c..d])
  }

  /** _query_terms, both ways: a term is longer than two characters, no stopword, and
      such an identifier of the lowered query or one of its parts; and every such text
      is a term. */
  lemma TermsExactly(query: Text, lower: Lower, stopwords: set<Text>, t: Text)
    ensures var s := Lowered(query, lower);
      t in QueryTerms(query, lower, stopwords) <==>
      |t| > 2 && t !in stopwords && exists a, b :: Yields(s, a, b, stopwords, t)
  {
    var s := Lowered(query, lower);
    var words := Matches(s, 0);
    AllTermsAre(words, stopwords, t);
    hide IsRun, IsPart, Parts, Matches, Lowered;
    if t in QueryTerms(query, lower, stopwords) {
      var w :| w in words && t in TermsOf(w, stopwords);
      FoundAt(s, w);
      var a, b :| 0 <= a && IsRun(s, a, b) && s[a..b] == w;
      RunWidth(s, a, b);
      RunParts(s, a, b, t);
      assert Yields(s, a, b, stopwords, t);
    }
    if |t| > 2 && t !in stopwords {
      if a, b :| Yields(s, a, b, stopwords, t) {
        RunWidth(s, a, b);
        FoundAt(s, s[a..b]);
        RunParts(s, a, b, t);
        assert s[a..b] in words && t in TermsOf(s[a..b], stopwords);
      }
    }
  }

  lemma RunWidth(s: Text, a: int, b: int)
    requires IsRun(s, a, b)
    ensures 0 <= a < b <= |s| && |s[a..b]| == b - a
  {
  }

  lemma FoundAt(s: Text, w: Text)
    ensures w in Matches(s, 0) <==> exists a, b :: 0 <= a && IsRun(s, a, b) && s[a..b] == w
  {
    MatchesAre(s, 0, w);
  }
}
