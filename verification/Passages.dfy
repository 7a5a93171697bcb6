/** What a chunk says (ragsvc/ingest/chunk.py:26-138): where sentences end, what its
    text is made of, and what it hands on. */
module Passages {
  import opened Codes
  import opened Packing
  import opened Chunk

  // --- sentences, by places ----------------------------------------------------------------------

  /** White space behind a mark that ends a sentence. */
  predicate Boundary(s: Text, j: int) {
    0 < j < |s| && IsSpace(s[j])
    && (s[j - 1] == '.' as int || s[j - 1] == '!' as int || s[j - 1] == '?' as int || s[j - 1] == ';' as int)
  }

  /** From `from` on, the sentences are these stretches: each ends at the first
      boundary in it, or with the text, and the next begins behind all the white
      space there. */
  ghost predicate Parted(s: Text, from: nat, ss: seq<Text>)
    decreases |ss|
  {
    from <= |s| && ss != [] &&
    if |ss| == 1 then ss[0] == s[from..] && forall j :: from < j ==> !Boundary(s, j)
    else exists j, k :: Breaks(s, from, j, k) && ss[0] == s[from..j] && Parted(s, k, ss[1..])
  }

  /** The first boundary behind `from` is at `j`, and its white space ends at `k`. */
  predicate Breaks(s: Text, from: nat, j: int, k: int) {
    && from < j < k <= |s| && Boundary(s, j) && (forall i :: from < i < j ==> !Boundary(s, i))
    && (forall i :: j <= i < k ==> IsSpace(s[i])) && (k < |s| ==> !IsSpace(s[k]))
  }

  lemma {:induction false} CutAtFirst(s: Text, i: nat)
    requires 0 < i <= |s|
    ensures forall j :: i <= j < CutAt(s, i) ==> !Boundary(s, j)
    ensures CutAt(s, i) < |s| ==> Boundary(s, CutAt(s, i))
    decreases |s| - i
  {
    if i < |s| && !(EndsSentence(s[i - 1]) && IsSpace(s[i])) { CutAtFirst(s, i + 1); }
  }

  lemma {:induction false} SkipSpaceIs(s: Text, i: nat)
    requires i <= |s|
    ensures (forall j :: i <= j < SkipSpace(s, i) ==> IsSpace(s[j]))
    ensures SkipSpace(s, i) < |s| ==> !IsSpace(s[SkipSpace(s, i)])
    decreases |s| - i
  {
    if i < |s| && IsSpace(s[i]) { SkipSpaceIs(s, i + 1); }
  }

  /** Boundaries of the rest of a text that does not begin with white space. */
  lemma RestBoundary(s: Text, from: nat, j: int)
    requires from <= |s| && j > 0
    ensures Boundary(s[from..], j) <==> Boundary(s, from + j)
  {
  }

  lemma PartedCons(s: Text, from: nat, j: nat, k: nat, rest: seq<Text>)
    requires Breaks(s, from, j, k) && Parted(s, k, rest)
    ensures from < j < k <= |s| && Parted(s, from, [s[from..j]] + rest)
  {
    FromInside(s, from, j, k);
    hide Breaks;
    var all := [s[from..j]] + rest;
    assert all[1..] == rest && all[0] == s[from..j];
  }

  lemma PartedOne(s: Text, from: nat)
    requires from <= |s| && forall j :: from < j ==> !Boundary(s, j)
    ensures Parted(s, from, [s[from..]])
  {
    hide Boundary;
  }

  lemma FromInside(s: Text, from: nat, j: int, k: int)
    requires Breaks(s, from, j, k)
    ensures from < j < k <= |s|
  {
  }

  lemma SentencesStep(t: Text)
    requires t != []
    ensures var j := CutAt(t, 1);
      Sentences(t) == if j >= |t| then [t] else [t[..j]] + Sentences(t[SkipSpace(t, j)..])
  {
  }

  lemma NoSentences()
    ensures Sentences([]) == [[]]
  {
  }

  /** The split finds the sentences, as the places say. */
  lemma {:induction false} SentencesAre(s: Text, from: nat)
    requires from <= |s|
    ensures Parted(s, from, Sentences(s[from..]))
    decreases |s| - from
  {
    hide Boundary, Sentences, Parted, Breaks, CutAt, SkipSpace, IsSpace, EndsSentence;
    var t := s[from..];
    if t == [] {
      NoBoundaryAtEnd(s, from);
      NoSentences();
      PartedOne(s, from);
    } else {
      CutAtFirst(t, 1);
      SentencesStep(t);
      var j := CutAt(t, 1);
      if j >= |t| {
        forall i | from < i ensures !Boundary(s, i) { LaterBoundary(s, from, i); }
        PartedOne(s, from);
      } else {
        SkipSpaceIs(t, j);
        var k := SkipSpace(t, j);
        SentencesAre(s, from + k);
        BreaksHere(s, from, j, k);
        PartedCons(s, from, from + j, from + k, Sentences(s[from + k..]));
        assert t[k..] == s[from + k..] && t[..j] == s[from..from + j];
      }
    }
  }

  lemma NoBoundaryAtEnd(s: Text, from: nat)
    requires from == |s|
    ensures forall i :: from < i ==> !Boundary(s, i)
  {
  }

  lemma LaterBoundary(s: Text, from: nat, i: int)
    requires from < i && from <= |s| && forall j :: 1 <= j < |s| - from ==> !Boundary(s[from..], j)
    ensures !Boundary(s, i)
  {
    if i < |s| { RestBoundary(s, from, i - from); }
  }

  lemma BreaksHere(s: Text, from: nat, j: nat, k: nat)
    requires from <= |s| && 0 < j <= k <= |s| - from && j < |s| - from && Boundary(s[from..], j)
    requires forall i :: 1 <= i < j ==> !Boundary(s[from..], i)
    requires forall i :: j <= i < k ==> IsSpace(s[from..][i])
    requires k < |s| - from ==> !IsSpace(s[from..][k])
    ensures Breaks(s, from, from + j, from + k)
  {
    RestBoundary(s, from, j);
    forall i | from < i < from + j ensures !Boundary(s, i) { RestBoundary(s, from, i - from); }
    forall i | from + j <= i < from + k ensures IsSpace(s[i]) { assert s[i] == s[from..][i - from]; }
    assert IsSpace(s[from + j]) && s[from + j] == s[from..][j];
  }

  // --- the text of a chunk --------------------------------------------------------------------------

  lemma BlankInk(t: Text)
    requires Blank(t)
    ensures Ink(t) == []
  {
    NoInkInSpace(t);
    BlankIsSpace(t);
  }

  lemma BlankIsSpace(t: Text)
    requires Blank(t)
    ensures forall i :: 0 <= i < |t| ==> IsSpace(t[i])
  {
    var n := LStripCut(t);
    var m := RStripCut(t[n..]);
    assert forall i :: n <= i < |t| ==> t[i] == t[n..][i - n];
  }

  lemma {:induction false} NoInkInSpace(t: Text)
    ensures (forall i :: 0 <= i < |t| ==> IsSpace(t[i])) ==> Ink(t) == []
  {
    if t != [] { NoInkInSpace(t[1..]); }
  }

  lemma {:induction false} NonBlankInk(parts: seq<Text>)
    ensures Ink(Concat(NonBlank(parts))) == Ink(Concat(parts))
  {
    hide Blank, Ink;
    if parts != [] {
      NonBlankInk(parts[1..]);
      InkAppend(parts[0], Concat(parts[1..]));
      if Blank(parts[0]) {
        BlankInk(parts[0]);
        assert [] + NonBlank(parts[1..]) == NonBlank(parts[1..]);
      } else {
        InkAppend(parts[0], Concat(NonBlank(parts[1..])));
        assert ([parts[0]] + NonBlank(parts[1..]))[1..] == NonBlank(parts[1..]);
      }
    }
  }

  lemma GapInk()
    ensures Ink(GAP) == []
  {
    assert GAP[1..] == [LF] && [LF][1..] == [];
    assert Ink([LF]) == [] && IsSpace(LF);
  }

  /** Apart from white space, a chunk's text is its heading, if it was put in front,
      the carry-over, and its own blocks, in this order and with nothing else. */
  lemma ChunkInk(st: Settings, carry: Text, bs: seq<Block>)
    ensures Ink(Body(carry, bs)) == Ink(carry) + Ink(Concat(Texts(bs)))
    ensures ChunkText(st, carry, bs) == Body(carry, bs)
      || (st.contextualise && FirstSection(bs) != [] && !StartsWith(LStrip(Body(carry, bs)), FirstSection(bs))
          && Ink(ChunkText(st, carry, bs)) == Ink(FirstSection(bs)) + Ink(Body(carry, bs)))
    ensures st.contextualise && FirstSection(bs) != [] ==>
      StartsWith(LStrip(ChunkText(st, carry, bs)), FirstSection(bs)) || FirstSection(bs) <= ChunkText(st, carry, bs)
  {
    hide Ink, NonBlank, Joined, FirstSection, LStrip;
    var front := if carry != [] then [carry] else [];
    var parts := front + Texts(bs);
    GapInk();
    NonBlankInk(parts);
    JoinedInk(NonBlank(parts), GAP);
    ConcatAppend(front, Texts(bs));
    FrontIs(carry);
    InkAppend(Concat(front), Concat(Texts(bs)));
    var section := FirstSection(bs);
    InkAppend(section + GAP, Body(carry, bs));
    InkAppend(section, GAP);
    assert Ink(section) + [] == Ink(section);
    assert section + GAP + Body(carry, bs) == section + (GAP + Body(carry, bs));
  }

  lemma FrontIs(carry: Text)
    ensures Concat(if carry != [] then [carry] else []) == carry
  {
    if carry != [] { assert [carry][1..] == [] && carry + [] == carry; }
  }

  /** Two of the joined parts, the first before the second. */
  lemma {:induction false} JoinedInOrder(parts: seq<Text>, i: nat, j: nat, sep: Text) returns (p: nat, q: nat)
    requires i < j < |parts|
    ensures OccursAt(parts[i], Joined(parts, sep), p) && OccursAt(parts[j], Joined(parts, sep), q)
    ensures p + |parts[i]| + |sep| <= q
  {
    var front, rest := parts[0] + sep, Joined(parts[1..], sep);
    if i == 0 {
      p, q := FirstAndLater(parts, j, sep);
    } else {
      p, q := JoinedInOrder(parts[1..], i - 1, j - 1, sep);
      Shifted(front, rest, p, |parts[i]|);
      Shifted(front, rest, q, |parts[j]|);
      p, q := |front| + p, |front| + q;
    }
  }

  lemma FirstAndLater(parts: seq<Text>, j: nat, sep: Text) returns (p: nat, q: nat)
    requires 0 < j < |parts|
    ensures OccursAt(parts[0], Joined(parts, sep), p) && OccursAt(parts[j], Joined(parts, sep), q)
    ensures p + |parts[0]| + |sep| <= q
  {
    var front, rest := parts[0] + sep, Joined(parts[1..], sep);
    var before, after := JoinedHolds(parts[1..], j - 1, sep);
    hide Joined;
    p, q := 0, |front| + |before|;
    assert (front + rest)[0..|parts[0]|] == parts[0];
    assert rest[|before|..|before| + |parts[j]|] == parts[j];
    Shifted(front, rest, |before|, |parts[j]|);
  }

  lemma Shifted(front: Text, s: Text, i: nat, n: nat)
    requires i + n <= |s|
    ensures (front + s)[|front| + i..|front| + i + n] == s[i..i + n]
  {
  }

  lemma {:induction false} NonBlankTwo(parts: seq<Text>, i: nat, j: nat) returns (k: nat, m: nat)
    requires i < j < |parts| && !Blank(parts[i]) && !Blank(parts[j])
    ensures k < m < |NonBlank(parts)| && NonBlank(parts)[k] == parts[i] && NonBlank(parts)[m] == parts[j]
  {
    hide Blank;
    if i == 0 {
      var o := NonBlankHas(parts[1..], j - 1);
      k, m := 0, o + 1;
    } else {
      k, m := NonBlankTwo(parts[1..], i - 1, j - 1);
      if !Blank(parts[0]) { k, m := k + 1, m + 1; }
    }
  }

  /** One text stands in another before a third, at least `gap` characters apart. */
  ghost predicate Before(a: Text, b: Text, whole: Text, gap: nat) {
    exists p: nat, q: nat :: OccursAt(a, whole, p) && OccursAt(b, whole, q) && p + |a| + gap <= q
  }

  lemma InBody(carry: Text, bs: seq<Block>, i: nat, j: nat)
    requires var parts := (if carry != [] then [carry] else []) + Texts(bs);
      i < j < |parts| && !Blank(parts[i]) && !Blank(parts[j])
    ensures var parts := (if carry != [] then [carry] else []) + Texts(bs);
      Before(parts[i], parts[j], Body(carry, bs), 2)
  {
    hide Blank, NonBlank, Joined, OccursAt;
    var parts := (if carry != [] then [carry] else []) + Texts(bs);
    var k, m := NonBlankTwo(parts, i, j);
    var p, q := JoinedInOrder(NonBlank(parts), k, m, GAP);
    assert |GAP| == 2;
  }

  /** The same behind a heading. */
  lemma InText(st: Settings, carry: Text, bs: seq<Block>, a: Text, b: Text)
    requires Before(a, b, Body(carry, bs), 2)
    ensures Before(a, b, ChunkText(st, carry, bs), 2)
  {
    var body := Body(carry, bs);
    var p: nat, q: nat :| OccursAt(a, body, p) && OccursAt(b, body, q) && p + |a| + 2 <= q;
    var front := FirstSection(bs) + GAP;
    Shifted(front, body, p, |a|);
    Shifted(front, body, q, |b|);
    hide Body, FirstSection, LStrip;
    assert OccursAt(a, front + body, |front| + p) && OccursAt(b, front + body, |front| + q);
  }

  /** The carry-over, if it is not blank, stands in the chunk's text word for word,
      before every block of its own; and those stand there in their order, with a
      blank line between any two. */
  lemma CarryFirst(st: Settings, carry: Text, bs: seq<Block>, i: nat)
    requires i < |bs| && !Blank(carry) && !Blank(bs[i].text)
    ensures Before(carry, bs[i].text, ChunkText(st, carry, bs), 2)
  {
    hide Blank, Before, Body;
    NotNothing(carry);
    assert ([carry] + Texts(bs))[i + 1] == bs[i].text;
    InBody(carry, bs, 0, i + 1);
    InText(st, carry, bs, carry, bs[i].text);
  }

  lemma NotNothing(t: Text)
    requires !Blank(t)
    ensures t != []
  {
  }

  lemma OwnInOrder(st: Settings, carry: Text, bs: seq<Block>, i: nat, j: nat)
    requires i < j < |bs| && !Blank(bs[i].text) && !Blank(bs[j].text)
    ensures Before(bs[i].text, bs[j].text, ChunkText(st, carry, bs), 2)
  {
    hide Blank, Before, Body;
    var front := if carry != [] then [carry] else [];
    var parts := front + Texts(bs);
    assert parts[|front| + i] == bs[i].text && parts[|front| + j] == bs[j].text;
    InBody(carry, bs, |front| + i, |front| + j);
    InText(st, carry, bs, bs[i].text, bs[j].text);
  }

  // --- what is said about it -----------------------------------------------------------------------------

  lemma {:induction false} PagesAre(bs: seq<Block>)
    requires bs != []
    ensures (forall i :: 0 <= i < |bs| ==> MinPage(bs) <= bs[i].page <= MaxPage(bs))
    ensures (exists i :: 0 <= i < |bs| && bs[i].page == MinPage(bs))
      && exists i :: 0 <= i < |bs| && bs[i].page == MaxPage(bs)
  {
    assert bs[0].page == bs[0].page;
    if |bs| > 1 {
      var rest := bs[1..];
      PagesAre(rest);
      var i :| 0 <= i < |rest| && rest[i].page == MinPage(rest);
      var j :| 0 <= j < |rest| && rest[j].page == MaxPage(rest);
      assert bs[i + 1].page == MinPage(rest) && bs[j + 1].page == MaxPage(rest);
      forall k | 0 <= k < |bs| ensures MinPage(bs) <= bs[k].page <= MaxPage(bs) {
        if k > 0 { assert rest[k - 1] == bs[k]; }
      }
    }
  }

  lemma {:induction false} SectionIs(bs: seq<Block>)
    ensures (FirstSection(bs) == [] && forall i :: 0 <= i < |bs| ==> bs[i].section == [])
      || exists i :: (0 <= i < |bs| && bs[i].section == FirstSection(bs) != []
                      && forall k :: 0 <= k < i ==> bs[k].section == [])
  {
    if bs != [] {
      if bs[0].section == [] {
        var rest := bs[1..];
        SectionIs(rest);
        if i :| 0 <= i < |rest| && rest[i].section == FirstSection(rest) != []
                && forall k :: 0 <= k < i ==> rest[k].section == [] {
          forall k | 0 <= k < i + 1 ensures bs[k].section == [] { if k > 0 { assert rest[k - 1] == bs[k]; } }
          assert bs[i + 1].section == FirstSection(bs);
        } else {
          forall k | 0 <= k < |bs| ensures bs[k].section == [] { if k > 0 { assert rest[k - 1] == bs[k]; } }
        }
      } else {
        assert bs[0].section == FirstSection(bs);
      }
    }
  }

  /** A chunk's own fields: numbered in order, from the first to the last page of its
      blocks, under the first section any of them names, counted as it is stored, and
      marked for a table or a doubtful reading among its own blocks. */
  lemma ChunkSays(st: Settings, groups: seq<seq<Item>>, n: nat)
    requires n < |groups| && forall i :: 0 <= i < |groups| ==> groups[i] != []
    ensures var c, bs := RenderAll(st, groups)[n], Own(groups[n]);
      && c.index == n && c.tokens == st.count(c.text)
      && c.text == ChunkText(st, CarryAfter(st, groups[..n]), bs)
      && (forall i :: 0 <= i < |bs| ==> c.page <= bs[i].page <= c.pageEnd)
      && (exists i :: 0 <= i < |bs| && bs[i].page == c.page)
      && (exists i :: 0 <= i < |bs| && bs[i].page == c.pageEnd)
      && (c.hasTable <==> exists i :: 0 <= i < |bs| && bs[i].kind == Table)
      && (c.lowConf <==> exists i :: 0 <= i < |bs| && bs[i].lowConf)
      && c.section == FirstSection(bs)
  {
    hide ChunkText, CarryAfter, FirstSection, MinPage, MaxPage;
    PagesAre(Own(groups[n]));
  }

  /** What the last `k` sentences cost. */
  function LastCost(ss: seq<Text>, k: nat, count: Text -> nat): nat
    requires k <= |ss|
  {
    Total(ss[|ss| - k..], count)
  }

  /** What a chunk hands on: nothing without an overlap or without prose; else the
      most final sentences of its prose that fit the overlap together, or the tail of
      it when not one does. */
  lemma CarryIs(st: Settings, bs: seq<Block>) returns (k: nat)
    ensures var prose, ss := Joined(ProseTexts(bs), GAP), Sentences(Joined(ProseTexts(bs), GAP));
      && (st.overlap <= 0 || prose == [] ==> Overlap(st, bs) == [])
      && (st.overlap > 0 && prose != [] ==>
            && k <= |ss| && (k > 0 ==> LastCost(ss, k, st.count) <= st.overlap)
            && (forall m :: k < m <= |ss| ==> LastCost(ss, m, st.count) > st.overlap)
            && Overlap(st, bs) == (if k == 0 then st.tail(prose, st.overlap)
                                   else Strip(Joined(ss[|ss| - k..], [SPACE]))))
  {
    hide Sentences, Joined, ProseTexts, Total, Strip;
    var prose := Joined(ProseTexts(bs), GAP);
    var ss := Sentences(prose);
    k := Backward(ss, 0, st.count, st.overlap);
    BackwardLongest(ss, 0, 0, st.count, st.overlap);
    forall m | k < m <= |ss| ensures LastCost(ss, m, st.count) > st.overlap {
      BackwardLongest(ss, 0, m, st.count, st.overlap);
    }
  }

  /** The prose of a chunk: the texts of its blocks that are no tables, in order. */
  lemma {:induction false} ProseTextsAre(bs: seq<Block>, t: Text)
    ensures t in ProseTexts(bs) <==> exists i :: 0 <= i < |bs| && bs[i].kind != Table && bs[i].text == t
  {
    if bs != [] {
      ProseTextsAre(bs[1..], t);
      if bs[0].kind != Table && bs[0].text == t { assert bs[0].text == t; }
      if i :| 0 <= i < |bs[1..]| && bs[1..][i].kind != Table && bs[1..][i].text == t { assert bs[i + 1].text == t; }
      if i :| 0 <= i < |bs| && bs[i].kind != Table && bs[i].text == t && i > 0 { assert bs[1..][i - 1].text == t; }
    }
  }
}
