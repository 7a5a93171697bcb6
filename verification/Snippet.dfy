/** The focused snippet (ragsvc/tools.py): the lines of a passage that answer a
    query, within a token budget. */
module Snippet {
  import opened Codes
  import opened Sorting

  /** str.lower on one character. No character's lower case is white space unless
      it is itself. */
  type Lower = Code -> Code

  ghost predicate KeepsSpace(lower: Lower) { forall c :: IsSpace(lower(c)) <==> IsSpace(c) }

  function Lowered(s: Text, lower: Lower): Text { seq(|s|, i requires 0 <= i < |s| => lower(s[i])) }

  // --- query terms ---------------------------------------------------------------------------

  predicate IsAlnum(c: Code) { 0x30 <= c <= 0x39 || 0x61 <= c <= 0x7A }

  predicate IsJoint(c: Code) { c == '-' as int || c == '_' as int || c == '/' as int || c == '.' as int }

  /** Where the run of letters and digits from `i` ends. */
  function RunEnd(s: Text, i: nat): (j: nat)
    requires i <= |s|
    ensures i <= j <= |s| && (i < |s| && IsAlnum(s[i]) ==> i < j)
    ensures forall k :: i <= k < j ==> IsAlnum(s[k])
    decreases |s| - i
  {
    if i < |s| && IsAlnum(s[i]) then RunEnd(s, i + 1) else i
  }

  /** Where a compound identifier whose first run ends at `j` ends. */
  function CompoundEnd(s: Text, j: nat): (e: nat)
    requires j <= |s|
    ensures j <= e <= |s|
    ensures forall k :: j <= k < e ==> IsAlnum(s[k]) || IsJoint(s[k])
    decreases |s| - j
  {
    if j + 1 < |s| && IsJoint(s[j]) && IsAlnum(s[j + 1]) then CompoundEnd(s, RunEnd(s, j + 1)) else j
  }

  /** TERM_RE.findall from position `i`. */
  function Matches(s: Text, i: nat): seq<Text>
    requires i <= |s|
    decreases |s| - i
  {
    if i == |s| then []
    else if IsAlnum(s[i]) then
      var e := CompoundEnd(s, RunEnd(s, i));
      [s[i..e]] + Matches(s, e)
    else Matches(s, i + 1)
  }

  /** re.split(r"[-_/.]", match). */
  function Parts(s: Text, from: nat, i: nat): seq<Text>
    requires from <= i <= |s|
    decreases |s| - i
  {
    if i == |s| then [s[from..]]
    else if IsJoint(s[i]) then [s[from..i]] + Parts(s, i + 1, i + 1)
    else Parts(s, from, i + 1)
  }

  predicate Content(t: Text, stopwords: set<Text>) { |t| > 2 && t !in stopwords }

  function TermsOf(word: Text, stopwords: set<Text>): set<Text> {
    if Content(word, stopwords) then
      {word} + (set p | p in Parts(word, 0, 0) && Content(p, stopwords))
    else {}
  }

  function AllTerms(words: seq<Text>, stopwords: set<Text>): set<Text> {
    if words == [] then {} else TermsOf(words[0], stopwords) + AllTerms(words[1..], stopwords)
  }

  /** _query_terms. */
  function QueryTerms(query: Text, lower: Lower, stopwords: set<Text>): set<Text> {
    AllTerms(Matches(Lowered(query, lower), 0), stopwords)
  }

  /** A term is more than two characters long and holds no white space. */
  predicate Wordlike(t: Text) { forall k :: 0 <= k < |t| ==> IsAlnum(t[k]) || IsJoint(t[k]) }

  predicate TermLike(t: Text) { |t| > 2 && Wordlike(t) }

  lemma {:induction false} MatchesWordlike(s: Text, i: nat)
    requires i <= |s|
    ensures forall w :: w in Matches(s, i) ==> Wordlike(w)
    decreases |s| - i
  {
    if i < |s| {
      if IsAlnum(s[i]) {
        var j := RunEnd(s, i);
        var e := CompoundEnd(s, j);
        assert Wordlike(s[i..e]) by {
          forall k | 0 <= k < |s[i..e]| ensures IsAlnum(s[i..e][k]) || IsJoint(s[i..e][k]) {
            if i + k < j { assert IsAlnum(s[i + k]); }
          }
        }
        MatchesWordlike(s, e);
      } else {
        MatchesWordlike(s, i + 1);
      }
    }
  }

  lemma {:induction false} PartsWordlike(s: Text, from: nat, i: nat)
    requires from <= i <= |s| && Wordlike(s)
    ensures forall p :: p in Parts(s, from, i) ==> Wordlike(p)
    decreases |s| - i
  {
    if i < |s| {
      if IsJoint(s[i]) { PartsWordlike(s, i + 1, i + 1); } else { PartsWordlike(s, from, i + 1); }
    }
  }

  lemma {:induction false} AllTermsLike(words: seq<Text>, stopwords: set<Text>)
    requires forall w :: w in words ==> Wordlike(w)
    ensures forall t :: t in AllTerms(words, stopwords) ==> TermLike(t)
  {
    if words != [] {
      AllTermsLike(words[1..], stopwords);
      assert words[0] in words;
      PartsWordlike(words[0], 0, 0);
    }
  }

  lemma TermsAreTerms(query: Text, lower: Lower, stopwords: set<Text>)
    ensures forall t :: t in QueryTerms(query, lower, stopwords) ==> TermLike(t)
  {
    MatchesWordlike(Lowered(query, lower), 0);
    AllTermsLike(Matches(Lowered(query, lower), 0), stopwords);
  }

  // --- finding ------------------------------------------------------------------------------------

  /** str.find: the first occurrence at or after `i`, or -1. */
  function Find(s: Text, t: Text, i: nat): (r: int)
    ensures r >= 0 ==> i <= r && OccursAt(t, s, r)
    ensures forall j :: i <= j && (r < 0 || j < r) ==> !OccursAt(t, s, j)
    decreases |s| - i
  {
    if i + |t| > |s| then -1 else if s[i..i + |t|] == t then i else Find(s, t, i + 1)
  }

  /** The earliest position of any term, or -1. */
  ghost predicate Earliest(line: Text, terms: set<Text>, c: int) {
    if c < 0 then forall t, j :: t in terms ==> !OccursAt(t, line, j)
    else (exists t :: t in terms && OccursAt(t, line, c)) && forall t, j :: t in terms && OccursAt(t, line, j) ==>
      c <= j
  }

  /** min over the terms' positions. */
  method Centre(lowered: Text, terms: set<Text>) returns (c: int)
    ensures Earliest(lowered, terms, c)
  {
    c := -1;
    var rest := terms;
    while rest != {}
      invariant rest <= terms
      invariant c >= 0 ==> exists t :: t in terms && OccursAt(t, lowered, c)
      invariant forall t, j :: t in terms && t !in rest && OccursAt(t, lowered, j) ==> 0 <= c <= j
      decreases |rest|
    {
      var t :| t in rest;
      var pos := Find(lowered, t, 0);
      if pos >= 0 && (c < 0 || pos < c) { c := pos; }
      rest := rest - {t};
    }
  }

  // --- the window -----------------------------------------------------------------------------------

  const DOTS: Text := Lit("...")

  function WindowWidth(budget: nat): nat {
    var chars := budget * 17 / 5;
    if chars > 80 then chars else 80
  }

  /** Where the slice starts: a third of the width before the centre, moved to the
      next word when a blank is near. */
  function WindowStart(line: Text, centre: nat, width: nat): nat {
    var start := if centre > width / 3 then centre - width / 3 else 0;
    if start > 0 then
      var space := Find(line, [SPACE], start);
      if 0 <= space < start + 30 then space + 1 else start
    else 0
  }

  function WindowEnd(line: Text, centre: nat, width: nat): nat {
    var start := if centre > width / 3 then centre - width / 3 else 0;
    if |line| < start + width then |line| else start + width
  }

  /** A slice of the line, even where Python's bounds cross. */
  function Slice(s: Text, i: nat, j: nat): Text {
    if i < j && j <= |s| then s[i..j] else []
  }

  function WindowText(line: Text, centre: nat, budget: nat): Text {
    var width := WindowWidth(budget);
    var start, end := WindowStart(line, centre, width), WindowEnd(line, centre, width);
    (if start > 0 then DOTS else []) + Strip(Slice(line, start, end)) + (if end < |line| then DOTS else [])
  }

  /** _window. */
  method Window(line: Text, terms: set<Text>, budget: nat, lower: Lower) returns (w: Text, ghost centre: int)
    ensures Earliest(Lowered(line, lower), terms, centre)
    ensures w == WindowText(line, if centre >= 0 then centre else 0, budget)
  {
    var c := Centre(Lowered(line, lower), terms);
    centre := c;
    w := WindowText(line, if c >= 0 then c else 0, budget);
  }

  /** The term at the centre lies between the ends of the slice when it is at most
      57 characters long. */
  lemma SliceCovers(line: Text, lowered: Text, t: Text, c: nat, budget: nat)
    requires |lowered| == |line| && OccursAt(t, lowered, c) && 2 < |t| <= 57 && budget >= 25
    requires forall k :: c <= k < c + |t| ==> !IsSpace(line[k])
    ensures var width := WindowWidth(budget);
      WindowStart(line, c, width) <= c && c + |t| <= WindowEnd(line, c, width)
  {
    var width := WindowWidth(budget);
    assert width >= 85;
    var start := if c > width / 3 then c - width / 3 else 0;
    if start > 0 {
      var space := Find(line, [SPACE], start);
      if 0 <= space < start + 30 {
        assert line[space] == line[space..space + 1][0] == SPACE;
        assert !(c <= space < c + |t|);
      }
    }
  }

  /** Every window over a line that carries a term shows the earliest one whole,
      if it is at most 57 characters long. */
  lemma WindowHoldsTerm(line: Text, terms: set<Text>, c: nat, t: Text, budget: nat, lower: Lower)
    requires KeepsSpace(lower) && Earliest(Lowered(line, lower), terms, c)
    requires t in terms && OccursAt(t, Lowered(line, lower), c) && TermLike(t) && |t| <= 57 && budget >= 25
    ensures Within(t, Lowered(WindowText(line, c, budget), lower))
  {
    hide Strip, WindowStart, WindowEnd, WindowWidth;
    var lowered := Lowered(line, lower);
    TermNotSpace(line, t, c, lower);
    SliceCovers(line, lowered, t, c, budget);
    var width := WindowWidth(budget);
    var start, end := WindowStart(line, c, width), WindowEnd(line, c, width);
    EndInside(line, c, width);
    var slice := line[start..end];
    assert Slice(line, start, end) == slice;
    forall k | c - start <= k < c - start + |t| ensures !IsSpace(slice[k]) {
      assert slice[k] == line[start + k];
    }
    var o := StripKeeps(slice, c - start, c - start + |t|);
    assert slice[c - start..c - start + |t|] == line[c..c + |t|];
    Assemble(if start > 0 then DOTS else [], Strip(slice), if end < |line|
      then DOTS else [], o, line[c..c + |t|], t, lower);
  }

  lemma EndInside(line: Text, c: nat, width: nat)
    ensures WindowEnd(line, c, width) <= |line|
  {
  }

  lemma TermNotSpace(line: Text, t: Text, c: nat, lower: Lower)
    requires KeepsSpace(lower) && TermLike(t) && OccursAt(t, Lowered(line, lower), c)
    ensures c + |t| <= |line| && Lowered(line[c..c + |t|], lower) == t
    ensures forall k :: c <= k < c + |t| ==> !IsSpace(line[k])
  {
    var lowered := Lowered(line, lower);
    assert Lowered(line[c..c + |t|], lower) == lowered[c..c + |t|];
    forall k | c <= k < c + |t| ensures !IsSpace(line[k]) {
      assert lowered[c..c + |t|][k - c] == lower(line[k]);
      assert IsAlnum(t[k - c]) || IsJoint(t[k - c]);
    }
  }

  lemma Assemble(before: Text, middle: Text, after: Text, o: nat, found: Text, t: Text, lower: Lower)
    requires o + |found| <= |middle| && middle[o..o + |found|] == found && Lowered(found, lower) == t
    ensures Within(t, Lowered(before + middle + after, lower))
  {
    var whole := before + middle + after;
    var p := |before| + o;
    assert whole[p..p + |found|] == middle[o..o + |found|];
    assert Lowered(whole, lower)[p..p + |t|] == Lowered(found, lower);
    assert OccursAt(t, Lowered(whole, lower), p);
  }

  /** The bound of 57 is the right one: at the smallest budget a longer term is cut. */
  lemma LongerIsCut(line: Text, t: Text, c: nat)
    requires c >= 28 && |t| > 57 && c + |t| <= |line|
    ensures WindowEnd(line, c, WindowWidth(25)) < c + |t|
  {
  }

  // --- choosing lines -----------------------------------------------------------------------------------

  datatype Query = Query(terms: set<Text>, lower: Lower, count: Text -> nat)

  /** _line_score: how many terms the line carries. */
  ghost function Carried(line: Text, q: Query): set<Text> {
    set t | t in q.terms && Find(Lowered(line, q.lower), t, 0) >= 0
  }

  method LineScore(line: Text, q: Query) returns (n: nat)
    ensures n == |Carried(line, q)|
  {
    hide Find, Lowered;
    n := 0;
    var lowered := Lowered(line, q.lower);
    var rest := q.terms;
    ghost var seen: set<Text> := {};
    while rest != {}
      invariant rest <= q.terms && n == |seen|
      invariant forall t :: t in seen <==> t in q.terms && t !in rest && Find(lowered, t, 0) >= 0
      decreases |rest|
    {
      var t :| t in rest;
      if Find(lowered, t, 0) >= 0 {
        n := n + 1;
        seen := seen + {t};
      }
      rest := rest - {t};
    }
    assert seen == Carried(line, q);
  }

  /** A line as it is ranked: more terms first, then fewer tokens, then position. */
  datatype Ranked = Ranked(score: nat, width: nat, index: nat)

  predicate Better(a: Ranked, b: Ranked) {
    a.score > b.score || (a.score == b.score && (a.width < b.width || (a.width == b.width && a.index < b.index)))
  }

  lemma BetterChains()
    ensures Chains(Better)
  {
  }

  ghost predicate RanksLine(r: Ranked, lines: seq<Text>, q: Query) {
    r.index < |lines| && r.score == |Carried(lines[r.index], q)| && r.width == q.count(lines[r.index])
  }

  /** All lines of the passage, best first. */
  ghost predicate IsRanking(ranked: seq<Ranked>, lines: seq<Text>, q: Query) {
    && InOrder(ranked, Better)
    && (forall r :: r in ranked ==> RanksLine(r, lines, q))
    && (forall i :: 0 <= i < |lines| ==> Ranked(|Carried(lines[i], q)|, q.count(lines[i]), i) in ranked)
  }

  method RankLines(lines: seq<Text>, q: Query) returns (ranked: seq<Ranked>)
    ensures IsRanking(ranked, lines, q)
  {
    BetterChains();
    ranked := [];
    for i := 0 to |lines|
      invariant InOrder(ranked, Better)
      invariant forall r :: r in ranked ==> RanksLine(r, lines, q) && r.index < i
      invariant forall k :: 0 <= k < i ==> Ranked(|Carried(lines[k], q)|, q.count(lines[k]), k) in ranked
    {
      var score := LineScore(lines[i], q);
      var r := Ranked(score, q.count(lines[i]), i);
      InsertKeeps(r, ranked, Better);
      ranked := Insert(r, ranked, Better);
    }
  }

  /** A line kept whole costs its tokens and one; a window costs its own budget and
      four, and has at least 25 to itself. */
  ghost predicate KeptHow(q: Query, line: Text, kept: Text, charge: nat) {
    || (kept == line && charge == q.count(line) + 1)
    || (charge >= 29 && exists c ::
          Earliest(Lowered(line, q.lower), q.terms, c) && kept == WindowText(line, if c >= 0 then c else 0, charge - 4))
  }

  ghost function CentreOf(line: Text, q: Query): (c: int)
    ensures Earliest(Lowered(line, q.lower), q.terms, c)
  {
    SomeEarliest(Lowered(line, q.lower), q.terms);
    var c :| Earliest(Lowered(line, q.lower), q.terms, c);
    c
  }

  lemma {:induction false} SomeEarliest(lowered: Text, terms: set<Text>)
    ensures exists c :: Earliest(lowered, terms, c)
    decreases |terms|
  {
    if terms == {} {
      assert Earliest(lowered, terms, -1);
    } else {
      var t :| t in terms;
      SomeEarliest(lowered, terms - {t});
      var c :| Earliest(lowered, terms - {t}, c);
      var pos := Find(lowered, t, 0);
      var best := if pos >= 0 && (c < 0 || pos < c) then pos else c;
      forall u, j | u in terms && OccursAt(u, lowered, j) ensures 0 <= best <= j {
        if u != t { assert u in terms - {t}; }
      }
      if best >= 0 {
        if best == pos { assert OccursAt(t, lowered, best); }
        else { var u :| u in terms - {t} && OccursAt(u, lowered, best); assert u in terms; }
      }
      assert Earliest(lowered, terms, best);
    }
  }

  lemma OneEarliest(lowered: Text, terms: set<Text>, a: int, b: int)
    requires Earliest(lowered, terms, a) && Earliest(lowered, terms, b)
    ensures a == b || (a < 0 && b < 0)
  {
    if a >= 0 { var t :| t in terms && OccursAt(t, lowered, a); }
    if b >= 0 { var t :| t in terms && OccursAt(t, lowered, b); }
  }

  /** What is kept, and what it has cost. */
  datatype Picked = Picked(keep: map<nat, Text>, used: nat)

  /** The whole line if it fits, else a window over everything left if one is
      allowed and there is room for it. */
  ghost function Taking(lines: seq<Text>, q: Query, budget: nat, p: Picked, index: int, window: bool): Picked {
    if 0 <= index < |lines| && index !in p.keep then
      var cost := q.count(lines[index]) + 1;
      if p.used + cost <= budget then Picked(p.keep[index := lines[index]], p.used + cost)
      else if window && p.used + 29 <= budget then
        var c := CentreOf(lines[index], q);
        Picked(p.keep[index := WindowText(lines[index], if c >= 0 then c else 0, budget - p.used - 4)], budget)
      else p
    else p
  }

  /** The first line that is not blank, or -1. */
  function FirstFull(lines: seq<Text>, i: nat): int
    requires i <= |lines|
    decreases |lines| - i
  {
    if i == |lines| then -1 else if Strip(lines[i]) != [] then i else FirstFull(lines, i + 1)
  }

  predicate IsPipe(line: Text) { StartsWith(LStrip(line), ['|' as int]) }

  function Pipes(lines: seq<Text>, n: nat): seq<nat>
    requires n <= |lines|
  {
    if n == 0 then [] else Pipes(lines, n - 1) + (if IsPipe(lines[n - 1]) then [n - 1] else [])
  }

  ghost function TakingHeader(lines: seq<Text>, q: Query, budget: nat, p: Picked): Picked {
    var pipes := Pipes(lines, |lines|);
    if |pipes| >= 3 then Taking(lines, q, budget, Taking(lines, q, budget, p, pipes[0], false), pipes[1], false) else p
  }

  /** The lines that still carry a term, from place `k` of the ranking on. */
  ghost function TakingRest(lines: seq<Text>, q: Query, budget: nat, p: Picked, ranked: seq<Ranked>, k: nat): Picked
    requires k <= |ranked|
    decreases |ranked| - k
  {
    if k == |ranked| || ranked[k].score == 0 then p
    else TakingRest(lines, q, budget, Taking(lines, q, budget, p, ranked[k].index, false), ranked, k + 1)
  }

  /** The takes, in the source's order: the best line, the second best, the line
      after the best, the heading, a table's header and rule, then the rest. */
  ghost function TakingAll(lines: seq<Text>, q: Query, budget: nat, ranked: seq<Ranked>): Picked
    requires |ranked| >= 2
  {
    var p1 := Taking(lines, q, budget, Picked(map[], 0), ranked[0].index, true);
    var p2 := if ranked[1].score > 0 then Taking(lines, q, budget, p1, ranked[1].index, true) else p1;
    var p3 := Taking(lines, q, budget, p2, ranked[0].index + 1, false);
    var p4 := Taking(lines, q, budget, p3, FirstFull(lines, 0), false);
    TakingRest(lines, q, budget, TakingHeader(lines, q, budget, p4), ranked, 1)
  }

  /** The closure state of _focused_snippet: what is kept and what it has cost. */
  class Picker {
    const lines: seq<Text>
    const q: Query
    const budget: nat
    var keep: map<nat, Text>
    var used: nat
    /** What each kept line was charged. */
    ghost var charges: map<nat, nat>

    ghost predicate Valid()
      reads this
    {
      && keep.Keys == charges.Keys && used == TotalCharge(charges, |lines|) && used <= budget
      && (forall i :: i in keep ==> i < |lines| && KeptHow(q, lines[i], keep[i], charges[i]))
    }

    ghost function View(): Picked
      reads this
    {
      Picked(keep, used)
    }

    constructor (lines: seq<Text>, q: Query, budget: nat)
      ensures Valid() && this.lines == lines && this.q == q && this.budget == budget && View() == Picked(map[], 0)
    {
      this.lines, this.q, this.budget := lines, q, budget;
      keep, used, charges := map[], 0, map[];
      new;
      NoCharge(|lines|);
    }

    /** `keep[index] = text` and `used += charge`. */
    method Keep(index: nat, text: Text, charge: nat)
      requires Valid() && index < |lines| && index !in keep && used + charge <= budget
      requires KeptHow(q, lines[index], text, charge)
      modifies this
      ensures Valid() && View() == Picked(old(keep)[index := text], old(used) + charge)
    {
      hide KeptHow, TotalCharge;
      Charge(charges, index, charge, |lines|);
      keep := keep[index := text];
      charges := charges[index := charge];
      used := used + charge;
    }

    /** take, at its full share. */
    method Take(index: int, allowWindow: bool) returns (took: bool)
      requires Valid()
      modifies this
      ensures Valid()
      ensures View() == Taking(lines, q, budget, old(View()), index, allowWindow)
      ensures took <==> index in keep && index !in old(keep)
    {
      hide KeptHow, TotalCharge, WindowText, Lowered, Earliest;
      if index in keep || !(0 <= index < |lines|) { return false; }
      var line := lines[index];
      var cost := q.count(line) + 1;
      var full := used + (if budget > 1 then budget else 1);
      var ceiling := if full < budget then full else budget;
      if used + cost <= ceiling {
        WholeLine(q, line);
        Keep(index, line, cost);
        return true;
      }
      if !allowWindow { return false; }
      var spare := ceiling - used - 4;
      if spare < 25 { return false; }
      ghost var centre;
      var w;
      w, centre := Window(line, q.terms, spare, q.lower);
      OneEarliest(Lowered(line, q.lower), q.terms, centre, CentreOf(line, q));
      Windowed(q, line, centre, spare);
      Keep(index, w, spare + 4);
      took := true;
    }
  }

  lemma WholeLine(q: Query, line: Text)
    ensures KeptHow(q, line, line, q.count(line) + 1)
  {
  }

  lemma Windowed(q: Query, line: Text, c: int, spare: nat)
    requires Earliest(Lowered(line, q.lower), q.terms, c) && spare >= 25
    ensures KeptHow(q, line, WindowText(line, if c >= 0 then c else 0, spare), spare + 4)
  {
  }

  /** The sum over the lines of what was charged for them. */
  function TotalCharge(charges: map<nat, nat>, n: nat): nat {
    if n == 0 then 0 else TotalCharge(charges, n - 1) + (if n - 1 in charges then charges[n - 1] else 0)
  }

  lemma {:induction false} NoCharge(n: nat)
    ensures TotalCharge(map[], n) == 0
  {
    if n > 0 { NoCharge(n - 1); }
  }

  lemma {:induction false} Charge(charges: map<nat, nat>, i: nat, cost: nat, n: nat)
    requires i !in charges
    ensures TotalCharge(charges[i := cost], n) == TotalCharge(charges, n) + (if i < n then cost else 0)
  {
    if n > 0 { Charge(charges, i, cost, n - 1); }
  }

  // --- putting the lines back together --------------------------------------------------------------

  datatype Piece = Kept(index: nat) | Ellipsis

  function LastKept(out: seq<Piece>): Option<nat> {
    if out == [] || out[|out| - 1].Ellipsis? then None else Some(out[|out| - 1].index)
  }

  /** The ellipsis before line `i`, when lines are missing since the last kept one. */
  function Gap(before: seq<Piece>, i: nat): seq<Piece> {
    if LastKept(before).Some? && i > LastKept(before).value + 1 then [Ellipsis] else []
  }

  /** What the output loop appends for the kept lines among the first `n`. */
  function Pieces(keep: set<nat>, n: nat): seq<Piece> {
    if n == 0 then []
    else
      var before := Pieces(keep, n - 1);
      if n - 1 in keep then before + Gap(before, n - 1) + [Kept(n - 1)] else before
  }

  /** Every kept line among the first `n` is there, and no other. */
  ghost predicate Complete(out: seq<Piece>, keep: set<nat>, n: nat) {
    forall i: nat :: Kept(i) in out <==> i in keep && i < n
  }

  /** It begins and ends with a line, and no line is past `n`. */
  ghost predicate Bounded(out: seq<Piece>, n: nat) {
    && (out != [] ==> out[0].Kept? && out[|out| - 1].Kept?)
    && (forall p :: 0 <= p < |out| && out[p].Kept? ==> out[p].index < n)
  }

  /** Document order, with an ellipsis between two neighbours exactly when lines
      were left out between them. */
  ghost predicate WellGapped(out: seq<Piece>) {
    && (forall p :: 0 <= p < |out| - 1 && out[p].Kept? && out[p + 1].Kept? ==> out[p + 1].index == out[p].index + 1)
    && (forall p :: 0 < p < |out| - 1 && out[p].Ellipsis? ==>
          out[p - 1].Kept? && out[p + 1].Kept? && out[p + 1].index > out[p - 1].index + 1)
  }

  lemma {:induction false} PiecesGapped(keep: set<nat>, n: nat)
    ensures Complete(Pieces(keep, n), keep, n) && Bounded(Pieces(keep, n), n) && WellGapped(Pieces(keep, n))
  {
    hide Complete, Bounded, WellGapped;
    if n == 0 {
      NothingGapped(keep);
    } else {
      PiecesGapped(keep, n - 1);
      var before := Pieces(keep, n - 1);
      if n - 1 in keep {
        CompleteSnoc(before, Gap(before, n - 1), keep, n);
        BoundedSnoc(before, n);
        GappedSnoc(before, n);
      } else {
        Skipped(before, keep, n);
      }
    }
  }

  lemma NothingGapped(keep: set<nat>)
    ensures Complete([], keep, 0) && Bounded([], 0) && WellGapped([])
  {
  }

  lemma Skipped(out: seq<Piece>, keep: set<nat>, n: nat)
    requires n > 0 && n - 1 !in keep && Complete(out, keep, n - 1) && Bounded(out, n - 1)
    ensures Complete(out, keep, n) && Bounded(out, n)
  {
  }

  lemma CompleteSnoc(before: seq<Piece>, gap: seq<Piece>, keep: set<nat>, n: nat)
    requires n > 0 && n - 1 in keep && Complete(before, keep, n - 1) && (gap == [] || gap == [Ellipsis])
    ensures Complete(before + gap + [Kept(n - 1)], keep, n)
  {
    forall i: nat ensures Kept(i) in before + gap + [Kept(n - 1)] <==> i in keep && i < n {
      assert Kept(i) in before + gap + [Kept(n - 1)] <==> Kept(i) in before || Kept(i) in gap || i == n - 1;
      assert Kept(i) in before <==> i in keep && i < n - 1;
    }
  }

  lemma BoundedSnoc(before: seq<Piece>, n: nat)
    requires n > 0 && Bounded(before, n - 1)
    ensures Bounded(before + Gap(before, n - 1) + [Kept(n - 1)], n)
  {
  }

  lemma GappedSnoc(before: seq<Piece>, n: nat)
    requires n > 0 && Bounded(before, n - 1) && WellGapped(before)
    ensures WellGapped(before + Gap(before, n - 1) + [Kept(n - 1)])
  {
    var out := before + Gap(before, n - 1) + [Kept(n - 1)];
    var l := |before|;
    assert forall p :: 0 <= p < l ==> out[p] == before[p];
    if l > 0 { assert before[l - 1].index < n - 1; }
  }

  function PieceText(keep: map<nat, Text>, p: Piece): Text {
    match p
    case Kept(i) => if i in keep then keep[i] else []
    case Ellipsis => DOTS
  }

  function PieceTexts(keep: map<nat, Text>, out: seq<Piece>): seq<Text> {
    seq(|out|, i requires 0 <= i < |out| => PieceText(keep, out[i]))
  }

  /** The output loop: sorted(keep), with the last index written. */
  method PutTogether(keep: map<nat, Text>, n: nat) returns (text: Text)
    requires forall i :: i in keep ==> i < n
    ensures text == Strip(Joined(PieceTexts(keep, Pieces(keep.Keys, n)), [LF]))
  {
    hide Strip, Joined, Pieces;
    var out: seq<Text> := [];
    var previous: Option<nat> := None;
    NoPieces(keep);
    for index := 0 to n
      invariant out == PieceTexts(keep, Pieces(keep.Keys, index))
      invariant previous == LastKept(Pieces(keep.Keys, index))
    {
      NextPiece(keep, index);
      if index in keep {
        if previous.Some? && index > previous.value + 1 { out := out + [DOTS]; }
        out := out + [keep[index]];
        previous := Some(index);
      }
    }
    text := Strip(Joined(out, [LF]));
  }

  lemma NoPieces(keep: map<nat, Text>)
    ensures Pieces(keep.Keys, 0) == []
  {
  }

  lemma NextPiece(keep: map<nat, Text>, i: nat)
    ensures var before := Pieces(keep.Keys, i);
      Pieces(keep.Keys, i + 1) == if i in keep then before + Gap(before, i) + [Kept(i)] else before
    ensures var before := Pieces(keep.Keys, i);
      i in keep ==>
        PieceTexts(keep, Pieces(keep.Keys, i + 1)) ==
          PieceTexts(keep, before) + (if Gap(before, i) != [] then [DOTS] else []) + [keep[i]]
  {
    hide Pieces;
    PiecesNext(keep.Keys, i);
  }

  lemma PiecesNext(keep: set<nat>, i: nat)
    ensures var before := Pieces(keep, i);
      Pieces(keep, i + 1) == if i in keep then before + Gap(before, i) + [Kept(i)] else before
  {
  }

  // --- _focused_snippet --------------------------------------------------------------------------------

  /** The section heading. */
  method TakeHeading(picker: Picker)
    requires picker.Valid()
    modifies picker
    ensures picker.Valid()
    ensures picker.View() ==
      Taking(picker.lines, picker.q, picker.budget, old(picker.View()), FirstFull(picker.lines, 0), false)
  {
    hide Taking, Strip;
    for index := 0 to |picker.lines|
      invariant picker.Valid() && picker.View() == old(picker.View())
      invariant FirstFull(picker.lines, 0) == FirstFull(picker.lines, index)
    {
      if Strip(picker.lines[index]) != [] {
        var took := picker.Take(index, false);
        return;
      }
    }
    NoLine(picker.lines, picker.q, picker.budget, picker.View());
  }

  lemma NoLine(lines: seq<Text>, q: Query, budget: nat, p: Picked)
    ensures Taking(lines, q, budget, p, -1, false) == p
  {
  }

  /** With three or more table lines, the first two: the header and its rule. */
  method TakeHeader(picker: Picker)
    requires picker.Valid()
    modifies picker
    ensures picker.Valid()
    ensures picker.View() == TakingHeader(picker.lines, picker.q, picker.budget, old(picker.View()))
  {
    hide Taking, IsPipe;
    var pipes: seq<nat> := [];
    for i := 0 to |picker.lines|
      invariant pipes == Pipes(picker.lines, i)
    {
      if IsPipe(picker.lines[i]) { pipes := pipes + [i]; }
    }
    if |pipes| >= 3 {
      var took := picker.Take(pipes[0], false);
      took := picker.Take(pipes[1], false);
    }
  }

  /** The remaining lines that carry a term, best first. */
  method TakeRest(picker: Picker, ranked: seq<Ranked>)
    requires picker.Valid() && |ranked| >= 1
    modifies picker
    ensures picker.Valid()
    ensures picker.View() == TakingRest(picker.lines, picker.q, picker.budget, old(picker.View()), ranked, 1)
  {
    hide Taking;
    for k := 1 to |ranked|
      invariant picker.Valid()
      invariant TakingRest(picker.lines, picker.q, picker.budget, picker.View(), ranked, k)
        == TakingRest(picker.lines, picker.q, picker.budget, old(picker.View()), ranked, 1)
    {
      if ranked[k].score == 0 { return; }
      var took := picker.Take(ranked[k].index, false);
    }
  }

  // --- the best line ------------------------------------------------------------------------------------

  /** A take keeps what is kept, never goes past the budget, and adds a line that
      does not fit only when it may window it. */
  lemma TakingKeeps(lines: seq<Text>, q: Query, budget: nat, p: Picked, index: int, window: bool, best: nat)
    requires p.used <= budget && best < |lines|
    ensures var r := Taking(lines, q, budget, p, index, window);
      && p.used <= r.used <= budget
      && (best in p.keep ==> best in r.keep && r.keep[best] == p.keep[best])
      && (best in r.keep && best !in p.keep ==> index == best && (window || q.count(lines[best]) + 1 <= budget))
  {
  }

  lemma {:induction false} TakingRestKeeps(lines: seq<Text>, q: Query, budget: nat, p: Picked, ranked: seq<Ranked>,
    k: nat, best: nat)
    requires p.used <= budget && best < |lines| && k <= |ranked|
    ensures var r := TakingRest(lines, q, budget, p, ranked, k);
      && p.used <= r.used <= budget
      && (best in p.keep ==> best in r.keep && r.keep[best] == p.keep[best])
      && (best in r.keep && best !in p.keep ==> q.count(lines[best]) + 1 <= budget)
    decreases |ranked| - k
  {
    hide Taking;
    if k < |ranked| && ranked[k].score != 0 {
      TakingKeeps(lines, q, budget, p, ranked[k].index, false, best);
      TakingRestKeeps(lines, q, budget, Taking(lines, q, budget, p, ranked[k].index, false), ranked, k + 1, best);
    }
  }

  /** The first take decides about the best line, and nothing later undoes it. */
  lemma BestDecided(lines: seq<Text>, q: Query, budget: nat, ranked: seq<Ranked>)
    requires |ranked| >= 2 && ranked[0].index < |lines| && ranked[0].index != ranked[1].index
    ensures var best, r := ranked[0].index, TakingAll(lines, q, budget, ranked);
      best in r.keep <==> q.count(lines[best]) + 1 <= budget || budget >= 29
  {
    var best := ranked[0].index;
    var p1 := Taking(lines, q, budget, Picked(map[], 0), best, true);
    BestFirst(lines, q, budget, best);
    hide Taking, TakingRest, FirstFull, Pipes;
    var p2 := if ranked[1].score > 0 then Taking(lines, q, budget, p1, ranked[1].index, true) else p1;
    TakingKeeps(lines, q, budget, p1, ranked[1].index, true, best);
    var p3 := Taking(lines, q, budget, p2, best + 1, false);
    TakingKeeps(lines, q, budget, p2, best + 1, false, best);
    var p4 := Taking(lines, q, budget, p3, FirstFull(lines, 0), false);
    TakingKeeps(lines, q, budget, p3, FirstFull(lines, 0), false, best);
    HeaderKeeps(lines, q, budget, p4, best);
    TakingRestKeeps(lines, q, budget, TakingHeader(lines, q, budget, p4), ranked, 1, best);
  }

  lemma BestFirst(lines: seq<Text>, q: Query, budget: nat, best: nat)
    requires best < |lines|
    ensures var p := Taking(lines, q, budget, Picked(map[], 0), best, true);
      p.used <= budget && (best in p.keep <==> q.count(lines[best]) + 1 <= budget || budget >= 29)
  {
  }

  lemma HeaderKeeps(lines: seq<Text>, q: Query, budget: nat, p: Picked, best: nat)
    requires p.used <= budget && best < |lines|
    ensures var r := TakingHeader(lines, q, budget, p);
      && r.used <= budget && (best in p.keep ==> best in r.keep)
      && (best in r.keep && best !in p.keep ==> q.count(lines[best]) + 1 <= budget)
  {
    hide Taking;
    var pipes := Pipes(lines, |lines|);
    if |pipes| >= 3 {
      TakingKeeps(lines, q, budget, p, pipes[0], false, best);
      TakingKeeps(lines, q, budget, Taking(lines, q, budget, p, pipes[0], false), pipes[1], false, best);
    }
  }

  lemma BestOnce(ranked: seq<Ranked>, lines: seq<Text>, q: Query)
    requires IsRanking(ranked, lines, q) && |ranked| >= 2
    ensures RanksLine(ranked[0], lines, q) && RanksLine(ranked[1], lines, q) && ranked[0].index != ranked[1].index
    ensures forall i :: 0 <= i < |lines| ==> |Carried(lines[i], q)| <= ranked[0].score
    ensures forall i :: 0 <= i < |lines| && |Carried(lines[i], q)| == ranked[0].score ==>
      ranked[0].width <= q.count(lines[i])
  {
    assert ranked[0] in ranked && ranked[1] in ranked && Better(ranked[0], ranked[1]);
    forall i | 0 <= i < |lines|
      ensures |Carried(lines[i], q)| <= ranked[0].score
      ensures |Carried(lines[i], q)| == ranked[0].score ==> ranked[0].width <= q.count(lines[i])
    {
      var r := Ranked(|Carried(lines[i], q)|, q.count(lines[i]), i);
      var j :| 0 <= j < |ranked| && ranked[j] == r;
      if j > 0 { assert Better(ranked[0], ranked[j]); }
    }
  }

  method Choose(lines: seq<Text>, q: Query, budget: nat, ranked: seq<Ranked>) returns (picker: Picker)
    requires |ranked| >= 2
    ensures fresh(picker) && picker.Valid() && picker.lines == lines && picker.q == q && picker.budget == budget
    ensures picker.View() == TakingAll(lines, q, budget, ranked)
  {
    hide KeptHow, Taking, TakingRest, FirstFull, Pipes;
    picker := new Picker(lines, q, budget);
    var took := picker.Take(ranked[0].index, true);
    if ranked[1].score > 0 { took := picker.Take(ranked[1].index, true); }
    took := picker.Take(ranked[0].index + 1, false);
    TakeHeading(picker);
    TakeHeader(picker);
    TakeRest(picker, ranked);
  }

  /** _focused_snippet on the lines of a passage; `cut` is truncate_to_tokens. */
  method FocusedSnippet(text: Text, lines: seq<Text>, query: Text, stopwords: set<Text>, lower: Lower, budget: int,
                        count: Text -> nat, cut: (Text, int) -> (Text, bool))
    returns (out: Text, scored: bool, ranked: seq<Ranked>, ghost keep: map<nat, Text>, ghost charges: map<nat, nat>)
    ensures var q := Query(QueryTerms(query, lower, stopwords), lower, count);
      && (scored <==>
        budget > 0 && q.terms != {} && |lines| >= 2 && exists i :: 0 <= i < |lines| && |Carried(lines[i], q)| > 0)
      && (budget <= 0 ==> out == [])
      && (budget > 0 && !scored ==> out == cut(text, budget).0 + (if cut(text, budget).1 then [SPACE, 0x2026] else []))
      && (scored ==> IsRanking(ranked, lines, q) && |ranked| >= 2 && keep == TakingAll(lines, q, budget, ranked).keep)
      && (scored ==> TotalCharge(charges, |lines|) == TakingAll(lines, q, budget, ranked).used)
      && (scored ==> Chosen(lines, q, budget, keep, charges, ranked[0].index)
                     && out == Strip(Joined(PieceTexts(keep, Pieces(keep.Keys, |lines|)), [LF])))
  {
    hide QueryTerms, IsRanking, Carried, KeptHow, Pieces, TakingAll;
    keep, charges, ranked := map[], map[], [];
    if budget <= 0 { return [], false, ranked, keep, charges; }
    var q := Query(QueryTerms(query, lower, stopwords), lower, count);
    ranked := RankLines(lines, q);
    RankedAll(ranked, lines, q);
    scored := q.terms != {} && |lines| >= 2 && ranked[0].score > 0;
    if !scored {
      var body := cut(text, budget);
      return body.0 + (if body.1 then [SPACE, 0x2026] else []), false, ranked, keep, charges;
    }
    BestOnce(ranked, lines, q);
    var picker := Choose(lines, q, budget, ranked);
    BestDecided(lines, q, budget, ranked);
    keep, charges := picker.keep, picker.charges;
    out := PutTogether(picker.keep, |lines|);
  }

  lemma RankedAll(ranked: seq<Ranked>, lines: seq<Text>, q: Query)
    requires IsRanking(ranked, lines, q)
    ensures |lines| >= 2 ==> |ranked| >= 2
    ensures |ranked| > 0 ==> (ranked[0].score > 0 <==> exists i :: 0 <= i < |lines| && |Carried(lines[i], q)| > 0)
  {
    hide Carried;
    if |lines| >= 2 {
      var a := Ranked(|Carried(lines[0], q)|, q.count(lines[0]), 0);
      var b := Ranked(|Carried(lines[1], q)|, q.count(lines[1]), 1);
      assert a in ranked && b in ranked;
    }
    if |ranked| > 0 {
      assert ranked[0] in ranked && RanksLine(ranked[0], lines, q);
      forall i | 0 <= i < |lines| && |Carried(lines[i], q)| > 0 ensures ranked[0].score > 0 {
        var r := Ranked(|Carried(lines[i], q)|, q.count(lines[i]), i);
        var j :| 0 <= j < |ranked| && ranked[j] == r;
        if j > 0 { assert Better(ranked[0], ranked[j]); }
      }
    }
  }

  /** What the scored path promises: the charges add up to no more than the budget,
      every kept line is whole or a window and was charged for, and the best line -
      most terms, then fewest tokens - is kept exactly when it fits or there is
      room for a window. */
  ghost predicate Chosen(lines: seq<Text>, q: Query, budget: int, keep: map<nat, Text>, charges: map<nat, nat>,
    best: nat) {
    && keep.Keys == charges.Keys && TotalCharge(charges, |lines|) <= budget
    && (forall i :: i in keep ==> i < |lines| && KeptHow(q, lines[i], keep[i], charges[i]))
    && best < |lines|
    && (forall i :: 0 <= i < |lines| ==> |Carried(lines[i], q)| <= |Carried(lines[best], q)|)
    && (best in keep <==> q.count(lines[best]) + 1 <= budget || budget >= 29)
  }

  /** A line that carries a term and is kept as a window still shows one. */
  lemma WindowedLineShows(q: Query, line: Text, kept: Text, charge: nat)
    requires KeepsSpace(q.lower) && forall t :: t in q.terms ==> TermLike(t) && |t| <= 57
    requires KeptHow(q, line, kept, charge) && charge != q.count(line) + 1 && Carried(line, q) != {}
    ensures exists t :: t in q.terms && Within(t, Lowered(kept, q.lower))
  {
    hide WindowText, Strip;
    var lowered := Lowered(line, q.lower);
    var c :| Earliest(lowered, q.terms, c) && kept == WindowText(line, if c >= 0 then c else 0, charge - 4);
    var u :| u in Carried(line, q);
    assert OccursAt(u, lowered, Find(lowered, u, 0));
    var t :| t in q.terms && OccursAt(t, lowered, c);
    WindowHoldsTerm(line, q.terms, c, t, charge - 4, q.lower);
  }
}
