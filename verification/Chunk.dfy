/** Chunking (ragsvc/ingest/chunk.py): ordered blocks into retrievable chunks, for
    any token counter. */
module Chunk {
  import opened Codes
  import opened Packing

  datatype Kind = Heading | Paragraph | Table

  datatype Block = Block(kind: Kind, text: Text, page: int, section: Text, conf: real, lowConf: bool)

  datatype Chunk = Chunk(
    index: nat, page: int, pageEnd: int, section: Text, text: Text, tokens: nat, hasTable: bool, lowConf: bool)

  /** `count` is count_tokens and `tail` tail_to_tokens (ragsvc/ragbudget.py). */
  datatype Settings = Settings(count: Text -> nat, tail: (Text, int) -> Text, maxTokens: int, overlap: int,
    contextualise: bool)

  /** count_tokens("") is 0 whatever the tokenizer. */
  predicate Counting(st: Settings) { st.count([]) == 0 }

  const GAP: Text := [LF, LF]

  // --- text ----------------------------------------------------------------------------

  predicate EndsSentence(c: Code) { c == '.' as int || c == '!' as int || c == '?' as int || c == ';' as int }

  /** Where the first sentence boundary at or after `i` begins. */
  function CutAt(s: Text, i: nat): (j: nat)
    requires i <= |s|
    ensures i <= j <= |s|
    ensures j < |s| && j > 0 ==> EndsSentence(s[j - 1]) && IsSpace(s[j])
    decreases |s| - i
  {
    if i == |s| then i
    else if i > 0 && EndsSentence(s[i - 1]) && IsSpace(s[i]) then i
    else CutAt(s, i + 1)
  }

  function SkipSpace(s: Text, i: nat): (j: nat)
    requires i <= |s|
    ensures i <= j <= |s|
    ensures i < |s| && IsSpace(s[i]) ==> i < j
    decreases |s| - i
  {
    if i < |s| && IsSpace(s[i]) then SkipSpace(s, i + 1) else i
  }

  /** SENTENCE_END.split: at white space behind a mark that ends a sentence. */
  function Sentences(s: Text): (ss: seq<Text>)
    ensures ss != []
    decreases |s|
  {
    var j := if s == [] then 0 else CutAt(s, 1);
    if j >= |s| then [s] else [s[..j]] + Sentences(s[SkipSpace(s, j)..])
  }

  /** What is left of a text without its white space. */
  function Ink(s: Text): Text {
    if s == [] then [] else (if IsSpace(s[0]) then [] else [s[0]]) + Ink(s[1..])
  }

  lemma {:induction false} InkAppend(a: Text, b: Text)
    ensures Ink(a + b) == Ink(a) + Ink(b)
  {
    if a == [] {
      assert a + b == b;
    } else {
      assert (a + b)[1..] == a[1..] + b;
      InkAppend(a[1..], b);
    }
  }

  lemma {:induction false} InkSkipped(s: Text, i: nat)
    requires i <= |s|
    ensures Ink(s[i..]) == Ink(s[SkipSpace(s, i)..])
    decreases |s| - i
  {
    if i < |s| && IsSpace(s[i]) {
      assert s[i..][1..] == s[i + 1..];
      InkSkipped(s, i + 1);
    }
  }

  /** Splitting into sentences loses nothing but white space. */
  lemma {:induction false} SentencesInk(s: Text)
    ensures Ink(Concat(Sentences(s))) == Ink(s)
    decreases |s|
  {
    var j := if s == [] then 0 else CutAt(s, 1);
    if j >= |s| {
      assert [s][1..] == [] && s + [] == s;
    } else {
      var rest := s[SkipSpace(s, j)..];
      SentencesInk(rest);
      InkAppend(s[..j], Concat(Sentences(rest)));
      InkAppend(s[..j], s[j..]);
      assert s[..j] + s[j..] == s;
      InkSkipped(s, j);
      assert ([s[..j]] + Sentences(rest))[1..] == Sentences(rest);
    }
  }

  lemma {:induction false} JoinedInk(parts: seq<Text>, sep: Text)
    requires Ink(sep) == []
    ensures Ink(Joined(parts, sep)) == Ink(Concat(parts))
  {
    if |parts| == 1 {
      assert parts[1..] == [] && parts[0] + [] == parts[0];
    } else if |parts| > 1 {
      JoinedInk(parts[1..], sep);
      InkAppend(parts[0] + sep, Joined(parts[1..], sep));
      InkAppend(parts[0], sep);
      InkAppend(parts[0], Concat(parts[1..]));
      assert Ink(parts[0]) + [] == Ink(parts[0]);
    }
  }

  // --- a paragraph longer than a chunk -------------------------------------------------------

  function JoinAll(groups: seq<seq<Text>>, sep: Text): seq<Text> {
    seq(|groups|, i requires 0 <= i < |groups| => Joined(groups[i], sep))
  }

  /** _split_long_text: whole sentences, as many to a piece as fit. */
  function Pieces(text: Text, count: Text -> nat, budget: int): seq<Text> {
    JoinAll(Packed(Sentences(text), count, budget), [SPACE])
  }

  lemma JoinAllSnoc(groups: seq<seq<Text>>, g: seq<Text>, sep: Text)
    ensures JoinAll(groups + [g], sep) == JoinAll(groups, sep) + [Joined(g, sep)]
  {
  }

  /** The loop of _split_long_text. */
  method SplitLongText(text: Text, count: Text -> nat, budget: int) returns (pieces: seq<Text>)
    ensures pieces == Pieces(text, count, budget)
  {
    hide Sentences, Packed, Packs, Total, Joined, JoinAll;
    var sentences := Sentences(text);
    ghost var closed: seq<seq<Text>> := [];
    pieces := [];
    var current: seq<Text>, total := [], 0;
    NoTotal(count);
    JoinNone([SPACE]);
    PacksStart(sentences, count, budget);
    assert sentences[0..] == sentences;
    for i := 0 to |sentences|
      invariant pieces == JoinAll(closed, [SPACE]) && total == Total(current, count)
      invariant Packs(closed, current, sentences[i..], sentences, count, budget)
    {
      var sentence := sentences[i];
      var cost := count(sentence);
      if current != [] && total + cost > budget {
        PacksClose(closed, current, sentences[i..], sentences, count, budget);
        JoinAllSnoc(closed, current, [SPACE]);
        closed := closed + [current];
        pieces := pieces + [Joined(current, [SPACE])];
        current, total := [], 0;
      }
      PacksAppend(closed, current, sentences[i..], sentences, count, budget);
      TotalSnoc(current, sentence, count);
      assert sentences[i..][1..] == sentences[i + 1..];
      current := current + [sentence];
      total := total + cost;
    }
    assert sentences[|sentences|..] == [];
    if current != [] {
      PacksClose(closed, current, [], sentences, count, budget);
      JoinAllSnoc(closed, current, [SPACE]);
      closed := closed + [current];
      pieces := pieces + [Joined(current, [SPACE])];
    }
    PacksEnd(closed, sentences, count, budget);
  }

  lemma NoTotal(count: Text -> nat)
    ensures Total([], count) == 0
  {
  }

  lemma JoinNone(sep: Text)
    ensures JoinAll([], sep) == []
  {
  }

  /** What the pieces of a long text are: runs of its sentences, in order, each
      within the budget or one sentence; as few as possible; and nothing but white
      space differs from the text. */
  lemma PiecesKeepSentences(text: Text, count: Text -> nat, budget: int)
    ensures var groups := Packed(Sentences(text), count, budget);
      && Pieces(text, count, budget) == JoinAll(groups, [SPACE])
      && IsSplit(groups, Sentences(text), count, budget)
    ensures Pieces(text, count, budget) != []
    ensures Ink(Concat(Pieces(text, count, budget))) == Ink(text)
  {
    var groups := Packed(Sentences(text), count, budget);
    PackedSplits(Sentences(text), count, budget);
    AllInk(groups);
    SentencesInk(text);
  }

  lemma {:induction false} AllInk(groups: seq<seq<Text>>)
    ensures Ink(Concat(JoinAll(groups, [SPACE]))) == Ink(Concat(Flatten(groups)))
  {
    if groups != [] {
      var g, rest := groups[0], groups[1..];
      AllInk(rest);
      assert JoinAll(groups, [SPACE])[1..] == JoinAll(rest, [SPACE]);
      InkAppend(Joined(g, [SPACE]), Concat(JoinAll(rest, [SPACE])));
      assert [SPACE][1..] == [] && Ink([SPACE]) == [];
      JoinedInk(g, [SPACE]);
      ConcatAppend(g, Flatten(rest));
      InkAppend(Concat(g), Concat(Flatten(rest)));
    }
  }

  // --- the overlap ------------------------------------------------------------------------------

  /** How many sentences from the end fit the overlap. */
  function Backward(ss: seq<Text>, k: nat, count: Text -> nat, n: int): (r: nat)
    requires k <= |ss|
    ensures k <= r <= |ss|
    decreases |ss| - k
  {
    if k < |ss| && Total(ss[|ss| - k..], count) + count(ss[|ss| - k - 1]) <= n then Backward(ss, k + 1, count, n) else k
  }

  function TailTokens(st: Settings, text: Text): Text {
    if st.overlap <= 0 || text == [] then []
    else
      var ss := Sentences(text);
      var k := Backward(ss, 0, st.count, st.overlap);
      if k > 0 then Strip(Joined(ss[|ss| - k..], [SPACE])) else st.tail(text, st.overlap)
  }

  lemma TotalCons(x: Text, rest: seq<Text>, count: Text -> nat)
    ensures Total([x] + rest, count) == count(x) + Total(rest, count)
  {
    TotalAppend([x], rest, count);
    assert [x][..0] == [];
  }

  /** The loop of _tail_tokens. */
  method TailTokensLoop(st: Settings, text: Text) returns (carry: Text)
    ensures carry == TailTokens(st, text)
  {
    hide Sentences, Total, Joined, Strip;
    if st.overlap <= 0 || text == [] { return []; }
    NoTotal(st.count);
    var sentences := Sentences(text);
    var carried: seq<Text>, total := [], 0;
    var i := |sentences|;
    while i > 0
      invariant 0 <= i <= |sentences| && carried == sentences[i..]
      invariant total == Total(carried, st.count)
      invariant Backward(sentences, 0, st.count, st.overlap) ==
        Backward(sentences, |sentences| - i, st.count, st.overlap)
    {
      var cost := st.count(sentences[i - 1]);
      if total + cost > st.overlap { break; }
      TotalCons(sentences[i - 1], carried, st.count);
      assert sentences[i - 1..] == [sentences[i - 1]] + carried;
      carried := [sentences[i - 1]] + carried;
      total := total + cost;
      i := i - 1;
    }
    if carried != [] { return Strip(Joined(carried, [SPACE])); }
    carry := st.tail(text, st.overlap);
  }

  lemma LongerCosts(ss: seq<Text>, i: nat, j: nat, count: Text -> nat)
    requires i <= j <= |ss|
    ensures Total(ss[i..], count) >= Total(ss[j..], count)
  {
    assert ss[i..] == ss[i..j] + ss[j..];
    TotalAppend(ss[i..j], ss[j..], count);
  }

  lemma OneMore(ss: seq<Text>, k: nat, count: Text -> nat)
    requires k < |ss|
    ensures Total(ss[|ss| - (k + 1)..], count) == count(ss[|ss| - k - 1]) + Total(ss[|ss| - k..], count)
  {
    hide Total;
    TotalCons(ss[|ss| - k - 1], ss[|ss| - k..], count);
    assert ss[|ss| - (k + 1)..] == [ss[|ss| - k - 1]] + ss[|ss| - k..];
  }

  /** The overlap is the longest run of final sentences that fits it. */
  lemma {:induction false} BackwardLongest(ss: seq<Text>, k: nat, m: nat, count: Text -> nat, n: int)
    requires k <= |ss| && m <= |ss| && (k > 0 ==> Total(ss[|ss| - k..], count) <= n)
    ensures var r := Backward(ss, k, count, n);
      && (r > 0 ==> Total(ss[|ss| - r..], count) <= n)
      && (m > r ==> Total(ss[|ss| - m..], count) > n)
    decreases |ss| - k
  {
    if k < |ss| {
      hide Total;
      OneMore(ss, k, count);
      if Total(ss[|ss| - k..], count) + count(ss[|ss| - k - 1]) <= n {
        BackwardLongest(ss, k + 1, m, count, n);
      } else if m > k {
        LongerCosts(ss, |ss| - m, |ss| - (k + 1), count);
      }
    }
  }

  // --- grouping ---------------------------------------------------------------------------------

  /** A block as the grouping sees it; `alone` marks a piece of a paragraph longer
      than a chunk. */
  datatype Item = Item(block: Block, alone: bool)

  function ItemsOf(st: Settings, b: Block): seq<Item> {
    if b.kind != Table && st.count(b.text) > st.maxTokens then
      var pieces := Pieces(b.text, st.count, st.maxTokens);
      seq(|pieces|, i requires 0 <= i < |pieces| => Item(b.(text := pieces[i]), true))
    else [Item(b, false)]
  }

  /** The input, with each over-long paragraph replaced by its pieces. */
  function Items(st: Settings, blocks: seq<Block>): seq<Item> {
    if blocks == [] then [] else Items(st, blocks[..|blocks| - 1]) + ItemsOf(st, blocks[|blocks| - 1])
  }

  function Cost(st: Settings): Item -> nat { (x: Item) => st.count(x.block.text) }

  /** The blocks a chunk owns. */
  function Own(g: seq<Item>): seq<Block> {
    seq(|g|, i requires 0 <= i < |g| => g[i].block)
  }

  function ProseTexts(bs: seq<Block>): seq<Text> {
    if bs == [] then [] else (if bs[0].kind == Table then [] else [bs[0].text]) + ProseTexts(bs[1..])
  }

  /** What a chunk hands on: the tail of its own prose, and of nothing else. */
  function Overlap(st: Settings, bs: seq<Block>): Text { TailTokens(st, Joined(ProseTexts(bs), GAP)) }

  /** The carry-over that group number |before| starts with. */
  function CarryAfter(st: Settings, before: seq<seq<Item>>): Text {
    if before == [] then [] else Overlap(st, Own(before[|before| - 1]))
  }

  function Weight(st: Settings, carry: Text, g: seq<Item>): nat { st.count(carry) + Total(g, Cost(st)) }

  predicate FullTable(st: Settings, carry: Text, g: seq<Item>) {
    g != [] && g[|g| - 1].block.kind == Table && Weight(st, carry, g) >= st.maxTokens
  }

  datatype Build = Build(groups: seq<seq<Item>>, open: seq<Item>)

  function Closed(b: Build): Build { if b.open == [] then b else Build(b.groups + [b.open], []) }

  /** One item, as the loop of chunk_blocks places it. */
  function Place(st: Settings, b: Build, x: Item): Build {
    if x.alone then Closed(Build(Closed(b).groups, [x]))
    else
      var full := b.open != [] && Weight(st, CarryAfter(st, b.groups), b.open) + Cost(st)(x) > st.maxTokens;
      var b1 := if full then Closed(b) else b;
      var b2 := Build(b1.groups, b1.open + [x]);
      if FullTable(st, CarryAfter(st, b2.groups), b2.open) then Closed(b2) else b2
  }

  function PlaceAll(st: Settings, b: Build, items: seq<Item>): Build {
    if items == [] then b else Place(st, PlaceAll(st, b, items[..|items| - 1]), items[|items| - 1])
  }

  /** The groups that become the chunks of `blocks`. */
  function Groups(st: Settings, blocks: seq<Block>): seq<seq<Item>> {
    Closed(PlaceAll(st, Build([], []), Items(st, blocks))).groups
  }

  // --- what grouping must do ------------------------------------------------------------------------

  /** One chunk's own items: they fit together with the carry-over, or there is
      just one; a piece of a long paragraph stands alone; a table that fills the
      chunk ends it. */
  predicate GroupOk(st: Settings, carry: Text, g: seq<Item>) {
    && g != []
    && (|g| >= 2 ==> Weight(st, carry, g) <= st.maxTokens)
    && (|g| >= 2 ==> forall i :: 0 <= i < |g| ==> !g[i].alone)
    && (forall i :: 0 < i < |g| ==> !FullTable(st, carry, g[..i]))
  }

  /** Why a chunk ends where it does. */
  predicate EndsHere(st: Settings, carry: Text, g: seq<Item>, next: Item)
    requires g != []
  {
    || g[0].alone || next.alone
    || FullTable(st, carry, g)
    || Weight(st, carry, g) + Cost(st)(next) > st.maxTokens
  }

  ghost predicate Lawful(st: Settings, groups: seq<seq<Item>>) {
    && (forall i :: 0 <= i < |groups| ==> GroupOk(st, CarryAfter(st, groups[..i]), groups[i]))
    && (forall i :: 0 < i < |groups| ==>
          EndsHere(st, CarryAfter(st, groups[..i - 1]), groups[i - 1], groups[i][0]))
  }

  /** The invariant of the loop: what is closed is lawful, what is open still can
      be, and there was a reason to close the last one. */
  ghost predicate BuildOk(st: Settings, b: Build) {
    && Lawful(st, b.groups)
    && (b.open != [] ==> GroupOk(st, CarryAfter(st, b.groups), b.open)
                         && !FullTable(st, CarryAfter(st, b.groups), b.open) && !b.open[0].alone)
    && (b.groups != [] ==>
          var last, before := b.groups[|b.groups| - 1], b.groups[..|b.groups| - 1];
          if b.open != [] then EndsHere(st, CarryAfter(st, before), last, b.open[0])
          else last[0].alone || FullTable(st, CarryAfter(st, before), last))
  }

  lemma LawfulSnoc(st: Settings, groups: seq<seq<Item>>, g: seq<Item>)
    requires Lawful(st, groups) && GroupOk(st, CarryAfter(st, groups), g)
    requires groups != [] ==> EndsHere(st, CarryAfter(st, groups[..|groups| - 1]), groups[|groups| - 1], g[0])
    ensures Lawful(st, groups + [g])
  {
    hide Weight, FullTable, CarryAfter;
    var all := groups + [g];
    forall i | 0 <= i < |all| ensures GroupOk(st, CarryAfter(st, all[..i]), all[i]) {
      assert all[..i] == groups[..i];
      if i == |groups| { assert groups[..i] == groups; }
    }
    forall i | 0 < i < |all| ensures EndsHere(st, CarryAfter(st, all[..i - 1]), all[i - 1], all[i][0]) {
      assert all[..i - 1] == groups[..i - 1];
    }
  }

  lemma ClosedOk(st: Settings, b: Build)
    requires BuildOk(st, b)
    ensures Lawful(st, Closed(b).groups)
  {
    if b.open != [] { LawfulSnoc(st, b.groups, b.open); }
  }

  lemma OpenOk(st: Settings, b: Build, x: Item)
    requires BuildOk(st, b) && b.open == [] && !x.alone
    ensures var b' := Build(b.groups, [x]);
      FullTable(st, CarryAfter(st, b.groups), [x]) || BuildOk(st, b')
    ensures GroupOk(st, CarryAfter(st, b.groups), [x])
    ensures b.groups != [] ==> EndsHere(st, CarryAfter(st, b.groups[..|b.groups| - 1]), b.groups[|b.groups| - 1], x)
  {
    hide Overlap, Total;
  }

  lemma GrowOk(st: Settings, carry: Text, g: seq<Item>, x: Item)
    requires GroupOk(st, carry, g) && !FullTable(st, carry, g) && !g[0].alone && !x.alone
    requires Weight(st, carry, g) + Cost(st)(x) <= st.maxTokens
    ensures GroupOk(st, carry, g + [x])
  {
    hide FullTable;
    TotalSnoc(g, x, Cost(st));
    forall i | 0 < i < |g + [x]| ensures !FullTable(st, carry, (g + [x])[..i]) {
      assert (g + [x])[..i] == g[..i];
      if i == |g| { assert g[..i] == g; }
    }
  }

  /** Closing what was opened. */
  lemma CloseOk(st: Settings, groups: seq<seq<Item>>, g: seq<Item>)
    requires Lawful(st, groups) && GroupOk(st, CarryAfter(st, groups), g)
    requires groups != [] ==> EndsHere(st, CarryAfter(st, groups[..|groups| - 1]), groups[|groups| - 1], g[0])
    requires g[0].alone || FullTable(st, CarryAfter(st, groups), g)
    ensures BuildOk(st, Build(groups + [g], []))
  {
    hide GroupOk, EndsHere, Lawful, FullTable, CarryAfter;
    LawfulSnoc(st, groups, g);
    assert (groups + [g])[..|groups + [g]| - 1] == groups;
  }

  lemma PlaceAloneOk(st: Settings, b: Build, x: Item)
    requires BuildOk(st, b) && x.alone
    ensures BuildOk(st, Place(st, b, x))
  {
    hide Overlap, Total;
    ClosedOk(st, b);
    var c := Closed(b);
    assert Closed(Build(c.groups, [x])) == Build(c.groups + [[x]], []);
    CloseOk(st, c.groups, [x]);
  }

  lemma FullTurn(st: Settings, b: Build, x: Item)
    requires BuildOk(st, b) && b.open != [] && Weight(st, CarryAfter(st, b.groups), b.open) + Cost(st)(x) > st.maxTokens
    ensures Lawful(st, b.groups + [b.open]) && EndsHere(st, CarryAfter(st, b.groups), b.open, x)
    ensures (b.groups + [b.open])[..|b.groups|] == b.groups
  {
    hide Overlap, Total;
    ClosedOk(st, b);
  }

  /** The item goes into `open`, whatever `open` became just before. */
  lemma PutOk(st: Settings, groups: seq<seq<Item>>, g: seq<Item>)
    requires Lawful(st, groups) && GroupOk(st, CarryAfter(st, groups), g) && !g[0].alone
    requires groups != [] ==> EndsHere(st, CarryAfter(st, groups[..|groups| - 1]), groups[|groups| - 1], g[0])
    ensures BuildOk(st, if FullTable(st, CarryAfter(st, groups), g) then Build(groups + [g], []) else Build(groups, g))
  {
    hide EndsHere, Lawful, FullTable, CarryAfter, Weight;
    if FullTable(st, CarryAfter(st, groups), g) { CloseOk(st, groups, g); }
  }

  lemma PlaceOk(st: Settings, b: Build, x: Item)
    requires BuildOk(st, b)
    ensures BuildOk(st, Place(st, b, x))
  {
    hide Overlap, Total, Lawful, FullTable, Weight, CarryAfter;
    if x.alone {
      PlaceAloneOk(st, b, x);
    } else if b.open != [] && Weight(st, CarryAfter(st, b.groups), b.open) + Cost(st)(x) > st.maxTokens {
      FullTurn(st, b, x);
      SingleOk(st, CarryAfter(st, b.groups + [b.open]), x);
      assert Closed(b).open + [x] == [x];
      PutOk(st, b.groups + [b.open], [x]);
    } else if b.open != [] {
      GrowOk(st, CarryAfter(st, b.groups), b.open, x);
      PutOk(st, b.groups, b.open + [x]);
    } else {
      OpenOk(st, b, x);
      assert b.open + [x] == [x];
      PutOk(st, b.groups, [x]);
    }
  }

  lemma SingleOk(st: Settings, carry: Text, x: Item)
    ensures GroupOk(st, carry, [x])
  {
  }

  lemma {:induction false} PlaceAllOk(st: Settings, items: seq<Item>)
    ensures BuildOk(st, PlaceAll(st, Build([], []), items))
  {
    if items != [] {
      PlaceAllOk(st, items[..|items| - 1]);
      PlaceOk(st, PlaceAll(st, Build([], []), items[..|items| - 1]), items[|items| - 1]);
    }
  }

  // --- nothing is lost --------------------------------------------------------------------------------

  function Content(b: Build): seq<Item> { Flatten(b.groups) + b.open }

  lemma ClosedKeeps(b: Build)
    ensures Content(Closed(b)) == Content(b)
  {
    if b.open != [] {
      FlattenAppend(b.groups, [b.open]);
      FlattenOne(b.open);
      assert Content(Closed(b)) == (Flatten(b.groups) + b.open) + [];
    }
  }

  lemma PlaceKeeps(st: Settings, b: Build, x: Item)
    ensures Content(Place(st, b, x)) == Content(b) + [x]
  {
    hide Flatten, Weight, FullTable, CarryAfter, Closed;
    var c := Closed(b);
    ClosedKeeps(b);
    ClosedEmpty(b);
    ClosedKeeps(Build(c.groups, [x]));
    assert Flatten(c.groups) + [] == Flatten(c.groups);
    assert Flatten(b.groups) + (b.open + [x]) == Content(b) + [x];
    ClosedKeeps(Build(b.groups, b.open + [x]));
    assert [] + [x] == [x];
    ClosedKeeps(Build(c.groups, c.open + [x]));
  }

  lemma ClosedEmpty(b: Build)
    ensures Closed(b).open == []
  {
  }

  lemma {:induction false} PlaceAllKeeps(st: Settings, items: seq<Item>)
    ensures Content(PlaceAll(st, Build([], []), items)) == items
  {
    if items == [] {
      NothingPlaced(st);
    } else {
      hide Place, Content, PlaceAll;
      var init, last := items[..|items| - 1], items[|items| - 1];
      PlaceAllKeeps(st, init);
      PlaceKeeps(st, PlaceAll(st, Build([], []), init), last);
      PlaceLast(st, items);
    }
  }

  lemma NothingPlaced(st: Settings)
    ensures Content(PlaceAll(st, Build([], []), [])) == []
  {
  }

  lemma PlaceLast(st: Settings, items: seq<Item>)
    requires items != []
    ensures PlaceAll(st, Build([], []), items) == Place(st, PlaceAll(st, Build([], []), items[..|items| - 1]),
        items[|items| - 1])
    ensures items == items[..|items| - 1] + [items[|items| - 1]]
  {
    hide Place;
  }

  /** The chunks' own blocks, end to end, are the input with each over-long
      paragraph replaced by its pieces; and the grouping keeps every rule. */
  lemma GroupsKeep(st: Settings, blocks: seq<Block>)
    ensures Flatten(Groups(st, blocks)) == Items(st, blocks)
    ensures Lawful(st, Groups(st, blocks))
  {
    var b := PlaceAll(st, Build([], []), Items(st, blocks));
    PlaceAllKeeps(st, Items(st, blocks));
    PlaceAllOk(st, Items(st, blocks));
    ClosedKeeps(b);
    ClosedOk(st, b);
    assert Flatten(Closed(b).groups) + [] == Flatten(Closed(b).groups);
  }

  // --- and there is only one way -------------------------------------------------------------------

  /** Two first groups under the same carry-over are the same group. */
  lemma SameGroup(st: Settings, carry: Text, g: seq<Item>, h: seq<Item>, after: seq<Item>)
    requires GroupOk(st, carry, g) && GroupOk(st, carry, h)
    requires g != [] && after != [] && h == g + after
    ensures !EndsHere(st, carry, g, after[0])
  {
    assert h[..|g|] == g;
    assert g + after[..1] == h[..|g| + 1];
    assert h == h[..|g| + 1] + h[|g| + 1..];
    TotalAppend(h[..|g| + 1], h[|g| + 1..], Cost(st));
    TotalSnoc(g, after[0], Cost(st));
    assert g + [after[0]] == g + after[..1];
    assert h[0] == g[0] && h[|g|] == after[0];
  }

  /** What follows group `n`, and why group `n` ends there. */
  lemma NextItem(st: Settings, groups: seq<seq<Item>>, n: nat)
    requires Lawful(st, groups) && n < |groups|
    ensures GroupOk(st, CarryAfter(st, groups[..n]), groups[n])
    ensures Flatten(groups[n..]) == groups[n] + Flatten(groups[n + 1..])
    ensures Flatten(groups[n + 1..]) != [] ==>
      EndsHere(st, CarryAfter(st, groups[..n]), groups[n], Flatten(groups[n + 1..])[0])
  {
    assert groups[n..][1..] == groups[n + 1..];
    if n + 1 < |groups| {
      assert groups[..n + 1][..n] == groups[..n];
      assert GroupOk(st, CarryAfter(st, groups[..n + 1]), groups[n + 1]);
      assert EndsHere(st, CarryAfter(st, groups[..n + 1 - 1]), groups[n + 1 - 1], groups[n + 1][0]);
      assert groups[n + 1..][0] == groups[n + 1];
    }
  }

  lemma NotLonger(st: Settings, carry: Text, g: seq<Item>, x: seq<Item>, h: seq<Item>, y: seq<Item>)
    requires GroupOk(st, carry, g) && GroupOk(st, carry, h) && g + x == h + y
    requires x != [] ==> EndsHere(st, carry, g, x[0])
    ensures |g| >= |h|
  {
    hide EndsHere, Weight, FullTable;
    if |g| < |h| {
      Overlapping(g, x, h, y);
      SameGroup(st, carry, g, h, h[|g|..]);
    }
  }

  lemma Overlapping<T>(g: seq<T>, x: seq<T>, h: seq<T>, y: seq<T>)
    requires g + x == h + y && |g| < |h|
    ensures h == g + h[|g|..] && x != [] && x[0] == h[|g|]
  {
    assert (g + x)[..|g|] == g && (h + y)[..|g|] == h[..|g|];
    assert |x| == |h| + |y| - |g|;
    assert (g + x)[|g|] == x[0] && (h + y)[|g|] == h[|g|];
  }

  /** The rules leave no choice: two groupings of the same items that keep them
      are the same grouping. */
  lemma {:induction false} OnlyOneWay(st: Settings, a: seq<seq<Item>>, b: seq<seq<Item>>, n: nat)
    requires Lawful(st, a) && Lawful(st, b) && n <= |a| && n <= |b| && a[..n] == b[..n]
    requires Flatten(a[n..]) == Flatten(b[n..])
    ensures a == b
    decreases |a| - n
  {
    hide GroupOk, EndsHere, CarryAfter;
    if n < |a| { NextItem(st, a, n); GroupThere(st, CarryAfter(st, a[..n]), a[n]); }
    if n < |b| { NextItem(st, b, n); GroupThere(st, CarryAfter(st, b[..n]), b[n]); }
    if n < |a| && n < |b| {
      NotLonger(st, CarryAfter(st, a[..n]), a[n], Flatten(a[n + 1..]), b[n], Flatten(b[n + 1..]));
      NotLonger(st, CarryAfter(st, a[..n]), b[n], Flatten(b[n + 1..]), a[n], Flatten(a[n + 1..]));
      SameHead(a[n], Flatten(a[n + 1..]), b[n], Flatten(b[n + 1..]));
      assert a[..n + 1] == a[..n] + [a[n]] && b[..n + 1] == b[..n] + [b[n]];
      OnlyOneWay(st, a, b, n + 1);
    } else {
      assert a[..n] == a || n < |a|;
      assert b[..n] == b || n < |b|;
    }
  }

  lemma GroupThere(st: Settings, carry: Text, g: seq<Item>)
    requires GroupOk(st, carry, g)
    ensures g != []
  {
  }

  lemma SameHead<T>(g: seq<T>, x: seq<T>, h: seq<T>, y: seq<T>)
    requires g + x == h + y && |g| == |h|
    ensures g == h && x == y
  {
    assert (g + x)[..|g|] == g && (h + y)[..|h|] == h;
    assert (g + x)[|g|..] == x && (h + y)[|h|..] == y;
  }

  // --- the chunks themselves ------------------------------------------------------------------------

  function NonBlank(parts: seq<Text>): seq<Text> {
    if parts == [] then [] else (if Blank(parts[0]) then [] else [parts[0]]) + NonBlank(parts[1..])
  }

  function Texts(bs: seq<Block>): seq<Text> {
    seq(|bs|, i requires 0 <= i < |bs| => bs[i].text)
  }

  function FirstSection(bs: seq<Block>): Text {
    if bs == [] then [] else if bs[0].section != [] then bs[0].section else FirstSection(bs[1..])
  }

  function MinPage(bs: seq<Block>): int
    requires bs != []
  {
    if |bs| == 1 || bs[0].page <= MinPage(bs[1..]) then bs[0].page else MinPage(bs[1..])
  }

  function MaxPage(bs: seq<Block>): int
    requires bs != []
  {
    if |bs| == 1 || bs[0].page >= MaxPage(bs[1..]) then bs[0].page else MaxPage(bs[1..])
  }

  function Body(carry: Text, bs: seq<Block>): Text {
    Joined(NonBlank((if carry != [] then [carry] else []) + Texts(bs)), GAP)
  }

  function ChunkText(st: Settings, carry: Text, bs: seq<Block>): Text {
    var section := FirstSection(bs);
    if st.contextualise && section != [] && !StartsWith(LStrip(Body(carry, bs)), section)
    then section + GAP + Body(carry, bs) else Body(carry, bs)
  }

  function Rendered(st: Settings, index: nat, carry: Text, bs: seq<Block>): Chunk
    requires bs != []
  {
    var text := ChunkText(st, carry, bs);
    Chunk(index, MinPage(bs), MaxPage(bs), FirstSection(bs), text, st.count(text),
          exists i :: 0 <= i < |bs| && bs[i].kind == Table,
          exists i :: 0 <= i < |bs| && bs[i].lowConf)
  }

  function RenderAll(st: Settings, groups: seq<seq<Item>>): (chunks: seq<Chunk>)
    requires forall i :: 0 <= i < |groups| ==> groups[i] != []
    ensures |chunks| == |groups|
  {
    seq(|groups|, i requires 0 <= i < |groups| => Rendered(st, i, CarryAfter(st, groups[..i]), Own(groups[i])))
  }

  lemma RenderSnoc(st: Settings, groups: seq<seq<Item>>, g: seq<Item>)
    requires (forall i :: 0 <= i < |groups| ==> groups[i] != []) && g != []
    ensures RenderAll(st, groups + [g]) ==
      RenderAll(st, groups) + [Rendered(st, |groups|, CarryAfter(st, groups), Own(g))]
  {
    hide Rendered, CarryAfter;
    var all := groups + [g];
    forall i | 0 <= i < |all|
      ensures RenderAll(st, all)[i] ==
        (RenderAll(st, groups) + [Rendered(st, |groups|, CarryAfter(st, groups), Own(g))])[i]
    {
      assert all[..i] == groups[..i];
      if i == |groups| { assert groups[..i] == groups; }
    }
  }

  // --- the loop ----------------------------------------------------------------------------------------

  function BlockCost(st: Settings): Block -> nat { (b: Block) => st.count(b.text) }

  lemma {:induction false} OwnCosts(st: Settings, g: seq<Item>)
    ensures Total(Own(g), BlockCost(st)) == Total(g, Cost(st))
  {
    if g != [] {
      OwnCosts(st, g[..|g| - 1]);
      assert Own(g)[..|g| - 1] == Own(g[..|g| - 1]);
    }
  }

  lemma OwnSnoc(g: seq<Item>, x: Item)
    ensures Own(g + [x]) == Own(g) + [x.block]
  {
  }

  /** _Accumulator, with the list of chunks it closes into. */
  class Accumulator {
    const st: Settings
    var blocks: seq<Block>
    var carry: Text
    var carryTokens: nat
    var chunks: seq<Chunk>
    ghost var build: Build

    ghost predicate Valid()
      reads this
    {
      && blocks == Own(build.open)
      && carry == CarryAfter(st, build.groups) && carryTokens == st.count(carry)
      && (forall i :: 0 <= i < |build.groups| ==> build.groups[i] != [])
      && chunks == RenderAll(st, build.groups)
    }

    constructor (st: Settings)
      requires Counting(st)
      ensures Valid() && this.st == st && build == Build([], [])
    {
      this.st := st;
      blocks, carry, carryTokens, chunks := [], [], 0, [];
      build := Build([], []);
    }

    /** The `tokens` property. */
    function Tokens(): (n: nat)
      reads this
    {
      carryTokens + Total(blocks, BlockCost(st))
    }

    lemma TokensAreWeight()
      requires Valid()
      ensures Tokens() == Weight(st, CarryAfter(st, build.groups), build.open)
    {
      OwnCosts(st, build.open);
    }

    /** flush: close the chunk in hand and seed the next with the tail of its prose. */
    method Flush()
      requires Valid()
      modifies this
      ensures Valid() && build == Closed(old(build))
    {
      hide TailTokens, Rendered, RenderAll, ProseTexts, Joined;
      if blocks == [] { return; }
      RenderSnoc(st, build.groups, build.open);
      chunks := chunks + [Rendered(st, |chunks|, carry, blocks)];
      var prose := Joined(ProseTexts(blocks), GAP);
      carry := TailTokensLoop(st, prose);
      carryTokens := st.count(carry);
      blocks := [];
      build := Build(build.groups + [build.open], []);
    }

    /** acc.blocks.append(block). */
    method Append(block: Block, ghost alone: bool)
      requires Valid()
      modifies this`blocks, this`build
      ensures Valid() && build == Build(old(build).groups, old(build).open + [Item(block, alone)])
    {
      OwnSnoc(build.open, Item(block, alone));
      blocks := blocks + [block];
      build := Build(build.groups, build.open + [Item(block, alone)]);
    }

    /** A table, or a paragraph that fits a chunk. */
    method Take(block: Block)
      requires Valid() && !(block.kind != Table && st.count(block.text) > st.maxTokens)
      modifies this
      ensures Valid() && build == Place(st, old(build), Item(block, false))
    {
      hide RenderAll, CarryAfter, Total;
      var cost := st.count(block.text);
      TokensAreWeight();
      if blocks != [] && Tokens() + cost > st.maxTokens { Flush(); }
      Append(block, false);
      TokensAreWeight();
      if block.kind == Table && Tokens() >= st.maxTokens { Flush(); }
    }

    /** A paragraph longer than a chunk: its pieces, one chunk each. */
    method TakeLong(block: Block)
      requires Valid() && block.kind != Table && st.count(block.text) > st.maxTokens
      modifies this
      ensures Valid() && build == PlaceAll(st, old(build), ItemsOf(st, block))
    {
      hide RenderAll, CarryAfter, Total, Pieces;
      ghost var items := ItemsOf(st, block);
      ghost var start := build;
      Flush();
      var pieces := SplitLongText(block.text, st.count, st.maxTokens);
      PiecesKeepSentences(block.text, st.count, st.maxTokens);
      for i := 0 to |pieces|
        invariant Valid() && build == Closed(PlaceAll(st, start, items[..i]))
        invariant i > 0 ==> build == PlaceAll(st, start, items[..i])
      {
        PlaceAllSnoc(st, start, items, i);
        PlaceClosed(st, PlaceAll(st, start, items[..i]), items[i]);
        Append(block.(text := pieces[i]), true);
        Flush();
      }
      assert items[..|pieces|] == items;
    }
  }

  lemma PlaceAllSnoc(st: Settings, b: Build, items: seq<Item>, i: nat)
    requires i < |items|
    ensures PlaceAll(st, b, items[..i + 1]) == Place(st, PlaceAll(st, b, items[..i]), items[i])
  {
    assert items[..i + 1][..i] == items[..i];
  }

  lemma PlaceClosed(st: Settings, b: Build, x: Item)
    requires x.alone
    ensures Place(st, b, x) == Closed(Build(Closed(b).groups, Closed(b).open + [x])) == Closed(Place(st, b, x))
  {
    assert Closed(b).open + [x] == [x];
  }

  lemma {:induction false} PlaceAllAppend(st: Settings, b: Build, xs: seq<Item>, ys: seq<Item>)
    ensures PlaceAll(st, b, xs + ys) == PlaceAll(st, PlaceAll(st, b, xs), ys)
    decreases |ys|
  {
    if ys == [] {
      assert xs + ys == xs;
    } else {
      assert (xs + ys)[..|xs + ys| - 1] == xs + ys[..|ys| - 1];
      PlaceAllAppend(st, b, xs, ys[..|ys| - 1]);
    }
  }

  /** chunk_blocks. */
  method ChunkBlocks(st: Settings, blocks: seq<Block>) returns (chunks: seq<Chunk>, ghost groups: seq<seq<Item>>)
    requires Counting(st)
    ensures groups == Groups(st, blocks) && forall i :: 0 <= i < |groups| ==> groups[i] != []
    ensures chunks == RenderAll(st, groups)
  {
    hide RenderAll, CarryAfter, Total, Place, ItemsOf;
    var acc := new Accumulator(st);
    for i := 0 to |blocks|
      invariant fresh(acc) && acc.st == st && acc.Valid()
      invariant acc.build == PlaceAll(st, Build([], []), Items(st, blocks[..i]))
    {
      var block := blocks[i];
      ItemsSnoc(st, blocks, i);
      PlaceAllAppend(st, Build([], []), Items(st, blocks[..i]), ItemsOf(st, block));
      if block.kind != Table && st.count(block.text) > st.maxTokens {
        acc.TakeLong(block);
      } else {
        ItemsOfOne(st, acc.build, block);
        acc.Take(block);
      }
    }
    assert blocks[..|blocks|] == blocks;
    acc.Flush();
    chunks, groups := acc.chunks, acc.build.groups;
  }

  lemma ItemsSnoc(st: Settings, blocks: seq<Block>, i: nat)
    requires i < |blocks|
    ensures Items(st, blocks[..i + 1]) == Items(st, blocks[..i]) + ItemsOf(st, blocks[i])
  {
    assert blocks[..i + 1][..i] == blocks[..i];
  }

  lemma ItemsOfOne(st: Settings, b: Build, block: Block)
    requires !(block.kind != Table && st.count(block.text) > st.maxTokens)
    ensures PlaceAll(st, b, ItemsOf(st, block)) == Place(st, b, Item(block, false))
  {
    var x := [Item(block, false)];
    assert x[..0] == [];
    assert PlaceAll(st, b, x[..0]) == b;
  }

  // --- tables ------------------------------------------------------------------------------------------

  function Tables(bs: seq<Block>): seq<Block> {
    if bs == [] then [] else Tables(bs[..|bs| - 1]) + (if bs[|bs| - 1].kind == Table then [bs[|bs| - 1]] else [])
  }

  function Prose(bs: seq<Block>): seq<Block> {
    if bs == [] then [] else (if bs[0].kind == Table then [] else [bs[0]]) + Prose(bs[1..])
  }

  lemma {:induction false} TablesAppend(a: seq<Block>, b: seq<Block>)
    ensures Tables(a + b) == Tables(a) + Tables(b)
    decreases |b|
  {
    if b == [] {
      assert a + b == a;
    } else {
      assert (a + b)[..|a + b| - 1] == a + b[..|b| - 1];
      TablesAppend(a, b[..|b| - 1]);
    }
  }

  lemma {:induction false} NoTables(bs: seq<Block>)
    requires forall i :: 0 <= i < |bs| ==> bs[i].kind != Table
    ensures Tables(bs) == []
  {
    if bs != [] { NoTables(bs[..|bs| - 1]); }
  }

  lemma OwnAppend(a: seq<Item>, b: seq<Item>)
    ensures Own(a + b) == Own(a) + Own(b)
  {
  }

  lemma {:induction false} ItemsKeepTables(st: Settings, blocks: seq<Block>)
    ensures Tables(Own(Items(st, blocks))) == Tables(blocks)
  {
    hide ItemsOf;
    if blocks != [] {
      var init, last := blocks[..|blocks| - 1], blocks[|blocks| - 1];
      ItemsKeepTables(st, init);
      OwnAppend(Items(st, init), ItemsOf(st, last));
      TablesAppend(Own(Items(st, init)), Own(ItemsOf(st, last)));
      OneKeepsTables(st, last);
    }
  }

  lemma OneKeepsTables(st: Settings, b: Block)
    ensures Tables(Own(ItemsOf(st, b))) == if b.kind == Table then [b] else []
  {
    hide Pieces;
    if b.kind != Table {
      NoTables(Own(ItemsOf(st, b)));
    } else {
      assert Own(ItemsOf(st, b)) == [b];
      assert [b][..0] == [];
      assert Tables([b][..0]) == [];
    }
  }

  /** No table is split, dropped, repeated or moved: the tables owned by the
      chunks, in order, are the tables of the input. */
  lemma TablesWhole(st: Settings, blocks: seq<Block>)
    ensures Tables(Own(Flatten(Groups(st, blocks)))) == Tables(blocks)
  {
    GroupsKeep(st, blocks);
    ItemsKeepTables(st, blocks);
  }

  /** And none is handed on: the overlap sees only the prose. */
  lemma OverlapIsProse(st: Settings, bs: seq<Block>)
    ensures Overlap(st, bs) == Overlap(st, Prose(bs))
  {
    ProseOnce(bs);
  }

  lemma {:induction false} ProseOnce(bs: seq<Block>)
    ensures ProseTexts(bs) == ProseTexts(Prose(bs))
  {
    if bs != [] {
      ProseOnce(bs[1..]);
      if bs[0].kind != Table {
        assert Prose(bs)[1..] == Prose(bs[1..]);
      } else {
        assert Prose(bs) == Prose(bs[1..]);
      }
    }
  }

  lemma {:induction false} NonBlankHas(parts: seq<Text>, i: nat) returns (j: nat)
    requires i < |parts| && !Blank(parts[i])
    ensures j < |NonBlank(parts)| && NonBlank(parts)[j] == parts[i]
  {
    hide Blank;
    if i == 0 {
      j := 0;
    } else {
      var k := NonBlankHas(parts[1..], i - 1);
      j := if Blank(parts[0]) then k else k + 1;
    }
  }

  /** Every block a chunk owns that is not blank stands in its text word for word. */
  lemma OwnVerbatim(st: Settings, carry: Text, bs: seq<Block>, i: nat)
    requires i < |bs| && !Blank(bs[i].text)
    ensures Within(bs[i].text, ChunkText(st, carry, bs))
  {
    hide Blank, Joined, NonBlank, Within, FirstSection, Strip, LStrip;
    var front := if carry != [] then [carry] else [];
    var parts := front + Texts(bs);
    assert parts[|front| + i] == bs[i].text;
    var j := NonBlankHas(parts, |front| + i);
    var before, after := JoinedHolds(NonBlank(parts), j, GAP);
    WithinMiddle(before, bs[i].text, after);
    var head := FirstSection(bs) + GAP;
    assert head + (before + bs[i].text + after) == (head + before) + bs[i].text + after;
    WithinMiddle(head + before, bs[i].text, after);
  }

  // --- page spans ----------------------------------------------------------------------------------------

  predicate Ascending(bs: seq<Block>) {
    forall i, j :: 0 <= i < j < |bs| ==> bs[i].page <= bs[j].page
  }

  lemma {:induction false} SpanOf(bs: seq<Block>)
    requires bs != [] && Ascending(bs)
    ensures MinPage(bs) == bs[0].page && MaxPage(bs) == bs[|bs| - 1].page
  {
    if |bs| > 1 { SpanOf(bs[1..]); }
  }

  lemma {:induction false} ItemsAscend(st: Settings, blocks: seq<Block>)
    requires Ascending(blocks)
    ensures Ascending(Own(Items(st, blocks)))
    ensures blocks == [] ==> Items(st, blocks) == []
    ensures forall x :: x in Items(st, blocks) ==> blocks != [] && x.block.page <= blocks[|blocks| - 1].page
  {
    hide ItemsOf;
    if blocks != [] {
      var init, last := blocks[..|blocks| - 1], blocks[|blocks| - 1];
      ItemsAscend(st, init);
      SamePage(st, last);
      forall x | x in Items(st, blocks) ensures x.block.page <= last.page {
        assert x in Items(st, init) || x in ItemsOf(st, last);
      }
      AscendAppend(Items(st, init), ItemsOf(st, last), last.page);
    }
  }

  lemma SamePage(st: Settings, b: Block)
    ensures forall x :: x in ItemsOf(st, b) ==> x.block.page == b.page
  {
    hide Pieces;
  }

  lemma AscendAppend(a: seq<Item>, b: seq<Item>, page: int)
    requires Ascending(Own(a)) && (forall x :: x in a ==> x.block.page <= page) && forall x :: x in b ==>
      x.block.page == page
    ensures Ascending(Own(a + b))
  {
    forall i, j | 0 <= i < j < |a + b| ensures Own(a + b)[i].page <= Own(a + b)[j].page {
      if j < |a| { assert Own(a)[i].page <= Own(a)[j].page; }
      else { assert (a + b)[j] in b; assert (a + b)[i] in a || (a + b)[i] in b; }
    }
  }

  /** When the blocks come in page order, so do the chunks: each one's span is from
      its first block's page to its last block's, and ends no later than the next
      one starts. */
  lemma SpansInOrder(st: Settings, blocks: seq<Block>, i: nat)
    requires Ascending(blocks) && i < |Groups(st, blocks)|
    ensures var g := Groups(st, blocks)[i];
      && g != []
      && MinPage(Own(g)) == g[0].block.page && MaxPage(Own(g)) == g[|g| - 1].block.page
      && (forall k :: 0 <= k < |g| ==> MinPage(Own(g)) <= g[k].block.page <= MaxPage(Own(g)))
    ensures i + 1 < |Groups(st, blocks)| ==>
      var h := Groups(st, blocks)[i + 1]; h != [] && MaxPage(Own(Groups(st, blocks)[i])) <= MinPage(Own(h))
  {
    hide Groups, GroupOk, CarryAfter, EndsHere, Items, Flatten, Own, Ascending;
    GroupsKeep(st, blocks);
    ItemsAscend(st, blocks);
    var groups, flat := Groups(st, blocks), Items(st, blocks);
    GroupSpan(st, groups, flat, i);
    if i + 1 < |groups| {
      GroupSpan(st, groups, flat, i + 1);
      Neighbours(groups, flat, i);
    }
  }

  lemma Neighbours(groups: seq<seq<Item>>, flat: seq<Item>, i: nat)
    requires Flatten(groups) == flat && Ascending(Own(flat)) && i + 1 < |groups| && groups[i] != []
      && groups[i + 1] != []
    ensures groups[i][|groups[i]| - 1].block.page <= groups[i + 1][0].block.page
  {
    hide Flatten;
    FlattenPart(groups, i);
    FlattenPart(groups, i + 1);
    var o := |Flatten(groups[..i])|;
    var g, h := groups[i], groups[i + 1];
    assert flat[o + |g| - 1] == flat[o..o + |g|][|g| - 1];
    assert flat[o + |g|] == flat[o + |g|..o + |g| + |h|][0];
    assert Own(flat)[o + |g| - 1].page <= Own(flat)[o + |g|].page;
  }

  lemma GroupSpan(st: Settings, groups: seq<seq<Item>>, flat: seq<Item>, i: nat)
    requires Lawful(st, groups) && Flatten(groups) == flat && Ascending(Own(flat)) && i < |groups|
    ensures groups[i] != [] && Ascending(Own(groups[i]))
    ensures var g := groups[i]; MinPage(Own(g)) == g[0].block.page && MaxPage(Own(g)) == g[|g| - 1].block.page
    ensures var g := groups[i]; forall k :: 0 <= k < |g| ==> MinPage(Own(g)) <= g[k].block.page <= MaxPage(Own(g))
  {
    hide CarryAfter, EndsHere, FullTable, Weight, Flatten;
    FlattenPart(groups, i);
    var g, o := groups[i], |Flatten(groups[..i])|;
    assert GroupOk(st, CarryAfter(st, groups[..i]), g);
    forall a, b | 0 <= a < b < |g| ensures Own(g)[a].page <= Own(g)[b].page {
      assert g[a] == flat[o..o + |g|][a] == flat[o + a] && g[b] == flat[o..o + |g|][b] == flat[o + b];
      assert Own(flat)[o + a].page <= Own(flat)[o + b].page;
    }
    SpanOf(Own(g));
    forall k | 0 <= k < |g| ensures MinPage(Own(g)) <= g[k].block.page <= MaxPage(Own(g)) {
      assert Own(g)[0].page <= Own(g)[k].page <= Own(g)[|g| - 1].page;
    }
  }
}
