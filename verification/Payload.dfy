/** What search_documents hands to the model (ragsvc/tools.py:274-326): the hits as
    JSON within a token budget, and what the agent loop cites from it
    (backend/agent/loop.py:495-523). */
module Payload {
  import opened Codes
  import opened Json
  import Budget
  import Events
  import Sse

  const FRAME_TOKENS := 60
  const CITED := 5

  /** A hit; `page` and `score` are numbers as json.dumps writes them. */
  datatype Passage = Passage(docId: Text, filename: Text, page: Tree, section: Text, score: Tree, text: Text)

  /** The budget, the token counter, and the snippet of a text within an allowance. */
  datatype Desk = Desk(budget: int, count: Text -> nat, snippet: (Text, nat) -> Text)

  // --- json.dumps ------------------------------------------------------------------------------

  function Quote(t: Text): Tree { StrTree(Sse.PiecesFor(t)) }

  /** Separated by ", " and ": ". */
  function Record(fields: seq<(Text, Tree)>): Members {
    if fields == [] then NoMembers
    else Member(Sse.PiecesFor(fields[0].0), [], [SPACE], fields[0].1, [], [SPACE], Record(fields[1..]))
  }

  function Listed(trees: seq<Tree>): Items {
    if trees == [] then NoItems else Item(trees[0], [], [SPACE], Listed(trees[1..]))
  }

  function EntryFields(p: Passage, snippet: Text): seq<(Text, Tree)> {
    [(Lit("doc_id"), Quote(p.docId)), (Lit("filename"), Quote(p.filename)), (Lit("page"), p.page),
     (Lit("section"), Quote(p.section)), (Lit("score"), p.score), (Lit("snippet"), Quote(snippet))]
  }

  function Entry(p: Passage, snippet: Text): Tree { ObjectTree([], Record(EntryFields(p, snippet))) }

  function Hits(entries: seq<Tree>): Tree { ObjectTree([], Record([(Lit("hits"), ArrayTree([], Listed(entries)))])) }

  // --- sharing the budget ------------------------------------------------------------------------

  /** int(remaining * 0.40): towards zero. */
  function TopShare(remaining: int): int { if remaining >= 0 then 2 * remaining / 5 else -(2 * -remaining / 5) }

  /** What is left for hit `i` and those after it. */
  function Remaining(d: Desk, hits: seq<Passage>, i: nat): int
    requires i <= |hits|
    decreases i, 0
  {
    if i == 0 then d.budget - FRAME_TOKENS else Remaining(d, hits, i - 1) - Cost(d, hits, i - 1)
  }

  function Share(d: Desk, hits: seq<Passage>, i: nat): int
    requires i < |hits|
    decreases i, 1
  {
    if i == 0 then TopShare(Remaining(d, hits, 0)) else Remaining(d, hits, i) / (|hits| - i)
  }

  /** The share without what the entry costs before it has a snippet. */
  function Allowed(d: Desk, hits: seq<Passage>, i: nat): nat
    requires i < |hits|
    decreases i, 2
  {
    var left := Share(d, hits, i) - d.count(Yield(Entry(hits[i], [])));
    if left >= 0 then left else 0
  }

  function EntryAt(d: Desk, hits: seq<Passage>, i: nat): Tree
    requires i < |hits|
    decreases i, 3
  {
    Entry(hits[i], d.snippet(hits[i].text, Allowed(d, hits, i)))
  }

  function Cost(d: Desk, hits: seq<Passage>, i: nat): nat
    requires i < |hits|
    decreases i, 4
  {
    d.count(Yield(EntryAt(d, hits, i)))
  }

  /** The entries of the first `n` hits. */
  function Entries(d: Desk, hits: seq<Passage>, n: nat): seq<Tree>
    requires n <= |hits|
  {
    seq(n, i requires 0 <= i < n => EntryAt(d, hits, i))
  }

  function Dumped(d: Desk, hits: seq<Passage>, n: nat): Text
    requires n <= |hits|
  {
    Yield(Hits(Entries(d, hits, n)))
  }

  predicate Fits(d: Desk, hits: seq<Passage>, n: nat)
    requires n <= |hits|
  {
    d.count(Dumped(d, hits, n)) <= d.budget
  }

  /** Hits are taken while something is left. */
  predicate Served(d: Desk, hits: seq<Passage>, n: nat) {
    && 0 < n <= |hits|
    && (forall i :: 0 < i < n ==> Remaining(d, hits, i) > 0)
    && (n < |hits| ==> Remaining(d, hits, n) <= 0)
  }

  /** The longest non-empty front of the first `n` entries that is within the budget
      as a whole; a single entry if none is. */
  predicate LongestFit(d: Desk, hits: seq<Passage>, n: nat, kept: nat) {
    && 1 <= kept <= n <= |hits|
    && (kept == 1 || Fits(d, hits, kept))
    && forall j :: kept < j <= n ==> !Fits(d, hits, j)
  }

  lemma EntriesSnoc(d: Desk, hits: seq<Passage>, n: nat)
    requires n < |hits|
    ensures Entries(d, hits, n + 1) == Entries(d, hits, n) + [EntryAt(d, hits, n)]
    ensures var overhead := d.count(Yield(Entry(hits[n], [])));
      var share := Share(d, hits, n);
      EntryAt(d, hits, n) ==
      Entry(hits[n], d.snippet(hits[n].text, if share >= overhead then share - overhead else 0))
    ensures Remaining(d, hits, n + 1) == Remaining(d, hits, n) - d.count(Yield(EntryAt(d, hits, n)))
  {
    hide Yield, Entry, TopShare;
  }

  /** _hits_payload: shares of the budget by rank, and the budget enforced on the
      finished text. */
  method HitsPayload(d: Desk, hits: seq<Passage>) returns (payload: Text, ghost n: nat, ghost kept: nat)
    ensures hits == [] ==> payload == Yield(Hits([]))
    ensures hits != [] ==> Served(d, hits, n) && LongestFit(d, hits, n, kept) && payload == Dumped(d, hits, kept)
  {
    hide Entry, Hits, TopShare, Yield;
    n, kept := 0, 0;
    if hits == [] { return Yield(Hits([])), n, kept; }
    var entries: seq<Tree>, remaining, index := [], d.budget - FRAME_TOKENS, 0;
    while index < |hits| && (index == 0 || remaining > 0)
      invariant 0 <= index <= |hits| && entries == Entries(d, hits, index) && remaining == Remaining(d, hits, index)
      invariant forall i :: 0 < i < index ==> Remaining(d, hits, i) > 0
    {
      var share := if index == 0 then TopShare(remaining) else remaining / (|hits| - index);
      var overhead := d.count(Yield(Entry(hits[index], [])));
      var entry := Entry(hits[index], d.snippet(hits[index].text, if share >= overhead then share - overhead else 0));
      EntriesSnoc(d, hits, index);
      entries := entries + [entry];
      remaining := remaining - d.count(Yield(entry));
      index := index + 1;
    }
    n, kept := index, index;
    payload := Yield(Hits(entries));
    while d.count(payload) > d.budget && |entries| > 1
      invariant 1 <= kept <= n && entries == Entries(d, hits, kept) && payload == Yield(Hits(entries))
      invariant forall j :: kept < j <= n ==> !Fits(d, hits, j)
      decreases kept
    {
      entries := entries[..|entries| - 1];
      payload := Yield(Hits(entries));
      kept := kept - 1;
    }
  }

  // --- what the sharing promises ---------------------------------------------------------------------

  /** An entry costs no more than its share. */
  predicate Modest(d: Desk, hits: seq<Passage>, i: nat)
    requires i < |hits|
  {
    Cost(d, hits, i) <= Share(d, hits, i)
  }

  lemma SharesGrow(r: int, c: int, m: nat)
    requires m >= 2 && c <= r / m
    ensures (r - c) / (m - 1) >= r / m
    ensures r > 0 ==> r - c > 0
  {
    var q := r / m;
    assert r - c >= q * (m - 1);
    QuotientAtLeast(r - c, m - 1, q);
  }

  lemma TimesMore(x: int, y: int, b: nat)
    ensures x <= y ==> x * b <= y * b
  {
  }

  lemma QuotientAtLeast(a: int, b: nat, q: int)
    requires b >= 1 && a >= q * b
    ensures a / b >= q
  {
    TimesMore(a / b + 1, q, b);
    assert a < (a / b + 1) * b;
  }

  /** A short passage hands what it does not use to those after it: below the first,
      shares do not shrink as long as the entries keep to theirs. */
  lemma UnusedPassesOn(d: Desk, hits: seq<Passage>, i: nat)
    requires 1 <= i && i + 1 < |hits| && Modest(d, hits, i)
    ensures Share(d, hits, i) <= Share(d, hits, i + 1)
  {
    hide Allowed, EntryAt, Cost;
    SharesGrow(Remaining(d, hits, i), Cost(d, hits, i), |hits| - i);
  }

  lemma {:induction false} SomethingLeft(d: Desk, hits: seq<Passage>, i: nat)
    requires d.budget > FRAME_TOKENS && i <= |hits|
    requires forall k :: 0 <= k < |hits| ==> Modest(d, hits, k)
    ensures if i < |hits| then Remaining(d, hits, i) > 0 else Remaining(d, hits, i) >= 0
  {
    hide Allowed, EntryAt, Cost;
    if i > 0 {
      SomethingLeft(d, hits, i - 1);
      assert Modest(d, hits, i - 1);
      if 1 < i < |hits| { SharesGrow(Remaining(d, hits, i - 1), Cost(d, hits, i - 1), |hits| - (i - 1)); }
    }
  }

  function TotalCost(entries: seq<Tree>, count: Text -> nat): nat {
    if entries == [] then 0 else TotalCost(entries[..|entries| - 1], count) + count(Yield(entries[|entries| - 1]))
  }

  lemma {:induction false} RemainingIs(d: Desk, hits: seq<Passage>, i: nat)
    requires i <= |hits|
    ensures Remaining(d, hits, i) == d.budget - FRAME_TOKENS - TotalCost(Entries(d, hits, i), d.count)
  {
    hide Allowed, EntryAt, Share;
    if i > 0 {
      RemainingIs(d, hits, i - 1);
      assert Entries(d, hits, i)[..i - 1] == Entries(d, hits, i - 1);
    }
  }

  /** What the shares are: the first hit gets two fifths of the budget less 60 tokens,
      towards zero; each one after it an equal part of what the entries before it
      have left, rounded down. A snippet may use what its entry does not need. */
  lemma SharesAre(d: Desk, hits: seq<Passage>, i: nat)
    requires i < |hits|
    ensures var left := d.budget - 60 - TotalCost(Entries(d, hits, i), d.count);
      var share := Share(d, hits, i);
      && (i == 0 && left >= 0 ==> 5 * share <= 2 * left < 5 * share + 5)
      && (i == 0 && left < 0 ==> 5 * share - 5 < 2 * left <= 5 * share)
      && (i > 0 ==> (|hits| - i) * share <= left < (|hits| - i) * (share + 1))
    ensures var spare := Share(d, hits, i) - d.count(Yield(Entry(hits[i], [])));
      EntryAt(d, hits, i) == Entry(hits[i], d.snippet(hits[i].text, if spare > 0 then spare else 0))
  {
    hide Yield, Entry, TotalCost, Cost, Entries;
    RemainingIs(d, hits, i);
    if i > 0 { DividedDown(Remaining(d, hits, i), |hits| - i); }
  }

  lemma DividedDown(a: int, b: nat)
    requires b > 0
    ensures b * (a / b) <= a < b * (a / b + 1)
  {
  }

  /** If every entry keeps to its share, every hit is served, and together they leave
      room for the frame. */
  lemma AllServed(d: Desk, hits: seq<Passage>, n: nat)
    requires d.budget > FRAME_TOKENS && Served(d, hits, n)
    requires forall k :: 0 <= k < |hits| ==> Modest(d, hits, k)
    ensures n == |hits| && TotalCost(Entries(d, hits, n), d.count) <= d.budget - FRAME_TOKENS
  {
    hide Remaining, Modest, TotalCost, Entries;
    SomethingLeft(d, hits, n);
    RemainingIs(d, hits, n);
  }

  // --- with the fallback estimator -------------------------------------------------------------------

  ghost predicate Estimates(d: Desk) { forall t :: d.count(t) == Budget.Count(t) }

  /** The characters of some entries, one by one. */
  function Width(entries: seq<Tree>): nat {
    if entries == [] then 0 else |Yield(entries[0])| + Width(entries[1..])
  }

  lemma {:induction false} ListedWidth(entries: seq<Tree>)
    ensures |YieldItems(Listed(entries))| == if entries == [] then 0 else Width(entries) + 2 * (|entries| - 1)
  {
    if entries != [] {
      ListedWidth(entries[1..]);
      hide Yield;
      assert |entries[1..]| == |entries| - 1;
    }
  }

  lemma BracketsWidth(items: Items)
    ensures |Yield(ArrayTree([], items))| == |YieldItems(items)| + 2
  {
    hide YieldItems;
  }

  lemma OneMember(key: Text, t: Tree)
    ensures |Yield(ObjectTree([], Record([(key, t)])))| == |Quoted(Sse.PiecesFor(key))| + |Yield(t)| + 4
  {
    var fields := [(key, t)];
    assert fields[1..] == [];
    var ps, text := Sse.PiecesFor(key), Yield(t);
    assert Record(fields) == Member(ps, [], [SPACE], t, [], [SPACE], NoMembers);
    hide Sse.PiecesFor, Quoted, Record;
    assert YieldMembers(Member(ps, [], [SPACE], t, [], [SPACE], NoMembers)) ==
      Quoted(ps) + [] + [':' as int] + [SPACE] + text + [] + [];
  }

  /** Twelve characters of frame, two between neighbours. */
  lemma HitsWidth(entries: seq<Tree>)
    ensures |Yield(Hits(entries))| == if entries == [] then 12 else 12 + Width(entries) + 2 * (|entries| - 1)
  {
    ListedWidth(entries);
    KeyWidth();
    BracketsWidth(Listed(entries));
    OneMember(Lit("hits"), ArrayTree([], Listed(entries)));
    hide Yield, YieldItems, Quoted, Record, Width, Listed, Sse.PiecesFor;
  }

  lemma KeyWidth()
    ensures |Quoted(Sse.PiecesFor(Lit("hits")))| == 6
  {
    var k := Lit("hits");
    PlainPieces(k);
  }

  lemma PlainPiece(c: Code)
    requires c >= 0x5D
    ensures YieldPiece(Sse.PieceFor(c)) == [c]
  {
  }

  lemma {:induction false} PlainPieces(t: Text)
    requires forall i :: 0 <= i < |t| ==> 0x5D <= t[i]
    ensures YieldPieces(Sse.PiecesFor(t)) == t
  {
    hide Sse.PieceFor, YieldPiece;
    if t != [] {
      PlainPiece(t[0]);
      PlainPieces(t[1..]);
      var rest := Sse.PiecesFor(t[1..]);
      assert ([Sse.PieceFor(t[0])] + rest)[1..] == rest;
      assert t == [t[0]] + t[1..];
    }
  }

  lemma {:induction false} WidthSnoc(entries: seq<Tree>)
    requires entries != []
    ensures Width(entries) == Width(entries[..|entries| - 1]) + |Yield(entries[|entries| - 1])|
  {
    hide Yield;
    if |entries| > 1 {
      WidthSnoc(entries[1..]);
      assert entries[1..][..|entries| - 2] == entries[..|entries| - 1][1..];
    }
  }

  /** Estimating piece by piece never comes to less than 5/17 of the characters. */
  lemma {:induction false} CostsCover(entries: seq<Tree>)
    requires forall i :: 0 <= i < |entries| ==> entries[i].ObjectTree?
    ensures 5 * Width(entries) + |entries| <= 17 * TotalCost(entries, Budget.Count)
  {
    hide Yield, Width;
    if entries == [] {
      assert Width(entries) == 0 by { NoWidth(); }
    } else {
      var init, last := entries[..|entries| - 1], entries[|entries| - 1];
      CostsCover(init);
      WidthSnoc(entries);
      YieldSome(last);
      Budget.CountBounds(|Yield(last)|);
    }
  }

  lemma NoWidth()
    ensures Width([]) == 0
  {
  }

  lemma YieldSome(t: Tree)
    requires t.ObjectTree?
    ensures |Yield(t)| > 0
  {
  }

  /** The room kept for the frame is enough for up to 107 entries. */
  lemma FrameEnough(entries: seq<Tree>)
    requires |entries| <= 107 && forall i :: 0 <= i < |entries| ==> entries[i].ObjectTree?
    ensures Budget.Count(Yield(Hits(entries))) <= TotalCost(entries, Budget.Count) + FRAME_TOKENS
  {
    hide Yield, Hits, TotalCost, Width;
    CostsCover(entries);
    HitsWidth(entries);
    if entries == [] { assert Width(entries) == 0 by { NoWidth(); } }
  }

  lemma {:induction false} SameCount(d: Desk, entries: seq<Tree>)
    requires Estimates(d)
    ensures TotalCost(entries, d.count) == TotalCost(entries, Budget.Count)
  {
    hide Yield;
    if entries != [] { SameCount(d, entries[..|entries| - 1]); }
  }

  lemma EntriesAreObjects(d: Desk, hits: seq<Passage>, n: nat)
    requires n <= |hits|
    ensures |Entries(d, hits, n)| == n && forall i :: 0 <= i < n ==> Entries(d, hits, n)[i].ObjectTree?
  {
    hide Allowed, Share, Remaining;
  }

  /** No hit is dropped when every entry keeps to its share. */
  lemma NothingDropped(d: Desk, hits: seq<Passage>, n: nat, kept: nat)
    requires Estimates(d) && d.budget > FRAME_TOKENS && |hits| <= 107
    requires Served(d, hits, n) && LongestFit(d, hits, n, kept)
    requires forall k :: 0 <= k < |hits| ==> Modest(d, hits, k)
    ensures kept == |hits| && Fits(d, hits, kept)
  {
    AllServed(d, hits, n);
    SameCount(d, Entries(d, hits, n));
    EntriesAreObjects(d, hits, n);
    FrameEnough(Entries(d, hits, n));
    hide Entries, Hits, Yield, TotalCost, Served, Modest;
    assert Fits(d, hits, n);
  }

  lemma {:induction false} WidthGrows(entries: seq<Tree>, j: nat)
    requires 1 <= j <= |entries|
    ensures Width(entries[..1]) <= Width(entries[..j])
    decreases j
  {
    hide Yield, Width;
    if j > 1 {
      WidthGrows(entries, j - 1);
      WidthSnoc(entries[..j]);
      assert entries[..j][..j - 1] == entries[..j - 1];
    }
  }

  lemma OneFitsFirst(d: Desk, hits: seq<Passage>, j: nat)
    requires Estimates(d) && 1 <= j <= |hits| && Fits(d, hits, j)
    ensures Fits(d, hits, 1)
  {
    hide Yield, Hits, Width, EntryAt;
    var entries := Entries(d, hits, j);
    assert entries[..j] == entries && entries[..1] == Entries(d, hits, 1);
    WidthGrows(entries, j);
    HitsWidth(entries);
    HitsWidth(entries[..1]);
    Budget.CountOver(|Dumped(d, hits, 1)|, if d.budget >= 0 then d.budget else 0);
    Budget.CountOver(|Dumped(d, hits, j)|, if d.budget >= 0 then d.budget else 0);
  }

  /** The result is over the budget exactly when no front of the entries is within
      it; by the estimate, exactly when the first entry alone is not. */
  lemma OverExactly(d: Desk, hits: seq<Passage>, n: nat, kept: nat)
    requires LongestFit(d, hits, n, kept)
    ensures !Fits(d, hits, kept) <==> forall j :: 1 <= j <= n ==> !Fits(d, hits, j)
    ensures Estimates(d) ==> (!Fits(d, hits, kept) <==> !Fits(d, hits, 1))
  {
    hide Fits;
    if Estimates(d) && Fits(d, hits, kept) { OneFitsFirst(d, hits, kept); }
  }

  lemma {:induction false} PiecesWidth(t: Text)
    ensures |YieldPieces(Sse.PiecesFor(t))| >= |t|
  {
    hide Sse.PieceFor, YieldPiece;
    if t != [] {
      PiecesWidth(t[1..]);
      var rest := Sse.PiecesFor(t[1..]);
      assert ([Sse.PieceFor(t[0])] + rest)[1..] == rest;
    }
  }

  lemma StringWidth(t: Text)
    ensures |Yield(Quote(t))| >= |t| + 2
  {
    PiecesWidth(t);
    hide Sse.PiecesFor, YieldPieces;
  }

  lemma NameSecond(p: Passage, snippet: Text)
    ensures |EntryFields(p, snippet)| == 6 && EntryFields(p, snippet)[1].1 == Quote(p.filename)
  {
    hide Lit, Quote;
  }

  lemma BracesWidth(members: Members)
    ensures |Yield(ObjectTree([], members))| == |YieldMembers(members)| + 2
  {
    hide YieldMembers;
  }

  /** An entry is longer than the name of its file. */
  lemma EntryWidth(p: Passage, snippet: Text)
    ensures |Yield(Entry(p, snippet))| > |p.filename|
  {
    hide EntryFields, Quote, Yield, Record, YieldMembers, Sse.PiecesFor;
    var fields := EntryFields(p, snippet);
    NameSecond(p, snippet);
    StringWidth(p.filename);
    MemberWidth(fields);
    MemberWidth(fields[1..]);
    BracesWidth(Record(fields));
  }

  lemma MemberWidth(fields: seq<(Text, Tree)>)
    requires |fields| >= 2
    ensures |YieldMembers(Record(fields))| >= |Yield(fields[0].1)| + |YieldMembers(Record(fields[1..]))|
  {
    hide Yield, Quoted, Sse.PiecesFor;
  }

  /** A file name of 17/5 of the budget is over it by itself, and the loop keeps the
      last entry whatever it costs. */
  lemma LongNameOver(d: Desk, hits: seq<Passage>, n: nat, kept: nat)
    requires Estimates(d) && d.budget >= 0 && LongestFit(d, hits, n, kept)
    requires 5 * |hits[0].filename| >= 17 * d.budget
    ensures kept == 1 && d.count(Dumped(d, hits, kept)) > d.budget
  {
    OverExactly(d, hits, n, kept);
    EntryWidth(hits[0], d.snippet(hits[0].text, Allowed(d, hits, 0)));
    var one := Entries(d, hits, 1);
    assert Yield(one[0]) == Yield(Entry(hits[0], d.snippet(hits[0].text, Allowed(d, hits, 0))));
    hide Yield, Hits, Entry, Allowed, Entries;
    assert one[1..] == [];
    assert Width(one) == |Yield(one[0])| by { NoWidth(); }
    HitsWidth(one);
    Budget.CountOver(|Dumped(d, hits, 1)|, d.budget);
  }

  /** One such hit, with the default budget. */
  lemma OneEntryOver()
    ensures var page := NumberTree(false, ['1' as int], [], []);
      var d := Desk(1000, Budget.Count, (text, allowance) => []);
      var hits := [Passage([], seq(3400, i => 'a' as int), page, [], page, [])];
      LongestFit(d, hits, 1, 1) && !Fits(d, hits, 1)
  {
    var page := NumberTree(false, ['1' as int], [], []);
    var d := Desk(1000, Budget.Count, (text, allowance) => []);
    var hits := [Passage([], seq(3400, i => 'a' as int), page, [], page, [])];
    LongNameOver(d, hits, 1, 1);
  }

  // --- and back again -----------------------------------------------------------------------------------

  predicate Clean(t: Text) { forall i :: 0 <= i < |t| ==> 0 <= t[i] }

  predicate Writable(p: Passage) {
    && Clean(p.docId) && Clean(p.filename) && Clean(p.section)
    && p.page.NumberTree? && Good(p.page) && p.score.NumberTree? && Good(p.score)
  }

  predicate GoodFields(fields: seq<(Text, Tree)>) {
    forall i :: 0 <= i < |fields| ==> Clean(fields[i].0) && Good(fields[i].1)
  }

  function Meant(fields: seq<(Text, Tree)>): seq<(Text, Value)>
    requires GoodFields(fields)
  {
    seq(|fields|, i requires 0 <= i < |fields| => (fields[i].0, Meaning(fields[i].1)))
  }

  lemma {:induction false} RecordMeaning(fields: seq<(Text, Tree)>)
    requires GoodFields(fields)
    ensures GoodMembers(Record(fields)) && MembersMeaning(Record(fields)) == Meant(fields)
  {
    hide Good, Meaning, Sse.PiecesFor, GoodPieces, PiecesMeaning;
    if fields != [] {
      RecordMeaning(fields[1..]);
      Sse.PiecesForMeaning(fields[0].0);
      assert Meant(fields) == [(fields[0].0, Meaning(fields[0].1))] + Meant(fields[1..]);
    }
  }

  lemma {:induction false} ListedMeaning(trees: seq<Tree>)
    requires forall i :: 0 <= i < |trees| ==> Good(trees[i])
    ensures GoodItems(Listed(trees))
    ensures ItemsMeaning(Listed(trees)) == seq(|trees|, i requires 0 <= i < |trees| => Meaning(trees[i]))
  {
    hide Good, Meaning;
    if trees != [] { ListedMeaning(trees[1..]); }
  }

  function EntryValue(p: Passage, snippet: Text): Value
    requires Writable(p)
  {
    Object([(Lit("doc_id"), Str(p.docId)), (Lit("filename"), Str(p.filename)), (Lit("page"), Meaning(p.page)),
            (Lit("section"), Str(p.section)), (Lit("score"), Meaning(p.score)), (Lit("snippet"), Str(snippet))])
  }

  lemma QuoteMeaning(t: Text)
    requires Clean(t)
    ensures Good(Quote(t)) && Meaning(Quote(t)) == Str(t)
  {
    Sse.PiecesForMeaning(t);
    hide Sse.PiecesFor, GoodPieces, PiecesMeaning;
  }

  lemma FieldsMean(p: Passage, snippet: Text)
    requires Writable(p) && Clean(snippet)
    ensures GoodFields(EntryFields(p, snippet))
    ensures Meant(EntryFields(p, snippet)) == EntryValue(p, snippet).members
  {
    QuoteMeaning(p.docId);
    QuoteMeaning(p.filename);
    QuoteMeaning(p.section);
    QuoteMeaning(snippet);
    hide Lit, Quote, Good, Meaning;
  }

  lemma EntryMeaning(p: Passage, snippet: Text)
    requires Writable(p) && Clean(snippet)
    ensures Good(Entry(p, snippet)) && Meaning(Entry(p, snippet)) == EntryValue(p, snippet)
  {
    FieldsMean(p, snippet);
    hide Lit, Meant, EntryFields, GoodFields, Writable, Record;
    RecordMeaning(EntryFields(p, snippet));
  }

  /** What the whole means, given what the entries mean. */
  lemma HitsMeaning(entries: seq<Tree>, values: seq<Value>)
    requires |entries| == |values| && forall i :: 0 <= i < |entries| ==> Good(entries[i])
    requires forall i :: 0 <= i < |entries| ==> Meaning(entries[i]) == values[i]
    ensures Good(Hits(entries)) && Meaning(Hits(entries)) == Object([(Lit("hits"), Array(values))])
  {
    hide Lit, Listed, Record;
    ListedMeaning(entries);
    var list := ArrayTree([], Listed(entries));
    assert Meaning(list) == Array(values);
    RecordMeaning([(Lit("hits"), list)]);
  }

  function SnippetAt(d: Desk, hits: seq<Passage>, i: nat): Text
    requires i < |hits|
  {
    d.snippet(hits[i].text, Allowed(d, hits, i))
  }

  ghost predicate AllWritable(d: Desk, hits: seq<Passage>) {
    forall i :: 0 <= i < |hits| ==> Writable(hits[i]) && Clean(SnippetAt(d, hits, i))
  }

  function Values(d: Desk, hits: seq<Passage>, n: nat): seq<Value>
    requires n <= |hits| && forall i :: 0 <= i < |hits| ==> Writable(hits[i])
  {
    seq(n, i requires 0 <= i < n => EntryValue(hits[i], SnippetAt(d, hits, i)))
  }

  /** Whatever is kept parses back to the hits it was made of, field by field. */
  lemma PayloadLoads(d: Desk, hits: seq<Passage>, n: nat)
    requires n <= |hits| && AllWritable(d, hits)
    ensures Loads(Dumped(d, hits, n)) == Some(Object([(Lit("hits"), Array(Values(d, hits, n)))]))
  {
    hide Allowed, Entry, EntryValue, Writable, Yield, Loads, Hits, Good, Meaning, Lit;
    var entries := Entries(d, hits, n);
    forall i | 0 <= i < n ensures Good(entries[i]) && Meaning(entries[i]) == Values(d, hits, n)[i] {
      EntryMeaning(hits[i], SnippetAt(d, hits, i));
    }
    HitsMeaning(entries, Values(d, hits, n));
    LoadsWhatIsWritten([], Hits(entries), []);
    assert [] + Yield(Hits(entries)) + [] == Yield(Hits(entries));
  }

  // --- citations --------------------------------------------------------------------------------------------

  /** What Citation's int and float fields accept. */
  datatype Typing = Typing(whole: Value -> Option<int>, decimal: Value -> bool)

  datatype Reading = Found(citations: seq<Events.Event>) | Crashes

  /** Citation(**...) of one hit; None when a key is missing or ill typed. */
  function Cite(py: Typing, hit: Value): Option<Events.Event> {
    if !hit.Object? then None
    else
      var doc, file, page := Get(hit.members, Lit("doc_id")), Get(hit.members, Lit("filename")),
        Get(hit.members, Lit("page"));
      var score, snippet := Get(hit.members, Lit("score")), Get(hit.members, Lit("snippet"));
      if !(doc.Some? && file.Some? && page.Some? && score.Some? && snippet.Some?) then None
      else if doc.value.Str? && file.value.Str? && snippet.value.Str? && py.whole(page.value).Some?
        && py.decimal(score.value)
      then Some(Events.Citation(doc.value.text, file.value.text, py.whole(page.value).value, snippet.value.text))
      else None
  }

  function Cites(py: Typing, hits: seq<Value>): seq<Events.Event> {
    if hits == [] then []
    else
      var last := Cite(py, hits[|hits| - 1]);
      Cites(py, hits[..|hits| - 1]) + (if last.Some? then [last.value] else [])
  }

  function FirstFive(hits: seq<Value>): seq<Value> { if |hits| <= CITED then hits else hits[..CITED] }

  /** Unreadable content cites nothing, and a hit that lacks a field is left out
      rather than made up; a `hits` that cannot be sliced is not caught. */
  function CitationsIn(py: Typing, name: Text, ok: bool, content: Text): Reading {
    var read := Loads(content);
    if name != Lit("search_documents") || !ok || read.None? || !read.value.Object? then Found([])
    else match Get(read.value.members, Lit("hits"))
      case Some(Array(hits)) => Found(Cites(py, FirstFive(hits)))
      case None => Found([])
      case Some(Str(_)) => Found([])
      case Some(_) => Crashes
  }

  /** _citations_from. */
  method CitationsFrom(py: Typing, name: Text, ok: bool, content: Text) returns (r: Reading)
    ensures r == CitationsIn(py, name, ok, content)
  {
    hide Loads, Get, Cite;
    if name != Lit("search_documents") || !ok { return Found([]); }
    var read := Loads(content);
    if read.None? || !read.value.Object? { return Found([]); }
    var hits := Get(read.value.members, Lit("hits"));
    if hits.None? || hits.value.Str? { return Found([]); }
    if !hits.value.Array? { return Crashes; }
    var first, out := FirstFive(hits.value.items), [];
    for i := 0 to |first|
      invariant out == Cites(py, first[..i])
    {
      assert first[..i + 1][..i] == first[..i];
      var cited := Cite(py, first[i]);
      if cited.Some? { out := out + [cited.value]; }
    }
    assert first[..|first|] == first;
    r := Found(out);
  }

  predicate Typed(py: Typing, p: Passage) {
    Writable(p) && py.whole(Meaning(p.page)).Some? && py.decimal(Meaning(p.score))
  }

  function CitationOf(py: Typing, p: Passage, snippet: Text): Events.Event
    requires Typed(py, p)
  {
    Events.Citation(p.docId, p.filename, py.whole(Meaning(p.page)).value, snippet)
  }

  lemma CiteEntry(py: Typing, p: Passage, snippet: Text)
    requires Typed(py, p)
    ensures Cite(py, EntryValue(p, snippet)) == Some(CitationOf(py, p, snippet))
  {
    hide Meaning, Good;
    var f := EntryValue(p, snippet).members;
    KeysApart();
    FoundAt(f, 0);
    FoundAt(f, 1);
    FoundAt(f, 2);
    FoundAt(f, 4);
    FoundAt(f, 5);
  }

  lemma KeysApart()
    ensures |Lit("doc_id")| == 6 && |Lit("filename")| == 8 && |Lit("page")| == 4 && |Lit("section")| == 7
    ensures |Lit("score")| == 5 && |Lit("snippet")| == 7 && Lit("section")[1] != Lit("snippet")[1]
  {
  }

  lemma {:induction false} FoundAt(f: seq<(Text, Value)>, i: nat)
    requires i < |f| && forall j :: i < j < |f| ==> f[j].0 != f[i].0
    ensures Get(f, f[i].0) == Some(f[i].1)
  {
    if i > 0 { FoundAt(f[1..], i - 1); }
  }

  lemma {:induction false} CitesAll(py: Typing, values: seq<Value>, events: seq<Events.Event>)
    requires |values| == |events| && forall i :: 0 <= i < |values| ==> Cite(py, values[i]) == Some(events[i])
    ensures Cites(py, values) == events
  {
    hide Cite;
    if values != [] { CitesAll(py, values[..|values| - 1], events[..|events| - 1]); }
  }

  /** The citations of the first `n` hits. */
  function CitationsOf(py: Typing, d: Desk, hits: seq<Passage>, n: nat): seq<Events.Event>
    requires n <= |hits| && forall i :: 0 <= i < |hits| ==> Typed(py, hits[i])
  {
    seq(n, i requires 0 <= i < n => CitationOf(py, hits[i], SnippetAt(d, hits, i)))
  }

  lemma CitesIn(py: Typing, content: Text, items: seq<Value>)
    requires Loads(content) == Some(Object([(Lit("hits"), Array(items))]))
    ensures CitationsIn(py, Lit("search_documents"), true, content) == Found(Cites(py, FirstFive(items)))
  {
    hide Loads, Cites, FirstFive, Lit, Get;
    FoundAt([(Lit("hits"), Array(items))], 0);
  }

  /** The hits the model is shown are the hits the screen cites: the first five
      entries, in order, each under its own document, file, page and snippet. */
  lemma SearchIsCited(py: Typing, d: Desk, hits: seq<Passage>, n: nat)
    requires n <= |hits| && AllWritable(d, hits) && forall i :: 0 <= i < |hits| ==> Typed(py, hits[i])
    ensures CitationsIn(py, Lit("search_documents"), true, Dumped(d, hits, n)) ==
      Found(CitationsOf(py, d, hits, if n <= 5 then n else 5))
  {
    hide Lit, Cite, Loads, Cites, Dumped, Writable, EntryValue, SnippetAt, CitationsIn, CitationOf, Meaning;
    PayloadLoads(d, hits, n);
    var values, m := Values(d, hits, n), if n <= CITED then n else CITED;
    CitesIn(py, Dumped(d, hits, n), values);
    forall i | 0 <= i < m ensures Cite(py, values[i]) == Some(CitationOf(py, hits[i], SnippetAt(d, hits, i))) {
      CiteEntry(py, hits[i], SnippetAt(d, hits, i));
    }
    CitesAll(py, FirstFive(values), CitationsOf(py, d, hits, m));
  }
}
