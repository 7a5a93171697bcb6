/** Reciprocal rank fusion (ragsvc/index/fuse.py), over exact rationals. */
module Fuse {
  import opened Codes
  import opened Sorting

  type Id = Text

  datatype RankedList = RankedList(source: Text, ids: seq<Id>)

  datatype Fused = Fused(id: Id, score: real, ranks: map<Text, nat>)

  const RRF_K := 60
  const FUSE_KEEP := 30

  // --- the order of the result ----------------------------------------------------------------

  /** Python's order on strings: by code point. */
  predicate Less(a: Text, b: Text) {
    b != [] && (a == [] || a[0] < b[0] || (a[0] == b[0] && Less(a[1..], b[1..])))
  }

  lemma {:induction false} LessTotal(a: Text, b: Text)
    ensures Less(a, b) || Less(b, a) || a == b
  {
    if a != [] && b != [] && a[0] == b[0] {
      LessTotal(a[1..], b[1..]);
      assert a == [a[0]] + a[1..] && b == [b[0]] + b[1..];
    }
  }

  lemma {:induction false} LessOneWay(a: Text, b: Text)
    requires Less(a, b)
    ensures !Less(b, a) && a != b
  {
    if a != [] && a[0] == b[0] { LessOneWay(a[1..], b[1..]); }
  }

  lemma {:induction false} LessChain(a: Text, b: Text, c: Text)
    requires Less(a, b) && Less(b, c)
    ensures Less(a, c)
  {
    if a != [] && a[0] == b[0] == c[0] { LessChain(a[1..], b[1..], c[1..]); }
  }

  /** key=lambda f: (-f.score, f.id). */
  predicate Ahead(f: Fused, g: Fused) { f.score > g.score || (f.score == g.score && Less(f.id, g.id)) }

  lemma AheadChain(f: Fused, g: Fused, h: Fused)
    requires Ahead(f, g) && Ahead(g, h)
    ensures Ahead(f, h)
  {
    if f.score == g.score == h.score { LessChain(f.id, g.id, h.id); }
  }

  lemma AheadOneWay(f: Fused, g: Fused)
    requires Ahead(f, g)
    ensures !Ahead(g, f) && f != g
  {
    if f.score == g.score { LessOneWay(f.id, g.id); }
  }

  lemma AheadTotal(f: Fused, g: Fused)
    requires f.id != g.id
    ensures Ahead(f, g) || Ahead(g, f)
  {
    LessTotal(f.id, g.id);
  }

  // --- what a score is --------------------------------------------------------------------------

  function Share(k: nat, rank: nat): real
    requires rank > 0
  {
    1.0 / (k + rank) as real
  }

  /** The sum over the places where `id` stands. */
  function Part(ids: seq<Id>, k: nat, id: Id): real {
    if ids == [] then 0.0
    else Part(ids[..|ids| - 1], k, id) + (if ids[|ids| - 1] == id then Share(k, |ids|) else 0.0)
  }

  function Score(lists: seq<RankedList>, k: nat, id: Id): real {
    if lists == [] then 0.0 else Score(lists[..|lists| - 1], k, id) + Part(lists[|lists| - 1].ids, k, id)
  }

  /** The last place of `id`, counted from one; 0 when it has none. */
  function RankIn(ids: seq<Id>, id: Id): (rank: nat)
    ensures rank <= |ids| && (id in ids <==> rank > 0)
  {
    if ids == [] then 0 else if ids[|ids| - 1] == id then |ids| else RankIn(ids[..|ids| - 1], id)
  }

  function Ranks(lists: seq<RankedList>, id: Id): map<Text, nat> {
    if lists == [] then map[]
    else
      var last := lists[|lists| - 1];
      var ranks := Ranks(lists[..|lists| - 1], id);
      if id in last.ids then ranks[last.source := RankIn(last.ids, id)] else ranks
  }

  predicate Found(lists: seq<RankedList>, id: Id) { exists i :: 0 <= i < |lists| && id in lists[i].ids }

  // --- the two loops --------------------------------------------------------------------------------

  function ScoreOf(acc: map<Id, Fused>, id: Id): real { if id in acc then acc[id].score else 0.0 }

  function RanksOf(acc: map<Id, Fused>, id: Id): map<Text, nat> { if id in acc then acc[id].ranks else map[] }

  function Bump(acc: map<Id, Fused>, source: Text, id: Id, rank: nat, k: nat): map<Id, Fused>
    requires rank > 0
  {
    acc[id := Fused(id, ScoreOf(acc, id) + Share(k, rank), RanksOf(acc, id)[source := rank])]
  }

  function AddList(acc: map<Id, Fused>, source: Text, ids: seq<Id>, k: nat): map<Id, Fused> {
    if ids == [] then acc
    else Bump(AddList(acc, source, ids[..|ids| - 1], k), source, ids[|ids| - 1], |ids|, k)
  }

  function AddAll(lists: seq<RankedList>, k: nat): map<Id, Fused> {
    if lists == [] then map[]
    else AddList(AddAll(lists[..|lists| - 1], k), lists[|lists| - 1].source, lists[|lists| - 1].ids, k)
  }

  method Collect(lists: seq<RankedList>, k: nat) returns (scores: map<Id, Fused>)
    ensures scores == AddAll(lists, k)
  {
    scores := map[];
    for i := 0 to |lists|
      invariant scores == AddAll(lists[..i], k)
    {
      ghost var before := scores;
      var source, ids := lists[i].source, lists[i].ids;
      for position := 0 to |ids|
        invariant scores == AddList(before, source, ids[..position], k)
      {
        var rank := position + 1;
        var id := ids[position];
        assert ids[..position + 1][..position] == ids[..position];
        scores := scores[id := Fused(id, ScoreOf(scores, id) + Share(k, rank), RanksOf(scores, id)[source := rank])];
      }
      assert ids[..|ids|] == ids;
      assert lists[..i + 1][..i] == lists[..i];
    }
    assert lists[..|lists|] == lists;
  }

  lemma {:induction false} AddListAt(acc: map<Id, Fused>, source: Text, ids: seq<Id>, k: nat, id: Id)
    requires forall x :: x in acc ==> acc[x].id == x
    ensures var after := AddList(acc, source, ids, k);
      && (id in after <==> id in acc || id in ids)
      && (forall x :: x in after ==> after[x].id == x)
      && ScoreOf(after, id) == ScoreOf(acc, id) + Part(ids, k, id)
      && RanksOf(after, id) == if id in ids then RanksOf(acc, id)[source := RankIn(ids, id)] else RanksOf(acc, id)
  {
    if ids != [] {
      var init := ids[..|ids| - 1];
      AddListAt(acc, source, init, k, id);
      assert ids == init + [ids[|ids| - 1]];
    }
  }

  /** Every id found anywhere is there once, with the exact sum of its shares and
      its rank in every list that has it. */
  lemma {:induction false} AddAllAt(lists: seq<RankedList>, k: nat, id: Id)
    ensures var all := AddAll(lists, k);
      && (id in all <==> Found(lists, id))
      && (forall x :: x in all ==> all[x].id == x)
      && (id in all ==> all[id] == Fused(id, Score(lists, k, id), Ranks(lists, id)))
    ensures ScoreOf(AddAll(lists, k), id) == Score(lists, k, id) && RanksOf(AddAll(lists, k), id) == Ranks(lists, id)
  {
    if lists != [] {
      var init, last := lists[..|lists| - 1], lists[|lists| - 1];
      AddAllAt(init, k, id);
      AddListAt(AddAll(init, k), last.source, last.ids, k, id);
      FoundSnoc(init, last, id);
      assert lists == init + [last];
    }
  }

  lemma FoundSnoc(init: seq<RankedList>, last: RankedList, id: Id)
    ensures Found(init + [last], id) <==> Found(init, id) || id in last.ids
  {
    if Found(init, id) {
      var i :| 0 <= i < |init| && id in init[i].ids;
      assert (init + [last])[i] == init[i];
    }
    if id in last.ids { assert (init + [last])[|init|] == last; }
  }

  // --- ranking -----------------------------------------------------------------------------------------

  /** All of the map's values, best first. */
  ghost predicate IsRanking(s: seq<Fused>, acc: map<Id, Fused>) {
    && (forall i, j :: 0 <= i < j < |s| ==> Ahead(s[i], s[j]))
    && (forall f :: f in s ==> f.id in acc && acc[f.id] == f)
    && (forall id :: id in acc ==> acc[id] in s)
  }

  lemma AheadChains()
    ensures Chains(Ahead)
  {
    forall f, g, h | Ahead(f, g) && Ahead(g, h) ensures Ahead(f, h) { AheadChain(f, g, h); }
  }

  /** sorted(scores.values(), ...). */
  method Sorted(acc: map<Id, Fused>) returns (s: seq<Fused>)
    requires forall x :: x in acc ==> acc[x].id == x
    ensures IsRanking(s, acc)
  {
    AheadChains();
    s := [];
    var rest := acc.Keys;
    while rest != {}
      invariant rest <= acc.Keys
      invariant InOrder(s, Ahead)
      invariant forall f :: f in s ==> f.id in acc && f.id !in rest && acc[f.id] == f
      invariant forall id :: id in acc && id !in rest ==> acc[id] in s
      decreases |rest|
    {
      var id :| id in rest;
      forall f | f in s ensures Ahead(acc[id], f) || Ahead(f, acc[id]) { AheadTotal(acc[id], f); }
      InsertKeeps(acc[id], s, Ahead);
      s := Insert(acc[id], s, Ahead);
      rest := rest - {id};
    }
  }

  /** There is only one. */
  lemma {:induction false} OneRanking(s: seq<Fused>, t: seq<Fused>)
    requires forall i, j :: 0 <= i < j < |s| ==> Ahead(s[i], s[j])
    requires forall i, j :: 0 <= i < j < |t| ==> Ahead(t[i], t[j])
    requires forall f :: f in s <==> f in t
    ensures s == t
    decreases |s|
  {
    HasSome(s);
    HasSome(t);
    if s != [] && t != [] {
      FirstOf(s, t);
      RestOf(s, t);
      OneRanking(s[1..], t[1..]);
      assert s == [s[0]] + s[1..] && t == [t[0]] + t[1..];
    }
  }

  lemma HasSome(s: seq<Fused>)
    ensures s == [] || exists f :: f in s
  {
    if s != [] { assert s[0] in s; }
  }

  lemma FirstOf(s: seq<Fused>, t: seq<Fused>)
    requires s != [] && t != []
    requires forall i, j :: 0 <= i < j < |s| ==> Ahead(s[i], s[j])
    requires forall i, j :: 0 <= i < j < |t| ==> Ahead(t[i], t[j])
    requires s[0] in t && t[0] in s
    ensures s[0] == t[0]
  {
    var i :| 0 <= i < |t| && t[i] == s[0];
    var j :| 0 <= j < |s| && s[j] == t[0];
    if i > 0 && j > 0 {
      assert Ahead(t[0], t[i]) && Ahead(s[0], s[j]);
      AheadOneWay(t[0], t[i]);
    }
  }

  lemma RestOf(s: seq<Fused>, t: seq<Fused>)
    requires s != [] && t != [] && s[0] == t[0]
    requires forall i, j :: 0 <= i < j < |s| ==> Ahead(s[i], s[j])
    requires forall i, j :: 0 <= i < j < |t| ==> Ahead(t[i], t[j])
    requires forall f :: f in s <==> f in t
    ensures forall f :: f in s[1..] <==> f in t[1..]
  {
    NotFirst(s);
    NotFirst(t);
    assert forall f :: f in s <==> f == s[0] || f in s[1..];
    assert forall f :: f in t <==> f == t[0] || f in t[1..];
  }

  lemma NotFirst(s: seq<Fused>)
    requires s != [] && forall i, j :: 0 <= i < j < |s| ==> Ahead(s[i], s[j])
    ensures s[0] !in s[1..]
  {
    if s[0] in s[1..] {
      var i :| 0 <= i < |s[1..]| && s[1..][i] == s[0];
      assert Ahead(s[0], s[i + 1]);
      AheadOneWay(s[0], s[i + 1]);
    }
  }

  /** `limit or FUSE_KEEP`. */
  function Keep(limit: nat): nat { if limit == 0 then FUSE_KEEP else limit }

  /** reciprocal_rank_fusion. */
  method ReciprocalRankFusion(lists: seq<RankedList>, k: nat, limit: nat) returns (fused: seq<Fused>)
    ensures IsTop(fused, AddAll(lists, k), if limit == 0 then 30 else limit)
  {
    var keep := Keep(limit);
    var scores := Collect(lists, k);
    AddAllAt(lists, k, []);
    var ranked := Sorted(scores);
    fused := if |ranked| <= keep then ranked else ranked[..keep];
    assert ranked[..|ranked|] == ranked;
  }

  ghost predicate IsTop(fused: seq<Fused>, acc: map<Id, Fused>, limit: nat) {
    exists ranked ::
      IsRanking(ranked, acc) && fused == ranked[..if |ranked| <= limit then |ranked| else limit]
  }

  /** What the result is: in strict order, each entry with its exact score and
      ranks, no more than the limit, short of it only when nothing is left out, and
      everything left out is behind everything kept. */
  lemma TopMeans(fused: seq<Fused>, lists: seq<RankedList>, k: nat, limit: nat)
    requires IsTop(fused, AddAll(lists, k), limit)
    ensures |fused| <= limit
    ensures forall i, j :: 0 <= i < j < |fused| ==> Ahead(fused[i], fused[j])
    ensures forall f :: f in fused ==> Found(lists, f.id) && f == Fused(f.id, Score(lists, k, f.id), Ranks(lists, f.id))
    ensures forall id :: Found(lists, id) ==>
      var g := Fused(id, Score(lists, k, id), Ranks(lists, id));
      g in fused || (|fused| == limit && forall f :: f in fused ==> Ahead(f, g))
  {
    var acc := AddAll(lists, k);
    var ranked :| IsRanking(ranked, acc) && fused == ranked[..if |ranked| <= limit then |ranked| else limit];
    forall f | f in fused ensures Found(lists, f.id) && f == Fused(f.id, Score(lists, k, f.id), Ranks(lists, f.id)) {
      AddAllAt(lists, k, f.id);
      assert f in ranked;
    }
    forall id | Found(lists, id)
      ensures var g := Fused(id, Score(lists, k, id), Ranks(lists, id));
        g in fused || (|fused| == limit && forall f :: f in fused ==> Ahead(f, g))
    {
      AddAllAt(lists, k, id);
      Behind(ranked, |fused|, acc[id]);
    }
  }

  lemma Behind(ranked: seq<Fused>, n: nat, g: Fused)
    requires n <= |ranked| && g in ranked && forall i, j :: 0 <= i < j < |ranked| ==> Ahead(ranked[i], ranked[j])
    ensures g in ranked[..n] || forall f :: f in ranked[..n] ==> Ahead(f, g)
    ensures n == |ranked| ==> g in ranked[..n]
  {
    var j :| 0 <= j < |ranked| && ranked[j] == g;
    if j < n {
      assert ranked[..n][j] == g;
    } else {
      forall f | f in ranked[..n] ensures Ahead(f, g) {
        var i :| 0 <= i < |ranked[..n]| && ranked[..n][i] == f;
        assert Ahead(ranked[i], ranked[j]);
      }
    }
  }

  // --- the order of the sources does not matter -------------------------------------------------------

  ghost predicate DistinctSources(lists: seq<RankedList>) {
    forall i, j :: 0 <= i < j < |lists| ==> lists[i].source != lists[j].source
  }

  lemma {:induction false} ScoreWithout(lists: seq<RankedList>, i: nat, k: nat, id: Id)
    requires i < |lists|
    ensures Score(lists, k, id) == Score(lists[..i] + lists[i + 1..], k, id) + Part(lists[i].ids, k, id)
    decreases |lists|
  {
    var l := |lists| - 1;
    if i == l {
      assert lists[..i] + lists[i + 1..] == lists[..l];
    } else {
      var rest := lists[..i] + lists[i + 1..];
      ScoreWithout(lists[..l], i, k, id);
      assert rest[..|rest| - 1] == lists[..l][..i] + lists[..l][i + 1..];
      assert rest[|rest| - 1] == lists[l];
    }
  }

  lemma {:induction false} SameScore(a: seq<RankedList>, b: seq<RankedList>, k: nat, id: Id)
    requires multiset(a) == multiset(b)
    ensures Score(a, k, id) == Score(b, k, id)
    decreases |a|
  {
    if a == [] {
      assert |b| == |multiset(b)| == |multiset(a)| == 0;
    } else {
      var l := |a| - 1;
      assert a[l] in multiset(a);
      assert a[l] in b;
      var i :| 0 <= i < |b| && b[i] == a[l];
      var rest := b[..i] + b[i + 1..];
      assert a == a[..l] + [a[l]];
      assert b == b[..i] + [b[i]] + b[i + 1..];
      assert multiset(a) == multiset(a[..l]) + multiset{a[l]};
      assert multiset(b) == multiset(b[..i]) + multiset{b[i]} + multiset(b[i + 1..]);
      assert multiset(rest) == multiset(b[..i]) + multiset(b[i + 1..]);
      assert multiset(rest) + multiset{a[l]} == multiset(b);
      Cancel(multiset(a[..l]), multiset(rest), a[l]);
      SameScore(a[..l], rest, k, id);
      ScoreWithout(b, i, k, id);
    }
  }

  lemma Cancel(p: multiset<RankedList>, q: multiset<RankedList>, e: RankedList)
    requires p + multiset{e} == q + multiset{e}
    ensures p == q
  {
    assert p == (p + multiset{e}) - multiset{e};
    assert q == (q + multiset{e}) - multiset{e};
  }

  /** Ranks, said without an order. */
  lemma {:induction false} RanksAre(lists: seq<RankedList>, id: Id)
    requires DistinctSources(lists)
    ensures forall l :: l in lists && id in l.ids ==>
      l.source in Ranks(lists, id) && Ranks(lists, id)[l.source] == RankIn(l.ids, id)
    ensures forall s :: s in Ranks(lists, id) ==> exists l :: l in lists && id in l.ids && l.source == s
  {
    if lists != [] {
      var init, last := lists[..|lists| - 1], lists[|lists| - 1];
      RanksAre(init, id);
      assert lists == init + [last];
      forall l | l in init ensures l.source != last.source {
        var i :| 0 <= i < |init| && init[i] == l;
        assert lists[i].source != lists[|lists| - 1].source;
      }
      forall s | s in Ranks(lists, id) ensures exists l :: l in lists && id in l.ids && l.source == s {
        if s in Ranks(init, id) {
          var l :| l in init && id in l.ids && l.source == s;
          assert l in lists;
        } else {
          assert last in lists && last.source == s;
        }
      }
    }
  }

  lemma SameRanks(a: seq<RankedList>, b: seq<RankedList>, id: Id)
    requires multiset(a) == multiset(b) && DistinctSources(a) && DistinctSources(b)
    ensures Ranks(a, id) == Ranks(b, id)
  {
    RanksAre(a, id);
    RanksAre(b, id);
    assert forall l :: l in a <==> l in multiset(a);
    assert forall l :: l in b <==> l in multiset(b);
    forall s | s in Ranks(a, id) ensures s in Ranks(b, id) && Ranks(b, id)[s] == Ranks(a, id)[s] {
      var l :| l in a && id in l.ids && l.source == s;
    }
    forall s | s in Ranks(b, id) ensures s in Ranks(a, id) {
      var l :| l in b && id in l.ids && l.source == s;
    }
  }

  lemma SameAll(a: seq<RankedList>, b: seq<RankedList>, k: nat)
    requires multiset(a) == multiset(b) && DistinctSources(a) && DistinctSources(b)
    ensures AddAll(a, k) == AddAll(b, k)
  {
    hide AddAll;
    forall id ensures (id in AddAll(a, k) <==> id in AddAll(b, k))
      && (id in AddAll(a, k) ==> AddAll(a, k)[id] == AddAll(b, k)[id]) {
      SameAt(a, b, k, id);
    }
  }

  lemma SameAt(a: seq<RankedList>, b: seq<RankedList>, k: nat, id: Id)
    requires multiset(a) == multiset(b) && DistinctSources(a) && DistinctSources(b)
    ensures (id in AddAll(a, k) <==> id in AddAll(b, k))
      && (id in AddAll(a, k) ==> AddAll(a, k)[id] == AddAll(b, k)[id])
  {
    hide AddAll, Score, Ranks, Found;
    AddAllAt(a, k, id);
    AddAllAt(b, k, id);
    SameScore(a, b, k, id);
    SameRanks(a, b, id);
    if Found(a, id) { SameFound(a, b, id); }
    if Found(b, id) { SameFound(b, a, id); }
  }

  lemma SameFound(a: seq<RankedList>, b: seq<RankedList>, id: Id)
    requires multiset(a) == multiset(b) && Found(a, id)
    ensures Found(b, id)
  {
    var i :| 0 <= i < |a| && id in a[i].ids;
    assert a[i] in multiset(b);
    var j :| 0 <= j < |b| && b[j] == a[i];
  }

  /** The same lists in any order fuse to the same result. */
  lemma OrderBlind(a: seq<RankedList>, b: seq<RankedList>, k: nat, limit: nat, x: seq<Fused>, y: seq<Fused>)
    requires multiset(a) == multiset(b) && DistinctSources(a) && DistinctSources(b)
    requires IsTop(x, AddAll(a, k), limit) && IsTop(y, AddAll(b, k), limit)
    ensures x == y
  {
    SameAll(a, b, k);
    var acc := AddAll(a, k);
    var s :| IsRanking(s, acc) && x == s[..if |s| <= limit then |s| else limit];
    var t :| IsRanking(t, acc) && y == t[..if |t| <= limit then |t| else limit];
    forall f: Fused ensures f in s <==> f in t {
      if f in s { assert acc[f.id] in t; }
      if f in t { assert acc[f.id] in s; }
    }
    OneRanking(s, t);
  }

  // --- found by both beats found by one ----------------------------------------------------------------

  ghost predicate NoRepeats(ids: seq<Id>) { forall i, j :: 0 <= i < j < |ids| ==> ids[i] != ids[j] }

  lemma {:induction false} PartOnce(ids: seq<Id>, k: nat, id: Id)
    requires NoRepeats(ids)
    ensures Part(ids, k, id) == if id in ids then Share(k, RankIn(ids, id)) else 0.0
  {
    if ids != [] {
      var init := ids[..|ids| - 1];
      PartOnce(init, k, id);
      assert ids == init + [ids[|ids| - 1]];
      forall i | 0 <= i < |init| ensures init[i] != ids[|ids| - 1] { assert ids[i] != ids[|ids| - 1]; }
    }
  }

  lemma ShareFalls(k: nat, r: nat, s: nat)
    requires 0 < r <= s
    ensures Share(k, r) >= Share(k, s) > 0.0
  {
    ReciprocalFalls((k + r) as real, (k + s) as real);
  }

  lemma ReciprocalFalls(a: real, b: real)
    requires 0.0 < a <= b
    ensures 1.0 / a >= 1.0 / b > 0.0
  {
    var x, y := 1.0 / a, 1.0 / b;
    assert x * a == 1.0 && y * b == 1.0;
    Scaled(a, b, y);
    Scaled2(x, y, a);
  }

  lemma Scaled(a: real, b: real, y: real)
    requires a <= b && y * b == 1.0 && 0.0 < b
    ensures y > 0.0 && y * a <= 1.0
  {
    assert y > 0.0;
    assert y * a <= y * b;
  }

  lemma Scaled2(x: real, y: real, a: real)
    requires 0.0 < a && x * a == 1.0 && y * a <= 1.0
    ensures y <= x
  {
    assert (x - y) * a >= 0.0;
  }

  /** Twice the least share of a list of k+1 is more than any one share. */
  lemma TwoSharesWin(k: nat)
    ensures Share(k, k + 1) + Share(k, k + 1) > Share(k, 1)
  {
    var n := (2 * k + 1) as real;
    var m := (k + 1) as real;
    assert Share(k, k + 1) == 1.0 / n && Share(k, 1) == 1.0 / m;
    assert 2.0 * m > n;
    Reciprocals(n, m);
  }

  lemma Reciprocals(n: real, m: real)
    requires 0.0 < n < 2.0 * m
    ensures 1.0 / n + 1.0 / n > 1.0 / m
  {
    assert 1.0 / n > 1.0 / (2.0 * m);
    assert 1.0 / (2.0 * m) + 1.0 / (2.0 * m) == 1.0 / m;
  }

  lemma ScoreOfTwo(a: RankedList, b: RankedList, k: nat, id: Id)
    ensures Score([a, b], k, id) == Part(a.ids, k, id) + Part(b.ids, k, id)
  {
    assert [a, b][..1] == [a] && [a][..0] == [];
    assert Score([a], k, id) == Score([], k, id) + Part(a.ids, k, id);
  }

  /** For two lists without repeats, neither longer than k+1, every id that both
      found is strictly ahead of every id that only one found. */
  lemma BothBeatOne(a: RankedList, b: RankedList, k: nat, x: Id, y: Id)
    requires NoRepeats(a.ids) && NoRepeats(b.ids) && |a.ids| <= k + 1 && |b.ids| <= k + 1
    requires x in a.ids && x in b.ids && !(y in a.ids && y in b.ids)
    ensures Score([a, b], k, x) > Score([a, b], k, y)
    ensures Ahead(Fused(x, Score([a, b], k, x), Ranks([a, b], x)), Fused(y, Score([a, b], k, y), Ranks([a, b], y)))
  {
    ScoreOfTwo(a, b, k, x);
    ScoreOfTwo(a, b, k, y);
    PartOnce(a.ids, k, x);
    PartOnce(b.ids, k, x);
    PartOnce(a.ids, k, y);
    PartOnce(b.ids, k, y);
    ShareFalls(k, RankIn(a.ids, x), k + 1);
    ShareFalls(k, RankIn(b.ids, x), k + 1);
    TwoSharesWin(k);
    ShareFalls(k, 1, if y in a.ids then RankIn(a.ids, y) else if y in b.ids then RankIn(b.ids, y) else 1);
  }

  /** The entry of `id` in what these lists fuse to. */
  function Entry(lists: seq<RankedList>, k: nat, id: Id): Fused {
    Fused(id, Score(lists, k, id), Ranks(lists, id))
  }

  /** In two lists without repeats, neither longer than `n`, whatever both found is
      ahead of whatever only one found. */
  ghost predicate BothFirst(k: nat, n: nat) {
    forall a: RankedList, b: RankedList, x: Id, y: Id ::
      NoRepeats(a.ids) && NoRepeats(b.ids) && |a.ids| <= n && |b.ids| <= n
      && x in a.ids && x in b.ids && !(y in a.ids && y in b.ids)
      ==> Ahead(Entry([a, b], k, x), Entry([a, b], k, y))
  }

  /** Two lists of k+2 ids, the last of which is the same: it ties with the first
      of either. */
  function Tied(k: nat, first: bool): RankedList {
    if first then RankedList(Lit("dense"), seq(k + 2, i requires 0 <= i < k + 2 => [i]))
    else RankedList(Lit("sparse"), seq(k + 2, i requires 0 <= i < k + 2 => if i == k + 1 then [i] else [k + 2 + i]))
  }

  lemma TiedRanks(k: nat)
    ensures var a, b := Tied(k, true), Tied(k, false);
      && NoRepeats(a.ids) && NoRepeats(b.ids) && |a.ids| == |b.ids| == k + 2
      && [k + 1] in a.ids && [k + 1] in b.ids && RankIn(a.ids, [k + 1]) == RankIn(b.ids, [k + 1]) == k + 2
      && [0] in a.ids && [0] !in b.ids && RankIn(a.ids, [0]) == 1
  {
    hide RankIn;
    var a, b := Tied(k, true), Tied(k, false);
    assert a.ids[k + 1] == [k + 1] && b.ids[k + 1] == [k + 1] && a.ids[0] == [0];
    assert NoRepeats(a.ids) && NoRepeats(b.ids) by {
      forall i, j | 0 <= i < j < k + 2 ensures a.ids[i] != a.ids[j] && b.ids[i] != b.ids[j] {
        assert a.ids[i][0] != a.ids[j][0] && b.ids[i][0] != b.ids[j][0];
      }
    }
    forall i | 0 <= i < k + 2 ensures b.ids[i] != [0] { assert b.ids[i][0] > 0; }
    RankOnce(a.ids, k + 1);
    RankOnce(b.ids, k + 1);
    RankOnce(a.ids, 0);
  }

  /** One place further the bound fails: last in both ties with first in one, and
      then the smaller id goes first. */
  lemma TieBeyond(k: nat)
    ensures var a, b := Tied(k, true), Tied(k, false);
      && NoRepeats(a.ids) && NoRepeats(b.ids) && |a.ids| == |b.ids| == k + 2
      && [k + 1] in a.ids && [k + 1] in b.ids && [0] in a.ids && [0] !in b.ids
      && Score([a, b], k, [k + 1]) == Score([a, b], k, [0])
      && Ahead(Entry([a, b], k, [0]), Entry([a, b], k, [k + 1]))
  {
    hide Tied, NoRepeats, RankIn, Score, Part, Ranks;
    var a, b := Tied(k, true), Tied(k, false);
    var x, y: Id := [k + 1], [0];
    TiedRanks(k);
    ScoreOfTwo(a, b, k, x);
    ScoreOfTwo(a, b, k, y);
    PartOnce(a.ids, k, x);
    PartOnce(b.ids, k, x);
    PartOnce(a.ids, k, y);
    PartOnce(b.ids, k, y);
    assert Share(k, k + 2) == 1.0 / (2.0 * (k + 1) as real);
  }

  lemma {:induction false} RankOnce(ids: seq<Id>, i: nat)
    requires NoRepeats(ids) && i < |ids|
    ensures RankIn(ids, ids[i]) == i + 1
  {
    if i < |ids| - 1 {
      var init := ids[..|ids| - 1];
      assert ids[i] != ids[|ids| - 1] && init[i] == ids[i];
      RankOnce(init, i);
    }
  }

  /** So k+1 is exactly how long two lists may be. */
  lemma BothFirstExactly(k: nat, n: nat)
    ensures BothFirst(k, n) <==> n <= k + 1
  {
    if n <= k + 1 {
      forall a: RankedList, b: RankedList, x: Id, y: Id |
        NoRepeats(a.ids) && NoRepeats(b.ids) && |a.ids| <= n && |b.ids| <= n && x in a.ids && x in b.ids
          && !(y in a.ids && y in b.ids)
        ensures Ahead(Entry([a, b], k, x), Entry([a, b], k, y))
      {
        BothBeatOne(a, b, k, x, y);
      }
    } else {
      TieBeyond(k);
      var a, b := Tied(k, true), Tied(k, false);
      AheadOneWay(Entry([a, b], k, [0]), Entry([a, b], k, [k + 1]));
    }
  }

  // --- uneven ranks against even ones ------------------------------------------------------------------

  /** By how much ranks a and b beat rank c twice, up to a positive factor. */
  function Margin(k: nat, a: nat, b: nat, c: nat): int { k * (2 * c - a - b) + (a + b) * c - 2 * a * b }

  /** Ranks a and b score more than rank c twice, the same or less, as the margin is
      positive, zero or negative. */
  lemma SharesCompare(k: nat, a: nat, b: nat, c: nat)
    requires a > 0 && b > 0 && c > 0
    ensures Share(k, a) + Share(k, b) > Share(k, c) + Share(k, c) <==> Margin(k, a, b, c) > 0
    ensures Share(k, a) + Share(k, b) == Share(k, c) + Share(k, c) <==> Margin(k, a, b, c) == 0
  {
  }

  /** Of two ids that both lists found, one at the same place in each: the other is
      ahead if and only if its margin is positive, or zero and its id smaller. */
  lemma UnevenAhead(a: RankedList, b: RankedList, k: nat, x: Id, y: Id)
    requires NoRepeats(a.ids) && NoRepeats(b.ids)
    requires x in a.ids && x in b.ids && y in a.ids && y in b.ids && RankIn(a.ids, y) == RankIn(b.ids, y)
    ensures var margin := Margin(k, RankIn(a.ids, x), RankIn(b.ids, x), RankIn(a.ids, y));
      Ahead(Entry([a, b], k, x), Entry([a, b], k, y)) <==> margin > 0 || (margin == 0 && Less(x, y))
  {
    ScoreOfTwo(a, b, k, x);
    ScoreOfTwo(a, b, k, y);
    PartOnce(a.ids, k, x);
    PartOnce(b.ids, k, x);
    PartOnce(a.ids, k, y);
    PartOnce(b.ids, k, y);
    SharesCompare(k, RankIn(a.ids, x), RankIn(b.ids, x), RankIn(a.ids, y));
  }

  /** First in one list and 25th in the other, against eighth in both. */
  ghost predicate Exemplified(a: RankedList, b: RankedList, x: Id, y: Id) {
    && NoRepeats(a.ids) && NoRepeats(b.ids)
    && x in a.ids && x in b.ids && RankIn(a.ids, x) == 1 && RankIn(b.ids, x) == 25
    && y in a.ids && y in b.ids && RankIn(a.ids, y) == 8 && RankIn(b.ids, y) == 8
  }

  /** The example given for k = 60 is so exactly for k up to 15. */
  lemma ExampleExactly(a: RankedList, b: RankedList, k: nat, x: Id, y: Id)
    requires Exemplified(a, b, x, y)
    ensures Ahead(Entry([a, b], k, x), Entry([a, b], k, y)) <==> k <= 15
    ensures Ahead(Entry([a, b], k, y), Entry([a, b], k, x)) <==> k > 15
  {
    UnevenAhead(a, b, k, x, y);
    assert Margin(k, 1, 25, 8) == 158 - 10 * k;
    LessTotal(x, y);
    if Ahead(Entry([a, b], k, x), Entry([a, b], k, y)) { AheadOneWay(Entry([a, b], k, x), Entry([a, b], k, y)); }
    AheadTotal(Entry([a, b], k, x), Entry([a, b], k, y));
  }

  /** Twenty-five ids in a row, and the same with the first at the end, the eighth
      where it was, and the rest unknown to the other. */
  function Example(first: bool): RankedList {
    if first then RankedList(Lit("dense"), seq(25, i requires 0 <= i < 25 => [i]))
    else RankedList(Lit("sparse"),
      seq(25, i requires 0 <= i < 25 => if i == 24 then [0] else if i == 7 then [7] else [100 + i]))
  }

  lemma Examples()
    ensures Exemplified(Example(true), Example(false), [0], [7])
  {
    var a, b := Example(true), Example(false);
    assert a.ids[0] == [0] && a.ids[7] == [7] && b.ids[24] == [0] && b.ids[7] == [7];
    assert NoRepeats(a.ids);
    assert NoRepeats(b.ids);
    RankOnce(a.ids, 0);
    RankOnce(a.ids, 7);
    RankOnce(b.ids, 24);
    RankOnce(b.ids, 7);
  }

  /** With the k and the limit the program uses, those two lists come out with the
      eighth first, and the one the example promises to be first after it. */
  lemma ExampleFails(fused: seq<Fused>)
    requires IsTop(fused, AddAll([Example(true), Example(false)], RRF_K), FUSE_KEEP)
    ensures |fused| >= 2 && fused[0].id == [7] && fused[1].id == [0]
  {
    var a, b := Example(true), Example(false);
    var lists := [a, b];
    Examples();
    ExampleExactly(a, b, RRF_K, [0], [7]);
    forall id | Found(lists, id) && id != [0]
      && id != [7] ensures Ahead(Entry(lists, RRF_K, [0]), Entry(lists, RRF_K, id)) {
      NoOthers(id);
      BothBeatOne(a, b, RRF_K, [0], id);
    }
    assert lists[0] == a;
    TopTwo(fused, lists, RRF_K, FUSE_KEEP, [7], [0]);
  }

  lemma NoOthers(id: Id)
    requires id != [0] && id != [7]
    ensures !(id in Example(true).ids && id in Example(false).ids)
  {
    var a, b := Example(true).ids, Example(false).ids;
    forall i, j | 0 <= i < 25 && 0 <= j < 25 && j != 24 && j != 7 ensures a[i] != b[j] {
      assert a[i][0] == i && b[j][0] == 100 + j;
    }
  }

  /** The two best of all are first and second. */
  lemma TopTwo(fused: seq<Fused>, lists: seq<RankedList>, k: nat, limit: nat, x: Id, y: Id)
    requires limit >= 2 && IsTop(fused, AddAll(lists, k), limit)
    requires Found(lists, x) && Found(lists, y) && Ahead(Entry(lists, k, x), Entry(lists, k, y))
    requires forall id :: Found(lists, id) && id != x && id != y ==> Ahead(Entry(lists, k, y), Entry(lists, k, id))
    ensures |fused| >= 2 && fused[0].id == x && fused[1].id == y
  {
    var f, g := Entry(lists, k, x), Entry(lists, k, y);
    TopMeans(fused, lists, k, limit);
    AheadOneWay(f, g);
    forall i | 0 <= i < |fused| ensures fused[i] == f || (fused[i] == g && !Ahead(g, f))
      || (!Ahead(fused[i], g) && !Ahead(fused[i], f)) {
      var e := fused[i];
      assert e in fused;
      assert e == Entry(lists, k, e.id);
      if e.id != x && e.id != y {
        AheadChain(f, g, e);
        AheadOneWay(f, e);
        AheadOneWay(g, e);
      }
    }
    SelfNever(f);
    SelfNever(g);
    assert fused != [] ==> fused[0] in fused && !Ahead(fused[0], f);
    assert f in fused;
    assert fused[0] == f;
    assert |fused| > 1 ==> fused[1] in fused && Ahead(fused[0], fused[1]) && !Ahead(fused[1], g);
    assert g in fused;
  }

  lemma SelfNever(f: Fused)
    ensures !Ahead(f, f)
  {
    if Ahead(f, f) { AheadOneWay(f, f); }
  }
}
