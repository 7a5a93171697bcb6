/** The one greedy loop that ragsvc/ingest uses twice, to group text blocks into
    pages (textdoc.py) and sentences into pieces (chunk.py): append while it fits,
    otherwise close the group and start another. */
module Packing {

  function Flatten<T>(groups: seq<seq<T>>): seq<T> {
    if groups == [] then [] else groups[0] + Flatten(groups[1..])
  }

  lemma {:induction false} FlattenAppend<T>(a: seq<seq<T>>, b: seq<seq<T>>)
    ensures Flatten(a + b) == Flatten(a) + Flatten(b)
  {
    if a == [] {
      assert a + b == b;
    } else {
      assert (a + b)[1..] == a[1..] + b;
      FlattenAppend(a[1..], b);
    }
  }

  lemma FlattenOne<T>(g: seq<T>)
    ensures Flatten([g]) == g
  {
    assert [g][1..] == [];
    assert g + [] == g;
  }

  /** Where group `i` stands in the flat list. */
  lemma FlattenPart<T>(groups: seq<seq<T>>, i: nat)
    requires i < |groups|
    ensures var o := |Flatten(groups[..i])|;
      && o + |groups[i]| <= |Flatten(groups)|
      && Flatten(groups)[o..o + |groups[i]|] == groups[i]
      && |Flatten(groups[..i + 1])| == o + |groups[i]|
  {
    assert groups == groups[..i] + [groups[i]] + groups[i + 1..];
    assert groups[..i + 1] == groups[..i] + [groups[i]];
    FlattenAppend(groups[..i], [groups[i]]);
    FlattenAppend(groups[..i + 1], groups[i + 1..]);
    FlattenOne(groups[i]);
    assert (Flatten(groups[..i]) + groups[i])[|Flatten(groups[..i])|..] == groups[i];
  }

  function Total<T>(items: seq<T>, cost: T -> nat): nat {
    if items == [] then 0 else Total(items[..|items| - 1], cost) + cost(items[|items| - 1])
  }

  lemma TotalSnoc<T>(items: seq<T>, x: T, cost: T -> nat)
    ensures Total(items + [x], cost) == Total(items, cost) + cost(x)
  {
    assert (items + [x])[..|items|] == items;
  }

  lemma {:induction false} TotalAppend<T>(a: seq<T>, b: seq<T>, cost: T -> nat)
    ensures Total(a + b, cost) == Total(a, cost) + Total(b, cost)
    decreases |b|
  {
    if b == [] {
      assert a + b == a;
    } else {
      var init := b[..|b| - 1];
      assert (a + b)[..|a + b| - 1] == a + init;
      TotalAppend(a, init, cost);
    }
  }

  /** A group the loop may build: within the limit, or one item by itself. */
  predicate Fits<T>(g: seq<T>, cost: T -> nat, limit: int) {
    |g| == 1 || (g != [] && Total(g, cost) <= limit)
  }

  ghost predicate IsSplit<T>(groups: seq<seq<T>>, items: seq<T>, cost: T -> nat, limit: int) {
    Flatten(groups) == items && forall i :: 0 <= i < |groups| ==> Fits(groups[i], cost, limit)
  }

  /** How far a group that holds the first `k` items still grows. */
  function Reach<T>(items: seq<T>, k: nat, cost: T -> nat, limit: int): (r: nat)
    requires k <= |items|
    ensures k <= r <= |items|
    decreases |items| - k
  {
    if k < |items| && (k == 0 || Total(items[..k], cost) + cost(items[k]) <= limit)
      then Reach(items, k + 1, cost, limit)
    else k
  }

  /** What the loop computes: the longest group that fits, then the rest. */
  function Packed<T>(items: seq<T>, cost: T -> nat, limit: int): seq<seq<T>>
    decreases |items|
  {
    if items == [] then []
    else
      var k := Reach(items, 1, cost, limit);
      [items[..k]] + Packed(items[k..], cost, limit)
  }

  // --- it is a split ---------------------------------------------------------------------

  lemma {:induction false} ReachFits<T>(items: seq<T>, k: nat, cost: T -> nat, limit: int)
    requires 0 < k <= |items| && Fits(items[..k], cost, limit)
    ensures Fits(items[..Reach(items, k, cost, limit)], cost, limit)
    decreases |items| - k
  {
    if k < |items| && Total(items[..k], cost) + cost(items[k]) <= limit {
      assert items[..k + 1] == items[..k] + [items[k]];
      TotalSnoc(items[..k], items[k], cost);
      ReachFits(items, k + 1, cost, limit);
    }
  }

  /** Nothing is lost, repeated or reordered, and every group fits or stands alone. */
  lemma {:induction false} PackedSplits<T>(items: seq<T>, cost: T -> nat, limit: int)
    ensures IsSplit(Packed(items, cost, limit), items, cost, limit)
    decreases |items|
  {
    if items != [] {
      var k := Reach(items, 1, cost, limit);
      ReachFits(items, 1, cost, limit);
      PackedSplits(items[k..], cost, limit);
      assert items[..k] + items[k..] == items;
    }
  }

  // --- and the shortest one ------------------------------------------------------------------

  /** No longer prefix would have fitted. */
  lemma {:induction false} ReachFarthest<T>(items: seq<T>, k: nat, m: nat, cost: T -> nat, limit: int)
    requires 0 < k <= m <= |items| && Fits(items[..m], cost, limit)
    ensures m <= Reach(items, k, cost, limit)
    decreases m - k
  {
    if k < m {
      assert items[..m] == items[..k + 1] + items[k + 1..m];
      TotalAppend(items[..k + 1], items[k + 1..m], cost);
      assert items[..k + 1] == items[..k] + [items[k]];
      TotalSnoc(items[..k], items[k], cost);
      ReachFarthest(items, k + 1, m, cost, limit);
    }
  }

  /** Less to pack never takes more groups. */
  lemma {:induction false} FewerItems<T>(items: seq<T>, from: nat, cost: T -> nat, limit: int)
    requires from <= |items|
    ensures |Packed(items[from..], cost, limit)| <= |Packed(items, cost, limit)|
    decreases |items|
  {
    if from == 0 {
      assert items[0..] == items;
    } else {
      var k := Reach(items, 1, cost, limit);
      if k <= from {
        FewerItems(items[k..], from - k, cost, limit);
        assert items[k..][from - k..] == items[from..];
      } else {
        FromInside(items, from, k, cost, limit);
      }
    }
  }

  /** Starting inside the first group, the first new group reaches at least as far. */
  lemma FromInside<T>(items: seq<T>, from: nat, k: nat, cost: T -> nat, limit: int)
    requires 0 < from < k <= |items| && k == Reach(items, 1, cost, limit)
    ensures |Packed(items[from..], cost, limit)| <= |Packed(items, cost, limit)|
    decreases |items|, 0
  {
    var rest := items[from..];
    ReachFits(items, 1, cost, limit);
    assert items[..k] == items[..from] + items[from..k];
    TotalAppend(items[..from], items[from..k], cost);
    assert rest[..k - from] == items[from..k];
    ReachFarthest(rest, 1, k - from, cost, limit);
    var k' := Reach(rest, 1, cost, limit);
    FewerItems(items[k..], from + k' - k, cost, limit);
    assert items[k..][from + k' - k..] == rest[k'..];
  }

  /** The loop uses as few groups as any split into runs that fit. */
  lemma {:induction false} PackedFewest<T>(groups: seq<seq<T>>, items: seq<T>, cost: T -> nat, limit: int)
    requires IsSplit(groups, items, cost, limit)
    ensures |Packed(items, cost, limit)| <= |groups|
    decreases |groups|
  {
    if items != [] {
      FirstOfSplit(groups, items, cost, limit);
      hide Fits, IsSplit, Reach, Packed;
      var m, k := |groups[0]|, Reach(items, 1, cost, limit);
      ReachFarthest(items, 1, m, cost, limit);
      PackedFewest(groups[1..], items[m..], cost, limit);
      FewerItems(items[m..], k - m, cost, limit);
      assert items[m..][k - m..] == items[k..];
      PackedFirst(items, cost, limit);
    }
  }

  lemma FirstOfSplit<T>(groups: seq<seq<T>>, items: seq<T>, cost: T -> nat, limit: int)
    requires IsSplit(groups, items, cost, limit) && items != []
    ensures groups != [] && 0 < |groups[0]| <= |items| && items[..|groups[0]|] == groups[0]
        && Fits(groups[0], cost, limit)
    ensures IsSplit(groups[1..], items[|groups[0]|..], cost, limit)
  {
    var g := groups[0];
    assert Fits(groups[0], cost, limit);
    hide Fits;
    assert items[..|g|] == g && items[|g|..] == Flatten(groups[1..]);
  }

  lemma PackedFirst<T>(items: seq<T>, cost: T -> nat, limit: int)
    requires items != []
    ensures |Packed(items, cost, limit)| == 1 + |Packed(items[Reach(items, 1, cost, limit)..], cost, limit)|
  {
  }

  // --- what a loop needs to know -----------------------------------------------------------------

  /** A group in hand that fits is where the first group of the rest begins. */
  lemma {:induction false} ReachFrom<T>(items: seq<T>, k: nat, cost: T -> nat, limit: int)
    requires 0 < k <= |items| && Fits(items[..k], cost, limit)
    ensures Reach(items, 1, cost, limit) == Reach(items, k, cost, limit)
    decreases k
  {
    if k > 1 {
      assert items[..k] == items[..k - 1] + [items[k - 1]];
      TotalSnoc(items[..k - 1], items[k - 1], cost);
      ReachFrom(items, k - 1, cost, limit);
    }
  }

  /** One step of the loop that closes the group in hand. */
  lemma CloseGroup<T>(current: seq<T>, rest: seq<T>, cost: T -> nat, limit: int)
    requires Fits(current, cost, limit)
    requires rest == [] || Total(current, cost) + cost(rest[0]) > limit
    ensures Packed(current + rest, cost, limit) == [current] + Packed(rest, cost, limit)
  {
    var items := current + rest;
    assert items[..|current|] == current && items[|current|..] == rest;
    ReachFrom(items, |current|, cost, limit);
  }

  /** The loop's invariant: groups closed, one in hand, and the items to come. */
  ghost predicate Packs<T>(closed: seq<seq<T>>, current: seq<T>, rest: seq<T>, items: seq<T>, cost: T -> nat,
    limit: int) {
    && (current != [] ==> Fits(current, cost, limit))
    && closed + Packed(current + rest, cost, limit) == Packed(items, cost, limit)
  }

  lemma PacksStart<T>(items: seq<T>, cost: T -> nat, limit: int)
    ensures Packs([], [], items, items, cost, limit)
  {
    assert [] + items == items;
    assert [] + Packed(items, cost, limit) == Packed(items, cost, limit);
  }

  lemma PacksClose<T>(closed: seq<seq<T>>, current: seq<T>, rest: seq<T>, items: seq<T>, cost: T -> nat, limit: int)
    requires Packs(closed, current, rest, items, cost, limit)
    requires current != [] && (rest == [] || Total(current, cost) + cost(rest[0]) > limit)
    ensures Packs(closed + [current], [], rest, items, cost, limit)
  {
    hide Packed;
    CloseGroup(current, rest, cost, limit);
    assert [] + rest == rest;
    assert closed + ([current] + Packed(rest, cost, limit)) == (closed + [current]) + Packed(rest, cost, limit);
  }

  lemma PacksAppend<T>(closed: seq<seq<T>>, current: seq<T>, rest: seq<T>, items: seq<T>, cost: T -> nat, limit: int)
    requires Packs(closed, current, rest, items, cost, limit)
    requires rest != [] && (current == [] || Total(current, cost) + cost(rest[0]) <= limit)
    ensures Packs(closed, current + [rest[0]], rest[1..], items, cost, limit)
  {
    hide Packed;
    TotalSnoc(current, rest[0], cost);
    assert current + rest == (current + [rest[0]]) + rest[1..];
  }

  lemma PacksEnd<T>(closed: seq<seq<T>>, items: seq<T>, cost: T -> nat, limit: int)
    requires Packs(closed, [], [], items, cost, limit)
    ensures closed == Packed(items, cost, limit)
  {
    var none: seq<T> := [];
    assert none + none == none;
    assert closed + [] == closed;
  }
}
