/** Python's `sorted` as far as its callers here need it: the elements, each once,
    in a strict order. */
module Sorting {

  ghost predicate Chains<T(!new)>(ahead: (T, T) -> bool) {
    forall a, b, c :: ahead(a, b) && ahead(b, c) ==> ahead(a, c)
  }

  ghost predicate InOrder<T>(s: seq<T>, ahead: (T, T) -> bool) {
    forall i, j :: 0 <= i < j < |s| ==> ahead(s[i], s[j])
  }

  function Insert<T>(x: T, s: seq<T>, ahead: (T, T) -> bool): seq<T> {
    if s == [] || ahead(x, s[0]) then [x] + s else [s[0]] + Insert(x, s[1..], ahead)
  }

  lemma {:induction false} InsertKeeps<T(!new)>(x: T, s: seq<T>, ahead: (T, T) -> bool)
    requires Chains(ahead) && InOrder(s, ahead)
    requires forall y :: y in s ==> ahead(x, y) || ahead(y, x)
    ensures forall y :: y in Insert(x, s, ahead) <==> y == x || y in s
    ensures InOrder(Insert(x, s, ahead), ahead)
  {
    if s == [] {
    } else if ahead(x, s[0]) {
      forall i | 0 <= i < |s| ensures ahead(x, s[i]) {
        if i > 0 { assert ahead(s[0], s[i]); }
      }
    } else {
      assert ahead(s[0], x);
      InsertKeeps(x, s[1..], ahead);
      var rest := Insert(x, s[1..], ahead);
      forall j | 0 <= j < |rest| ensures ahead(s[0], rest[j]) {
        if rest[j] != x {
          assert rest[j] in s[1..];
          var n :| 0 <= n < |s[1..]| && s[1..][n] == rest[j];
          assert ahead(s[0], s[n + 1]);
        }
      }
    }
  }

  // --- with ties ------------------------------------------------------------------------------

  /** A key comparison: equal keys are ahead of nothing among themselves. */
  ghost predicate Weak<T(!new)>(ahead: (T, T) -> bool) {
    && (forall a, b :: ahead(a, b) ==> !ahead(b, a))
    && (forall a, b, c :: ahead(a, c) ==> ahead(a, b) || ahead(b, c))
  }

  ghost predicate Ascends<T>(s: seq<T>, ahead: (T, T) -> bool) {
    forall i, j :: 0 <= i < j < |s| ==> !ahead(s[j], s[i])
  }

  /** Insertion in order of appearance, behind equals: a stable sort. */
  function Sort<T>(s: seq<T>, ahead: (T, T) -> bool): seq<T> {
    if s == [] then [] else Insert(s[|s| - 1], Sort(s[..|s| - 1], ahead), ahead)
  }

  lemma {:induction false} InsertHolds<T>(x: T, s: seq<T>, ahead: (T, T) -> bool)
    ensures multiset(Insert(x, s, ahead)) == multiset(s) + multiset{x}
    ensures forall y :: y in Insert(x, s, ahead) ==> y == x || y in s
  {
    if s != [] && !ahead(x, s[0]) {
      InsertHolds(x, s[1..], ahead);
      assert s == [s[0]] + s[1..];
    }
  }

  lemma TailAscends<T>(s: seq<T>, ahead: (T, T) -> bool)
    requires s != [] && Ascends(s, ahead)
    ensures Ascends(s[1..], ahead) && forall y :: y in s[1..] ==> !ahead(y, s[0])
  {
    forall i, j | 0 <= i < j < |s[1..]| ensures !ahead(s[1..][j], s[1..][i]) { assert !ahead(s[j + 1], s[i + 1]); }
    forall y | y in s[1..] ensures !ahead(y, s[0]) {
      var n :| 0 <= n < |s[1..]| && s[1..][n] == y;
      assert !ahead(s[n + 1], s[0]);
    }
  }

  lemma AscendsCons<T>(first: T, rest: seq<T>, ahead: (T, T) -> bool)
    requires Ascends(rest, ahead) && forall y :: y in rest ==> !ahead(y, first)
    ensures Ascends([first] + rest, ahead)
  {
  }

  /** What is ahead of the first is behind nobody. */
  lemma AheadOfAll<T(!new)>(x: T, s: seq<T>, ahead: (T, T) -> bool)
    requires Weak(ahead) && s != [] && ahead(x, s[0]) && forall y :: y in s[1..] ==> !ahead(y, s[0])
    ensures forall y :: y in s ==> !ahead(y, x)
  {
    var first := s[0];
    forall y | y in s ensures !ahead(y, x) {
      assert y == first || y in s[1..];
      assert ahead(y, x) ==> ahead(y, first) || ahead(first, x);
    }
  }

  lemma {:induction false} InsertAscends<T(!new)>(x: T, s: seq<T>, ahead: (T, T) -> bool)
    requires Weak(ahead) && Ascends(s, ahead)
    ensures Ascends(Insert(x, s, ahead), ahead)
    ensures multiset(Insert(x, s, ahead)) == multiset(s) + multiset{x}
  {
    InsertHolds(x, s, ahead);
    if s != [] {
      hide Ascends, Weak;
      TailAscends(s, ahead);
      if ahead(x, s[0]) {
        AheadOfAll(x, s, ahead);
        AscendsCons(x, s, ahead);
      } else {
        InsertAscends(x, s[1..], ahead);
        InsertHolds(x, s[1..], ahead);
        AscendsCons(s[0], Insert(x, s[1..], ahead), ahead);
      }
    }
  }

  lemma {:induction false} SortAscends<T(!new)>(s: seq<T>, ahead: (T, T) -> bool)
    requires Weak(ahead)
    ensures Ascends(Sort(s, ahead), ahead) && multiset(Sort(s, ahead)) == multiset(s)
  {
    if s != [] {
      hide Insert, Weak, Ascends, Sort;
      SortSnoc(s, ahead);
      SortAscends(s[..|s| - 1], ahead);
      InsertAscends(s[|s| - 1], Sort(s[..|s| - 1], ahead), ahead);
    }
  }

  lemma SortSnoc<T>(s: seq<T>, ahead: (T, T) -> bool)
    requires s != []
    ensures Sort(s, ahead) == Insert(s[|s| - 1], Sort(s[..|s| - 1], ahead), ahead)
    ensures multiset(s) == multiset(s[..|s| - 1]) + multiset{s[|s| - 1]}
  {
    assert s == s[..|s| - 1] + [s[|s| - 1]];
  }

  // --- ties in the order they came ----------------------------------------------------------

  /** By `ahead`, and where that says nothing by `tie`. */
  function Then<T>(ahead: (T, T) -> bool, tie: (T, T) -> bool): (T, T) -> bool {
    (a: T, b: T) => ahead(a, b) || (!ahead(b, a) && tie(a, b))
  }

  lemma InitOrder<T>(s: seq<T>, rule: (T, T) -> bool)
    requires s != [] && InOrder(s, rule)
    ensures InOrder(s[..|s| - 1], rule)
  {
  }

  lemma TailOrder<T>(s: seq<T>, rule: (T, T) -> bool)
    requires s != [] && InOrder(s, rule)
    ensures InOrder(s[1..], rule) && forall y :: y in s[1..] ==> rule(s[0], y)
  {
    forall i, j | 0 <= i < j < |s[1..]| ensures rule(s[1..][i], s[1..][j]) { assert rule(s[i + 1], s[j + 1]); }
    forall y | y in s[1..] ensures rule(s[0], y) {
      var n :| 0 <= n < |s[1..]| && s[1..][n] == y;
      assert rule(s[0], s[n + 1]);
    }
  }

  lemma OrderCons<T>(first: T, rest: seq<T>, rule: (T, T) -> bool)
    requires InOrder(rest, rule) && forall y :: y in rest ==> rule(first, y)
    ensures InOrder([first] + rest, rule)
  {
  }

  lemma ThenOfAll<T(!new)>(x: T, s: seq<T>, ahead: (T, T) -> bool, tie: (T, T) -> bool)
    requires Weak(ahead) && s != [] && ahead(x, s[0]) && forall y :: y in s[1..] ==> Then(ahead, tie)(s[0], y)
    ensures forall y :: y in s ==> Then(ahead, tie)(x, y)
  {
    var first := s[0];
    forall y | y in s ensures Then(ahead, tie)(x, y) {
      assert y == first || y in s[1..];
      assert ahead(x, first) ==> ahead(x, y) || ahead(y, first);
    }
  }

  lemma {:induction false} InsertStable<T(!new)>(x: T, s: seq<T>, ahead: (T, T) -> bool, tie: (T, T) -> bool)
    requires Weak(ahead) && InOrder(s, Then(ahead, tie)) && forall y :: y in s ==> tie(y, x)
    ensures InOrder(Insert(x, s, ahead), Then(ahead, tie))
    ensures multiset(Insert(x, s, ahead)) == multiset(s) + multiset{x}
  {
    InsertHolds(x, s, ahead);
    if s != [] {
      hide InOrder, Weak;
      TailOrder(s, Then(ahead, tie));
      assert s[0] in s && forall y :: y in s[1..] ==> y in s;
      if ahead(x, s[0]) {
        ThenOfAll(x, s, ahead, tie);
        OrderCons(x, s, Then(ahead, tie));
      } else {
        InsertStable(x, s[1..], ahead, tie);
        InsertHolds(x, s[1..], ahead);
        OrderCons(s[0], Insert(x, s[1..], ahead), Then(ahead, tie));
      }
    }
  }

  /** What `sorted` leaves alone: elements with equal keys stay in the order they
      came in. */
  lemma {:induction false} SortStable<T(!new)>(s: seq<T>, ahead: (T, T) -> bool, tie: (T, T) -> bool)
    requires Weak(ahead) && InOrder(s, tie)
    ensures InOrder(Sort(s, ahead), Then(ahead, tie)) && multiset(Sort(s, ahead)) == multiset(s)
  {
    if s != [] {
      hide Insert, Weak, Then, InOrder, Sort;
      var init, last := s[..|s| - 1], s[|s| - 1];
      SortSnoc(s, ahead);
      InitOrder(s, tie);
      SortStable(init, ahead, tie);
      LastBehind(s, Sort(init, ahead), tie);
      InsertStable(last, Sort(init, ahead), ahead, tie);
    }
  }

  lemma LastBehind<T(!new)>(s: seq<T>, sorted: seq<T>, tie: (T, T) -> bool)
    requires s != [] && InOrder(s, tie) && multiset(sorted) == multiset(s[..|s| - 1])
    ensures forall y :: y in sorted ==> tie(y, s[|s| - 1])
  {
    forall y | y in sorted ensures tie(y, s[|s| - 1]) {
      assert y in multiset(sorted);
      var n :| 0 <= n < |s| - 1 && s[..|s| - 1][n] == y;
      assert tie(s[n], s[|s| - 1]);
    }
  }
}
