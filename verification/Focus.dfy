/** What a focused snippet holds, by places in the passage and without the functions
    that make it (ragsvc/tools.py:134-271). */
module Focus {
  import opened Codes
  import opened Sorting
  import opened Snippet

  // --- terms and ranking ----------------------------------------------------------------------

  /** A line carries the terms that occur in it when it is lowered. */
  lemma CarriedIs(line: Text, q: Query, t: Text)
    ensures t in Carried(line, q) <==> t in q.terms && exists i :: LoweredAt(t, line, q.lower, i)
  {
    var lowered := Lowered(line, q.lower);
    forall i ensures OccursAt(t, lowered, i) <==> LoweredAt(t, line, q.lower, i) {
      if 0 <= i && i + |t| <= |line| {
        var part := lowered[i..i + |t|];
        assert part == t <==> forall k :: 0 <= k < |t| ==> part[k] == t[k];
        assert forall k :: 0 <= k < |t| ==> part[k] == q.lower(line[i + k]);
      }
    }
    if t in q.terms && Find(lowered, t, 0) >= 0 { assert LoweredAt(t, line, q.lower, Find(lowered, t, 0)); }
    if i :| LoweredAt(t, line, q.lower, i) { assert OccursAt(t, lowered, i); }
  }

  ghost predicate LoweredAt(t: Text, line: Text, lower: Lower, i: int) {
    0 <= i && i + |t| <= |line| && forall k :: 0 <= k < |t| ==> lower(line[i + k]) == t[k]
  }

  /** Of two ranked lines the first has more terms, or as many and fewer tokens, or as
      many of both and comes first in the passage; and every line is ranked once. */
  lemma RankedIs(ranked: seq<Ranked>, lines: seq<Text>, q: Query, i: nat, j: nat)
    requires IsRanking(ranked, lines, q) && i < j < |ranked|
    ensures var a, b := ranked[i].index, ranked[j].index;
      && a < |lines| && b < |lines| && a != b
      && var m, n := |Carried(lines[a], q)|, |Carried(lines[b], q)|;
        && m >= n
        && (m == n ==> q.count(lines[a]) <= q.count(lines[b]))
        && (m == n && q.count(lines[a]) == q.count(lines[b]) ==> a < b)
  {
    hide Carried;
    assert ranked[i] in ranked && ranked[j] in ranked;
    assert RanksLine(ranked[i], lines, q) && RanksLine(ranked[j], lines, q);
    assert Better(ranked[i], ranked[j]);
  }

  // --- the window -----------------------------------------------------------------------------

  /** Where a window on `c` begins: a third of the width before it, or right behind the
      next blank if there is one within 30 characters; at the front, at the front. */
  ghost predicate Begins(line: Text, c: nat, width: nat, start: nat) {
    var third := width / 3;
    if c <= third then start == 0
    else
      || (c - third < start <= c - third + 30 && start <= |line| && line[start - 1] == SPACE
          && forall k :: c - third <= k < start - 1 ==> line[k] != SPACE)
      || (start == c - third
          && forall k :: c - third <= k < c - third + 30 && k < |line| ==> line[k] != SPACE)
  }

  /** Where it ends: its width after where it would have begun, or with the line. */
  ghost predicate Stops(line: Text, c: nat, width: nat, end: nat) {
    var third := width / 3;
    var from := if c <= third then 0 else c - third;
    if from + width <= |line| then end == from + width else end == |line|
  }

  /** A window is 17/5 characters for each token, and at least 80, of the line, with
      dots at each end that is not the line's own. */
  lemma WindowIs(line: Text, c: nat, budget: nat) returns (width: nat, start: nat, end: nat)
    requires c <= |line|
    ensures if 17 * budget >= 5 * 80 then 5 * width <= 17 * budget < 5 * width + 5 else width == 80
    ensures Begins(line, c, width, start) && Stops(line, c, width, end) && end <= |line|
    ensures WindowText(line, c, budget)
      == (if start > 0 then Lit("...") else [])
           + Strip(if start < end then line[start..end] else [])
           + (if end < |line| then Lit("...") else [])
  {
    hide Strip;
    width := WindowWidth(budget);
    start, end := WindowStart(line, c, width), WindowEnd(line, c, width);
    if c > width / 3 { Blanks(line, c - width / 3); }
  }

  lemma Blanks(line: Text, from: nat)
    ensures var space := Find(line, [SPACE], from);
      && (space >= 0 ==> from <= space < |line| && line[space] == SPACE)
      && forall k :: from <= k < |line| && (space < 0 || k < space) ==> line[k] != SPACE
  {
    var space := Find(line, [SPACE], from);
    if space >= 0 { assert line[space] == line[space..space + 1][0]; }
    forall k | from <= k < |line| && (space < 0 || k < space) ensures line[k] != SPACE {
      assert line[k..k + 1] == [line[k]];
      assert !OccursAt([SPACE], line, k);
    }
  }

  // --- which lines ----------------------------------------------------------------------------

  ghost predicate Inked(line: Text) { exists k :: 0 <= k < |line| && !IsSpace(line[k]) }

  /** A bar is the first thing on the line. */
  ghost predicate Barred(line: Text) {
    exists k :: 0 <= k < |line| && line[k] == '|' as int && forall j :: 0 <= j < k ==> IsSpace(line[j])
  }

  /** The first line that is not blank. */
  ghost predicate IsHeading(lines: seq<Text>, i: int) {
    0 <= i < |lines| && Inked(lines[i]) && forall k :: 0 <= k < i ==> !Inked(lines[k])
  }

  /** `a` and `b` are the first two lines of a table that has a third. */
  ghost predicate IsHeader(lines: seq<Text>, a: nat, b: nat) {
    && a < b < |lines| && Barred(lines[a]) && Barred(lines[b])
    && (forall k :: 0 <= k < b && k != a ==> !Barred(lines[k]))
    && exists c :: b < c < |lines| && Barred(lines[c])
  }

  /** What the snippet may hold: a line that carries a term, the line behind the best
      one, the heading, and a table's header row and rule. */
  ghost predicate Wanted(lines: seq<Text>, q: Query, best: nat, i: int) {
    && 0 <= i < |lines|
    && (Carried(lines[i], q) != {} || i == best + 1 || IsHeading(lines, i)
        || exists a, b :: IsHeader(lines, a, b) && (i == a || i == b))
  }

  /** Kept, or too long for what is left. */
  ghost predicate Settled(lines: seq<Text>, q: Query, budget: nat, p: Picked, i: int) {
    0 <= i < |lines| ==> i in p.keep || p.used + q.count(lines[i]) + 1 > budget
  }

  ghost predicate AllSettled(lines: seq<Text>, q: Query, budget: nat, p: Picked, done: set<int>) {
    forall i :: i in done ==> Settled(lines, q, budget, p, i)
  }

  /** Only wanted lines, and whole ones but for the two best. */
  ghost predicate Proper(lines: seq<Text>, q: Query, budget: nat, p: Picked, best: nat, second: nat) {
    && p.used <= budget
    && forall i :: i in p.keep ==>
      Wanted(lines, q, best, i) && (i == best || i == second || p.keep[i] == lines[i])
  }

  lemma TakeSettles(lines: seq<Text>, q: Query, budget: nat, p: Picked, index: int, window: bool, done: set<int>,
    best: nat, second: nat)
    requires Proper(lines, q, budget, p, best, second) && AllSettled(lines, q, budget, p, done)
    requires 0 <= index < |lines| ==> Wanted(lines, q, best, index)
    requires window ==> index == best || index == second
    ensures var after := Taking(lines, q, budget, p, index, window);
      Proper(lines, q, budget, after, best, second) && AllSettled(lines, q, budget, after, done + {index})
  {
    hide Wanted, WindowText;
    var after := Taking(lines, q, budget, p, index, window);
    forall i | i in done + {index} ensures Settled(lines, q, budget, after, i) {
      if i in done { assert Settled(lines, q, budget, p, i); }
    }
  }

  /** Where the first character stands that is not white space. */
  lemma Front(s: Text) returns (n: nat)
    ensures n <= |s| && LStrip(s) == s[n..] && forall k :: 0 <= k < n ==> IsSpace(s[k])
    ensures n < |s| ==> !IsSpace(s[n])
  {
    n := LStripCut(s);
    LStripStops(s);
    if n < |s| { assert LStrip(s)[0] == s[n]; }
  }

  lemma {:induction false} LStripStops(s: Text)
    ensures LStrip(s) != [] ==> !IsSpace(LStrip(s)[0])
  {
    if s != [] && IsSpace(s[0]) { LStripStops(s[1..]); }
  }

  lemma InkedIs(line: Text)
    ensures Inked(line) <==> Strip(line) != []
  {
    var n := Front(line);
    if n < |line| { var o := StripKeeps(line, n, n + 1); }
  }

  lemma BarredIs(line: Text)
    ensures Barred(line) <==> IsPipe(line)
  {
    hide LStrip;
    var n := Front(line);
    BarNotSpace();
    if n < |line| { assert LStrip(line)[..1] == [line[n]]; }
  }

  lemma BarNotSpace()
    ensures !IsSpace('|' as int)
  {
  }

  lemma {:induction false} HeadingIs(lines: seq<Text>, from: nat)
    requires from <= |lines| && forall k :: 0 <= k < from ==> !Inked(lines[k])
    ensures var h := FirstFull(lines, from);
      if h < 0 then forall k :: 0 <= k < |lines| ==> !Inked(lines[k]) else IsHeading(lines, h)
    decreases |lines| - from
  {
    if from < |lines| {
      InkedIs(lines[from]);
      if !Inked(lines[from]) { HeadingIs(lines, from + 1); }
    }
  }

  lemma {:induction false} PipesAre(lines: seq<Text>, n: nat)
    requires n <= |lines|
    ensures forall i :: 0 <= i < |Pipes(lines, n)| ==> Pipes(lines, n)[i] < n && Barred(lines[Pipes(lines, n)[i]])
    ensures forall i, j :: 0 <= i < j < |Pipes(lines, n)| ==> Pipes(lines, n)[i] < Pipes(lines, n)[j]
    ensures forall k :: 0 <= k < n && Barred(lines[k]) ==> k in Pipes(lines, n)
  {
    hide Barred;
    if n > 0 {
      PipesAre(lines, n - 1);
      BarredIs(lines[n - 1]);
    }
  }

  /** The two lines of the header, if there is one. */
  lemma HeaderIs(lines: seq<Text>)
    ensures var pipes := Pipes(lines, |lines|);
      if |pipes| >= 3 then IsHeader(lines, pipes[0], pipes[1]) && HeaderOnly(lines, pipes[0], pipes[1])
      else forall a, b :: !IsHeader(lines, a, b)
  {
    hide Barred, Pipes;
    var pipes := Pipes(lines, |lines|);
    PipesAre(lines, |lines|);
    if |pipes| >= 3 {
      forall k | 0 <= k < pipes[1] && k != pipes[0] ensures !Barred(lines[k]) {
        SecondIs(pipes, k);
      }
      assert Barred(lines[pipes[2]]);
    } else {
      forall a: nat, b: nat ensures !IsHeader(lines, a, b) {
        if IsHeader(lines, a, b) {
          var c :| b < c < |lines| && Barred(lines[c]);
          ThreeIn(pipes, a, b, c);
        }
      }
    }
  }

  ghost predicate HeaderOnly(lines: seq<Text>, a: nat, b: nat) {
    forall c, d :: IsHeader(lines, c, d) ==> c == a && d == b
  }

  lemma SecondIs(s: seq<nat>, k: nat)
    requires |s| >= 2 && forall i, j :: 0 <= i < j < |s| ==> s[i] < s[j]
    ensures k in s && k < s[1] ==> k == s[0]
  {
  }

  lemma ThreeIn(s: seq<nat>, a: nat, b: nat, c: nat)
    requires a < b < c && a in s && b in s && c in s
    ensures |s| >= 3
  {
    var i :| 0 <= i < |s| && s[i] == a;
    var j :| 0 <= j < |s| && s[j] == b;
    var k :| 0 <= k < |s| && s[k] == c;
  }

  lemma HeaderSettles(lines: seq<Text>, q: Query, budget: nat, p: Picked, done: set<int>, best: nat, second: nat)
    returns (more: set<int>)
    requires Proper(lines, q, budget, p, best, second) && AllSettled(lines, q, budget, p, done)
    ensures var after := TakingHeader(lines, q, budget, p);
      Proper(lines, q, budget, after, best, second) && AllSettled(lines, q, budget, after, more)
    ensures done <= more && forall a, b :: IsHeader(lines, a, b) ==> a in more && b in more
  {
    hide Proper, AllSettled, Taking, IsHeader, Pipes;
    var pipes := Pipes(lines, |lines|);
    HeaderIs(lines);
    more := done;
    if |pipes| >= 3 {
      HeaderWanted(lines, q, best, pipes[0], pipes[1]);
      TakeSettles(lines, q, budget, p, pipes[0], false, done, best, second);
      TakeSettles(lines, q, budget, Taking(lines, q, budget, p, pipes[0], false), pipes[1], false, done + {pipes[0]},
        best, second);
      more := done + {pipes[0]} + {pipes[1]};
    }
  }

  lemma HeaderWanted(lines: seq<Text>, q: Query, best: nat, a: nat, b: nat)
    requires IsHeader(lines, a, b)
    ensures Wanted(lines, q, best, a) && Wanted(lines, q, best, b)
  {
  }

  /** The ranking from place `k` on, all of it settled or without a term. */
  lemma {:induction false} RestSettles(lines: seq<Text>, q: Query, budget: nat, p: Picked, ranked: seq<Ranked>, k: nat,
    done: set<int>, best: nat, second: nat) returns (more: set<int>)
    requires IsRanking(ranked, lines, q) && k <= |ranked|
    requires Proper(lines, q, budget, p, best, second) && AllSettled(lines, q, budget, p, done)
    ensures var after := TakingRest(lines, q, budget, p, ranked, k);
      Proper(lines, q, budget, after, best, second) && AllSettled(lines, q, budget, after, more)
    ensures done <= more && forall j :: k <= j < |ranked| && ranked[j].score > 0 ==> ranked[j].index in more
    decreases |ranked| - k
  {
    hide Proper, AllSettled, Taking, IsRanking, Carried, Wanted;
    more := done;
    if k < |ranked| {
      RankedCarries(ranked, lines, q, best, k);
      if ranked[k].score != 0 {
        TakeSettles(lines, q, budget, p, ranked[k].index, false, done, best, second);
        more := RestSettles(lines, q, budget, Taking(lines, q, budget, p, ranked[k].index, false), ranked, k + 1,
          done + {ranked[k].index}, best, second);
      }
    }
  }

  lemma RankedCarries(ranked: seq<Ranked>, lines: seq<Text>, q: Query, best: nat, k: nat)
    requires IsRanking(ranked, lines, q) && k < |ranked|
    ensures ranked[k].index < |lines| && (ranked[k].score > 0 ==> Wanted(lines, q, best, ranked[k].index))
    ensures ranked[k].score == 0 ==> forall j :: k <= j < |ranked| ==> ranked[j].score == 0
  {
    hide Carried;
    assert ranked[k] in ranked && RanksLine(ranked[k], lines, q);
    forall j | k < j < |ranked| ensures ranked[j].score <= ranked[k].score { assert Better(ranked[k], ranked[j]); }
  }

  /** The first two of the ranking, and the line behind the best. */
  lemma BestSettle(lines: seq<Text>, q: Query, budget: nat, ranked: seq<Ranked>) returns (done: set<int>)
    requires IsRanking(ranked, lines, q) && |ranked| >= 2 && ranked[0].score > 0
    ensures var best, second := ranked[0].index, ranked[1].index;
      var p1 := Taking(lines, q, budget, Picked(map[], 0), best, true);
      var p2 := if ranked[1].score > 0 then Taking(lines, q, budget, p1, second, true) else p1;
      var p3 := Taking(lines, q, budget, p2, best + 1, false);
      Proper(lines, q, budget, p3, best, second) && AllSettled(lines, q, budget, p3, done)
    ensures ranked[0].index in done && ranked[0].index + 1 in done
  {
    hide Taking, IsRanking;
    var best, second := ranked[0].index, ranked[1].index;
    RankedCarries(ranked, lines, q, best, 0);
    RankedCarries(ranked, lines, q, best, 1);
    TakeSettles(lines, q, budget, Picked(map[], 0), best, true, {}, best, second);
    var p1 := Taking(lines, q, budget, Picked(map[], 0), best, true);
    if ranked[1].score > 0 {
      TakeSettles(lines, q, budget, p1, second, true, {} + {best}, best, second);
      var p2 := Taking(lines, q, budget, p1, second, true);
      TakeSettles(lines, q, budget, p2, best + 1, false, {} + {best} + {second}, best, second);
      done := {} + {best} + {second} + {best + 1};
    } else {
      TakeSettles(lines, q, budget, p1, best + 1, false, {} + {best}, best, second);
      done := {} + {best} + {best + 1};
    }
  }

  lemma HeadingSettles(lines: seq<Text>, q: Query, budget: nat, p: Picked, done: set<int>, best: nat, second: nat)
    returns (more: set<int>)
    requires Proper(lines, q, budget, p, best, second) && AllSettled(lines, q, budget, p, done)
    ensures var after := Taking(lines, q, budget, p, FirstFull(lines, 0), false);
      Proper(lines, q, budget, after, best, second) && AllSettled(lines, q, budget, after, more)
    ensures done <= more && forall h :: IsHeading(lines, h) ==> h in more
  {
    hide Proper, AllSettled, Taking, Inked;
    HeadingIs(lines, 0);
    var h := FirstFull(lines, 0);
    TakeSettles(lines, q, budget, p, h, false, done, best, second);
    more := done + {h};
  }

  /** Exactly which lines a snippet holds: none that is not wanted, all of them whole
      but for the two best, and every wanted line that is left out is too long for
      what is left of the budget at the end. */
  lemma NothingElseFits(lines: seq<Text>, q: Query, budget: nat, ranked: seq<Ranked>, i: int)
    requires IsRanking(ranked, lines, q) && |ranked| >= 2 && ranked[0].score > 0
    ensures var best, second, p := ranked[0].index, ranked[1].index, TakingAll(lines, q, budget, ranked);
      && p.used <= budget
      && (i in p.keep ==> Wanted(lines, q, best, i) && (i == best || i == second || p.keep[i] == lines[i]))
      && (Wanted(lines, q, best, i) && i !in p.keep ==> p.used + q.count(lines[i]) + 1 > budget)
  {
    hide Taking, TakingRest, TakingHeader, IsRanking, Wanted, FirstFull, IsHeading, IsHeader, Carried;
    var best, second := ranked[0].index, ranked[1].index;
    var done := BestSettle(lines, q, budget, ranked);
    var p1 := Taking(lines, q, budget, Picked(map[], 0), best, true);
    var p2 := if ranked[1].score > 0 then Taking(lines, q, budget, p1, second, true) else p1;
    var p3 := Taking(lines, q, budget, p2, best + 1, false);
    var more := HeadingSettles(lines, q, budget, p3, done, best, second);
    var p4 := Taking(lines, q, budget, p3, FirstFull(lines, 0), false);
    var again := HeaderSettles(lines, q, budget, p4, more, best, second);
    var all := RestSettles(lines, q, budget, TakingHeader(lines, q, budget, p4), ranked, 1, again, best, second);
    WantedIn(lines, q, ranked, all, i);
  }

  lemma WantedIn(lines: seq<Text>, q: Query, ranked: seq<Ranked>, all: set<int>, i: int)
    requires IsRanking(ranked, lines, q) && |ranked| >= 2
    requires ranked[0].index in all && ranked[0].index + 1 in all
    requires forall h :: IsHeading(lines, h) ==> h in all
    requires forall a, b :: IsHeader(lines, a, b) ==> a in all && b in all
    requires forall j :: 1 <= j < |ranked| && ranked[j].score > 0 ==> ranked[j].index in all
    ensures Wanted(lines, q, ranked[0].index, i) ==> i in all && 0 <= i < |lines|
  {
    hide Carried, IsHeading, IsHeader;
    if Wanted(lines, q, ranked[0].index, i) && Carried(lines[i], q) != {} {
      var r := Ranked(|Carried(lines[i], q)|, q.count(lines[i]), i);
      assert r in ranked;
      var j :| 0 <= j < |ranked| && ranked[j] == r;
    }
  }
}
