/** Page layout without ruled regions (ragsvc/ingest/layout.py): rows, columns,
    aligned tables, paragraphs, and what becomes of every line on the way. */
module Layout {
  import opened Codes
  import opened Sorting
  import opened Packing
  import Chunk

  /** Coordinates in points, as reals. */
  datatype Line = Line(text: Text, x0: real, y0: real, x1: real, y1: real, conf: real, size: real, bold: bool)

  function MidY(l: Line): real { (l.y0 + l.y1) / 2.0 }

  function Distance(a: real, b: real): real { if a >= b then a - b else b - a }

  // --- group_rows ---------------------------------------------------------------------------------

  /** key=lambda ln: (ln.mid_y, ln.x0) */
  predicate Higher(a: Line, b: Line) { MidY(a) < MidY(b) || (MidY(a) == MidY(b) && a.x0 < b.x0) }

  /** key=lambda ln: ln.x0 */
  predicate Lefter(a: Line, b: Line) { a.x0 < b.x0 }

  lemma KeysAreWeak()
    ensures Weak(Higher) && Weak(Lefter)
  {
  }

  /** Sorted lines put into rows: a line joins the last row while it is within the
      tolerance of that row's first line. */
  function Grouped(lines: seq<Line>, tol: real): seq<seq<Line>> {
    if lines == [] then [] else WithLine(Grouped(lines[..|lines| - 1], tol), lines[|lines| - 1], tol)
  }

  function WithLine(rows: seq<seq<Line>>, line: Line, tol: real): seq<seq<Line>> {
    if rows != [] && rows[|rows| - 1] != [] && Distance(MidY(line), MidY(rows[|rows| - 1][0])) <= tol
    then rows[|rows| - 1 := rows[|rows| - 1] + [line]]
    else rows + [[line]]
  }

  function Straightened(rows: seq<seq<Line>>): seq<seq<Line>> {
    seq(|rows|, i requires 0 <= i < |rows| => Sort(rows[i], Lefter))
  }

  function Rows(lines: seq<Line>, tol: real): seq<seq<Line>> { Straightened(Grouped(Sort(lines, Higher), tol)) }

  /** group_rows: two loops, the second sorting each row in place. */
  method GroupRows(lines: seq<Line>, tol: real) returns (rows: seq<seq<Line>>)
    ensures rows == Rows(lines, tol)
  {
    hide Sort, MidY, Distance, Higher, Lefter;
    var sorted := Sort(lines, Higher);
    rows := [];
    for i := 0 to |sorted|
      invariant rows == Grouped(sorted[..i], tol)
    {
      var line := sorted[i];
      assert sorted[..i + 1][..i] == sorted[..i];
      if rows != [] && rows[|rows| - 1] != [] && Distance(MidY(line), MidY(rows[|rows| - 1][0])) <= tol {
        rows := rows[|rows| - 1 := rows[|rows| - 1] + [line]];
      } else {
        rows := rows + [[line]];
      }
    }
    assert sorted[..|sorted|] == sorted;
    ghost var grouped := rows;
    for i := 0 to |rows|
      invariant |rows| == |grouped|
      invariant forall k :: 0 <= k < |rows| ==> rows[k] == if k < i then Sort(grouped[k], Lefter) else grouped[k]
    {
      rows := rows[i := Sort(rows[i], Lefter)];
    }
    assert rows == Straightened(grouped);
  }

  ghost predicate AnchoredAt(row: seq<Line>, anchor: real) { exists l :: l in row && MidY(l) == anchor }

  /** Rows are bands: every line of a row is within the tolerance below its anchor,
      an anchor is the height of one of its lines, and anchors are more than the
      tolerance apart, going down. */
  ghost predicate Banded(rows: seq<seq<Line>>, anchors: seq<real>, tol: real) {
    && |anchors| == |rows|
    && (forall r :: 0 <= r < |rows| ==> rows[r] != [] && AnchoredAt(rows[r], anchors[r]))
    && (forall r, l :: 0 <= r < |rows| && l in rows[r] ==> anchors[r] <= MidY(l) <= anchors[r] + tol)
    && (forall r :: 0 <= r < |rows| - 1 ==> anchors[r + 1] > anchors[r] + tol)
  }

  function Anchors(rows: seq<seq<Line>>): seq<real> {
    seq(|rows|, i requires 0 <= i < |rows| => if rows[i] != [] then MidY(rows[i][0]) else 0.0)
  }

  lemma {:induction false} GroupedKeeps(lines: seq<Line>, tol: real)
    ensures Flatten(Grouped(lines, tol)) == lines
    ensures forall r :: 0 <= r < |Grouped(lines, tol)| ==> Grouped(lines, tol)[r] != []
  {
    if lines != [] {
      var init, line := lines[..|lines| - 1], lines[|lines| - 1];
      GroupedKeeps(init, tol);
      AddedKeeps(Grouped(init, tol), line, tol);
      assert lines == init + [line];
    }
  }

  lemma AddedKeeps(rows: seq<seq<Line>>, line: Line, tol: real)
    ensures Flatten(rows + [[line]]) == Flatten(rows) + [line]
    ensures rows != [] ==> Flatten(rows[|rows| - 1 := rows[|rows| - 1] + [line]]) == Flatten(rows) + [line]
  {
    FlattenAppend(rows, [[line]]);
    FlattenOne([line]);
    if rows != [] {
      var init, last := rows[..|rows| - 1], rows[|rows| - 1];
      assert rows == init + [last];
      assert rows[|rows| - 1 := last + [line]] == init + [last + [line]];
      FlattenAppend(init, [last]);
      FlattenAppend(init, [last + [line]]);
      FlattenOne(last);
      FlattenOne(last + [line]);
      assert Flatten(init) + (last + [line]) == (Flatten(init) + last) + [line];
    }
  }

  lemma {:induction false} GroupedBanded(lines: seq<Line>, tol: real)
    requires Ascends(lines, Higher) && tol >= 0.0
    ensures Banded(Grouped(lines, tol), Anchors(Grouped(lines, tol)), tol)
    ensures lines != [] ==> Grouped(lines, tol) != []
    ensures lines != [] ==>
      MidY(lines[|lines| - 1]) >= Anchors(Grouped(lines, tol))[|Grouped(lines, tol)| - 1]
  {
    if lines != [] {
      hide Banded, Higher, MidY, WithLine;
      var init, line := lines[..|lines| - 1], lines[|lines| - 1];
      GroupedBanded(init, tol);
      GroupedKeeps(init, tol);
      var rows := Grouped(init, tol);
      if init == [] {
        OneBanded(line, tol);
      } else {
        NotHigher(lines[|lines| - 1], lines[|lines| - 2]);
        NextBanded(rows, line, tol);
      }
    }
  }

  lemma NextBanded(rows: seq<seq<Line>>, line: Line, tol: real)
    requires rows != [] && Banded(rows, Anchors(rows), tol) && tol >= 0.0 && MidY(line) >= Anchors(rows)[|rows| - 1]
    ensures var more := WithLine(rows, line, tol);
      more != [] && Banded(more, Anchors(more), tol) && MidY(line) >= Anchors(more)[|more| - 1]
  {
    if Distance(MidY(line), MidY(rows[|rows| - 1][0])) <= tol { JoinBanded(rows, line, tol); }
      else { OpenBanded(rows, line, tol); }
  }

  lemma OneBanded(line: Line, tol: real)
    requires tol >= 0.0
    ensures WithLine([], line, tol) == [[line]] && Banded([[line]], Anchors([[line]]), tol)
  {
    assert line in [line];
  }

  lemma NotHigher(a: Line, b: Line)
    requires !Higher(a, b)
    ensures MidY(a) >= MidY(b)
  {
  }

  lemma JoinBanded(rows: seq<seq<Line>>, line: Line, tol: real)
    requires rows != [] && Banded(rows, Anchors(rows), tol)
    requires MidY(line) >= Anchors(rows)[|rows| - 1] && Distance(MidY(line), MidY(rows[|rows| - 1][0])) <= tol
    ensures var more := rows[|rows| - 1 := rows[|rows| - 1] + [line]];
      Banded(more, Anchors(rows), tol) && Anchors(more) == Anchors(rows)
  {
    var more, a := rows[|rows| - 1 := rows[|rows| - 1] + [line]], Anchors(rows);
    var last := |rows| - 1;
    assert a[last] <= MidY(line) <= a[last] + tol;
    hide MidY, Distance, AnchoredAt;
    forall r | 0 <= r < |more| ensures more[r] != [] && AnchoredAt(more[r], a[r]) {
      if r == last { StillAnchored(rows[r], line, a[r]); } else { assert more[r] == rows[r]; }
    }
    forall r, l | 0 <= r < |more| && l in more[r] ensures a[r] <= MidY(l) <= a[r] + tol {
      assert l in rows[r] || (r == last && l == line);
    }
    assert Anchors(more) == a;
  }

  lemma StillAnchored(row: seq<Line>, line: Line, anchor: real)
    requires AnchoredAt(row, anchor)
    ensures AnchoredAt(row + [line], anchor)
  {
    var l :| l in row && MidY(l) == anchor;
    assert l in row + [line];
  }

  lemma OpenBanded(rows: seq<seq<Line>>, line: Line, tol: real)
    requires rows != [] && Banded(rows, Anchors(rows), tol) && tol >= 0.0
    requires MidY(line) > Anchors(rows)[|rows| - 1] + tol
    ensures Banded(rows + [[line]], Anchors(rows + [[line]]), tol)
    ensures Anchors(rows + [[line]]) == Anchors(rows) + [MidY(line)]
  {
    hide MidY;
    var more, a := rows + [[line]], Anchors(rows) + [MidY(line)];
    assert Anchors(more) == a;
    forall r | 0 <= r < |more| ensures more[r] != [] && AnchoredAt(more[r], a[r]) {
      if r < |rows| { assert more[r] == rows[r] && AnchoredAt(rows[r], Anchors(rows)[r]); }
        else { assert line in more[r]; }
    }
  }

  /** Every line is in exactly one row, and the rows are bands. */
  lemma RowsPartition(lines: seq<Line>, tol: real)
    requires tol >= 0.0
    ensures multiset(Flatten(Rows(lines, tol))) == multiset(lines)
    ensures exists anchors :: Banded(Rows(lines, tol), anchors, tol)
  {
    KeysAreWeak();
    var sorted := Sort(lines, Higher);
    SortAscends(lines, Higher);
    GroupedKeeps(sorted, tol);
    GroupedBanded(sorted, tol);
    StraightKeeps(Grouped(sorted, tol));
    StraightBanded(Grouped(sorted, tol), Anchors(Grouped(sorted, tol)), tol);
  }

  lemma {:induction false} StraightKeeps(rows: seq<seq<Line>>)
    ensures multiset(Flatten(Straightened(rows))) == multiset(Flatten(rows))
  {
    if rows != [] {
      KeysAreWeak();
      SortAscends(rows[0], Lefter);
      StraightKeeps(rows[1..]);
      assert Straightened(rows)[1..] == Straightened(rows[1..]);
    }
  }

  lemma StraightBanded(rows: seq<seq<Line>>, anchors: seq<real>, tol: real)
    requires Banded(rows, anchors, tol)
    ensures Banded(Straightened(rows), anchors, tol)
  {
    var straight := Straightened(rows);
    forall r | 0 <= r < |rows| ensures forall l :: l in straight[r] <==> l in rows[r] { SameMembers(rows[r]); }
    forall r | 0 <= r < |straight| ensures straight[r] != [] && AnchoredAt(straight[r], anchors[r]) {
      assert AnchoredAt(rows[r], anchors[r]);
      var l :| l in rows[r] && MidY(l) == anchors[r];
      assert l in straight[r];
    }
  }

  lemma SameMembers(row: seq<Line>)
    ensures forall l :: l in Sort(row, Lefter) <==> l in row
  {
    KeysAreWeak();
    SortAscends(row, Lefter);
    assert forall l :: l in Sort(row, Lefter) <==> l in multiset(Sort(row, Lefter));
    assert forall l :: l in row <==> l in multiset(row);
  }

  ghost predicate LeftToRight(rows: seq<seq<Line>>) {
    forall r, i, j :: 0 <= r < |rows| && 0 <= i < j < |rows[r]| ==> rows[r][i].x0 <= rows[r][j].x0
  }

  /** Within a row, fragments stand from left to right. */
  lemma RowsLeftToRight(lines: seq<Line>, tol: real)
    ensures LeftToRight(Rows(lines, tol))
  {
    KeysAreWeak();
    var grouped := Grouped(Sort(lines, Higher), tol);
    forall r, i, j | 0 <= r < |grouped| && 0 <= i < j < |Sort(grouped[r], Lefter)|
      ensures Sort(grouped[r], Lefter)[i].x0 <= Sort(grouped[r], Lefter)[j].x0
    {
      SortAscends(grouped[r], Lefter);
      assert !Lefter(Sort(grouped[r], Lefter)[j], Sort(grouped[r], Lefter)[i]);
    }
  }

  // --- detect_columns -----------------------------------------------------------------------------------

  function Where(lines: seq<Line>, keep: Line -> bool): seq<Line> {
    if lines == []
      then [] else Where(lines[..|lines| - 1], keep) + (if keep(lines[|lines| - 1]) then [lines[|lines| - 1]] else [])
  }

  predicate Crosses(l: Line, width: real) { l.x0 < width * 0.40 && l.x1 > width * 0.60 }

  predicate OnLeft(l: Line, width: real) { l.x1 <= width * 0.60 }

  predicate OnRight(l: Line, width: real) { l.x0 >= width * 0.40 }

  /** Wholly inside the middle band: on both sides at once. */
  predicate InBand(l: Line, width: real) { OnLeft(l, width) && OnRight(l, width) }

  function CrossesAt(width: real): Line -> bool { (l: Line) => Crosses(l, width) }

  function OnLeftAt(width: real): Line -> bool { (l: Line) => OnLeft(l, width) }

  function OnRightAt(width: real): Line -> bool { (l: Line) => OnRight(l, width) }

  function InBandAt(width: real): Line -> bool { (l: Line) => InBand(l, width) }

  function LeftOf(lines: seq<Line>, width: real): seq<Line> { Where(lines, OnLeftAt(width)) }

  function RightOf(lines: seq<Line>, width: real): seq<Line> { Where(lines, OnRightAt(width)) }

  function BandOf(lines: seq<Line>, width: real): seq<Line> { Where(lines, InBandAt(width)) }

  predicate IsTwoColumn(lines: seq<Line>, width: real) {
    && |lines| >= 12
    && Where(lines, CrossesAt(width)) == []
    && |LeftOf(lines, width)| >= 5 && |RightOf(lines, width)| >= 5
    && 4 * |LeftOf(lines, width)| >= |lines| && 4 * |RightOf(lines, width)| >= |lines|
  }

  /** detect_columns. */
  function Columns(lines: seq<Line>, width: real): seq<seq<Line>> {
    if IsTwoColumn(lines, width) then [LeftOf(lines, width), RightOf(lines, width)] else [lines]
  }

  lemma OneSide(l: Line, width: real)
    ensures !Crosses(l, width) ==> OnLeft(l, width) || OnRight(l, width)
    ensures InBand(l, width) <==> OnLeft(l, width) && OnRight(l, width)
  {
  }

  lemma WhereLast(init: seq<Line>, last: Line, keep: Line -> bool)
    ensures multiset(Where(init + [last], keep)) == multiset(Where(init, keep)) + Maybe(last, keep(last))
    ensures Where(init + [last], keep) == [] ==> !keep(last) && Where(init, keep) == []
  {
    assert (init + [last])[..|init|] == init;
  }

  function Maybe(l: Line, there: bool): multiset<Line> { if there then multiset{l} else multiset{} }

  lemma Mix(left: multiset<Line>, right: multiset<Line>, all: multiset<Line>, band: multiset<Line>, l: Line, a: bool,
    b: bool)
    requires left + right == all + band && (a || b)
    ensures (left + Maybe(l, a)) + (right + Maybe(l, b)) == (all + multiset{l}) + (band + Maybe(l, a && b))
  {
    assert Maybe(l, a) + Maybe(l, b) == multiset{l} + Maybe(l, a && b);
    assert (left + Maybe(l, a)) + (right + Maybe(l, b)) == (left + right) + (Maybe(l, a) + Maybe(l, b));
  }

  lemma {:induction false} SidesCover(lines: seq<Line>, width: real)
    requires Where(lines, CrossesAt(width)) == []
    ensures multiset(LeftOf(lines, width)) + multiset(RightOf(lines, width)) ==
      multiset(lines) + multiset(BandOf(lines, width))
  {
    if lines != [] {
      var init, last := lines[..|lines| - 1], lines[|lines| - 1];
      hide Crosses, OnLeft, OnRight, InBand, Where;
      assert lines == init + [last];
      OneSide(last, width);
      WhereLast(init, last, CrossesAt(width));
      SidesCover(init, width);
      WhereLast(init, last, OnLeftAt(width));
      WhereLast(init, last, OnRightAt(width));
      WhereLast(init, last, InBandAt(width));
      Mix(multiset(LeftOf(init, width)), multiset(RightOf(init, width)), multiset(init),
        multiset(BandOf(init, width)), last,
          OnLeft(last, width), OnRight(last, width));
      assert multiset(lines) == multiset(init) + multiset{last};
    } else {
      assert BandOf(lines, width) == LeftOf(lines, width) == RightOf(lines, width) == [];
    }
  }

  /** Every line is in one column, except that on a two-column page those wholly
      inside the middle band are in both. */
  lemma ColumnsCover(lines: seq<Line>, width: real)
    ensures multiset(Flatten(Columns(lines, width))) ==
      multiset(lines) + (if IsTwoColumn(lines, width) then multiset(BandOf(lines, width)) else multiset{})
  {
    if IsTwoColumn(lines, width) {
      SidesCover(lines, width);
      var l, r := LeftOf(lines, width), RightOf(lines, width);
      FlattenAppend([l], [r]);
      assert [l] + [r] == [l, r];
      FlattenOne(l);
      FlattenOne(r);
    } else {
      FlattenOne(lines);
    }
  }

  function Count(lines: seq<Line>, keep: Line -> bool): nat {
    if lines == [] then 0 else Count(lines[..|lines| - 1], keep) + (if keep(lines[|lines| - 1]) then 1 else 0)
  }

  lemma {:induction false} WhereCount(lines: seq<Line>, keep: Line -> bool)
    ensures |Where(lines, keep)| == Count(lines, keep)
  {
    if lines != [] { WhereCount(lines[..|lines| - 1], keep); }
  }

  lemma {:induction false} WhereAt(lines: seq<Line>, keep: Line -> bool, l: Line)
    ensures multiset(Where(lines, keep))[l] == if keep(l) then multiset(lines)[l] else 0
  {
    if lines != [] {
      var init, last := lines[..|lines| - 1], lines[|lines| - 1];
      WhereAt(init, keep, l);
      assert lines == init + [last];
      assert multiset(lines) == multiset(init) + multiset{last};
    }
  }

  lemma {:induction false} WhereNone(lines: seq<Line>, keep: Line -> bool)
    ensures Where(lines, keep) == [] <==> forall l :: l in lines ==> !keep(l)
  {
    if lines != [] {
      WhereNone(lines[..|lines| - 1], keep);
      assert lines == lines[..|lines| - 1] + [lines[|lines| - 1]];
    }
  }

  lemma {:induction false} CountSame(lines: seq<Line>, a: Line -> bool, b: Line -> bool)
    requires forall l :: a(l) == b(l)
    ensures Count(lines, a) == Count(lines, b)
  {
    if lines != [] { CountSame(lines[..|lines| - 1], a, b); }
  }

  /** A page has two columns exactly when there are twelve lines, none crosses the
      middle fifth, and either side has at least five and a quarter of them; the left
      column comes first. */
  lemma ColumnsAre(lines: seq<Line>, width: real)
    ensures var left, right := (l: Line) => l.x1 <= width * 0.60, (l: Line) => l.x0 >= width * 0.40;
      var columns, n, m := Columns(lines, width), Count(lines, left), Count(lines, right);
      && (if (|lines| >= 12 && n >= 5 && m >= 5 && 4 * n >= |lines| && 4 * m >= |lines|
              && forall l :: l in lines ==> l.x0 >= width * 0.40 || l.x1 <= width * 0.60)
          then |columns| == 2
               && (forall l :: multiset(columns[0])[l] == if left(l) then multiset(lines)[l] else 0)
               && (forall l :: multiset(columns[1])[l] == if right(l) then multiset(lines)[l] else 0)
          else columns == [lines])
  {
    var left, right := (l: Line) => l.x1 <= width * 0.60, (l: Line) => l.x0 >= width * 0.40;
    CountSame(lines, left, OnLeftAt(width));
    CountSame(lines, right, OnRightAt(width));
    SideCounts(lines, width);
    NoneCrosses(lines, width);
    hide Where, Count, LeftOf, RightOf;
    forall l ensures multiset(LeftOf(lines, width))[l] == if left(l) then multiset(lines)[l] else 0 {
      SidesAt(lines, width, l);
    }
    forall l ensures multiset(RightOf(lines, width))[l] == if right(l) then multiset(lines)[l] else 0 {
      SidesAt(lines, width, l);
    }
  }

  lemma SideCounts(lines: seq<Line>, width: real)
    ensures |LeftOf(lines, width)| == Count(lines, OnLeftAt(width))
    ensures |RightOf(lines, width)| == Count(lines, OnRightAt(width))
  {
    WhereCount(lines, OnLeftAt(width));
    WhereCount(lines, OnRightAt(width));
  }

  lemma NoneCrosses(lines: seq<Line>, width: real)
    ensures Where(lines, CrossesAt(width)) == [] <==>
      forall l :: l in lines ==> l.x0 >= width * 0.40 || l.x1 <= width * 0.60
  {
    WhereNone(lines, CrossesAt(width));
    hide Where;
    forall l ensures CrossesAt(width)(l) <==> !(l.x0 >= width * 0.40 || l.x1 <= width * 0.60) {}
  }

  lemma SidesAt(lines: seq<Line>, width: real, l: Line)
    ensures multiset(LeftOf(lines, width))[l] == if l.x1 <= width * 0.60 then multiset(lines)[l] else 0
    ensures multiset(RightOf(lines, width))[l] == if l.x0 >= width * 0.40 then multiset(lines)[l] else 0
  {
    WhereAt(lines, OnLeftAt(width), l);
    WhereAt(lines, OnRightAt(width), l);
  }

  // --- detect_aligned_tables -----------------------------------------------------------------------------

  datatype Span = Span(start: nat, end: nat)

  predicate Tabular(row: seq<Line>) { |row| >= 3 }

  /** Spans of at least two rows, in order and apart. */
  ghost predicate SpansApart(spans: seq<Span>, n: nat) {
    && (forall k :: 0 <= k < |spans| ==> spans[k].start < spans[k].end < n)
    && (forall k :: 0 <= k < |spans| - 1 ==> spans[k].end + 1 < spans[k + 1].start)
  }

  predicate InSpan(s: Span, i: int) { s.start <= i <= s.end }

  ghost predicate Covered(spans: seq<Span>, i: int) { exists k :: 0 <= k < |spans| && InSpan(spans[k], i) }

  /** A tabular row with a tabular neighbour. */
  predicate InRun(rows: seq<seq<Line>>, i: int) {
    0 <= i < |rows| && Tabular(rows[i]) && ((i > 0 && Tabular(rows[i - 1])) || (i + 1 < |rows| && Tabular(rows[i + 1])))
  }

  /** Among the first `upTo` rows, exactly those in a run are in a span. */
  ghost predicate AreRuns(spans: seq<Span>, rows: seq<seq<Line>>, upTo: nat) {
    forall i :: 0 <= i < upTo ==> (Covered(spans, i) <==> InRun(rows, i))
  }

  function TabularRows(rows: seq<seq<Line>>, n: nat): (t: seq<nat>)
    requires n <= |rows|
    ensures forall k :: 0 <= k < |t| ==> t[k] < n && Tabular(rows[t[k]])
    ensures forall k :: 0 <= k < |t| - 1 ==> t[k] < t[k + 1]
    ensures forall i :: 0 <= i < n && Tabular(rows[i]) ==> i in t
  {
    if n == 0 then []
    else TabularRows(rows, n - 1) + (if Tabular(rows[n - 1]) then [n - 1] else [])
  }

  /** What the loop knows before it looks at the next tabular row. */
  ghost predicate RunsSoFar(spans: seq<Span>, runStart: nat, previous: nat, rows: seq<seq<Line>>) {
    && runStart <= previous < |rows| && SpansApart(spans, previous + 1)
    && (spans != [] ==> spans[|spans| - 1].end + 1 < runStart)
    && (forall i :: runStart <= i <= previous ==> Tabular(rows[i]))
    && (runStart > 0 ==> !Tabular(rows[runStart - 1]))
    && AreRuns(spans, rows, runStart)
  }

  lemma CloseRun(spans: seq<Span>, runStart: nat, previous: nat, rows: seq<seq<Line>>)
    requires RunsSoFar(spans, runStart, previous, rows) && (previous + 1 < |rows| ==> !Tabular(rows[previous + 1]))
    ensures var more := if previous > runStart then spans + [Span(runStart, previous)] else spans;
      && SpansApart(more, previous + 1) && (more != [] ==> more[|more| - 1].end <= previous)
      && AreRuns(more, rows, previous + 1)
  {
    var more := if previous > runStart then spans + [Span(runStart, previous)] else spans;
    forall i | 0 <= i < previous + 1 ensures Covered(more, i) <==> InRun(rows, i) {
      CoveredSnoc(spans, Span(runStart, previous), i);
      if i >= runStart {
        PastSpans(spans, previous + 1, runStart, i);
        InsideRun(runStart, previous, rows, i);
      }
    }
  }

  lemma InsideRun(runStart: nat, previous: nat, rows: seq<seq<Line>>, i: int)
    requires runStart <= i <= previous < |rows| && forall k :: runStart <= k <= previous ==> Tabular(rows[k])
    requires runStart > 0 ==> !Tabular(rows[runStart - 1])
    requires previous + 1 < |rows| ==> !Tabular(rows[previous + 1])
    ensures InRun(rows, i) <==> previous > runStart
  {
    if previous > runStart {
      if i > runStart { assert Tabular(rows[i - 1]); } else { assert Tabular(rows[i + 1]); }
    }
  }

  lemma CoveredSnoc(spans: seq<Span>, s: Span, i: int)
    ensures Covered(spans + [s], i) <==> Covered(spans, i) || InSpan(s, i)
  {
    if Covered(spans, i) {
      var k :| 0 <= k < |spans| && InSpan(spans[k], i);
      assert (spans + [s])[k] == spans[k];
    }
    if InSpan(s, i) { assert (spans + [s])[|spans|] == s; }
  }

  lemma {:induction false} PastSpans(spans: seq<Span>, n: nat, from: nat, i: int)
    requires SpansApart(spans, n) && from <= i && (spans != [] ==> spans[|spans| - 1].end + 1 < from)
    ensures !Covered(spans, i)
    decreases |spans|
  {
    if spans != [] {
      var init := spans[..|spans| - 1];
      assert spans == init + [spans[|spans| - 1]];
      CoveredSnoc(init, spans[|spans| - 1], i);
      PastSpans(init, n, from, i);
    }
  }

  /** The first half of detect_aligned_tables. */
  method Runs(rows: seq<seq<Line>>) returns (spans: seq<Span>)
    ensures SpansApart(spans, |rows|) && AreRuns(spans, rows, |rows|)
  {
    hide RunsSoFar, TabularRows, SpansApart, AreRuns;
    var tabular := TabularRows(rows, |rows|);
    if tabular == [] {
      NoRuns(rows);
      return [];
    }
    spans := [];
    var runStart, previous := tabular[0], tabular[0];
    NoneBefore(rows, tabular);
    for k := 1 to |tabular|
      invariant RunsSoFar(spans, runStart, previous, rows) && previous == tabular[k - 1]
    {
      var index := tabular[k];
      Between(rows, tabular, k);
      if index == previous + 1 {
        ExtendRun(spans, runStart, previous, rows);
        previous := index;
      } else {
        NextRun(spans, runStart, previous, index, rows);
        if previous >= runStart + 1 { spans := spans + [Span(runStart, previous)]; }
        runStart, previous := index, index;
      }
    }
    NoneAfter(rows, tabular);
    CloseRun(spans, runStart, previous, rows);
    if previous >= runStart + 1 { spans := spans + [Span(runStart, previous)]; }
    RestUncovered(spans, previous, rows);
  }

  /** Two or more tabular rows with no tabular row on either side. */
  predicate MaximalRun(rows: seq<seq<Line>>, s: Span) {
    && s.start < s.end < |rows| && (forall i :: s.start <= i <= s.end ==> |rows[i]| >= 3)
    && (s.start > 0 ==> |rows[s.start - 1]| < 3) && (s.end + 1 < |rows| ==> |rows[s.end + 1]| < 3)
  }

  lemma SpanIsRun(spans: seq<Span>, rows: seq<seq<Line>>, k: nat)
    requires k < |spans| && SpansApart(spans, |rows|) && AreRuns(spans, rows, |rows|)
    ensures MaximalRun(rows, spans[k])
  {
    var s := spans[k];
    forall i | s.start <= i <= s.end ensures |rows[i]| >= 3 {
      assert InSpan(s, i);
      assert Covered(spans, i);
    }
    SpanOrder(spans, rows, k);
    assert s.start > 0 ==> !InRun(rows, s.start - 1);
    assert s.end + 1 < |rows| ==> !InRun(rows, s.end + 1);
    assert Tabular(rows[s.start]) && Tabular(rows[s.end]);
  }

  /** The rows just outside a span are in no span. */
  lemma SpanOrder(spans: seq<Span>, rows: seq<seq<Line>>, k: nat)
    requires k < |spans| && SpansApart(spans, |rows|)
    ensures !Covered(spans, spans[k].start - 1) && !Covered(spans, spans[k].end + 1)
  {
    forall j | 0 <= j < |spans| ensures !InSpan(spans[j], spans[k].start - 1) && !InSpan(spans[j], spans[k].end + 1) {
      if j < k { SpansBefore(spans, |rows|, j, k); } else if j > k { SpansBefore(spans, |rows|, k, j); }
    }
  }

  lemma {:induction false} SpansBefore(spans: seq<Span>, n: nat, j: nat, k: nat)
    requires SpansApart(spans, n) && j < k < |spans|
    ensures spans[j].end + 1 < spans[k].start
    decreases k
  {
    if j < k - 1 { SpansBefore(spans, n, j, k - 1); }
  }

  lemma RunIsSpan(spans: seq<Span>, rows: seq<seq<Line>>, s: Span)
    requires SpansApart(spans, |rows|) && AreRuns(spans, rows, |rows|) && MaximalRun(rows, s)
    ensures s in spans
  {
    assert Tabular(rows[s.start]) && Tabular(rows[s.start + 1]);
    assert InRun(rows, s.start);
    var k :| 0 <= k < |spans| && InSpan(spans[k], s.start);
    SpanIsRun(spans, rows, k);
    SameRun(rows, spans[k], s);
  }

  lemma SameRun(rows: seq<seq<Line>>, a: Span, b: Span)
    requires MaximalRun(rows, a) && MaximalRun(rows, b) && InSpan(a, b.start)
    ensures a == b
  {
    InsideIsTabular(rows, a, b.start - 1);
    InsideIsTabular(rows, b, a.end + 1);
    InsideIsTabular(rows, a, b.end + 1);
  }

  lemma InsideIsTabular(rows: seq<seq<Line>>, s: Span, i: int)
    requires MaximalRun(rows, s)
    ensures s.start <= i <= s.end ==> 0 <= i < |rows| && |rows[i]| >= 3
  {
  }

  lemma NoRuns(rows: seq<seq<Line>>)
    requires TabularRows(rows, |rows|) == []
    ensures AreRuns([], rows, |rows|) && SpansApart([], |rows|)
  {
    hide TabularRows;
    forall i | 0 <= i < |rows| ensures !Tabular(rows[i]) {
      var none := TabularRows(rows, |rows|);
      assert Tabular(rows[i]) ==> i in none;
    }
  }

  lemma NoneBefore(rows: seq<seq<Line>>, tabular: seq<nat>)
    requires tabular == TabularRows(rows, |rows|) && tabular != []
    ensures RunsSoFar([], tabular[0], tabular[0], rows)
  {
    hide TabularRows, Tabular;
    forall i | 0 <= i < tabular[0] ensures !Tabular(rows[i]) { NotBeyond(tabular, i); }
  }

  lemma {:induction false} Increasing(t: seq<nat>, i: nat, j: nat)
    requires i <= j < |t| && forall k :: 0 <= k < |t| - 1 ==> t[k] < t[k + 1]
    ensures t[i] <= t[j] && (i < j ==> t[i] < t[j])
    decreases j
  {
    if i < j { Increasing(t, i, j - 1); }
  }

  lemma NotBeyond(t: seq<nat>, i: nat)
    requires t != [] && (i < t[0] || t[|t| - 1] < i) && forall n :: 0 <= n < |t| - 1 ==> t[n] < t[n + 1]
    ensures i !in t
  {
    forall j | 0 <= j < |t| ensures t[j] != i {
      Increasing(t, 0, j);
      Increasing(t, j, |t| - 1);
    }
  }

  lemma NotBetween(t: seq<nat>, k: nat, i: nat)
    requires 0 < k < |t| && t[k - 1] < i < t[k] && forall n :: 0 <= n < |t| - 1 ==> t[n] < t[n + 1]
    ensures i !in t
  {
    forall j | 0 <= j < |t| ensures t[j] != i {
      if j < k { Increasing(t, j, k - 1); } else { Increasing(t, k, j); }
    }
  }

  lemma Between(rows: seq<seq<Line>>, tabular: seq<nat>, k: nat)
    requires tabular == TabularRows(rows, |rows|) && 0 < k < |tabular|
    ensures tabular[k - 1] < tabular[k] < |rows| && Tabular(rows[tabular[k]])
    ensures forall i :: tabular[k - 1] < i < tabular[k] ==> !Tabular(rows[i])
  {
    hide TabularRows, Tabular;
    Increasing(tabular, k - 1, k);
    forall i | tabular[k - 1] < i < tabular[k] ensures !Tabular(rows[i]) {
      NotBetween(tabular, k, i);
    }
  }

  lemma NoneAfter(rows: seq<seq<Line>>, tabular: seq<nat>)
    requires tabular == TabularRows(rows, |rows|) && tabular != []
    ensures forall i :: tabular[|tabular| - 1] < i < |rows| ==> !Tabular(rows[i])
  {
    hide TabularRows, Tabular;
    forall i | tabular[|tabular| - 1] < i < |rows| ensures !Tabular(rows[i]) {
      NotBeyond(tabular, i);
    }
  }

  lemma ExtendRun(spans: seq<Span>, runStart: nat, previous: nat, rows: seq<seq<Line>>)
    requires RunsSoFar(spans, runStart, previous, rows) && previous + 1 < |rows| && Tabular(rows[previous + 1])
    ensures RunsSoFar(spans, runStart, previous + 1, rows)
  {
  }

  lemma NextRun(spans: seq<Span>, runStart: nat, previous: nat, index: nat, rows: seq<seq<Line>>)
    requires RunsSoFar(spans, runStart, previous, rows) && previous + 1 < index < |rows| && Tabular(rows[index])
    requires forall i :: previous < i < index ==> !Tabular(rows[i])
    ensures RunsSoFar(if previous > runStart then spans + [Span(runStart, previous)] else spans, index, index, rows)
  {
    hide Tabular, AreRuns, SpansApart;
    CloseRun(spans, runStart, previous, rows);
    StillRuns(if previous > runStart then spans + [Span(runStart, previous)] else spans, previous, index, rows);
  }

  lemma StillRuns(spans: seq<Span>, previous: nat, index: nat, rows: seq<seq<Line>>)
    requires SpansApart(spans, previous + 1) && AreRuns(spans, rows, previous + 1) && previous < index < |rows|
    requires forall i :: previous < i < index ==> !Tabular(rows[i])
    ensures SpansApart(spans, index + 1) && AreRuns(spans, rows, index)
  {
    hide Tabular, Covered;
    forall i | previous < i < index ensures !Covered(spans, i) && !InRun(rows, i) { NotPast(spans, previous, i); }
  }

  lemma NotPast(spans: seq<Span>, previous: nat, i: int)
    requires SpansApart(spans, previous + 1) && i > previous
    ensures !Covered(spans, i)
  {
  }

  lemma RestUncovered(spans: seq<Span>, previous: nat, rows: seq<seq<Line>>)
    requires previous < |rows| && SpansApart(spans, previous + 1)
    requires forall i :: previous < i < |rows| ==> !Tabular(rows[i])
    requires AreRuns(spans, rows, previous + 1)
    ensures SpansApart(spans, |rows|) && AreRuns(spans, rows, |rows|)
  {
    forall i | previous < i < |rows| ensures !Covered(spans, i) { NotPast(spans, previous, i); }
  }

  // --- columns of a table --------------------------------------------------------------------------------

  const COLUMN_TOL := 6.0

  function Less(): (real, real) -> bool { (a: real, b: real) => a < b }

  function LeftEdges(lines: seq<Line>): seq<real> { seq(|lines|, i requires 0 <= i < |lines| => lines[i].x0) }

  /** Sorted edges in clusters: an edge joins the last one while it is near it. */
  function Clusters(values: seq<real>): seq<seq<real>> {
    if values == [] then []
    else
      var clusters, value := Clusters(values[..|values| - 1]), values[|values| - 1];
      if clusters != [] && clusters[|clusters| - 1] != []
         && value - clusters[|clusters| - 1][|clusters[|clusters| - 1]| - 1] <= COLUMN_TOL
      then clusters[|clusters| - 1 := clusters[|clusters| - 1] + [value]]
      else clusters + [[value]]
  }

  function Sum(values: seq<real>): real { if values == []
    then 0.0 else Sum(values[..|values| - 1]) + values[|values| - 1] }

  function Means(clusters: seq<seq<real>>): seq<real> {
    if clusters == [] then []
    else
      var last := clusters[|clusters| - 1];
      Means(clusters[..|clusters| - 1]) + (if |last| >= 2 then [Sum(last) / |last| as real] else [])
  }

  /** _column_edges: the means of the clusters with more than one member. */
  function ColumnEdges(rows: seq<seq<Line>>): seq<real> { Means(Clusters(Sort(LeftEdges(Flatten(rows)), Less()))) }

  /** The nearest edge, the first of equals. */
  function Nearest(edges: seq<real>, x: real): (i: nat)
    requires edges != []
    ensures i < |edges|
  {
    if |edges| == 1 then 0
    else
      var best := Nearest(edges[..|edges| - 1], x);
      if Distance(edges[|edges| - 1], x) < Distance(edges[best], x) then |edges| - 1 else best
  }

  function EmptyCells(n: nat): seq<Text> { seq(n, i requires 0 <= i < n => []) }

  /** One row's lines put into its cells, each in the nearest column. */
  function Cells(row: seq<Line>, edges: seq<real>): (cells: seq<Text>)
    requires edges != []
    ensures |cells| == |edges|
  {
    if row == [] then EmptyCells(|edges|)
    else
      var cells, line := Cells(row[..|row| - 1], edges), row[|row| - 1];
      var i := Nearest(edges, line.x0);
      cells[i := Strip(cells[i] + [SPACE] + line.text)]
  }

  function LineTexts(lines: seq<Line>): seq<Text> { seq(|lines|, i requires 0 <= i < |lines| => lines[i].text) }

  /** rows_to_grid. */
  function Grid(rows: seq<seq<Line>>): (grid: seq<seq<Text>>)
    ensures |grid| == |rows|
  {
    var edges := ColumnEdges(rows);
    if |edges| < 2 then seq(|rows|, i requires 0 <= i < |rows| => [Joined(LineTexts(rows[i]), [SPACE])])
    else seq(|rows|, i requires 0 <= i < |rows| => Cells(rows[i], edges))
  }

  // --- markdown --------------------------------------------------------------------------------------------

  const PIPE: Code := '|' as int

  function EscapedOne(c: Code): Text { if c == PIPE then [BACKSLASH, PIPE] else if c == LF then [SPACE] else [c] }

  function Escaped(s: Text): Text { if s == [] then [] else EscapedOne(s[0]) + Escaped(s[1..]) }

  function CellText(value: Text): Text { Strip(Escaped(value)) }

  function RowText(cells: seq<Text>): Text { Lit("| ") + Joined(cells, Lit(" | ")) + Lit(" |") }

  function MaxWidth(rows: seq<seq<Text>>): nat {
    if rows == [] then 0 else if |rows[0]| > MaxWidth(rows[1..]) then |rows[0]| else MaxWidth(rows[1..])
  }

  function Padded(row: seq<Text>, width: nat): seq<Text> {
    if |row| >= width then row else row + EmptyCells(width - |row|)
  }

  function HeaderCells(row: seq<Text>, decimal: nat -> Text): seq<Text> {
    seq(|row|, i requires 0 <= i < |row| => if CellText(row[i]) != []
      then CellText(row[i]) else Lit("Col ") + decimal(i + 1))
  }

  function BodyCells(row: seq<Text>): seq<Text> { seq(|row|, i requires 0 <= i < |row| => CellText(row[i])) }

  function BodyRows(rows: seq<seq<Text>>, width: nat): seq<Text> {
    seq(|rows|, i requires 0 <= i < |rows| => RowText(BodyCells(Padded(rows[i], width))))
  }

  function MarkdownLines(rows: seq<seq<Text>>, decimal: nat -> Text): seq<Text>
    requires rows != []
  {
    var width := MaxWidth(rows);
    [RowText(HeaderCells(Padded(rows[0], width), decimal)), RowText(seq(width,
        i requires 0 <= i < width => Lit("---")))]
    + BodyRows(rows[1..], width)
  }

  /** rows_to_markdown. */
  function Markdown(rows: seq<seq<Text>>, decimal: nat -> Text): Text {
    if rows == [] then [] else Joined(MarkdownLines(rows, decimal), [LF])
  }

  // --- every line can be read in its table ------------------------------------------------------------------

  /** What begins and ends with something else than white space. */
  predicate Tight(x: Text) { x != [] && !IsSpace(x[0]) && !IsSpace(x[|x| - 1]) }

  lemma WithinStrip(x: Text, s: Text)
    requires Tight(x) && Within(x, s)
    ensures Within(x, Strip(s))
  {
    hide Strip;
    var i :| OccursAt(x, s, i);
    assert s[i..i + |x|][0] == s[i] && s[i..i + |x|][|x| - 1] == s[i + |x| - 1];
    var o := StripKeeps(s, i, i + |x|);
    assert OccursAt(x, Strip(s), o);
  }

  lemma StripTight(s: Text)
    requires Strip(s) != []
    ensures Tight(Strip(s)) && Within(Strip(s), s)
  {
    var n := LStripCut(s);
    var m := RStripCut(s[n..]);
    LStripEdge(s);
    RStripEdge(LStrip(s));
    assert Strip(s) == s[n..][..m];
    assert s == s[..n] + s[n..][..m] + s[n..][m..];
    WithinMiddle(s[..n], s[n..][..m], s[n..][m..]);
  }

  lemma {:induction false} LStripEdge(s: Text)
    ensures LStrip(s) != [] ==> !IsSpace(LStrip(s)[0])
  {
    if s != [] && IsSpace(s[0]) { LStripEdge(s[1..]); }
  }

  lemma {:induction false} RStripEdge(s: Text)
    ensures RStrip(s) != [] ==> !IsSpace(RStrip(s)[|RStrip(s)| - 1]) && RStrip(s)[0] == s[0]
  {
    if s != [] && IsSpace(s[|s| - 1]) { RStripEdge(s[..|s| - 1]); }
  }

  lemma EscapedCons(s: Text)
    requires s != []
    ensures Escaped(s) == EscapedOne(s[0]) + Escaped(s[1..])
  {
  }

  lemma Regroup(a: Text, b: Text, c: Text)
    ensures a + (b + c) == (a + b) + c
  {
  }

  lemma {:induction false} EscapedAppend(a: Text, b: Text)
    ensures Escaped(a + b) == Escaped(a) + Escaped(b)
  {
    if a == [] {
      assert a + b == b;
    } else {
      hide EscapedOne;
      EscapedAppend(a[1..], b);
      EscapedCons(a);
      EscapedCons(a + b);
      assert (a + b)[1..] == a[1..] + b;
      Regroup(EscapedOne(a[0]), Escaped(a[1..]), Escaped(b));
    }
  }

  lemma EscapedWithin(x: Text, s: Text)
    requires Within(x, s)
    ensures Within(Escaped(x), Escaped(s))
  {
    hide Escaped;
    var i :| OccursAt(x, s, i);
    assert s == s[..i] + x + s[i + |x|..];
    EscapedAppend(s[..i] + x, s[i + |x|..]);
    EscapedAppend(s[..i], x);
    WithinMiddle(Escaped(s[..i]), Escaped(x), Escaped(s[i + |x|..]));
  }

  lemma EscapedTight(x: Text)
    requires Tight(x)
    ensures Tight(Escaped(x))
  {
    var init, last := x[..|x| - 1], x[|x| - 1];
    assert x == init + [last];
    EscapedAppend(init, [last]);
    assert [last][1..] == [];
    assert Escaped([last]) == if last == PIPE then [BACKSLASH, PIPE] else if last == LF then [SPACE] else [last];
  }

  lemma {:induction false} CellsHold(row: seq<Line>, edges: seq<real>, l: Line)
    requires edges != [] && l in row && Strip(l.text) != []
    ensures exists c :: 0 <= c < |edges| && Within(Strip(l.text), Cells(row, edges)[c])
  {
    hide Strip, Nearest;
    var init, line := row[..|row| - 1], row[|row| - 1];
    var cells, i := Cells(init, edges), Nearest(edges, line.x0);
    StripTight(l.text);
    assert row == init + [line];
    var front := cells[i] + [SPACE];
    assert Cells(row, edges)[i] == Strip(front + line.text);
    if l == line {
      assert front + line.text == front + line.text + [];
      WithinMiddle(front, line.text, []);
      WithinChain(Strip(l.text), l.text, front + line.text);
      WithinStrip(Strip(l.text), front + line.text);
    } else {
      CellsHold(init, edges, l);
      var c :| 0 <= c < |edges| && Within(Strip(l.text), cells[c]);
      if c == i {
        assert front + line.text == [] + cells[i] + ([SPACE] + line.text);
        WithinMiddle([], cells[i], [SPACE] + line.text);
        WithinChain(Strip(l.text), cells[i], front + line.text);
        WithinStrip(Strip(l.text), front + line.text);
      } else {
        assert Cells(row, edges)[c] == cells[c];
      }
    }
  }

  lemma GridHolds(rows: seq<seq<Line>>, r: nat, l: Line)
    requires r < |rows| && l in rows[r] && Strip(l.text) != []
    ensures exists c :: 0 <= c < |Grid(rows)[r]| && Within(Strip(l.text), Grid(rows)[r][c])
  {
    hide ColumnEdges, Cells, Strip;
    StripTight(l.text);
    var edges := ColumnEdges(rows);
    if |edges| < 2 {
      var i :| 0 <= i < |rows[r]| && rows[r][i] == l;
      var before, after := JoinedHolds(LineTexts(rows[r]), i, [SPACE]);
      WithinMiddle(before, l.text, after);
      WithinChain(Strip(l.text), l.text, Joined(LineTexts(rows[r]), [SPACE]));
      assert Within(Strip(l.text), Grid(rows)[r][0]);
    } else {
      CellsHold(rows[r], edges, l);
      assert Grid(rows)[r] == Cells(rows[r], edges);
    }
  }

  lemma CellHolds(x: Text, value: Text)
    requires Tight(x) && Within(x, value)
    ensures CellText(value) != [] && Within(Escaped(x), CellText(value))
  {
    EscapedWithin(x, value);
    EscapedTight(x);
    WithinStrip(Escaped(x), Escaped(value));
  }

  lemma RowHolds(cells: seq<Text>, c: nat, x: Text)
    requires c < |cells| && Within(x, cells[c])
    ensures Within(x, RowText(cells))
  {
    hide Joined;
    var before, after := JoinedHolds(cells, c, Lit(" | "));
    var whole := Lit("| ") + (before + cells[c] + after) + Lit(" |");
    assert whole == (Lit("| ") + before) + cells[c] + (after + Lit(" |"));
    WithinMiddle(Lit("| ") + before, cells[c], after + Lit(" |"));
    WithinChain(x, cells[c], whole);
  }

  lemma MarkdownRow(rows: seq<seq<Text>>, r: nat, decimal: nat -> Text) returns (row: seq<Text>)
    requires r < |rows|
    ensures Within(RowText(row), Markdown(rows, decimal))
    ensures |row| >= |rows[r]|
    ensures forall c :: 0 <= c < |rows[r]| && CellText(rows[r][c]) != [] ==> row[c] == CellText(rows[r][c])
  {
    hide Joined, CellText, RowText, MarkdownLines, Padded;
    var width := MaxWidth(rows);
    PaddedKeeps(rows[r], width);
    row := if r == 0 then HeaderCells(Padded(rows[0], width), decimal) else BodyCells(Padded(rows[r], width));
    LineAt(rows, r, decimal);
    var lines := MarkdownLines(rows, decimal);
    var before, after := JoinedHolds(lines, if r == 0 then 0 else r + 1, [LF]);
    WithinMiddle(before, RowText(row), after);
  }

  lemma PaddedKeeps(row: seq<Text>, width: nat)
    ensures |Padded(row, width)| >= |row| && Padded(row, width)[..|row|] == row
    ensures forall c :: 0 <= c < |row| ==> Padded(row, width)[c] == row[c]
  {
  }

  lemma LineAt(rows: seq<seq<Text>>, r: nat, decimal: nat -> Text)
    requires r < |rows|
    ensures var lines, width, i := MarkdownLines(rows, decimal), MaxWidth(rows), if r == 0 then 0 else r + 1;
      i < |lines| && lines[i] == RowText(if r == 0 then HeaderCells(Padded(rows[0], width),
          decimal) else BodyCells(Padded(rows[r], width)))
  {
    hide RowText, Padded, HeaderCells, BodyCells, MaxWidth;
    if r > 0 { assert rows[1..][r - 1] == rows[r]; }
  }

  /** Every line of an aligned table can be read in its markdown, cell-escaped. */
  lemma TableHolds(rows: seq<seq<Line>>, r: nat, l: Line, decimal: nat -> Text)
    requires r < |rows| && l in rows[r] && Strip(l.text) != []
    ensures Within(Escaped(Strip(l.text)), Markdown(Grid(rows), decimal))
  {
    hide Grid, Markdown, CellText, RowText, Escaped, Strip;
    StripTight(l.text);
    GridHolds(rows, r, l);
    var grid := Grid(rows);
    var c :| 0 <= c < |grid[r]| && Within(Strip(l.text), grid[r][c]);
    CellHolds(Strip(l.text), grid[r][c]);
    var row := MarkdownRow(grid, r, decimal);
    RowHolds(row, c, Escaped(Strip(l.text)));
    WithinChain(Escaped(Strip(l.text)), RowText(row), Markdown(grid, decimal));
  }

  // --- items ---------------------------------------------------------------------------------------------

  /** What a block is made from. */
  datatype Content =
    | Native(cells: seq<seq<Text>>)
    | Aligned(rows: seq<seq<Line>>)
    | Title(line: Line)
    | Prose(lines: seq<Line>)

  datatype Placed = Placed(column: nat, y: real, content: Content)

  /** What the page was measured to be, and the judgements of the libraries. */
  datatype Page = Page(
    number: int, width: real, medianHeight: real, isHeading: Line -> bool, decimal: nat -> Text, lowConf: real)

  function ContentLines(c: Content): seq<Line> {
    match c
    case Native(_) => []
    case Aligned(rows) => Flatten(rows)
    case Title(line) => [line]
    case Prose(lines) => lines
  }

  function ProseText(lines: seq<Line>): Text { Strip(Joined(LineTexts(lines), [SPACE])) }

  function ContentText(c: Content, decimal: nat -> Text): Text {
    match c
    case Native(cells) => Markdown(cells, decimal)
    case Aligned(rows) => Markdown(Grid(rows), decimal)
    case Title(line) => line.text
    case Prose(lines) => ProseText(lines)
  }

  /** The lines with something to read in them. */
  function Inked(lines: seq<Line>): multiset<Line> {
    if lines == [] then multiset{}
    else Inked(lines[..|lines| - 1]) + Maybe(lines[|lines| - 1], !Blank(lines[|lines| - 1].text))
  }

  function ItemsInk(items: seq<Placed>): multiset<Line> {
    if items == [] then multiset{} else ItemsInk(items[..|items| - 1]) + Inked(ContentLines(items[|items| - 1].content))
  }

  lemma {:induction false} InkedAppend(a: seq<Line>, b: seq<Line>)
    ensures Inked(a + b) == Inked(a) + Inked(b)
    decreases |b|
  {
    if b == [] {
      assert a + b == a;
    } else {
      assert (a + b)[..|a + b| - 1] == a + b[..|b| - 1];
      InkedAppend(a, b[..|b| - 1]);
    }
  }

  lemma {:induction false} InkedAt(lines: seq<Line>, l: Line)
    ensures Inked(lines)[l] == if Blank(l.text) then 0 else multiset(lines)[l]
  {
    hide Blank;
    if lines != [] {
      var init, last := lines[..|lines| - 1], lines[|lines| - 1];
      InkedAt(init, l);
      assert lines == init + [last];
      assert multiset(lines) == multiset(init) + multiset{last};
    }
  }

  lemma SameInk(a: seq<Line>, b: seq<Line>)
    requires multiset(a) == multiset(b)
    ensures Inked(a) == Inked(b)
  {
    forall l ensures Inked(a)[l] == Inked(b)[l] {
      InkedAt(a, l);
      InkedAt(b, l);
    }
  }

  lemma ItemsSnoc(items: seq<Placed>, it: Placed)
    ensures ItemsInk(items + [it]) == ItemsInk(items) + Inked(ContentLines(it.content))
  {
    assert (items + [it])[..|items|] == items;
  }

  lemma {:induction false} ItemsAppend(a: seq<Placed>, b: seq<Placed>)
    ensures ItemsInk(a + b) == ItemsInk(a) + ItemsInk(b)
    decreases |b|
  {
    if b == [] {
      assert a + b == a;
    } else {
      assert (a + b)[..|a + b| - 1] == a + b[..|b| - 1];
      ItemsAppend(a, b[..|b| - 1]);
    }
  }

  /** A paragraph that shows nothing had nothing to show. */
  lemma BlankProse(lines: seq<Line>)
    requires ProseText(lines) == []
    ensures Inked(lines) == multiset{}
  {
    hide Strip, Joined;
    forall l ensures Inked(lines)[l] == 0 {
      InkedAt(lines, l);
      if l in lines && !Blank(l.text) { ProseHolds(lines, l); }
    }
  }

  /** Every line of a paragraph can be read in it. */
  lemma ProseHolds(lines: seq<Line>, l: Line)
    requires l in lines && Strip(l.text) != []
    ensures ProseText(lines) != [] && Within(Strip(l.text), ProseText(lines))
  {
    hide Strip, Joined;
    StripTight(l.text);
    var i :| 0 <= i < |lines| && lines[i] == l;
    var before, after := JoinedHolds(LineTexts(lines), i, [SPACE]);
    WithinMiddle(before, l.text, after);
    WithinChain(Strip(l.text), l.text, Joined(LineTexts(lines), [SPACE]));
    WithinStrip(Strip(l.text), Joined(LineTexts(lines), [SPACE]));
  }

  /** _flush_paragraph. */
  method FlushParagraph(items: seq<Placed>, paragraph: seq<Line>, column: nat) returns (more: seq<Placed>)
    ensures ItemsInk(more) == ItemsInk(items) + Inked(paragraph)
    ensures more == items || (paragraph != [] && more == items + [Placed(column, paragraph[0].y0, Prose(paragraph))])
    ensures more == items <==> ProseText(paragraph) == []
  {
    hide ProseText;
    if paragraph == [] {
      NothingToShow();
      return items;
    }
    if ProseText(paragraph) == [] {
      BlankProse(paragraph);
      return items;
    }
    more := items + [Placed(column, paragraph[0].y0, Prose(paragraph))];
    ItemsSnoc(items, Placed(column, paragraph[0].y0, Prose(paragraph)));
  }

  lemma NothingToShow()
    ensures ProseText([]) == [] && Inked([]) == multiset{}
  {
  }

  // --- one column ----------------------------------------------------------------------------------------

  /** Runs that share at least three column positions. */
  function Confirmed(spans: seq<Span>, rows: seq<seq<Line>>): (c: seq<Span>)
    requires forall k :: 0 <= k < |spans| ==> spans[k].end < |rows|
    ensures forall k :: 0 <= k < |c| ==> c[k] in spans
  {
    if spans == [] then []
    else
      var last := spans[|spans| - 1];
      Confirmed(spans[..|spans| - 1], rows)
      + (if last.start <= last.end && |ColumnEdges(rows[last.start..last.end + 1])| >= 3 then [last] else [])
  }

  lemma {:induction false} ConfirmedApart(spans: seq<Span>, rows: seq<seq<Line>>)
    requires SpansApart(spans, |rows|)
    ensures SpansApart(Confirmed(spans, rows), |rows|)
    ensures Confirmed(spans, rows) != [] ==>
      spans != [] && Confirmed(spans, rows)[|Confirmed(spans, rows)| - 1].end <= spans[|spans| - 1].end
  {
    hide SpansApart;
    NoSpans(|rows|);
    SpansInside(spans, |rows|);
    if spans != [] {
      hide Confirmed;
      var init, last := spans[..|spans| - 1], spans[|spans| - 1];
      InitApart(spans, |rows|);
      SpansInside(init, |rows|);
      ConfirmedApart(init, rows);
      ConfirmedLast(spans, rows);
      ApartSnoc(Confirmed(init, rows), last, |rows|);
    }
  }

  lemma ConfirmedLast(spans: seq<Span>, rows: seq<seq<Line>>)
    requires spans != [] && forall k :: 0 <= k < |spans| ==> spans[k].end < |rows|
    ensures var c, init := Confirmed(spans, rows), spans[..|spans| - 1];
      c == Confirmed(init, rows) || c == Confirmed(init, rows) + [spans[|spans| - 1]]
  {
    hide ColumnEdges;
    var before := Confirmed(spans[..|spans| - 1], rows);
    assert before + [] == before;
  }

  lemma NoSpans(n: nat)
    ensures SpansApart([], n)
  {
  }

  lemma InitApart(spans: seq<Span>, n: nat)
    requires spans != [] && SpansApart(spans, n)
    ensures SpansApart(spans[..|spans| - 1], n) && spans[|spans| - 1].start < spans[|spans| - 1].end < n
    ensures |spans| >= 2 ==> spans[|spans| - 2].end + 1 < spans[|spans| - 1].start
  {
  }

  lemma ApartSnoc(spans: seq<Span>, s: Span, n: nat)
    requires SpansApart(spans, n) && s.start < s.end < n && (spans != [] ==> spans[|spans| - 1].end + 1 < s.start)
    ensures SpansApart(spans + [s], n)
  {
  }

  /** The ink of the chosen rows among the first `n`. */
  function RowsInk(rows: seq<seq<Line>>, n: nat, chosen: set<nat>): multiset<Line>
    requires n <= |rows|
  {
    if n == 0 then multiset{}
    else RowsInk(rows, n - 1, chosen) + (if n - 1 in chosen then Inked(rows[n - 1]) else multiset{})
  }

  function SpanRows(s: Span): set<nat> { set i: nat | s.start <= i <= s.end && InSpan(s, i) }

  function SpansRows(spans: seq<Span>): set<nat> {
    if spans == [] then {} else SpansRows(spans[..|spans| - 1]) + SpanRows(spans[|spans| - 1])
  }

  predicate Below(i: nat, n: nat) { i < n }

  function AllRows(n: nat): set<nat> { set i: nat | i < n && Below(i, n) }

  lemma {:induction false} RowsInkSplit(rows: seq<seq<Line>>, n: nat, a: set<nat>, b: set<nat>)
    requires n <= |rows| && a !! b
    ensures RowsInk(rows, n, a + b) == RowsInk(rows, n, a) + RowsInk(rows, n, b)
  {
    hide Inked;
    if n > 0 { RowsInkSplit(rows, n - 1, a, b); }
  }

  lemma {:induction false} RowsInkSame(rows: seq<seq<Line>>, n: nat, a: set<nat>, b: set<nat>)
    requires n <= |rows| && forall i :: 0 <= i < n ==> (i in a <==> i in b)
    ensures RowsInk(rows, n, a) == RowsInk(rows, n, b)
  {
    if n > 0 { RowsInkSame(rows, n - 1, a, b); }
  }

  lemma {:induction false} FlatInk(rows: seq<seq<Line>>, n: nat)
    requires n <= |rows|
    ensures RowsInk(rows, n, AllRows(n)) == Inked(Flatten(rows[..n]))
  {
    hide Inked;
    if n == 0 {
      NothingToShow();
    } else {
      FlatInk(rows, n - 1);
      RowsInkSame(rows, n - 1, AllRows(n - 1), AllRows(n));
      InkSnoc(rows, 0, n);
      assert rows[0..n] == rows[..n] && rows[0..n - 1] == rows[..n - 1];
    }
  }

  lemma {:induction false} SpanInk(rows: seq<seq<Line>>, s: Span, n: nat)
    requires s.start <= n <= |rows|
    ensures RowsInk(rows, n, SpanRows(s)) ==
      Inked(Flatten(rows[s.start..if n <= s.end then n else if s.start <= s.end then s.end + 1 else s.start]))
    decreases n
  {
    hide Inked;
    if n == s.start {
      NothingToShow();
      RowsInkSame(rows, n, SpanRows(s), {});
      NoRowsChosen(rows, n);
    } else {
      InSpanRows(s, n - 1);
      hide SpanRows, Flatten;
      SpanInk(rows, s, n - 1);
      if n - 1 <= s.end { InkSnoc(rows, s.start, n); }
    }
  }

  lemma InSpanRows(s: Span, i: nat)
    ensures i in SpanRows(s) <==> s.start <= i <= s.end
  {
  }

  lemma InkSnoc(rows: seq<seq<Line>>, m: nat, n: nat)
    requires m < n <= |rows|
    ensures Inked(Flatten(rows[m..n])) == Inked(Flatten(rows[m..n - 1])) + Inked(rows[n - 1])
  {
    hide Inked, Flatten;
    assert rows[m..n] == rows[m..n - 1] + [rows[n - 1]];
    FlattenAppend(rows[m..n - 1], [rows[n - 1]]);
    FlattenOne(rows[n - 1]);
    InkedAppend(Flatten(rows[m..n - 1]), rows[n - 1]);
  }

  lemma {:induction false} NoRowsChosen(rows: seq<seq<Line>>, n: nat)
    requires n <= |rows|
    ensures RowsInk(rows, n, {}) == multiset{}
  {
    if n > 0 { NoRowsChosen(rows, n - 1); }
  }

  lemma {:induction false} SpansCover(spans: seq<Span>, n: nat)
    requires SpansApart(spans, n)
    ensures forall i: nat :: i in SpansRows(spans) ==> spans != [] && i <= spans[|spans| - 1].end
  {
    if spans != [] {
      var init := spans[..|spans| - 1];
      SpansCover(init, n);
      if init != [] { assert init[|init| - 1].end + 1 < spans[|spans| - 1].start; }
    }
  }

  function TableItems(spans: seq<Span>, rows: seq<seq<Line>>, ordinal: nat): seq<Placed>
    requires forall k :: 0 <= k < |spans| ==> spans[k].start <= spans[k].end < |rows| && rows[spans[k].start] != []
  {
    if spans == [] then []
    else
      var last := spans[|spans| - 1];
      TableItems(spans[..|spans| - 1], rows, ordinal)
      + [Placed(ordinal, rows[last.start][0].y0, Aligned(rows[last.start..last.end + 1]))]
  }

  lemma NoItems()
    ensures ItemsInk([]) == multiset{}
  {
  }

  /** The tables take exactly the lines of their rows. */
  lemma {:induction false} TablesInk(spans: seq<Span>, rows: seq<seq<Line>>, ordinal: nat)
    requires SpansApart(spans, |rows|) && forall k :: 0 <= k < |spans| ==> rows[spans[k].start] != []
    ensures ItemsInk(TableItems(spans, rows, ordinal)) == RowsInk(rows, |rows|, SpansRows(spans))
  {
    hide Inked, RowsInk, ItemsInk;
    if spans == [] {
      NoRowsChosen(rows, |rows|);
      NoItems();
    } else {
      var init, last := spans[..|spans| - 1], spans[|spans| - 1];
      TablesInk(init, rows, ordinal);
      ItemsSnoc(TableItems(init, rows, ordinal),
        Placed(ordinal, rows[last.start][0].y0, Aligned(rows[last.start..last.end + 1])));
      SpansCover(init, |rows|);
      if init != [] { assert init[|init| - 1].end + 1 < last.start; }
      RowsInkSplit(rows, |rows|, SpansRows(init), SpanRows(last));
      SpanInk(rows, last, |rows|);
    }
  }

  method PlaceTables(spans: seq<Span>, rows: seq<seq<Line>>, ordinal: nat)
    returns (items: seq<Placed>, consumed: set<nat>)
    requires forall k :: 0 <= k < |spans| ==> spans[k].start <= spans[k].end < |rows| && rows[spans[k].start] != []
    ensures items == TableItems(spans, rows, ordinal) && consumed == SpansRows(spans)
  {
    items, consumed := [], {};
    for k := 0 to |spans|
      invariant items == TableItems(spans[..k], rows, ordinal) && consumed == SpansRows(spans[..k])
    {
      var s := spans[k];
      assert spans[..k + 1][..k] == spans[..k];
      items := items + [Placed(ordinal, rows[s.start][0].y0, Aligned(rows[s.start..s.end + 1]))];
      consumed := consumed + SpanRows(s);
    }
    assert spans[..|spans|] == spans;
  }

  function Bottom(row: seq<Line>): real
    requires row != []
  {
    if |row| == 1 || row[0].y1 >= Bottom(row[1..]) then row[0].y1 else Bottom(row[1..])
  }

  /** The lowest edge of a row. */
  lemma {:induction false} BottomIs(row: seq<Line>)
    requires row != []
    ensures (exists l :: l in row && l.y1 == Bottom(row)) && forall l :: l in row ==> l.y1 <= Bottom(row)
  {
    if |row| > 1 {
      BottomIs(row[1..]);
      assert row == [row[0]] + row[1..];
      if row[0].y1 >= Bottom(row[1..]) { assert row[0] in row; }
    } else {
      assert row[0] in row;
    }
  }

  /** Rows that follow each other in the column, the last one excluded. */
  datatype Stretch = Stretch(start: nat, end: nat)

  predicate IsTitle(page: Page, row: seq<Line>) { |row| == 1 && page.isHeading(row[0]) }

  /** More than 1.6 lines of white between row `i` and the row above it. */
  predicate Gap(page: Page, rows: seq<seq<Line>>, i: int)
    requires forall r :: 0 <= r < |rows| ==> rows[r] != []
  {
    0 < i < |rows| && rows[i][0].y0 - Bottom(rows[i - 1]) > page.medianHeight * 1.6
  }

  /** A heading by itself, or rows of prose without a gap. */
  predicate Whole(page: Page, rows: seq<seq<Line>>, consumed: set<nat>, s: Stretch)
    requires forall r :: 0 <= r < |rows| ==> rows[r] != []
  {
    && s.start < s.end <= |rows| && (forall i :: s.start <= i < s.end ==> i !in consumed)
    && (if IsTitle(page, rows[s.start]) then s.end == s.start + 1
        else
          && (forall i :: s.start <= i < s.end ==> !IsTitle(page, rows[i]))
          && (forall i :: s.start < i < s.end ==> !Gap(page, rows, i)))
  }

  /** Two stretches in order; if nothing lies between them, there is a reason for
      the break. */
  predicate Broken(page: Page, rows: seq<seq<Line>>, a: Stretch, b: Stretch)
    requires forall r :: 0 <= r < |rows| ==> rows[r] != []
  {
    && a.end <= b.start < |rows| && a.start < |rows|
    && (a.end == b.start ==>
          IsTitle(page, rows[a.start]) || IsTitle(page, rows[b.start]) || Gap(page, rows, b.start))
  }

  predicate InStretch(s: Stretch, i: int) { s.start <= i < s.end }

  ghost predicate InSome(stretches: seq<Stretch>, i: int) {
    exists k :: 0 <= k < |stretches| && InStretch(stretches[k], i)
  }

  /** The rows outside tables, among the first `n`, fall into these stretches. */
  ghost predicate Falls(page: Page, rows: seq<seq<Line>>, consumed: set<nat>, stretches: seq<Stretch>, n: nat)
    requires forall r :: 0 <= r < |rows| ==> rows[r] != []
  {
    && n <= |rows|
    && (forall k :: 0 <= k < |stretches| ==> Whole(page, rows, consumed, stretches[k]) && stretches[k].end <= n)
    && (forall k :: 0 <= k < |stretches| - 1 ==> Broken(page, rows, stretches[k], stretches[k + 1]))
    && (forall i :: 0 <= i < n ==> (i !in consumed <==> InSome(stretches, i)))
  }

  /** What a stretch becomes: a heading, or a paragraph if it shows anything. */
  function StretchItem(page: Page, rows: seq<seq<Line>>, ordinal: nat, s: Stretch): seq<Placed>
    requires s.start < s.end <= |rows| && forall r :: 0 <= r < |rows| ==> rows[r] != []
  {
    var first, lines := rows[s.start][0], Flatten(rows[s.start..s.end]);
    if IsTitle(page, rows[s.start]) then [Placed(ordinal, first.y0, Title(first))]
    else if ProseText(lines) == [] then [] else [Placed(ordinal, first.y0, Prose(lines))]
  }

  function StretchItems(page: Page, rows: seq<seq<Line>>, ordinal: nat, stretches: seq<Stretch>): seq<Placed>
    requires forall k :: 0 <= k < |stretches| ==> stretches[k].start < stretches[k].end <= |rows|
    requires forall r :: 0 <= r < |rows| ==> rows[r] != []
  {
    if stretches == [] then []
    else
      StretchItems(page, rows, ordinal, stretches[..|stretches| - 1])
      + StretchItem(page, rows, ordinal, stretches[|stretches| - 1])
  }

  /** The stretches so far, the one still open among them. */
  function WithOpen(closed: seq<Stretch>, from: nat, to: nat): seq<Stretch> {
    if from < to then closed + [Stretch(from, to)] else closed
  }

  lemma InSomeSnoc(stretches: seq<Stretch>, s: Stretch, i: int)
    ensures InSome(stretches + [s], i) <==> InSome(stretches, i) || InStretch(s, i)
  {
    if InSome(stretches, i) {
      var k :| 0 <= k < |stretches| && InStretch(stretches[k], i);
      assert (stretches + [s])[k] == stretches[k];
    }
    if InStretch(s, i) { assert (stretches + [s])[|stretches|] == s; }
  }

  /** A row of a table closes whatever is open. */
  lemma FallsOver(page: Page, rows: seq<seq<Line>>, consumed: set<nat>, stretches: seq<Stretch>, n: nat)
    requires forall r :: 0 <= r < |rows| ==> rows[r] != []
    requires Falls(page, rows, consumed, stretches, n) && n < |rows| && n in consumed
    ensures Falls(page, rows, consumed, stretches, n + 1)
  {
    hide Whole, Broken;
    forall k | 0 <= k < |stretches| ensures !InStretch(stretches[k], n) { assert stretches[k].end <= n; }
  }

  /** A row by itself. */
  lemma FallsInto(page: Page, rows: seq<seq<Line>>, consumed: set<nat>, stretches: seq<Stretch>, n: nat)
    requires forall r :: 0 <= r < |rows| ==> rows[r] != []
    requires Falls(page, rows, consumed, stretches, n) && n < |rows| && n !in consumed
    requires stretches != [] && stretches[|stretches| - 1].end == n ==>
      IsTitle(page, rows[stretches[|stretches| - 1].start]) || IsTitle(page, rows[n]) || Gap(page, rows, n)
    ensures Falls(page, rows, consumed, stretches + [Stretch(n, n + 1)], n + 1)
  {
    var more := stretches + [Stretch(n, n + 1)];
    assert Whole(page, rows, consumed, Stretch(n, n + 1));
    assert stretches != [] ==> Broken(page, rows, stretches[|stretches| - 1], Stretch(n, n + 1));
    hide Whole, Broken, Gap, IsTitle;
    forall i | 0 <= i < n + 1 ensures i !in consumed <==> InSome(more, i) {
      InSomeSnoc(stretches, Stretch(n, n + 1), i);
    }
  }

  /** A row that goes on with the stretch that is open. */
  lemma FallsOn(page: Page, rows: seq<seq<Line>>, consumed: set<nat>, closed: seq<Stretch>, from: nat, n: nat)
    requires forall r :: 0 <= r < |rows| ==> rows[r] != []
    requires from < n < |rows| && Falls(page, rows, consumed, closed + [Stretch(from, n)], n)
    requires n !in consumed && !IsTitle(page, rows[from]) && !IsTitle(page, rows[n]) && !Gap(page, rows, n)
    ensures Falls(page, rows, consumed, closed + [Stretch(from, n + 1)], n + 1)
  {
    var before, after := closed + [Stretch(from, n)], closed + [Stretch(from, n + 1)];
    assert Whole(page, rows, consumed, before[|closed|]);
    LongerWhole(page, rows, consumed, from, n);
    forall k | 0 <= k < |after| - 1 ensures Broken(page, rows, after[k], after[k + 1]) {
      assert Broken(page, rows, before[k], before[k + 1]);
    }
    hide Broken, Gap, IsTitle;
    forall k | 0 <= k < |after| ensures Whole(page, rows, consumed, after[k]) && after[k].end <= n + 1 {
      if k < |closed| { assert after[k] == before[k]; }
    }
    forall i | 0 <= i < n + 1 ensures i !in consumed <==> InSome(after, i) {
      InSomeSnoc(closed, Stretch(from, n), i);
      InSomeSnoc(closed, Stretch(from, n + 1), i);
    }
  }

  lemma LongerWhole(page: Page, rows: seq<seq<Line>>, consumed: set<nat>, from: nat, n: nat)
    requires forall r :: 0 <= r < |rows| ==> rows[r] != []
    requires from < n < |rows| && Whole(page, rows, consumed, Stretch(from, n))
    requires n !in consumed && !IsTitle(page, rows[from]) && !IsTitle(page, rows[n]) && !Gap(page, rows, n)
    ensures Whole(page, rows, consumed, Stretch(from, n + 1))
  {
    hide Gap, IsTitle;
  }

  lemma ItemsClose(page: Page, rows: seq<seq<Line>>, ordinal: nat, stretches: seq<Stretch>, s: Stretch)
    requires forall k :: 0 <= k < |stretches| ==> stretches[k].start < stretches[k].end <= |rows|
    requires s.start < s.end <= |rows| && forall r :: 0 <= r < |rows| ==> rows[r] != []
    ensures StretchItems(page, rows, ordinal, stretches + [s]) ==
      StretchItems(page, rows, ordinal, stretches) + StretchItem(page, rows, ordinal, s)
  {
    hide StretchItem;
    assert (stretches + [s])[..|stretches|] == stretches;
  }

  lemma FallsNowhere(page: Page, rows: seq<seq<Line>>, consumed: set<nat>)
    requires forall r :: 0 <= r < |rows| ==> rows[r] != []
    ensures Falls(page, rows, consumed, [], 0)
  {
  }

  lemma FallsInside(page: Page, rows: seq<seq<Line>>, consumed: set<nat>, stretches: seq<Stretch>, n: nat)
    requires forall r :: 0 <= r < |rows| ==> rows[r] != []
    requires Falls(page, rows, consumed, stretches, n)
    ensures forall k :: 0 <= k < |stretches| ==>
      stretches[k].start < stretches[k].end <= |rows| && stretches[k].end <= n
  {
    hide Broken;
  }

  /** Where the loop stands before row `n`: what is closed, and what is open. */
  ghost predicate Reading(page: Page, rows: seq<seq<Line>>, consumed: set<nat>, ordinal: nat, tables: seq<Placed>,
                          closed: seq<Stretch>, from: nat, n: nat, items: seq<Placed>, paragraph: seq<Line>)
    requires forall r :: 0 <= r < |rows| ==> rows[r] != []
  {
    && from <= n <= |rows| && Falls(page, rows, consumed, WithOpen(closed, from, n), n)
    && (forall k :: 0 <= k < |closed| ==> closed[k].start < closed[k].end <= |rows| && closed[k].end <= from)
    && items == tables + StretchItems(page, rows, ordinal, closed) && paragraph == Flatten(rows[from..n])
    && (from < n ==> !IsTitle(page, rows[from]) && n - 1 !in consumed)
    && (from == n && closed != [] && closed[|closed| - 1].end == n ==>
          IsTitle(page, rows[closed[|closed| - 1].start]))
  }

  /** The items once the open paragraph is closed. */
  ghost predicate Closed(page: Page, rows: seq<seq<Line>>, ordinal: nat, tables: seq<Placed>, closed: seq<Stretch>,
                         items: seq<Placed>)
    requires forall r :: 0 <= r < |rows| ==> rows[r] != []
  {
    (forall k :: 0 <= k < |closed| ==> closed[k].start < closed[k].end <= |rows|)
    && items == tables + StretchItems(page, rows, ordinal, closed)
  }

  lemma AtStart(page: Page, rows: seq<seq<Line>>, consumed: set<nat>, ordinal: nat, tables: seq<Placed>)
    requires forall r :: 0 <= r < |rows| ==> rows[r] != []
    ensures Reading(page, rows, consumed, ordinal, tables, [], 0, 0, tables, [])
  {
    FallsNowhere(page, rows, consumed);
    NoStretches(page, rows, ordinal, tables);
  }

  lemma OverTable(page: Page, rows: seq<seq<Line>>, consumed: set<nat>, ordinal: nat, tables: seq<Placed>,
                  closed: seq<Stretch>, from: nat, n: nat, items: seq<Placed>, paragraph: seq<Line>, more: seq<Placed>)
    requires forall r :: 0 <= r < |rows| ==> rows[r] != []
    requires n < |rows| && n in consumed
    requires Reading(page, rows, consumed, ordinal, tables, closed, from, n, items, paragraph)
    requires Closed(page, rows, ordinal, tables, WithOpen(closed, from, n), more)
    ensures Reading(page, rows, consumed, ordinal, tables, WithOpen(closed, from, n), n + 1, n + 1, more, [])
  {
    FallsOver(page, rows, consumed, WithOpen(closed, from, n), n);
    FallsInside(page, rows, consumed, WithOpen(closed, from, n), n);
    NoRowsYet(rows, n + 1);
    hide Falls, StretchItems, Flatten, IsTitle;
  }

  lemma OverTitle(page: Page, rows: seq<seq<Line>>, consumed: set<nat>, ordinal: nat, tables: seq<Placed>,
                  closed: seq<Stretch>, from: nat, n: nat, items: seq<Placed>, paragraph: seq<Line>, more: seq<Placed>)
    requires forall r :: 0 <= r < |rows| ==> rows[r] != []
    requires n < |rows| && n !in consumed && IsTitle(page, rows[n])
    requires Reading(page, rows, consumed, ordinal, tables, closed, from, n, items, paragraph)
    requires Closed(page, rows, ordinal, tables, WithOpen(closed, from, n), more)
    ensures Reading(page, rows, consumed, ordinal, tables, WithOpen(closed, from, n) + [Stretch(n, n + 1)],
                    n + 1, n + 1, more + [Placed(ordinal, rows[n][0].y0, Title(rows[n][0]))], [])
  {
    hide StretchItems, Flatten, IsTitle, Falls;
    var now := WithOpen(closed, from, n);
    FallsInto(page, rows, consumed, now, n);
    FallsInside(page, rows, consumed, now, n);
    HeadingItem(page, rows, ordinal, now, n, tables);
    NoRowsYet(rows, n + 1);
  }

  lemma AfterGap(page: Page, rows: seq<seq<Line>>, consumed: set<nat>, ordinal: nat, tables: seq<Placed>,
                 closed: seq<Stretch>, from: nat, n: nat, items: seq<Placed>, paragraph: seq<Line>, more: seq<Placed>)
    requires forall r :: 0 <= r < |rows| ==> rows[r] != []
    requires n < |rows| && n !in consumed && !IsTitle(page, rows[n]) && Gap(page, rows, n)
    requires Reading(page, rows, consumed, ordinal, tables, closed, from, n, items, paragraph)
    requires Closed(page, rows, ordinal, tables, WithOpen(closed, from, n), more)
    ensures Reading(page, rows, consumed, ordinal, tables, WithOpen(closed, from, n), n, n + 1, more, [] + rows[n])
  {
    hide StretchItems, Flatten, IsTitle, Falls, Gap;
    var now := WithOpen(closed, from, n);
    FallsInto(page, rows, consumed, now, n);
    FallsInside(page, rows, consumed, now, n);
    NoRowsYet(rows, n);
    RowsGrow(rows, n, n);
  }

  lemma NextLine(page: Page, rows: seq<seq<Line>>, consumed: set<nat>, ordinal: nat, tables: seq<Placed>,
                 closed: seq<Stretch>, from: nat, n: nat, items: seq<Placed>, paragraph: seq<Line>)
    requires forall r :: 0 <= r < |rows| ==> rows[r] != []
    requires n < |rows| && n !in consumed && !IsTitle(page, rows[n])
    requires from < n ==> !Gap(page, rows, n)
    requires Reading(page, rows, consumed, ordinal, tables, closed, from, n, items, paragraph)
    ensures Reading(page, rows, consumed, ordinal, tables, closed, from, n + 1, items, paragraph + rows[n])
  {
    hide StretchItems, Flatten, IsTitle, Falls, Gap;
    if from < n {
      FallsOn(page, rows, consumed, closed, from, n);
    } else {
      FallsInto(page, rows, consumed, closed, n);
    }
    RowsGrow(rows, from, n);
  }

  lemma ReadThrough(page: Page, rows: seq<seq<Line>>, consumed: set<nat>, ordinal: nat, tables: seq<Placed>,
                    closed: seq<Stretch>, from: nat, n: nat, items: seq<Placed>, paragraph: seq<Line>)
    requires forall r :: 0 <= r < |rows| ==> rows[r] != []
    requires Reading(page, rows, consumed, ordinal, tables, closed, from, n, items, paragraph)
    ensures from <= n <= |rows| && Falls(page, rows, consumed, WithOpen(closed, from, n), n)
    ensures from < n ==> n - 1 !in consumed
  {
    hide Falls;
  }

  /** The rest of the column is prose: headings by themselves, paragraphs broken at
      gaps, at tables and at headings, and nowhere else. */
  method PlaceProse(page: Page, rows: seq<seq<Line>>, consumed: set<nat>, ordinal: nat, tables: seq<Placed>)
    returns (items: seq<Placed>, ghost stretches: seq<Stretch>)
    requires forall r :: 0 <= r < |rows| ==> rows[r] != []
    ensures Falls(page, rows, consumed, stretches, |rows|)
    ensures (forall k :: 0 <= k < |stretches| ==> stretches[k].start < stretches[k].end <= |rows|)
      && items == tables + StretchItems(page, rows, ordinal, stretches)
  {
    hide Reading, Closed, Falls, Gap, IsTitle, Bottom, StretchItems, WithOpen;
    items := tables;
    var paragraph: seq<Line> := [];
    var previousBottom: Option<real> := None;
    ghost var closed: seq<Stretch>, from := [], 0;
    AtStart(page, rows, consumed, ordinal, tables);
    for index := 0 to |rows|
      invariant Reading(page, rows, consumed, ordinal, tables, closed, from, index, items, paragraph)
      invariant previousBottom ==
        if index == 0 || index - 1 in consumed then None else Some(Bottom(rows[index - 1]))
    {
      var row := rows[index];
      TitleIs(page, row);
      if index in consumed {
        var more := CloseParagraph(page, rows, consumed, ordinal, items, paragraph, tables, closed, from, index);
        OverTable(page, rows, consumed, ordinal, tables, closed, from, index, items, paragraph, more);
        closed, from, paragraph, items := WithOpen(closed, from, index), index + 1, [], more;
        previousBottom := None;
      } else if |row| == 1 && page.isHeading(row[0]) {
        var more := CloseParagraph(page, rows, consumed, ordinal, items, paragraph, tables, closed, from, index);
        OverTitle(page, rows, consumed, ordinal, tables, closed, from, index, items, paragraph, more);
        items := more + [Placed(ordinal, row[0].y0, Title(row[0]))];
        closed, from, paragraph := WithOpen(closed, from, index) + [Stretch(index, index + 1)], index + 1, [];
        previousBottom := Some(Bottom(row));
      } else {
        GapIs(page, rows, index);
        ReadThrough(page, rows, consumed, ordinal, tables, closed, from, index, items, paragraph);
        if previousBottom.Some? && row[0].y0 - previousBottom.value > page.medianHeight * 1.6 {
          var more := CloseParagraph(page, rows, consumed, ordinal, items, paragraph, tables, closed, from, index);
          AfterGap(page, rows, consumed, ordinal, tables, closed, from, index, items, paragraph, more);
          closed, from, paragraph, items := WithOpen(closed, from, index), index, [], more;
        } else {
          NextLine(page, rows, consumed, ordinal, tables, closed, from, index, items, paragraph);
        }
        paragraph := paragraph + row;
        previousBottom := Some(Bottom(row));
      }
    }
    ReadThrough(page, rows, consumed, ordinal, tables, closed, from, |rows|, items, paragraph);
    items := CloseParagraph(page, rows, consumed, ordinal, items, paragraph, tables, closed, from, |rows|);
    stretches := WithOpen(closed, from, |rows|);
    ClosedIs(page, rows, ordinal, tables, stretches, items);
  }

  lemma ClosedIs(page: Page, rows: seq<seq<Line>>, ordinal: nat, tables: seq<Placed>, closed: seq<Stretch>,
                 items: seq<Placed>)
    requires (forall r :: 0 <= r < |rows| ==> rows[r] != []) && Closed(page, rows, ordinal, tables, closed, items)
    ensures forall k :: 0 <= k < |closed| ==> closed[k].start < closed[k].end <= |rows|
    ensures items == tables + StretchItems(page, rows, ordinal, closed)
  {
  }

  lemma NoStretches(page: Page, rows: seq<seq<Line>>, ordinal: nat, tables: seq<Placed>)
    requires forall r :: 0 <= r < |rows| ==> rows[r] != []
    ensures tables == tables + StretchItems(page, rows, ordinal, []) && Flatten(rows[0..0]) == []
  {
  }

  lemma NoRowsYet(rows: seq<seq<Line>>, i: nat)
    requires i <= |rows|
    ensures Flatten(rows[i..i]) == []
  {
  }

  lemma RowsGrow(rows: seq<seq<Line>>, from: nat, i: nat)
    requires from <= i < |rows|
    ensures Flatten(rows[from..i]) + rows[i] == Flatten(rows[from..i + 1])
  {
    assert rows[from..i + 1] == rows[from..i] + [rows[i]];
    FlattenAppend(rows[from..i], [rows[i]]);
    FlattenOne(rows[i]);
  }

  lemma TitleIs(page: Page, row: seq<Line>)
    ensures IsTitle(page, row) <==> |row| == 1 && page.isHeading(row[0])
  {
  }

  lemma GapIs(page: Page, rows: seq<seq<Line>>, i: nat)
    requires i < |rows| && forall r :: 0 <= r < |rows| ==> rows[r] != []
    ensures Gap(page, rows, i) <==> i > 0 && rows[i][0].y0 - Bottom(rows[i - 1]) > page.medianHeight * 1.6
  {
  }

  lemma HeadingItem(page: Page, rows: seq<seq<Line>>, ordinal: nat, closed: seq<Stretch>, i: nat, tables: seq<Placed>)
    requires forall k :: 0 <= k < |closed| ==> closed[k].start < closed[k].end <= |rows|
    requires i < |rows| && (forall r :: 0 <= r < |rows| ==> rows[r] != []) && IsTitle(page, rows[i])
    ensures tables + StretchItems(page, rows, ordinal, closed) + [Placed(ordinal, rows[i][0].y0, Title(rows[i][0]))] ==
      tables + StretchItems(page, rows, ordinal, closed + [Stretch(i, i + 1)])
  {
    hide StretchItems;
    ItemsClose(page, rows, ordinal, closed, Stretch(i, i + 1));
  }

  /** The paragraph that is open, if there is one, becomes an item. */
  method CloseParagraph(page: Page, rows: seq<seq<Line>>, ghost consumed: set<nat>, ordinal: nat, items: seq<Placed>,
                        paragraph: seq<Line>, ghost tables: seq<Placed>, ghost closed: seq<Stretch>, ghost from: nat,
                        ghost to: nat)
    returns (more: seq<Placed>)
    requires forall r :: 0 <= r < |rows| ==> rows[r] != []
    requires Reading(page, rows, consumed, ordinal, tables, closed, from, to, items, paragraph)
    ensures Closed(page, rows, ordinal, tables, WithOpen(closed, from, to), more)
  {
    hide ProseText, StretchItems, StretchItem, Flatten, IsTitle, ItemsInk, Inked, Falls;
    more := FlushParagraph(items, paragraph, ordinal);
    if from < to {
      ItemsClose(page, rows, ordinal, closed, Stretch(from, to));
      ParagraphItem(page, rows, ordinal, from, to);
      Regrouped(tables, StretchItems(page, rows, ordinal, closed), StretchItem(page, rows, ordinal, Stretch(from, to)));
      assert items + [] == items;
    } else {
      NoRowsYet(rows, from);
      NothingToShow();
    }
  }

  lemma Regrouped<T>(a: seq<T>, b: seq<T>, c: seq<T>)
    ensures a + (b + c) == (a + b) + c
  {
  }

  lemma ParagraphItem(page: Page, rows: seq<seq<Line>>, ordinal: nat, from: nat, to: nat)
    requires from < to <= |rows| && (forall r :: 0 <= r < |rows| ==> rows[r] != []) && !IsTitle(page, rows[from])
    ensures var lines := Flatten(rows[from..to]);
      && lines != []
      && StretchItem(page, rows, ordinal, Stretch(from, to)) ==
        if ProseText(lines) == [] then [] else [Placed(ordinal, lines[0].y0, Prose(lines))]
  {
    hide ProseText, Flatten;
    FirstOfRows(rows, from, to);
  }

  lemma FirstOfRows(rows: seq<seq<Line>>, from: nat, to: nat)
    requires from < to <= |rows| && rows[from] != []
    ensures Flatten(rows[from..to]) != [] && Flatten(rows[from..to])[0] == rows[from][0]
  {
  }

  lemma {:induction false} StretchRowsEnd(stretches: seq<Stretch>, i: nat)
    requires forall k :: 0 <= k < |stretches| ==> stretches[k].start < stretches[k].end
    requires forall k :: 0 <= k < |stretches| - 1 ==> stretches[k].end <= stretches[k + 1].start
    requires i in StretchRows(stretches)
    ensures stretches != [] && i < stretches[|stretches| - 1].end
  {
    var init, last := stretches[..|stretches| - 1], stretches[|stretches| - 1];
    InSpanRows(Span(last.start, last.end - 1), i);
    if i in StretchRows(init) { StretchRowsEnd(init, i); }
  }

  lemma {:induction false} StretchesKind(page: Page, rows: seq<seq<Line>>, ordinal: nat, stretches: seq<Stretch>)
    requires forall r :: 0 <= r < |rows| ==> rows[r] != []
    requires forall k :: 0 <= k < |stretches| ==> stretches[k].start < stretches[k].end <= |rows|
    ensures forall it :: it in StretchItems(page, rows, ordinal, stretches) ==>
      it.column == ordinal && (it.content.Title? || it.content.Prose?)
  {
    hide ProseText, Flatten;
    if stretches != [] { StretchesKind(page, rows, ordinal, stretches[..|stretches| - 1]); }
  }

  /** The stretches take exactly the lines of their rows. */
  lemma {:induction false} StretchesInk(page: Page, rows: seq<seq<Line>>, ordinal: nat, stretches: seq<Stretch>)
    requires forall r :: 0 <= r < |rows| ==> rows[r] != []
    requires forall k :: 0 <= k < |stretches| ==> stretches[k].start < stretches[k].end <= |rows|
    requires forall k :: 0 <= k < |stretches| - 1 ==> stretches[k].end <= stretches[k + 1].start
    requires forall k :: 0 <= k < |stretches| ==>
      IsTitle(page, rows[stretches[k].start]) ==> stretches[k].end == stretches[k].start + 1
    ensures ItemsInk(StretchItems(page, rows, ordinal, stretches)) == RowsInk(rows, |rows|, StretchRows(stretches))
  {
    hide Inked, RowsInk, ItemsInk, StretchItem, IsTitle, SpanRows;
    if stretches == [] {
      NoRowsChosen(rows, |rows|);
      NoItems();
    } else {
      var init, last := stretches[..|stretches| - 1], stretches[|stretches| - 1];
      StretchesInk(page, rows, ordinal, init);
      StretchInk(page, rows, ordinal, last);
      ItemsAppend(StretchItems(page, rows, ordinal, init), StretchItem(page, rows, ordinal, last));
      RowsApart(init, last);
      hide StretchItems, StretchRows;
      RowsInkSplit(rows, |rows|, StretchRows(init), SpanRows(Span(last.start, last.end - 1)));
    }
  }

  lemma RowsApart(init: seq<Stretch>, last: Stretch)
    requires (forall k :: 0 <= k < |init| ==> init[k].start < init[k].end) && last.start < last.end
    requires forall k :: 0 <= k < |init| - 1 ==> init[k].end <= init[k + 1].start
    requires init != [] ==> init[|init| - 1].end <= last.start
    ensures StretchRows(init) !! SpanRows(Span(last.start, last.end - 1))
  {
    hide StretchRows, SpanRows;
    forall i: nat | i in StretchRows(init) ensures i !in SpanRows(Span(last.start, last.end - 1)) {
      StretchRowsEnd(init, i);
      InSpanRows(Span(last.start, last.end - 1), i);
    }
  }

  function StretchRows(stretches: seq<Stretch>): set<nat> {
    if stretches == [] then {}
    else
      var last := stretches[|stretches| - 1];
      StretchRows(stretches[..|stretches| - 1])
      + (if last.end > 0 then SpanRows(Span(last.start, last.end - 1)) else {})
  }

  lemma StretchInk(page: Page, rows: seq<seq<Line>>, ordinal: nat, s: Stretch)
    requires forall r :: 0 <= r < |rows| ==> rows[r] != []
    requires s.start < s.end <= |rows| && (IsTitle(page, rows[s.start]) ==> s.end == s.start + 1)
    ensures ItemsInk(StretchItem(page, rows, ordinal, s)) ==
      RowsInk(rows, |rows|, SpanRows(Span(s.start, s.end - 1)))
  {
    hide Inked, RowsInk, ItemsInk, ProseText, SpanRows, StretchItem;
    RowsOfSpan(rows, s.start, s.end);
    if IsTitle(page, rows[s.start]) { AloneIs(rows, s.start); }
    hide Flatten;
    ItemInk(page, rows, ordinal, s);
  }

  lemma RowsOfSpan(rows: seq<seq<Line>>, from: nat, to: nat)
    requires from < to <= |rows|
    ensures RowsInk(rows, |rows|, SpanRows(Span(from, to - 1))) == Inked(Flatten(rows[from..to]))
  {
    hide Inked, RowsInk, SpanRows, Flatten;
    SpanInk(rows, Span(from, to - 1), |rows|);
    assert to - 1 + 1 == to;
  }

  lemma AloneIs(rows: seq<seq<Line>>, i: nat)
    requires i < |rows| && |rows[i]| == 1
    ensures Flatten(rows[i..i + 1]) == [rows[i][0]]
  {
    assert rows[i..i + 1] == [rows[i]];
    FlattenOne(rows[i]);
  }

  lemma ItemInk(page: Page, rows: seq<seq<Line>>, ordinal: nat, s: Stretch)
    requires s.start < s.end <= |rows| && forall r :: 0 <= r < |rows| ==> rows[r] != []
    requires IsTitle(page, rows[s.start]) ==> Flatten(rows[s.start..s.end]) == [rows[s.start][0]]
    ensures ItemsInk(StretchItem(page, rows, ordinal, s)) == Inked(Flatten(rows[s.start..s.end]))
  {
    hide Inked, ItemsInk, ProseText, Flatten;
    var first, lines := rows[s.start][0], Flatten(rows[s.start..s.end]);
    OneItem(Placed(ordinal, first.y0, Title(first)));
    OneItem(Placed(ordinal, first.y0, Prose(lines)));
    NoItems();
    if ProseText(lines) == [] { BlankProse(lines); }
  }

  /** How a column was taken apart: its rows, the tables among them, and the
      stretches of prose between. */
  datatype Lay = Lay(rows: seq<seq<Line>>, spans: seq<Span>, stretches: seq<Stretch>)

  /** max(3.0, median_height * 0.6) */
  function Tolerance(page: Page): real { if page.medianHeight * 0.6 > 3.0 then page.medianHeight * 0.6 else 3.0 }

  /** The column's lines in rows, from left to right, on bands at most 0.6 of a line
      high, and three points at least. */
  ghost predicate InRows(page: Page, column: seq<Line>, rows: seq<seq<Line>>) {
    && multiset(Flatten(rows)) == multiset(column) && LeftToRight(rows)
    && exists anchors :: Banded(rows, anchors, Tolerance(page))
  }

  /** The tables: the maximal runs of rows with three or more lines each that share
      at least three columns. */
  ghost predicate TablesAmong(rows: seq<seq<Line>>, spans: seq<Span>) {
    && SpansApart(spans, |rows|)
    && forall s :: s in spans <==> MaximalRun(rows, s) && |ColumnEdges(rows[s.start..s.end + 1])| >= 3
  }

  /** These items are the column's tables, and its headings and paragraphs. */
  ghost predicate LaidOut(page: Page, column: seq<Line>, ordinal: nat, lay: Lay, items: seq<Placed>) {
    && InRows(page, column, lay.rows) && (forall r :: 0 <= r < |lay.rows| ==> lay.rows[r] != [])
    && TablesAmong(lay.rows, lay.spans)
    && (forall k :: 0 <= k < |lay.spans| ==> lay.spans[k].start <= lay.spans[k].end < |lay.rows|)
    && Falls(page, lay.rows, SpansRows(lay.spans), lay.stretches, |lay.rows|)
    && (forall k :: 0 <= k < |lay.stretches| ==> lay.stretches[k].start < lay.stretches[k].end <= |lay.rows|)
    && items == TableItems(lay.spans, lay.rows, ordinal) + StretchItems(page, lay.rows, ordinal, lay.stretches)
  }

  lemma {:induction false} ConfirmedAre(spans: seq<Span>, rows: seq<seq<Line>>)
    requires forall k :: 0 <= k < |spans| ==> spans[k].start <= spans[k].end < |rows|
    ensures forall s :: s in Confirmed(spans, rows) <==>
      s in spans && s.start <= s.end < |rows| && |ColumnEdges(rows[s.start..s.end + 1])| >= 3
  {
    hide ColumnEdges;
    if spans != [] {
      var init, last := spans[..|spans| - 1], spans[|spans| - 1];
      ConfirmedAre(init, rows);
      assert spans == init + [last];
    }
  }

  lemma TablesFound(runs: seq<Span>, rows: seq<seq<Line>>)
    requires SpansApart(runs, |rows|) && AreRuns(runs, rows, |rows|)
    requires forall k :: 0 <= k < |runs| ==> runs[k].start <= runs[k].end < |rows|
    ensures TablesAmong(rows, Confirmed(runs, rows))
  {
    hide SpansApart, AreRuns, ColumnEdges, Confirmed, MaximalRun;
    ConfirmedApart(runs, rows);
    ConfirmedAre(runs, rows);
    forall s ensures s in runs <==> MaximalRun(rows, s) {
      if s in runs {
        var k :| 0 <= k < |runs| && runs[k] == s;
        SpanIsRun(runs, rows, k);
      }
      if MaximalRun(rows, s) { RunIsSpan(runs, rows, s); }
    }
    RunInside(rows);
  }

  lemma RunInside(rows: seq<seq<Line>>)
    ensures forall s :: MaximalRun(rows, s) ==> s.start <= s.end < |rows|
  {
  }

  lemma FallsApart(page: Page, rows: seq<seq<Line>>, consumed: set<nat>, stretches: seq<Stretch>)
    requires forall r :: 0 <= r < |rows| ==> rows[r] != []
    requires Falls(page, rows, consumed, stretches, |rows|)
    ensures forall k :: 0 <= k < |stretches| - 1 ==> stretches[k].end <= stretches[k + 1].start
    ensures forall k :: 0 <= k < |stretches| ==> stretches[k].start < stretches[k].end <= |rows|
    ensures forall k :: 0 <= k < |stretches| ==>
      IsTitle(page, rows[stretches[k].start]) ==> stretches[k].end == stretches[k].start + 1
    ensures forall i :: 0 <= i < |rows| ==> (i !in consumed <==> InSome(stretches, i))
  {
    forall k | 0 <= k < |stretches| - 1 ensures stretches[k].end <= stretches[k + 1].start {
      assert Broken(page, rows, stretches[k], stretches[k + 1]);
    }
  }

  lemma {:induction false} StretchRowsAre(stretches: seq<Stretch>, i: nat)
    requires forall k :: 0 <= k < |stretches| ==> stretches[k].start < stretches[k].end
    ensures i in StretchRows(stretches) <==> InSome(stretches, i)
  {
    if stretches != [] {
      var init, last := stretches[..|stretches| - 1], stretches[|stretches| - 1];
      StretchRowsAre(init, i);
      assert stretches == init + [last];
      InSomeSnoc(init, last, i);
      InSpanRows(Span(last.start, last.end - 1), i);
    }
  }

  /** The rows outside the tables are those of the stretches. */
  lemma StretchRest(page: Page, rows: seq<seq<Line>>, spans: seq<Span>, stretches: seq<Stretch>)
    requires forall r :: 0 <= r < |rows| ==> rows[r] != []
    requires Falls(page, rows, SpansRows(spans), stretches, |rows|)
    ensures StretchRows(stretches) == AllRows(|rows|) - SpansRows(spans)
  {
    FallsApart(page, rows, SpansRows(spans), stretches);
    hide Falls, SpansRows, StretchRows, AllRows;
    forall i: nat ensures i in StretchRows(stretches) <==> i in AllRows(|rows|) - SpansRows(spans) {
      StretchRowsAre(stretches, i);
      InRowsBelow(i, |rows|);
      if InSome(stretches, i) { var k :| 0 <= k < |stretches| && InStretch(stretches[k], i); }
    }
  }

  lemma ProseInk(page: Page, rows: seq<seq<Line>>, consumed: set<nat>, ordinal: nat, stretches: seq<Stretch>)
    requires forall r :: 0 <= r < |rows| ==> rows[r] != []
    requires Falls(page, rows, consumed, stretches, |rows|)
    ensures forall k :: 0 <= k < |stretches| ==> stretches[k].start < stretches[k].end <= |rows|
    ensures ItemsInk(StretchItems(page, rows, ordinal, stretches)) == RowsInk(rows, |rows|, StretchRows(stretches))
    ensures forall it :: it in StretchItems(page, rows, ordinal, stretches) ==>
      it.column == ordinal && (it.content.Title? || it.content.Prose?)
  {
    FallsApart(page, rows, consumed, stretches);
    hide Falls, Inked, RowsInk, ItemsInk, StretchItems, StretchRows, IsTitle;
    StretchesInk(page, rows, ordinal, stretches);
    StretchesKind(page, rows, ordinal, stretches);
  }

  /** The tables' rows and all the others. */
  lemma BothInk(rows: seq<seq<Line>>, consumed: set<nat>, a: seq<Placed>, b: seq<Placed>)
    requires consumed <= AllRows(|rows|)
    requires ItemsInk(a) == RowsInk(rows, |rows|, consumed)
    requires ItemsInk(b) == RowsInk(rows, |rows|, AllRows(|rows|) - consumed)
    ensures ItemsInk(a + b) == Inked(Flatten(rows))
  {
    hide Inked, RowsInk, ItemsInk, Flatten, AllRows;
    ItemsAppend(a, b);
    RowsInkSplit(rows, |rows|, consumed, AllRows(|rows|) - consumed);
    Complement(consumed, AllRows(|rows|));
    FlatInk(rows, |rows|);
    assert rows[..|rows|] == rows;
  }

  lemma NoneNative(a: seq<Placed>, b: seq<Placed>, ordinal: nat)
    requires forall it :: it in a ==> it.column == ordinal && it.content.Aligned?
    requires forall it :: it in b ==> it.column == ordinal && (it.content.Title? || it.content.Prose?)
    ensures forall i :: 0 <= i < |a + b| ==> (a + b)[i].column == ordinal && !(a + b)[i].content.Native?
  {
    forall i | 0 <= i < |a + b| ensures (a + b)[i].column == ordinal && !(a + b)[i].content.Native? {
      assert (a + b)[i] in a || (a + b)[i] in b;
    }
  }

  /** Tables and prose together take every line of the column once. */
  lemma LaidInk(page: Page, column: seq<Line>, ordinal: nat, lay: Lay, items: seq<Placed>)
    requires LaidOut(page, column, ordinal, lay, items)
    ensures ItemsInk(items) == Inked(column)
    ensures forall i :: 0 <= i < |items| ==> items[i].column == ordinal && !items[i].content.Native?
  {
    var rows, spans, stretches := lay.rows, lay.spans, lay.stretches;
    var consumed := SpansRows(spans);
    assert multiset(Flatten(rows)) == multiset(column);
    hide Inked, RowsInk, ItemsInk, Flatten, SpansRows, StretchItems, TableItems, StretchRows, Falls, AllRows,
      SpansApart, InRows, MaximalRun, ColumnEdges, TablesAmong;
    AreApart(rows, spans);
    SameInk(Flatten(rows), column);
    SpansWithin(spans, |rows|);
    StretchRest(page, rows, spans, stretches);
    ProseInk(page, rows, consumed, ordinal, stretches);
    TablesInk(spans, rows, ordinal);
    TablesPlaced(spans, rows, ordinal);
    var a, b := TableItems(spans, rows, ordinal), StretchItems(page, rows, ordinal, stretches);
    BothInk(rows, consumed, a, b);
    NoneNative(a, b, ordinal);
  }

  lemma AreApart(rows: seq<seq<Line>>, spans: seq<Span>)
    requires TablesAmong(rows, spans)
    ensures SpansApart(spans, |rows|)
  {
  }

  lemma InRowsBelow(i: nat, n: nat)
    ensures i in AllRows(n) <==> i < n
  {
    assert Below(i, n) <==> i < n;
  }

  /** Every line of the column that shows anything is in exactly one item. */
  method PlaceColumn(page: Page, column: seq<Line>, ordinal: nat) returns (items: seq<Placed>, ghost lay: Lay)
    requires page.medianHeight >= 0.0
    ensures ItemsInk(items) == Inked(column)
    ensures forall i :: 0 <= i < |items| ==> items[i].column == ordinal && !items[i].content.Native?
    ensures LaidOut(page, column, ordinal, lay, items)
  {
    hide Inked, RowsInk, ItemsInk, Rows, Confirmed, SpansApart, AreRuns, Flatten, SpansRows, Banded, Falls, TableItems,
      StretchItems, LeftToRight, TablesAmong;
    var tolerance := if page.medianHeight * 0.6 > 3.0 then page.medianHeight * 0.6 else 3.0;
    var rows := GroupRows(column, tolerance);
    RowsPartition(column, tolerance);
    RowsLeftToRight(column, tolerance);
    RowsThere(rows, tolerance);
    var runs := Runs(rows);
    SpansInside(runs, |rows|);
    var spans := Confirmed(runs, rows);
    ConfirmedApart(runs, rows);
    TablesFound(runs, rows);
    SpansInside(spans, |rows|);
    var tables, consumed := PlaceTables(spans, rows, ordinal);
    ghost var stretches;
    items, stretches := PlaceProse(page, rows, consumed, ordinal, tables);
    lay := Lay(rows, spans, stretches);
    assert tolerance == Tolerance(page);
    assert InRows(page, column, rows);
    LaidInk(page, column, ordinal, lay, items);
  }

  lemma Complement(part: set<nat>, whole: set<nat>)
    requires part <= whole
    ensures part + (whole - part) == whole
  {
  }

  lemma RowsThere(rows: seq<seq<Line>>, tol: real)
    requires exists anchors :: Banded(rows, anchors, tol)
    ensures forall r :: 0 <= r < |rows| ==> rows[r] != []
  {
  }

  lemma SpansInside(spans: seq<Span>, n: nat)
    requires SpansApart(spans, n)
    ensures forall k :: 0 <= k < |spans| ==> spans[k].start <= spans[k].end < n
  {
  }

  lemma SpansWithin(spans: seq<Span>, n: nat)
    requires SpansApart(spans, n)
    ensures SpansRows(spans) <= AllRows(n)
  {
    SpansCover(spans, n);
    if spans != [] { assert spans[|spans| - 1].end < n; }
  }

  lemma {:induction false} TablesPlaced(spans: seq<Span>, rows: seq<seq<Line>>, ordinal: nat)
    requires forall k :: 0 <= k < |spans| ==> spans[k].start <= spans[k].end < |rows| && rows[spans[k].start] != []
    ensures forall it :: it in TableItems(spans, rows, ordinal) ==> it.column == ordinal && it.content.Aligned?
  {
    if spans != [] { TablesPlaced(spans[..|spans| - 1], rows, ordinal); }
  }

  // --- the page ------------------------------------------------------------------------------------------

  datatype Box = Box(x0: real, y0: real, x1: real, y1: real)

  datatype Table = Table(box: Box, cells: seq<seq<Text>>)

  predicate Inside(l: Line, b: Box) {
    var cx := (l.x0 + l.x1) / 2.0;
    b.x0 - 2.0 <= cx <= b.x1 + 2.0 && b.y0 - 2.0 <= MidY(l) <= b.y1 + 2.0
  }

  function Free(natives: seq<Table>): Line -> bool {
    (l: Line) => forall k :: 0 <= k < |natives| ==> !Inside(l, natives[k].box)
  }

  function ColumnStart(column: seq<Line>): real {
    if column == [] then 0.0
    else if |column| == 1 || column[0].x0 <= ColumnStart(column[1..]) then column[0].x0
    else ColumnStart(column[1..])
  }

  /** The last column that starts at or before `x`, if there are two. */
  function ColumnOf(columns: seq<seq<Line>>, x: real): nat {
    if |columns| == 2 && x >= ColumnStart(columns[1]) - 2.0 then 1 else 0
  }

  function NativeItems(natives: seq<Table>, columns: seq<seq<Line>>): (items: seq<Placed>)
    ensures |items| == |natives|
  {
    seq(|natives|, i requires 0 <= i < |natives| =>
      Placed(ColumnOf(columns, (natives[i].box.x0 + natives[i].box.x1) / 2.0), natives[i].box.y0,
        Native(natives[i].cells)))
  }

  /** key=lambda item: (item[0], item[1]) */
  predicate Earlier(a: Placed, b: Placed) { a.column < b.column || (a.column == b.column && a.y < b.y) }

  function Chars(lines: seq<Line>): nat { if lines == [] then 0 else |lines[0].text| + Chars(lines[1..]) }

  function ConfSum(lines: seq<Line>): real {
    if lines == [] then 0.0 else lines[0].conf * |lines[0].text| as real + ConfSum(lines[1..])
  }

  function WeightedConf(lines: seq<Line>): real {
    if Chars(lines) == 0 then 1.0 else ConfSum(lines) / Chars(lines) as real
  }

  function ContentConf(c: Content): real {
    match c
    case Native(_) => 1.0
    case Aligned(rows) => WeightedConf(Flatten(rows))
    case Title(line) => line.conf
    case Prose(lines) => WeightedConf(lines)
  }

  function KindOf(c: Content): Chunk.Kind {
    match c
    case Native(_) => Chunk.Table
    case Aligned(_) => Chunk.Table
    case Title(_) => Chunk.Heading
    case Prose(_) => Chunk.Paragraph
  }

  const LOW_CONF_NOTE: Text := Lit("[?] low-confidence OCR, verify against the source page:\n")

  function Marked(text: Text, low: bool): Text { if low then LOW_CONF_NOTE + text else text }

  predicate Shown(page: Page, it: Placed) { !Blank(ContentText(it.content, page.decimal)) }

  function Visible(page: Page, items: seq<Placed>): seq<Placed> {
    if items == [] then []
    else Visible(page, items[..|items| - 1]) + (if Shown(page, items[|items| - 1]) then [items[|items| - 1]] else [])
  }

  /** The section in force after these items. */
  function SectionAfter(page: Page, items: seq<Placed>, section: Text): Text {
    if items == [] then section
    else
      var last := items[|items| - 1].content;
      if last.Title? then Strip(ContentText(last, page.decimal)) else SectionAfter(page, items[..|items| - 1], section)
  }

  function BlockOf(page: Page, it: Placed, section: Text): Chunk.Block {
    var conf := ContentConf(it.content);
    Chunk.Block(KindOf(it.content), Marked(ContentText(it.content, page.decimal), conf < page.lowConf),
                page.number, section, conf, conf < page.lowConf)
  }

  function BlocksOf(page: Page, items: seq<Placed>, section: Text): seq<Chunk.Block> {
    seq(|items|, i requires 0 <= i < |items| => BlockOf(page, items[i], SectionAfter(page, items[..i + 1], section)))
  }

  /** The last loop: sections set by headings, blocks for all that shows. */
  method EmitBlocks(page: Page, items: seq<Placed>, section: Text) returns (blocks: seq<Chunk.Block>, after: Text)
    ensures blocks == BlocksOf(page, Visible(page, items), section)
    ensures after == SectionAfter(page, Visible(page, items), section)
  {
    hide BlockOf, Shown;
    blocks, after := [], section;
    for i := 0 to |items|
      invariant blocks == BlocksOf(page, Visible(page, items[..i]), section)
      invariant after == SectionAfter(page, Visible(page, items[..i]), section)
    {
      var it := items[i];
      assert items[..i + 1][..i] == items[..i];
      if Shown(page, it) {
        BlocksSnoc(page, Visible(page, items[..i]), it, section);
        if it.content.Title? { after := Strip(ContentText(it.content, page.decimal)); }
        blocks := blocks + [BlockOf(page, it, after)];
      } else {
        assert Visible(page, items[..i]) + [] == Visible(page, items[..i]);
      }
    }
    assert items[..|items|] == items;
  }

  lemma BlocksSnoc(page: Page, items: seq<Placed>, it: Placed, section: Text)
    ensures BlocksOf(page, items + [it], section) ==
      BlocksOf(page, items, section) + [BlockOf(page, it, SectionAfter(page, items + [it], section))]
    ensures SectionAfter(page, items + [it], section) ==
      if it.content.Title? then Strip(ContentText(it.content, page.decimal)) else SectionAfter(page, items, section)
  {
    hide BlockOf, Strip, ContentText;
    assert (items + [it])[..|items|] == items;
    assert items + [it] == (items + [it])[..|items| + 1];
    forall i | 0 <= i < |items| ensures BlocksOf(page, items + [it], section)[i] == BlocksOf(page, items, section)[i] {
      assert (items + [it])[..i + 1] == items[..i + 1];
    }
  }

  /** A line can be read in the content it went into: as it is, or, in a table,
      with its pipes and breaks escaped. */
  ghost predicate Readable(l: Line, c: Content, decimal: nat -> Text) {
    Within(if c.Aligned? then Escaped(Strip(l.text)) else Strip(l.text), ContentText(c, decimal))
  }

  lemma ContentHolds(c: Content, l: Line, decimal: nat -> Text)
    requires l in ContentLines(c) && !Blank(l.text)
    ensures Readable(l, c, decimal) && !Blank(ContentText(c, decimal))
  {
    hide Strip, Escaped, Markdown, Grid, ProseText;
    StripTight(l.text);
    match c
    case Native(_) =>
    case Aligned(rows) =>
      var r := RowOf(rows, l);
      TableHolds(rows, r, l, decimal);
      EscapedTight(Strip(l.text));
      NotBlank(Escaped(Strip(l.text)), Markdown(Grid(rows), decimal));
    case Title(line) =>
    case Prose(lines) =>
      ProseHolds(lines, l);
      NotBlank(Strip(l.text), ProseText(lines));
  }

  lemma NotBlank(x: Text, s: Text)
    requires Tight(x) && Within(x, s)
    ensures !Blank(s)
  {
    hide Strip;
    WithinStrip(x, s);
    var i :| OccursAt(x, Strip(s), i);
  }

  lemma {:induction false} RowOf(rows: seq<seq<Line>>, l: Line) returns (r: nat)
    requires l in Flatten(rows)
    ensures r < |rows| && l in rows[r]
  {
    if l in rows[0] {
      r := 0;
    } else {
      var k := RowOf(rows[1..], l);
      r := k + 1;
    }
  }

  /** What does not show had nothing to show. */
  lemma BlankContent(c: Content, decimal: nat -> Text)
    requires Blank(ContentText(c, decimal))
    ensures Inked(ContentLines(c)) == multiset{}
  {
    hide Blank, ContentText, ContentLines;
    forall l ensures Inked(ContentLines(c))[l] == 0 {
      InkedAt(ContentLines(c), l);
      if l in ContentLines(c) && !Blank(l.text) { ContentHolds(c, l, decimal); }
    }
  }

  lemma {:induction false} VisibleInk(page: Page, items: seq<Placed>)
    ensures ItemsInk(Visible(page, items)) == ItemsInk(items)
  {
    hide Inked, ContentText, Blank;
    if items != [] {
      var init, last := items[..|items| - 1], items[|items| - 1];
      VisibleInk(page, init);
      if Shown(page, last) {
        ItemsSnoc(Visible(page, init), last);
      } else {
        assert Visible(page, init) + [] == Visible(page, init);
        BlankContent(last.content, page.decimal);
      }
    }
  }

  lemma {:induction false} InsertInk(it: Placed, items: seq<Placed>)
    ensures ItemsInk(Insert(it, items, Earlier)) == ItemsInk(items) + Inked(ContentLines(it.content))
  {
    hide Inked, ItemsInk, Earlier;
    OneItem(it);
    if items == [] || Earlier(it, items[0]) {
      ItemsAppend([it], items);
    } else {
      var rest := Insert(it, items[1..], Earlier);
      InsertInk(it, items[1..]);
      ItemsAppend([items[0]], rest);
      ItemsAppend([items[0]], items[1..]);
      assert items == [items[0]] + items[1..];
    }
  }

  /** Sorting loses no ink. */
  lemma {:induction false} SortedInk(items: seq<Placed>)
    ensures ItemsInk(Sort(items, Earlier)) == ItemsInk(items)
  {
    if items != [] {
      hide Inked, Earlier, Insert, Sort;
      SortSnoc(items, Earlier);
      SortedInk(items[..|items| - 1]);
      InsertInk(items[|items| - 1], Sort(items[..|items| - 1], Earlier));
    }
  }

  lemma OneItem(it: Placed)
    ensures ItemsInk([it]) == Inked(ContentLines(it.content))
  {
    assert [it] == [] + [it];
    ItemsSnoc([], it);
  }

  lemma {:induction false} NativesInk(natives: seq<Table>, columns: seq<seq<Line>>, n: nat)
    requires n <= |natives|
    ensures ItemsInk(NativeItems(natives, columns)[..n]) == multiset{}
  {
    if n > 0 {
      NativesInk(natives, columns, n - 1);
      var items := NativeItems(natives, columns);
      assert items[..n] == items[..n - 1] + [items[n - 1]];
      ItemsSnoc(items[..n - 1], items[n - 1]);
    }
  }

  lemma EarlierIsWeak()
    ensures Weak(Earlier)
  {
  }

  lemma {:induction false} VisibleAscends(page: Page, items: seq<Placed>)
    requires Ascends(items, Earlier)
    ensures Ascends(Visible(page, items), Earlier)
    ensures forall it :: it in Visible(page, items) ==> it in items && Shown(page, it)
  {
    hide Shown, Earlier;
    if items != [] {
      var init, last := items[..|items| - 1], items[|items| - 1];
      VisibleAscends(page, init);
      var visible := Visible(page, items);
      forall i, j | 0 <= i < j < |visible| ensures !Earlier(visible[j], visible[i]) {
        if j == |Visible(page, init)| {
          assert visible[i] == Visible(page, init)[i];
          assert visible[i] in init;
          var k :| 0 <= k < |init| && init[k] == visible[i];
          assert !Earlier(items[|items| - 1], items[k]);
        }
      }
    }
  }

  /** The same native tables in both, each as often. */
  ghost predicate SameNatives(a: seq<Placed>, b: seq<Placed>) {
    forall it: Placed :: it.content.Native? ==> multiset(a)[it] == multiset(b)[it]
  }

  lemma NoMoreNatives(items: seq<Placed>, more: seq<Placed>, first: seq<Placed>)
    requires SameNatives(items, first) && forall i :: 0 <= i < |more| ==> !more[i].content.Native?
    ensures SameNatives(items + more, first)
  {
    forall it: Placed | it.content.Native? ensures multiset(items + more)[it] == multiset(first)[it] {
      assert it !in more;
      assert multiset(items + more) == multiset(items) + multiset(more);
    }
  }

  /** Of the items that show, none is lost; of the others none is left. */
  lemma {:induction false} VisibleCount(page: Page, items: seq<Placed>, it: Placed)
    ensures multiset(Visible(page, items))[it] == if Shown(page, it) then multiset(items)[it] else 0
  {
    hide Shown;
    if items != [] {
      VisibleCount(page, items[..|items| - 1], it);
      assert items == items[..|items| - 1] + [items[|items| - 1]];
    }
  }

  lemma NativesShow(page: Page, first: seq<Placed>, items: seq<Placed>, sorted: seq<Placed>)
    requires SameNatives(items, first) && multiset(sorted) == multiset(items)
    ensures SameNatives(Visible(page, sorted), Visible(page, first))
  {
    hide Shown, Visible;
    forall it: Placed | it.content.Native? ensures multiset(Visible(page, sorted))[it] ==
      multiset(Visible(page, first))[it] {
      VisibleCount(page, sorted, it);
      VisibleCount(page, first, it);
    }
  }

  ghost predicate AllLaidOut(page: Page, columns: seq<seq<Line>>, lays: seq<Lay>, parts: seq<seq<Placed>>) {
    && |lays| == |parts| == |columns|
    && forall k :: 0 <= k < |columns| ==> LaidOut(page, columns[k], k, lays[k], parts[k])
  }

  lemma NoneLaid(page: Page, columns: seq<seq<Line>>)
    ensures AllLaidOut(page, columns[..0], [], [])
  {
  }

  lemma OneMoreLaid(page: Page, columns: seq<seq<Line>>, lays: seq<Lay>, parts: seq<seq<Placed>>, n: nat, lay: Lay,
                    part: seq<Placed>)
    requires n < |columns| && AllLaidOut(page, columns[..n], lays, parts) && LaidOut(page, columns[n], n, lay, part)
    ensures AllLaidOut(page, columns[..n + 1], lays + [lay], parts + [part])
  {
    hide LaidOut;
    forall k | 0 <= k <= n ensures LaidOut(page, columns[k], k, (lays + [lay])[k], (parts + [part])[k]) {
      if k < n { assert columns[..n][k] == columns[k] && LaidOut(page, columns[..n][k], k, lays[k], parts[k]); }
    }
  }

  lemma SameAsItself(items: seq<Placed>)
    ensures SameNatives(items, items)
  {
  }

  lemma PartsGrow(first: seq<Placed>, parts: seq<seq<Placed>>, more: seq<Placed>)
    ensures first + Flatten(parts + [more]) == first + Flatten(parts) + more
  {
    FlattenAppend(parts, [more]);
    FlattenOne(more);
  }

  lemma ColumnInk(columns: seq<seq<Line>>, n: nat)
    requires n < |columns|
    ensures Inked(Flatten(columns[..n + 1])) == Inked(Flatten(columns[..n])) + Inked(columns[n])
  {
    hide Inked, Flatten;
    assert columns[..n + 1] == columns[..n] + [columns[n]];
    FlattenAppend(columns[..n], [columns[n]]);
    FlattenOne(columns[n]);
    InkedAppend(Flatten(columns[..n]), columns[n]);
  }

  /** The columns, one after another. */
  method PlaceColumns(page: Page, columns: seq<seq<Line>>, first: seq<Placed>)
    returns (items: seq<Placed>, ghost lays: seq<Lay>, ghost parts: seq<seq<Placed>>)
    requires page.medianHeight >= 0.0
    ensures items == first + Flatten(parts) && AllLaidOut(page, columns, lays, parts)
    ensures ItemsInk(items) == ItemsInk(first) + Inked(Flatten(columns))
    ensures SameNatives(items, first)
  {
    hide Inked, ItemsInk;
    SameAsItself(first);
    items := first;
    lays, parts := [], [];
    NothingToShow();
    assert Flatten(columns[..0]) == [];
    assert first + [] == first;
    NoneLaid(page, columns);
    hide LaidOut, AllLaidOut, Flatten, SameNatives;
    for ordinal := 0 to |columns|
      invariant ItemsInk(items) == ItemsInk(first) + Inked(Flatten(columns[..ordinal]))
      invariant SameNatives(items, first)
      invariant items == first + Flatten(parts) && AllLaidOut(page, columns[..ordinal], lays, parts)
    {
      var more;
      ghost var lay;
      more, lay := PlaceColumn(page, columns[ordinal], ordinal);
      PartsGrow(first, parts, more);
      OneMoreLaid(page, columns, lays, parts, ordinal, lay, more);
      NoMoreNatives(items, more, first);
      ItemsAppend(items, more);
      ColumnInk(columns, ordinal);
      lays, parts, items := lays + [lay], parts + [more], items + more;
    }
    assert columns[..|columns|] == columns;
  }

  /** These are the items that show anything, each as often. */
  ghost predicate ShownOf(page: Page, placed: seq<Placed>, items: seq<Placed>) {
    forall it :: multiset(placed)[it] == if Shown(page, it) then multiset(items)[it] else 0
  }

  lemma AllShown(page: Page, items: seq<Placed>, sorted: seq<Placed>)
    requires multiset(sorted) == multiset(items)
    ensures ShownOf(page, Visible(page, sorted), items)
  {
    hide Shown, Visible;
    forall it ensures multiset(Visible(page, sorted))[it] == if Shown(page, it) then multiset(items)[it] else 0 {
      VisibleCount(page, sorted, it);
    }
  }

  /** build_blocks without ruled regions. `placed` is what the blocks were made
      from: every line outside the native tables that shows anything is in exactly
      one of them, except that on a two-column page a line wholly inside the middle
      band is in two; every native table that shows anything is one of them, in the
      column of its centre and at its top; they come column by column, top to
      bottom. */
  method BuildBlocks(page: Page, lines: seq<Line>, natives: seq<Table>, section: Text)
    returns (blocks: seq<Chunk.Block>, after: Text, ghost placed: seq<Placed>, ghost lays: seq<Lay>,
             ghost parts: seq<seq<Placed>>)
    requires page.medianHeight >= 0.0
    ensures blocks == BlocksOf(page, placed, section) && after == SectionAfter(page, placed, section)
    ensures InReadingOrder(placed) && forall it :: it in placed ==> Shown(page, it)
    ensures var free := Where(lines, Free(natives));
      ItemsInk(placed) ==
        Inked(free) + (if IsTwoColumn(free, page.width) then Inked(BandOf(free, page.width)) else multiset{})
    ensures SameNatives(placed, Visible(page, NativeItems(natives, Columns(Where(lines, Free(natives)), page.width))))
    ensures lines != [] || natives != [] ==>
      AllLaidOut(page, Columns(Where(lines, Free(natives)), page.width), lays, parts)
    ensures lines != [] || natives != [] ==>
      ShownOf(page, placed, NativeItems(natives, Columns(Where(lines, Free(natives)), page.width)) + Flatten(parts))
  {
    hide Inked, ItemsInk, NativeItems, Columns, IsTwoColumn, Earlier, Visible, BandOf, Where, AllLaidOut, ShownOf,
      Flatten, InReadingOrder;
    NoLines(natives, page.width);
    if lines == [] && natives == [] {
      NoNatives(page, Columns(Where(lines, Free(natives)), page.width));
      ReadingOrder([]);
      return [], section, [], [], [];
    }
    var free := Where(lines, Free(natives));
    var columns := Columns(free, page.width);
    var first := NativeItems(natives, columns);
    NativesInk(natives, columns, |natives|);
    assert first[..|natives|] == first;
    var items;
    items, lays, parts := PlaceColumns(page, columns, first);
    ColumnsInk(free, page.width);
    EarlierIsWeak();
    SortAscends(items, Earlier);
    var sorted := Sort(items, Earlier);
    SortedInk(items);
    VisibleInk(page, sorted);
    VisibleAscends(page, sorted);
    NativesShow(page, first, items, sorted);
    AllShown(page, items, sorted);
    placed := Visible(page, sorted);
    ReadingOrder(placed);
    blocks, after := EmitBlocks(page, sorted, section);
  }

  /** Column by column, and top to bottom in each. */
  ghost predicate InReadingOrder(placed: seq<Placed>) {
    forall i, j :: 0 <= i < j < |placed| ==>
      && placed[i].column <= placed[j].column
      && (placed[i].column == placed[j].column ==> placed[i].y <= placed[j].y)
  }

  lemma ReadingOrder(placed: seq<Placed>)
    requires Ascends(placed, Earlier)
    ensures InReadingOrder(placed)
  {
    forall i, j | 0 <= i < j < |placed|
      ensures placed[i].column <= placed[j].column
      ensures placed[i].column == placed[j].column ==> placed[i].y <= placed[j].y
    {
      assert !Earlier(placed[j], placed[i]);
    }
  }

  lemma NoNatives(page: Page, columns: seq<seq<Line>>)
    ensures Visible(page, NativeItems([], columns)) == []
  {
  }

  lemma NoLines(natives: seq<Table>, width: real)
    ensures Where([], Free(natives)) == [] && Inked([]) == multiset{} && ItemsInk([]) == multiset{}
      && !IsTwoColumn([], width)
  {
  }

  lemma ColumnsInk(free: seq<Line>, width: real)
    ensures Inked(Flatten(Columns(free, width))) ==
      Inked(free) + (if IsTwoColumn(free, width) then Inked(BandOf(free, width)) else multiset{})
  {
    hide Inked, Columns, IsTwoColumn, BandOf;
    ColumnsCover(free, width);
    var all := Flatten(Columns(free, width));
    if IsTwoColumn(free, width) {
      assert multiset(all) == multiset(free + BandOf(free, width));
      SameInk(all, free + BandOf(free, width));
      InkedAppend(free, BandOf(free, width));
    } else {
      SameInk(all, free);
    }
  }
}
