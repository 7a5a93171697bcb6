/** Tables without rulings, told cell by cell (ragsvc/ingest/layout.py:112-164): which
    column a fragment stands in, what a cell holds, and that the markdown can be read
    back. */
module Tables {
  import opened Codes
  import opened Sorting
  import opened Packing
  import opened Layout
  import Chunk

  // --- which column ------------------------------------------------------------------------------

  /** `c` is the column whose edge is nearest to `x`, the leftmost of those. */
  predicate StandsIn(edges: seq<real>, x: real, c: int) {
    && 0 <= c < |edges|
    && (forall e :: 0 <= e < |edges| ==> Distance(edges[c], x) <= Distance(edges[e], x))
    && (forall e :: 0 <= e < c ==> Distance(edges[c], x) < Distance(edges[e], x))
  }

  lemma {:induction false} NearestStands(edges: seq<real>, x: real)
    requires edges != []
    ensures StandsIn(edges, x, Nearest(edges, x))
  {
    hide Distance;
    if |edges| > 1 {
      var init := edges[..|edges| - 1];
      NearestStands(init, x);
      var best := Nearest(init, x);
      assert forall e :: 0 <= e < |init| ==> Distance(init[best], x) <= Distance(edges[e], x);
    }
  }

  lemma OneColumn(edges: seq<real>, x: real, a: int, b: int)
    requires StandsIn(edges, x, a) && StandsIn(edges, x, b)
    ensures a == b
  {
    hide Distance;
    assert Distance(edges[a], x) <= Distance(edges[b], x) && Distance(edges[b], x) <= Distance(edges[a], x);
  }

  /** The fragments of a row that stand in column `c`, in the order of the row. */
  function InColumn(row: seq<Line>, edges: seq<real>, c: nat): seq<Line> {
    if row == [] then []
    else
      var last := row[|row| - 1];
      InColumn(row[..|row| - 1], edges, c) + (if StandsIn(edges, last.x0, c) then [last] else [])
  }

  /** Texts gathered into a cell, one after another. */
  function Gathered(lines: seq<Line>): Text {
    if lines == [] then [] else Strip(Gathered(lines[..|lines| - 1]) + [SPACE] + lines[|lines| - 1].text)
  }

  lemma {:induction false} CellsGather(row: seq<Line>, edges: seq<real>, c: nat)
    requires c < |edges|
    ensures Cells(row, edges)[c] == Gathered(InColumn(row, edges, c))
  {
    hide Strip, StandsIn, Nearest;
    if row != [] {
      var init, last := row[..|row| - 1], row[|row| - 1];
      CellsGather(init, edges, c);
      NearestStands(edges, last.x0);
      var i := Nearest(edges, last.x0);
      if StandsIn(edges, last.x0, c) {
        OneColumn(edges, last.x0, i, c);
        var before := InColumn(init, edges, c);
        assert (before + [last])[..|before|] == before;
      } else {
        assert InColumn(init, edges, c) + [] == InColumn(init, edges, c);
      }
    }
  }

  /** Nothing but white space is lost or added on the way. */
  lemma {:induction false} GatheredInk(lines: seq<Line>)
    ensures Chunk.Ink(Gathered(lines)) == Chunk.Ink(Concat(LineTexts(lines)))
  {
    hide Strip, Chunk.Ink;
    if lines == [] {
      assert LineTexts(lines) == [];
    } else {
      var init, last := lines[..|lines| - 1], lines[|lines| - 1].text;
      GatheredInk(init);
      StripInk(Gathered(init) + [SPACE] + last);
      Chunk.InkAppend(Gathered(init) + [SPACE], last);
      Chunk.InkAppend(Gathered(init), [SPACE]);
      SpaceInk();
      assert LineTexts(lines) == LineTexts(init) + [last];
      ConcatSnoc(LineTexts(init), last);
      Chunk.InkAppend(Concat(LineTexts(init)), last);
    }
  }

  lemma SpaceInk()
    ensures Chunk.Ink([SPACE]) == []
  {
    assert [SPACE][1..] == [];
  }

  lemma {:induction false} LStripInk(s: Text)
    ensures Chunk.Ink(LStrip(s)) == Chunk.Ink(s)
  {
    if s != [] && IsSpace(s[0]) { LStripInk(s[1..]); }
  }

  lemma {:induction false} RStripInk(s: Text)
    ensures Chunk.Ink(RStrip(s)) == Chunk.Ink(s)
  {
    if s != [] && IsSpace(s[|s| - 1]) {
      var init, last := s[..|s| - 1], s[|s| - 1];
      RStripInk(init);
      assert s == init + [last];
      Chunk.InkAppend(init, [last]);
      assert [last][1..] == [];
    }
  }

  lemma StripInk(s: Text)
    ensures Chunk.Ink(Strip(s)) == Chunk.Ink(s)
  {
    LStripInk(s);
    RStripInk(LStrip(s));
  }

  lemma TightStays(s: Text)
    requires Tight(s)
    ensures Strip(s) == s
  {
  }

  lemma BlankInFront(s: Text)
    requires Tight(s)
    ensures Strip([SPACE] + s) == s
  {
    assert ([SPACE] + s)[1..] == s;
    TightStays(s);
  }

  /** Trimmed fragments stand in their cell as they are, one blank between them. */
  lemma {:induction false} GatheredPlain(lines: seq<Line>)
    requires forall i :: 0 <= i < |lines| ==> Tight(lines[i].text)
    ensures Gathered(lines) == Joined(LineTexts(lines), [SPACE])
    ensures lines != [] ==> Tight(Gathered(lines))
  {
    hide Strip;
    if lines == [] {
      assert LineTexts(lines) == [];
    } else {
      var init, last := lines[..|lines| - 1], lines[|lines| - 1].text;
      GatheredPlain(init);
      assert LineTexts(lines) == LineTexts(init) + [last];
      JoinedSnoc(LineTexts(init), last, [SPACE]);
      if init == [] {
        assert Gathered(init) + [SPACE] + last == [SPACE] + last;
        BlankInFront(last);
      } else {
        TightBoth(Gathered(init), last);
        TightStays(Gathered(init) + [SPACE] + last);
      }
    }
  }

  lemma TightBoth(a: Text, b: Text)
    requires Tight(a) && Tight(b)
    ensures Tight(a + [SPACE] + b)
  {
  }

  lemma JoinedCons(first: Text, rest: seq<Text>, sep: Text)
    ensures Joined([first] + rest, sep) == if rest == [] then first else first + sep + Joined(rest, sep)
  {
    assert ([first] + rest)[1..] == rest;
  }

  lemma {:induction false} JoinedSnoc(parts: seq<Text>, last: Text, sep: Text)
    ensures Joined(parts + [last], sep) == if parts == [] then last else Joined(parts, sep) + sep + last
  {
    if parts == [] {
      assert parts + [last] == [last];
    } else {
      hide Joined;
      var rest := parts[1..];
      assert parts == [parts[0]] + rest && parts + [last] == [parts[0]] + (rest + [last]);
      JoinedSnoc(rest, last, sep);
      JoinedCons(parts[0], rest, sep);
      JoinedCons(parts[0], rest + [last], sep);
      Regroup(parts[0] + sep, Joined(rest, sep) + sep, last);
      Regroup(parts[0] + sep, Joined(rest, sep), sep);
    }
  }

  /** A cell of an aligned table: it holds exactly the texts of the row's fragments
      that stand nearest to its column's edge, in the order of the row. */
  lemma CellExactly(rows: seq<seq<Line>>, r: nat, c: nat)
    requires r < |rows| && |ColumnEdges(rows)| >= 2 && c < |ColumnEdges(rows)|
    ensures |Grid(rows)[r]| == |ColumnEdges(rows)|
    ensures var here := InColumn(rows[r], ColumnEdges(rows), c);
      && Chunk.Ink(Grid(rows)[r][c]) == Chunk.Ink(Concat(LineTexts(here)))
      && (here == [] ==> Grid(rows)[r][c] == [])
      && ((forall i :: 0 <= i < |here| ==> Tight(here[i].text)) ==>
            Grid(rows)[r][c] == Joined(LineTexts(here), [SPACE]))
  {
    hide ColumnEdges, InColumn, Strip, Cells, Tight, Chunk.Ink;
    var edges := ColumnEdges(rows);
    var here := InColumn(rows[r], edges, c);
    CellsGather(rows[r], edges, c);
    GatheredInk(here);
    if forall i :: 0 <= i < |here| ==> Tight(here[i].text) { GatheredPlain(here); }
  }

  /** And every fragment stands in one column, and can be read in that cell. */
  lemma LineInCell(rows: seq<seq<Line>>, r: nat, l: Line)
    requires r < |rows| && l in rows[r] && |ColumnEdges(rows)| >= 2
    ensures exists c :: (StandsIn(ColumnEdges(rows), l.x0, c) && 0 <= c < |Grid(rows)[r]|
      && (Strip(l.text) != [] ==> Within(Strip(l.text), Grid(rows)[r][c])))
  {
    hide ColumnEdges, Strip, StandsIn, Cells;
    var edges := ColumnEdges(rows);
    NearestStands(edges, l.x0);
    var c := Nearest(edges, l.x0);
    CellsGather(rows[r], edges, c);
    InItsColumn(rows[r], edges, c, l);
    if Strip(l.text) != [] { GatheredHolds(InColumn(rows[r], edges, c), l); }
    assert StandsIn(edges, l.x0, c) && 0 <= c < |Grid(rows)[r]|;
  }

  lemma {:induction false} InItsColumn(row: seq<Line>, edges: seq<real>, c: nat, l: Line)
    ensures l in InColumn(row, edges, c) <==> l in row && StandsIn(edges, l.x0, c)
  {
    hide StandsIn;
    if row != [] {
      InItsColumn(row[..|row| - 1], edges, c, l);
      assert row == row[..|row| - 1] + [row[|row| - 1]];
    }
  }

  lemma {:induction false} GatheredHolds(lines: seq<Line>, l: Line)
    requires l in lines && Strip(l.text) != []
    ensures Within(Strip(l.text), Gathered(lines))
  {
    hide Strip, Within;
    var init, last := lines[..|lines| - 1], lines[|lines| - 1];
    var whole := Gathered(init) + [SPACE] + last.text;
    StripTight(l.text);
    assert lines == init + [last];
    if l == last {
      assert whole == (Gathered(init) + [SPACE]) + last.text + [];
      WithinMiddle(Gathered(init) + [SPACE], last.text, []);
      WithinChain(Strip(l.text), l.text, whole);
    } else {
      GatheredHolds(init, l);
      assert whole == [] + Gathered(init) + ([SPACE] + last.text);
      WithinMiddle([], Gathered(init), [SPACE] + last.text);
      WithinChain(Strip(l.text), Gathered(init), whole);
    }
    WithinStrip(Strip(l.text), whole);
  }

  // --- where the columns are --------------------------------------------------------------------------

  /** Groups of edges in which neighbours are near, and between which they are not. */
  predicate Clustered(clusters: seq<seq<real>>) {
    && (forall k :: 0 <= k < |clusters| ==> clusters[k] != [])
    && (forall k, i :: 0 <= k < |clusters| && 0 <= i < |clusters[k]| - 1 ==>
          clusters[k][i + 1] - clusters[k][i] <= 6.0)
    && (forall k :: 0 <= k < |clusters| - 1 && clusters[k] != [] && clusters[k + 1] != [] ==>
          clusters[k + 1][0] - clusters[k][|clusters[k]| - 1] > 6.0)
  }

  lemma {:induction false} ClustersAre(values: seq<real>)
    ensures Clustered(Clusters(values)) && Flatten(Clusters(values)) == values
  {
    if values == [] {
      NoClusters();
    } else {
      var init, value := values[..|values| - 1], values[|values| - 1];
      ClustersAre(init);
      assert values == init + [value];
      WithValue(init, value);
      hide Clustered, Flatten, Clusters;
      if Near(Clusters(init), value) {
        JoinCluster(Clusters(init), value);
      } else {
        OpenCluster(Clusters(init), value);
      }
    }
  }

  lemma NoClusters()
    ensures Clustered([]) && Clusters([]) == []
  {
  }

  /** The last group ends within six points before `value`. */
  predicate Near(clusters: seq<seq<real>>, value: real) {
    clusters != [] && clusters[|clusters| - 1] != []
    && value - clusters[|clusters| - 1][|clusters[|clusters| - 1]| - 1] <= 6.0
  }

  lemma WithValue(init: seq<real>, value: real)
    ensures var clusters := Clusters(init);
      Clusters(init + [value]) ==
      if Near(clusters, value) then clusters[|clusters| - 1 := clusters[|clusters| - 1] + [value]]
      else clusters + [[value]]
  {
    assert (init + [value])[..|init|] == init;
  }

  lemma OpenCluster(clusters: seq<seq<real>>, value: real)
    requires Clustered(clusters) && !Near(clusters, value)
    ensures Clustered(clusters + [[value]]) && Flatten(clusters + [[value]]) == Flatten(clusters) + [value]
  {
    FlattenAppend(clusters, [[value]]);
    FlattenOne([value]);
    hide Flatten;
  }

  lemma JoinCluster(clusters: seq<seq<real>>, value: real)
    requires Clustered(clusters) && Near(clusters, value)
    ensures var more := clusters[|clusters| - 1 := clusters[|clusters| - 1] + [value]];
      Clustered(more) && Flatten(more) == Flatten(clusters) + [value]
  {
    var n := |clusters| - 1;
    var init, last := clusters[..n], clusters[n];
    LastGrows(init, last, value);
    assert clusters == init + [last];
    var more := clusters[n := last + [value]];
    assert more == init + [last + [value]];
    hide Flatten;
    forall k, i | 0 <= k < |more| && 0 <= i < |more[k]| - 1 ensures more[k][i + 1] - more[k][i] <= 6.0 {
      if k == n && i == |last| - 1 { assert more[k][i + 1] == value; } else { assert more[k][i] == clusters[k][i]; }
    }
    forall k | 0 <= k < |more| - 1 && more[k] != [] && more[k + 1] != []
      ensures more[k + 1][0] - more[k][|more[k]| - 1] > 6.0
    {
      assert more[k] == clusters[k] && more[k + 1][0] == clusters[k + 1][0];
    }
  }

  lemma LastGrows(init: seq<seq<real>>, last: seq<real>, value: real)
    ensures Flatten(init + [last + [value]]) == Flatten(init + [last]) + [value]
  {
    FlattenAppend(init, [last]);
    FlattenAppend(init, [last + [value]]);
    FlattenOne(last);
    FlattenOne(last + [value]);
    assert Flatten(init) + (last + [value]) == (Flatten(init) + last) + [value];
  }

  /** The groups with more than one member, in order. */
  function Shared(clusters: seq<seq<real>>): seq<seq<real>> {
    if clusters == [] then []
    else
      var last := clusters[|clusters| - 1];
      Shared(clusters[..|clusters| - 1]) + (if |last| > 1 then [last] else [])
  }

  lemma {:induction false} SharedAre(clusters: seq<seq<real>>)
    ensures forall g :: g in Shared(clusters) <==> g in clusters && |g| > 1
  {
    if clusters != [] {
      SharedAre(clusters[..|clusters| - 1]);
      assert clusters == clusters[..|clusters| - 1] + [clusters[|clusters| - 1]];
    }
  }

  /** The means of the groups, one for each. */
  predicate AreMeans(means: seq<real>, groups: seq<seq<real>>) {
    |means| == |groups| && forall k :: 0 <= k < |groups| ==> means[k] * |groups[k]| as real == Sum(groups[k])
  }

  lemma {:induction false} MeansAre(clusters: seq<seq<real>>)
    ensures AreMeans(Means(clusters), Shared(clusters))
  {
    hide Sum;
    if clusters != [] {
      var init, last := clusters[..|clusters| - 1], clusters[|clusters| - 1];
      MeansAre(init);
      if |last| > 1 {
        MeanOf(Sum(last), |last|);
      } else {
        assert Means(init) + [] == Means(init) && Shared(init) + [] == Shared(init);
      }
    }
  }

  lemma MeanOf(sum: real, n: int)
    requires n > 1
    ensures sum / n as real * n as real == sum
  {
  }

  lemma {:induction false} SumWithin(values: seq<real>, low: real, high: real)
    requires forall i :: 0 <= i < |values| ==> low <= values[i] <= high
    ensures low * |values| as real <= Sum(values) <= high * |values| as real
  {
    if values != [] {
      var n := |values| - 1;
      SumWithin(values[..n], low, high);
      assert |values| as real == n as real + 1.0;
    }
  }

  /** The columns of a table: the left edges, sorted, fall into groups of neighbours
      at most six points apart, with wider gaps between the groups; each group of more
      than one edge is a column, at its mean, and there is no other. */
  lemma ColumnsAre(rows: seq<seq<Line>>) returns (clusters: seq<seq<real>>)
    ensures Clustered(clusters) && multiset(Flatten(clusters)) == multiset(LeftEdges(Flatten(rows)))
    ensures forall i, j :: 0 <= i < j < |Flatten(clusters)| ==> Flatten(clusters)[i] <= Flatten(clusters)[j]
    ensures forall g :: g in Shared(clusters) <==> g in clusters && |g| > 1
    ensures AreMeans(ColumnEdges(rows), Shared(clusters))
  {
    var edges := LeftEdges(Flatten(rows));
    var sorted := Sort(edges, Less());
    LessIsWeak();
    SortAscends(edges, Less());
    clusters := Clusters(sorted);
    hide Clusters, Clustered, Flatten, Sort, Means, Shared, AreMeans;
    ClustersAre(sorted);
    SharedAre(clusters);
    MeansAre(clusters);
    forall i, j | 0 <= i < j < |sorted| ensures sorted[i] <= sorted[j] { assert !Less()(sorted[j], sorted[i]); }
  }

  lemma LessIsWeak()
    ensures Weak(Less())
  {
  }

  // --- reading the markdown back ---------------------------------------------------------------------------

  /** Every pipe in it is escaped. */
  predicate Sealed(s: Text) { forall i :: 0 <= i < |s| && s[i] == PIPE ==> i > 0 && s[i - 1] == BACKSLASH }

  predicate OneLine(s: Text) { forall i :: 0 <= i < |s| ==> s[i] != LF }

  /** A line cut at the pipes that are not escaped; `cell` is the piece being read. */
  function Cut(s: Text, cell: Text): (r: seq<Text>)
    ensures r != []
  {
    if s == [] then [cell]
    else if s[0] == PIPE && !(cell != [] && cell[|cell| - 1] == BACKSLASH) then [cell] + Cut(s[1..], [])
    else Cut(s[1..], cell + [s[0]])
  }

  /** The cells of a table row: what stands between its outer pipes, trimmed. */
  function ReadRow(s: Text): seq<Text> {
    var pieces := Cut(s, []);
    if |pieces| < 2 then [] else seq(|pieces| - 2, i requires 0 <= i < |pieces| - 2 => Strip(pieces[i + 1]))
  }

  /** s.split("\n"). */
  function SplitLines(s: Text, line: Text): (r: seq<Text>)
    ensures r != []
  {
    if s == [] then [line]
    else if s[0] == LF then [line] + SplitLines(s[1..], [])
    else SplitLines(s[1..], line + [s[0]])
  }

  function ReadTable(s: Text): seq<seq<Text>> {
    var lines := SplitLines(s, []);
    seq(|lines|, i requires 0 <= i < |lines| => ReadRow(lines[i]))
  }

  /** A sealed stretch is read as it is. */
  lemma {:induction false} CutOver(a: Text, s: Text, cell: Text)
    requires Sealed(cell + a)
    ensures Cut(a + s, cell) == Cut(s, cell + a)
    decreases |a|
  {
    if a == [] {
      assert a + s == s && cell + a == cell;
    } else {
      assert (a + s)[0] == a[0] && (a + s)[1..] == a[1..] + s;
      assert (cell + a)[|cell|] == a[0];
      if a[0] == PIPE { assert (cell + a)[|cell| - 1] == cell[|cell| - 1] == BACKSLASH; }
      assert cell + [a[0]] + a[1..] == cell + a;
      CutOver(a[1..], s, cell + [a[0]]);
    }
  }

  lemma CutAtPipe(cell: Text, s: Text)
    requires Sealed(cell) && (cell != [] ==> cell[|cell| - 1] != BACKSLASH)
    ensures Cut(cell + [PIPE] + s, []) == [cell] + Cut(s, [])
  {
    assert cell + [PIPE] + s == cell + ([PIPE] + s);
    assert [] + cell == cell;
    CutOver(cell, [PIPE] + s, []);
    assert ([PIPE] + s)[1..] == s;
  }

  /** A blank on either side. */
  function Spaced(c: Text): Text { [SPACE] + c + [SPACE] }

  lemma SpacedSealed(c: Text)
    requires Sealed(c) && Strip(c) == c
    ensures Sealed(Spaced(c)) && Spaced(c)[|Spaced(c)| - 1] != BACKSLASH && Strip(Spaced(c)) == c
  {
    hide Strip;
    var s := Spaced(c);
    forall i | 0 <= i < |s| && s[i] == PIPE ensures i > 0 && s[i - 1] == BACKSLASH {
      assert c[i - 1] == PIPE;
    }
    StripSpaced(c);
  }

  lemma StripSpaced(c: Text)
    ensures Strip(Spaced(c)) == Strip(c)
  {
    var s := c + [SPACE];
    assert Spaced(c) == [SPACE] + s && ([SPACE] + s)[1..] == s;
    LStripBlankEnd(c);
  }

  lemma {:induction false} LStripBlankEnd(c: Text)
    ensures RStrip(LStrip(c + [SPACE])) == RStrip(LStrip(c))
  {
    if c == [] {
      assert c + [SPACE] == [SPACE] && [SPACE][1..] == [];
    } else if IsSpace(c[0]) {
      assert (c + [SPACE])[1..] == c[1..] + [SPACE];
      LStripBlankEnd(c[1..]);
    } else {
      assert (c + [SPACE])[..|c|] == c;
    }
  }

  /** The row from its first cell on, without the outer pipe before it. */
  function Cellwise(cells: seq<Text>): Text {
    if cells == [] then [] else Spaced(cells[0]) + [PIPE] + Cellwise(cells[1..])
  }

  lemma {:induction false} JoinedCells(cells: seq<Text>)
    requires cells != []
    ensures [SPACE] + Joined(cells, Lit(" | ")) + Lit(" |") == Cellwise(cells)
  {
    assert Lit(" | ") == [SPACE, PIPE, SPACE] && Lit(" |") == [SPACE, PIPE];
    hide Lit;
    if |cells| == 1 {
      assert Cellwise(cells[1..]) == [];
      assert [SPACE] + cells[0] + [SPACE, PIPE] == Spaced(cells[0]) + [PIPE] + [];
    } else {
      JoinedCells(cells[1..]);
      var rest := Joined(cells[1..], Lit(" | "));
      assert [SPACE] + (cells[0] + [SPACE, PIPE, SPACE] + rest) + [SPACE, PIPE]
        == Spaced(cells[0]) + [PIPE] + ([SPACE] + rest + [SPACE, PIPE]);
    }
  }

  predicate Proper(cells: seq<Text>) {
    forall i :: 0 <= i < |cells| ==> Sealed(cells[i]) && Strip(cells[i]) == cells[i]
  }

  lemma {:induction false} CutCellwise(cells: seq<Text>)
    requires Proper(cells)
    ensures var pieces := Cut(Cellwise(cells), []);
      |pieces| == |cells| + 1 && forall i :: 0 <= i < |cells| ==> pieces[i] == Spaced(cells[i])
  {
    hide Strip, Sealed;
    if cells != [] {
      SpacedSealed(cells[0]);
      CutAtPipe(Spaced(cells[0]), Cellwise(cells[1..]));
      CutCellwise(cells[1..]);
    }
  }

  /** A row of the table reads back cell by cell. */
  lemma RowReads(cells: seq<Text>)
    requires cells != [] && Proper(cells)
    ensures ReadRow(RowText(cells)) == cells
  {
    hide Strip, Sealed, Joined;
    assert Lit("| ") == [PIPE] + [SPACE];
    JoinedCells(cells);
    var row := RowText(cells);
    assert row == [] + [PIPE] + Cellwise(cells) by {
      assert row == [PIPE] + ([SPACE] + Joined(cells, Lit(" | ")) + Lit(" |"));
    }
    hide Lit;
    assert Sealed([]) by { NothingSealed(); }
    CutAtPipe([], Cellwise(cells));
    CutCellwise(cells);
    forall i | 0 <= i < |cells| ensures Strip(Spaced(cells[i])) == cells[i] { SpacedSealed(cells[i]); }
  }

  lemma NothingSealed()
    ensures Sealed([])
  {
  }

  lemma {:induction false} SplitOver(a: Text, s: Text, line: Text)
    requires OneLine(a)
    ensures SplitLines(a + s, line) == SplitLines(s, line + a)
    decreases |a|
  {
    if a == [] {
      assert a + s == s && line + a == line;
    } else {
      assert (a + s)[1..] == a[1..] + s && line + [a[0]] + a[1..] == line + a;
      SplitOver(a[1..], s, line + [a[0]]);
    }
  }

  lemma {:induction false} JoinedSplits(lines: seq<Text>)
    requires lines != [] && forall i :: 0 <= i < |lines| ==> OneLine(lines[i])
    ensures SplitLines(Joined(lines, [LF]), []) == lines
  {
    hide OneLine;
    assert [] + lines[0] == lines[0];
    if |lines| == 1 {
      SplitOver(lines[0], [], []);
      assert lines[0] + [] == lines[0];
    } else {
      var rest := Joined(lines[1..], [LF]);
      assert Joined(lines, [LF]) == lines[0] + ([LF] + rest) && ([LF] + rest)[1..] == rest;
      SplitOver(lines[0], [LF] + rest, []);
      JoinedSplits(lines[1..]);
    }
  }

  lemma EscapedStep(c: Code)
    ensures OneLine(EscapedOne(c)) && EscapedOne(c) != []
    ensures EscapedOne(c)[|EscapedOne(c)| - 1] == PIPE <==> c == PIPE
    ensures c == PIPE ==> EscapedOne(c) == [BACKSLASH, PIPE]
    ensures c != PIPE ==> |EscapedOne(c)| == 1
  {
  }

  lemma {:induction false} EscapedSealed(s: Text)
    ensures Sealed(Escaped(s)) && OneLine(Escaped(s))
  {
    if s != [] {
      EscapedStep(s[0]);
      EscapedSealed(s[1..]);
      var first, rest := EscapedOne(s[0]), Escaped(s[1..]);
      var all := first + rest;
      hide Escaped, EscapedOne;
      forall i | 0 <= i < |all| && all[i] == PIPE ensures i > 0 && all[i - 1] == BACKSLASH {
        if i >= |first| { assert rest[i - |first|] == PIPE && rest[i - |first| - 1] == BACKSLASH; }
      }
    }
  }

  lemma {:induction false} LStripSealed(s: Text)
    requires Sealed(s)
    ensures Sealed(LStrip(s))
  {
    if s != [] && IsSpace(s[0]) {
      var rest := s[1..];
      forall i | 0 <= i < |rest| && rest[i] == PIPE ensures i > 0 && rest[i - 1] == BACKSLASH {
        assert s[i + 1] == PIPE && s[i] == BACKSLASH && !IsSpace(BACKSLASH);
      }
      LStripSealed(rest);
    }
  }

  lemma {:induction false} RStripSealed(s: Text)
    requires Sealed(s)
    ensures Sealed(RStrip(s)) && RStrip(s) <= s
  {
    if s != [] && IsSpace(s[|s| - 1]) { RStripSealed(s[..|s| - 1]); }
  }

  lemma {:induction false} LStripOneLine(s: Text)
    requires OneLine(s)
    ensures OneLine(LStrip(s))
  {
    if s != [] && IsSpace(s[0]) { LStripOneLine(s[1..]); }
  }

  lemma StripProper(s: Text)
    requires Sealed(s) && OneLine(s)
    ensures Sealed(Strip(s)) && OneLine(Strip(s)) && Strip(Strip(s)) == Strip(s)
  {
    LStripSealed(s);
    LStripOneLine(s);
    RStripSealed(LStrip(s));
    if Strip(s) != [] {
      StripTight(s);
      TightStays(Strip(s));
    }
  }

  lemma CellProper(value: Text)
    ensures Sealed(CellText(value)) && OneLine(CellText(value)) && Strip(CellText(value)) == CellText(value)
  {
    hide Strip;
    EscapedSealed(value);
    StripProper(Escaped(value));
  }

  /** Python's str of a column number: no pipe, no line break, no blank at its ends. */
  ghost predicate Numbers(decimal: nat -> Text) {
    forall n :: Tight(decimal(n)) && forall i :: 0 <= i < |decimal(n)| ==> decimal(n)[i] != PIPE && decimal(n)[i] != LF
  }

  lemma NamedColumn(decimal: nat -> Text, n: nat)
    requires Numbers(decimal)
    ensures var name := Lit("Col ") + decimal(n); Sealed(name) && OneLine(name) && Strip(name) == name
  {
    var name := Lit("Col ") + decimal(n);
    assert |Lit("Col ")| == 4 && name[0] == 'C' as int;
    forall i | 0 <= i < |name| ensures name[i] != PIPE && name[i] != LF {
      if i >= 4 { assert name[i] == decimal(n)[i - 4]; }
    }
    assert Tight(name);
    TightStays(name);
  }

  lemma EmptyProper()
    ensures Sealed([]) && OneLine([]) && Strip([]) == []
  {
  }

  lemma RuleProper()
    ensures Sealed(Lit("---")) && OneLine(Lit("---")) && Strip(Lit("---")) == Lit("---")
  {
    assert Lit("---") == ['-' as int, '-' as int, '-' as int];
    TightStays(Lit("---"));
  }

  /** What cell `c` of row `r` shows. */
  function ShownCell(rows: seq<seq<Text>>, r: nat, c: nat, decimal: nat -> Text): Text
    requires r < |rows|
  {
    var text := if c < |rows[r]| then CellText(rows[r][c]) else [];
    if r == 0 && text == [] then Lit("Col ") + decimal(c + 1) else text
  }

  lemma ShownProper(rows: seq<seq<Text>>, r: nat, c: nat, decimal: nat -> Text)
    requires r < |rows| && Numbers(decimal)
    ensures var s := ShownCell(rows, r, c, decimal); Sealed(s) && OneLine(s) && Strip(s) == s
  {
    hide Sealed, OneLine, Strip, CellText, Lit, Numbers;
    EmptyProper();
    NamedColumn(decimal, c + 1);
    if c < |rows[r]| { CellProper(rows[r][c]); }
  }

  function ShownRow(rows: seq<seq<Text>>, r: nat, width: nat, decimal: nat -> Text): seq<Text>
    requires r < |rows|
  {
    seq(width, c requires 0 <= c < width => ShownCell(rows, r, c, decimal))
  }

  lemma EmptyCell()
    ensures CellText([]) == []
  {
  }

  lemma {:induction false} WidestAtLeast(rows: seq<seq<Text>>, r: nat)
    requires r < |rows|
    ensures |rows[r]| <= MaxWidth(rows)
  {
    if r > 0 { WidestAtLeast(rows[1..], r - 1); }
  }

  /** Row `r` of the table is the line `r`, or the one behind it below the rule. */
  lemma RowIs(rows: seq<seq<Text>>, r: nat, decimal: nat -> Text)
    requires r < |rows|
    ensures var lines, i := MarkdownLines(rows, decimal), if r == 0 then 0 else r + 1;
      |lines| == |rows| + 1 && lines[i] == RowText(ShownRow(rows, r, MaxWidth(rows), decimal))
  {
    hide RowText, CellText, MaxWidth, Lit;
    EmptyCell();
    WidestAtLeast(rows, r);
    LineAt(rows, r, decimal);
    var width := MaxWidth(rows);
    var cells := if r == 0 then HeaderCells(Padded(rows[0], width), decimal) else BodyCells(Padded(rows[r], width));
    PaddedKeeps(rows[r], width);
    PaddedEmpty(rows[r], width);
    assert cells == ShownRow(rows, r, width, decimal);
  }

  lemma PaddedEmpty(row: seq<Text>, width: nat)
    requires |row| <= width
    ensures |Padded(row, width)| == width && forall c :: |row| <= c < width ==> Padded(row, width)[c] == []
  {
  }

  lemma {:induction false} JoinedOneLine(cells: seq<Text>, sep: Text)
    requires OneLine(sep) && forall i :: 0 <= i < |cells| ==> OneLine(cells[i])
    ensures OneLine(Joined(cells, sep))
  {
    if |cells| > 1 { JoinedOneLine(cells[1..], sep); }
  }

  lemma RowOneLine(cells: seq<Text>)
    requires forall i :: 0 <= i < |cells| ==> OneLine(cells[i])
    ensures OneLine(RowText(cells))
  {
    assert Lit(" | ") == [SPACE, PIPE, SPACE] && Lit(" |") == [SPACE, PIPE] && Lit("| ") == [PIPE, SPACE];
    JoinedOneLine(cells, Lit(" | "));
    hide Joined;
  }

  function Rule(width: nat): seq<Text> { seq(width, i requires 0 <= i < width => Lit("---")) }

  /** The table can be read back from its markdown: the header, the rule, and the
      rows below it, each with every cell in its own column. */
  lemma MarkdownReads(rows: seq<seq<Text>>, decimal: nat -> Text)
    requires rows != [] && MaxWidth(rows) > 0 && Numbers(decimal)
    ensures var table, width := ReadTable(Markdown(rows, decimal)), MaxWidth(rows);
      && |table| == |rows| + 1 && table[1] == Rule(width)
      && forall r :: 0 <= r < |rows| ==>
        table[if r == 0 then 0 else r + 1] == ShownRow(rows, r, width, decimal)
  {
    hide Lit, RowText, MaxWidth, ReadRow, Joined, ShownCell, Sealed, OneLine, Strip, Numbers;
    var lines, width := MarkdownLines(rows, decimal), MaxWidth(rows);
    RowIs(rows, 0, decimal);
    RuleProper();
    RowReads(Rule(width));
    RowOneLine(Rule(width));
    assert lines[1] == RowText(Rule(width));
    forall i | 0 <= i < |lines|
      ensures OneLine(lines[i])
      ensures i != 1 ==> ReadRow(lines[i]) == ShownRow(rows, if i == 0 then 0 else i - 1, width, decimal)
    {
      if i != 1 {
        var r := if i == 0 then 0 else i - 1;
        RowIs(rows, r, decimal);
        forall c | 0 <= c < width { ShownProper(rows, r, c, decimal); }
        RowReads(ShownRow(rows, r, width, decimal));
        RowOneLine(ShownRow(rows, r, width, decimal));
      }
    }
    JoinedSplits(lines);
  }

  // --- what a cell says ---------------------------------------------------------------------------------------

  /** Line breaks as blanks. */
  function OnOneLine(s: Text): Text { seq(|s|, i requires 0 <= i < |s| => if s[i] == LF then SPACE else s[i]) }

  /** The escapes undone: one backslash goes from before every pipe. */
  function Unescaped(s: Text): Text {
    if s == [] then []
    else if |s| > 1 && s[0] == BACKSLASH && s[1] == PIPE then [PIPE] + Unescaped(s[2..])
    else [s[0]] + Unescaped(s[1..])
  }

  lemma {:induction false} UnescapesEscaped(s: Text)
    ensures Unescaped(Escaped(s)) == OnOneLine(s)
  {
    if s != [] {
      UnescapesEscaped(s[1..]);
      EscapedCons(s);
      var rest := Escaped(s[1..]);
      assert OnOneLine(s) == [if s[0] == LF then SPACE else s[0]] + OnOneLine(s[1..]);
      if s[0] == PIPE {
        assert ([BACKSLASH, PIPE] + rest)[2..] == rest;
      } else {
        EscapedHead(s[1..]);
        assert ([if s[0] == LF then SPACE else s[0]] + rest)[1..] == rest;
      }
    }
  }

  /** No escaped text begins with a pipe. */
  lemma EscapedHead(s: Text)
    ensures Escaped(s) != [] ==> Escaped(s)[0] != PIPE
  {
  }

  lemma {:induction false} LStripEscaped(s: Text)
    ensures LStrip(Escaped(s)) == Escaped(LStrip(s))
  {
    if s != [] {
      EscapedCons(s);
      if IsSpace(s[0]) {
        LStripEscaped(s[1..]);
        assert Escaped(s)[1..] == Escaped(s[1..]);
      }
    }
  }

  lemma {:induction false} RStripEscaped(s: Text)
    ensures RStrip(Escaped(s)) == Escaped(RStrip(s))
  {
    if s != [] {
      var init, last := s[..|s| - 1], s[|s| - 1];
      assert s == init + [last];
      EscapedAppend(init, [last]);
      assert [last][1..] == [] && Escaped([last]) == EscapedOne(last) + [];
      if IsSpace(last) {
        RStripEscaped(init);
        assert Escaped(s)[..|Escaped(s)| - 1] == Escaped(init);
      }
    }
  }

  /** A cell of the markdown, its escapes undone, is the trimmed cell. */
  lemma CellSays(value: Text)
    ensures Unescaped(CellText(value)) == OnOneLine(Strip(value))
  {
    LStripEscaped(value);
    RStripEscaped(LStrip(value));
    UnescapesEscaped(Strip(value));
  }

  lemma {:induction false} OneLineInk(s: Text)
    ensures Chunk.Ink(OnOneLine(s)) == Chunk.Ink(s)
  {
    if s != [] {
      OneLineInk(s[1..]);
      assert OnOneLine(s)[1..] == OnOneLine(s[1..]);
    }
  }

  lemma CellInk(value: Text)
    ensures Chunk.Ink(Unescaped(CellText(value))) == Chunk.Ink(value)
  {
    CellSays(value);
    OneLineInk(Strip(value));
    StripInk(value);
  }

  lemma {:induction false} SameWidth(rows: seq<seq<Text>>, n: nat)
    requires rows != [] && forall r :: 0 <= r < |rows| ==> |rows[r]| == n
    ensures MaxWidth(rows) == n
  {
    if |rows| > 1 { SameWidth(rows[1..], n); }
  }

  /** This cell of the table says what these fragments say, but an empty cell of the
      header is given a name. */
  predicate Says(table: seq<seq<Text>>, i: nat, c: nat, here: seq<Line>, name: Text) {
    && i < |table| && c < |table[i]|
    && (if i == 0 && Chunk.Ink(Concat(LineTexts(here))) == [] then table[i][c] == name
        else Chunk.Ink(Unescaped(table[i][c])) == Chunk.Ink(Concat(LineTexts(here))))
  }

  /** The markdown of an aligned table, read back: each cell says exactly what the
      fragments of its row say that stand in its column; an empty header cell is
      given the number of its column instead. */
  lemma AlignedReads(rows: seq<seq<Line>>, r: nat, c: nat, decimal: nat -> Text)
    requires r < |rows| && |ColumnEdges(rows)| >= 2 && c < |ColumnEdges(rows)| && Numbers(decimal)
    ensures Says(ReadTable(Markdown(Grid(rows), decimal)), if r == 0 then 0 else r + 1, c,
                 InColumn(rows[r], ColumnEdges(rows), c), Lit("Col ") + decimal(c + 1))
  {
    hide ColumnEdges, InColumn, Cells, Chunk.Ink, CellText, Unescaped, ReadTable, Markdown, Lit, Numbers;
    var grid, n := Grid(rows), |ColumnEdges(rows)|;
    forall k | 0 <= k < |rows| ensures |grid[k]| == n { CellExactly(rows, k, c); }
    SameWidth(grid, n);
    MarkdownReads(grid, decimal);
    var table, i := ReadTable(Markdown(grid, decimal)), if r == 0 then 0 else r + 1;
    assert table[i] == ShownRow(grid, r, n, decimal);
    assert table[i][c] == ShownCell(grid, r, c, decimal);
    CellExactly(rows, r, c);
    CellInk(grid[r][c]);
    NoInkNoCell(grid[r][c]);
  }

  lemma NoInkNoCell(value: Text)
    ensures CellText(value) == [] <==> Chunk.Ink(value) == []
  {
    CellInk(value);
    if CellText(value) == [] {
      assert Unescaped([]) == [] && Chunk.Ink([]) == [];
    } else {
      CellProper(value);
      StripTight(Escaped(value));
      SomeInk(CellText(value));
      UnescapedInk(CellText(value));
    }
  }

  lemma SomeInk(s: Text)
    requires s != [] && !IsSpace(s[0])
    ensures Chunk.Ink(s) != []
  {
  }

  lemma UnescapedInk(s: Text)
    requires s != [] && !IsSpace(s[0])
    ensures Chunk.Ink(Unescaped(s)) != []
  {
    assert Unescaped(s) != [] && !IsSpace(Unescaped(s)[0]);
    SomeInk(Unescaped(s));
  }

  // --- the blocks of a page -------------------------------------------------------------------------------------

  /** Item `k` is the last heading among the first `i`. */
  predicate Heads(placed: seq<Placed>, k: int, i: nat)
    requires i <= |placed|
  {
    0 <= k < i && placed[k].content.Title? && forall m :: k < m < i ==> !placed[m].content.Title?
  }

  /** The text of the last heading among the first `i` items, or the section the page
      began with. */
  ghost predicate InForce(placed: seq<Placed>, i: nat, section: Text, now: Text)
    requires i <= |placed|
  {
    || (exists k :: Heads(placed, k, i) && now == Strip(placed[k].content.line.text))
    || (now == section && forall m :: 0 <= m < i ==> !placed[m].content.Title?)
  }

  lemma {:induction false} SectionIs(page: Page, placed: seq<Placed>, i: nat, section: Text)
    requires i <= |placed|
    ensures InForce(placed, i, section, SectionAfter(page, placed[..i], section))
    decreases i
  {
    hide Strip, Markdown, Grid, ProseText;
    if i > 0 {
      if placed[i - 1].content.Title? { assert Heads(placed, i - 1, i); }
      assert placed[..i][..i - 1] == placed[..i - 1] && placed[..i][i - 1] == placed[i - 1];
      if !placed[i - 1].content.Title? {
        SectionIs(page, placed, i - 1, section);
        StillInForce(placed, i, section, SectionAfter(page, placed[..i - 1], section));
      }
    }
  }

  lemma StillInForce(placed: seq<Placed>, i: nat, section: Text, now: Text)
    requires 0 < i <= |placed| && InForce(placed, i - 1, section, now) && !placed[i - 1].content.Title?
    ensures InForce(placed, i, section, now)
  {
    hide Strip;
    if k :| Heads(placed, k, i - 1) && now == Strip(placed[k].content.line.text) { assert Heads(placed, k, i); }
  }

  function Repeat(c: real, n: nat): seq<real> { seq(n, i => c) }

  /** The confidence of every character of some lines. */
  function Spread(lines: seq<Line>): seq<real> {
    if lines == [] then [] else Repeat(lines[0].conf, |lines[0].text|) + Spread(lines[1..])
  }

  lemma {:induction false} SumAppend(a: seq<real>, b: seq<real>)
    ensures Sum(a + b) == Sum(a) + Sum(b)
    decreases |b|
  {
    if b == [] {
      assert a + b == a;
    } else {
      assert (a + b)[..|a + b| - 1] == a + b[..|b| - 1];
      SumAppend(a, b[..|b| - 1]);
    }
  }

  lemma {:induction false} SumRepeat(c: real, n: nat)
    ensures Sum(Repeat(c, n)) == c * n as real
  {
    if n > 0 {
      SumRepeat(c, n - 1);
      assert Repeat(c, n)[..n - 1] == Repeat(c, n - 1);
    }
  }

  lemma {:induction false} SpreadCount(lines: seq<Line>)
    ensures |Spread(lines)| == Chars(lines)
  {
    if lines != [] { SpreadCount(lines[1..]); }
  }

  function Weight(l: Line): real { l.conf * |l.text| as real }

  lemma ConfSumCons(lines: seq<Line>)
    requires lines != []
    ensures ConfSum(lines) == Weight(lines[0]) + ConfSum(lines[1..])
    ensures Weight(lines[0]) == Sum(Repeat(lines[0].conf, |lines[0].text|))
  {
    SumRepeat(lines[0].conf, |lines[0].text|);
    hide Sum, Repeat;
  }

  lemma {:induction false} SpreadIs(lines: seq<Line>)
    ensures Sum(Spread(lines)) == ConfSum(lines)
  {
    if lines != [] {
      hide Sum, Repeat, Weight, ConfSum;
      SpreadIs(lines[1..]);
      ConfSumCons(lines);
      SumAppend(Repeat(lines[0].conf, |lines[0].text|), Spread(lines[1..]));
    }
  }

  /** The mean over all characters; certain when there are none. */
  predicate Weighs(conf: real, lines: seq<Line>) {
    if Spread(lines) == [] then conf == 1.0 else conf * |Spread(lines)| as real == Sum(Spread(lines))
  }

  lemma WeightedIs(lines: seq<Line>)
    ensures Weighs(WeightedConf(lines), lines)
  {
    SpreadIs(lines);
    SpreadCount(lines);
    if Chars(lines) > 0 { Quotient(ConfSum(lines), Chars(lines)); }
    hide Spread, Sum, ConfSum, Chars;
  }

  lemma Quotient(sum: real, n: nat)
    requires n > 0
    ensures sum / n as real * n as real == sum
  {
  }

  lemma NoteIs()
    ensures LOW_CONF_NOTE == Lit("[?] low-confidence OCR, verify against the source page:\n")
    ensures forall t: Text :: [] + t == t
  {
  }

  /** What each item becomes: the kind and the text of its content, marked exactly
      when its confidence is low, on its page, under the heading in force. */
  lemma BlockSays(page: Page, placed: seq<Placed>, section: Text, i: nat)
    requires i < |placed|
    ensures var b, c := BlocksOf(page, placed, section)[i], placed[i].content;
      && b.page == page.number && b.lowConf == (b.conf < page.lowConf)
      && InForce(placed, i + 1, section, b.section)
      && var text := (match c
                      case Native(cells) => Markdown(cells, page.decimal)
                      case Aligned(rows) => Markdown(Grid(rows), page.decimal)
                      case Title(line) => line.text
                      case Prose(lines) => Strip(Joined(LineTexts(lines), [SPACE])));
      && b.text ==
         (if b.lowConf then Lit("[?] low-confidence OCR, verify against the source page:\n") else []) + text
      && (match c
          case Native(_) => b.kind == Chunk.Table && b.conf == 1.0
          case Aligned(rows) => b.kind == Chunk.Table && Weighs(b.conf, Flatten(rows))
          case Title(line) => b.kind == Chunk.Heading && b.conf == line.conf
          case Prose(lines) => b.kind == Chunk.Paragraph && Weighs(b.conf, lines))
  {
    SectionIs(page, placed, i + 1, section);
    NoteIs();
    hide Strip, Joined, Markdown, Grid, InForce, SectionAfter, Weighs, WeightedConf, Flatten, LOW_CONF_NOTE, Lit;
    match placed[i].content
    case Aligned(rows) => WeightedIs(Flatten(rows));
    case Prose(lines) => WeightedIs(lines);
    case _ =>
  }

  lemma {:induction false} StartIs(column: seq<Line>, x: real)
    requires column != []
    ensures x >= ColumnStart(column) - 2.0 <==> exists l :: l in column && x >= l.x0 - 2.0
  {
    if |column| > 1 {
      StartIs(column[1..], x);
      assert column == [column[0]] + column[1..];
      assert column[0] in column;
    } else {
      assert column[0] in column;
    }
  }

  /** A native table stands at its own top, in the right column exactly when the page
      has two and some line there starts no more than two points to the right of the
      table's centre. */
  lemma NativeStands(natives: seq<Table>, columns: seq<seq<Line>>, k: nat)
    requires k < |natives| && forall c :: 0 <= c < |columns| && |columns| == 2 ==> columns[c] != []
    ensures var it, box := NativeItems(natives, columns)[k], natives[k].box;
      && it.content == Native(natives[k].cells) && it.y == box.y0
      && it.column == (if |columns| == 2 && exists l :: l in columns[1] && (box.x0 + box.x1) / 2.0 >= l.x0 - 2.0
                       then 1 else 0)
  {
    hide ColumnStart;
    if |columns| == 2 { StartIs(columns[1], (natives[k].box.x0 + natives[k].box.x1) / 2.0); }
  }

  /** A line is left to the columns exactly when its middle is in no native table's
      box, two points of margin included. */
  lemma FreeLines(natives: seq<Table>, l: Line)
    ensures Free(natives)(l) <==> forall k :: 0 <= k < |natives| ==>
      var box, cx, cy := natives[k].box, (l.x0 + l.x1) / 2.0, (l.y0 + l.y1) / 2.0;
      cx < box.x0 - 2.0 || cx > box.x1 + 2.0 || cy < box.y0 - 2.0 || cy > box.y1 + 2.0
  {
  }
}
