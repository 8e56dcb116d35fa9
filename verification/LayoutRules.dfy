/** What makes a table, a gutter and two columns, said of the lines themselves rather than counted one by one. */
module LayoutRules {
  import opened Words
  import opened Layout
  import opened Selections

  // ---- tables ----

  function CellTexts(segments: seq<Segment>): (texts: seq<Text>)
    ensures |texts| == |segments|
  {
    seq(|segments|, k requires 0 <= k < |segments| => segments[k].text)
  }

  /** Two cells or more, of 25 characters on average at most. */
  predicate IsShortCelled(line: Line) {
    |line.segments| >= 2 && |Flatten(CellTexts(line.segments))| <= 25 * |line.segments|
  }

  predicate IsNear(x: real, y: real) {
    -0.015 <= x - y <= 0.015
  }

  /** The same left edge, the same right edge or the same centre, within 1.5 % of the page. */
  predicate SharesEdge(a: Segment, b: Segment) {
    || IsNear(a.left, b.left) || IsNear(a.right, b.right)
    || IsNear((a.left + a.right) / 2.0, (b.left + b.right) / 2.0)
  }

  predicate HoldsCell(row: Line, cell: Segment) {
    exists k :: 0 <= k < |row.segments| && SharesEdge(cell, row.segments[k])
  }

  /** Three rows in five have a cell aligned with this one. */
  ghost predicate IsColumn(rows: seq<Line>, cell: Segment) {
    5 * |set i: nat | i < |rows| && HoldsCell(rows[i], cell)| >= 3 * |rows|
  }

  /** The first of the rows with the most cells. */
  predicate IsReference(rows: seq<Line>, r: nat) {
    && r < |rows|
    && (forall i :: 0 <= i < |rows| ==> |rows[i].segments| <= |rows[r].segments|)
    && forall i :: 0 <= i < r ==> |rows[i].segments| < |rows[r].segments|
  }

  ghost predicate HasTwoColumns(rows: seq<Line>, cells: seq<Segment>) {
    exists a, b :: 0 <= a < b < |cells| && IsColumn(rows, cells[a]) && IsColumn(rows, cells[b])
  }

  /** Three rows or more, one of at least three cells, and two of the cells of the reference row are columns. */
  ghost predicate MakesTable(rows: seq<Line>) {
    && |rows| >= 3
    && exists r: nat :: IsReference(rows, r) && |rows[r].segments| >= 3 && HasTwoColumns(rows, rows[r].segments)
  }

  /** The lines from `start` to `end` have short cells, and the ones around them do not. */
  predicate IsRun(lines: seq<Line>, start: nat, end: nat) {
    && start < end <= |lines| && (forall k :: start <= k < end ==> IsShortCelled(lines[k]))
    && (start == 0 || !IsShortCelled(lines[start - 1])) && (end == |lines| || !IsShortCelled(lines[end]))
  }

  /** A line of a table: the run of such lines around it makes one. */
  ghost predicate IsTableLine(lines: seq<Line>, i: nat) {
    exists start: nat, end: nat :: IsRun(lines, start, end) && start <= i < end && MakesTable(lines[start..end])
  }

  lemma {:induction false} LengthsAddUp(segments: seq<Segment>, n: nat)
    requires n <= |segments|
    ensures TotalLength(segments, n) == |Flatten(CellTexts(segments)[..n])|
  {
    if n > 0 {
      LengthsAddUp(segments, n - 1);
      var texts := CellTexts(segments);
      assert texts[..n] == texts[..n - 1] + [texts[n - 1]];
      FlattenSnoc(texts[..n - 1], texts[n - 1]);
    }
  }

  lemma TabularMeans(line: Line)
    ensures IsTabular(line) <==> IsShortCelled(line)
  {
    LengthsAddUp(line.segments, |line.segments|);
    assert CellTexts(line.segments)[..|line.segments|] == CellTexts(line.segments);
  }

  lemma AlignedMeans(a: Segment, b: Segment)
    ensures IsAligned(a, b) <==> SharesEdge(a, b)
  {
  }

  lemma HasCellMeans(row: Line, cell: Segment)
    ensures HasCell(row, cell) <==> HoldsCell(row, cell)
  {
    hide IsAligned, SharesEdge;
    forall k | 0 <= k < |row.segments| ensures IsAligned(cell, row.segments[k]) <==> SharesEdge(cell, row.segments[k]) {
      AlignedMeans(cell, row.segments[k]);
    }
  }

  ghost function Holding(rows: seq<Line>, cell: Segment): (holding: seq<bool>)
    ensures |holding| == |rows|
  {
    seq(|rows|, i requires 0 <= i < |rows| => HoldsCell(rows[i], cell))
  }

  lemma {:induction false} RowsAreMarked(rows: seq<Line>, cell: Segment, n: nat)
    requires n <= |rows|
    ensures RowsWith(rows, cell, n) == MarkCount(Holding(rows, cell), n)
  {
    hide HasCell, HoldsCell;
    if n > 0 {
      RowsAreMarked(rows, cell, n - 1);
      HasCellMeans(rows[n - 1], cell);
    }
  }

  lemma ColumnMeans(rows: seq<Line>, cell: Segment)
    ensures RowsWith(rows, cell, |rows|) as real >= |rows| as real * ALIGNED_ROWS_RATIO <==> IsColumn(rows, cell)
  {
    hide HoldsCell;
    RowsAreMarked(rows, cell, |rows|);
    MarkedIsSize(Holding(rows, cell), |rows|);
    assert MarkedSet(Holding(rows, cell), |rows|) == set i: nat | i < |rows| && HoldsCell(rows[i], cell);
  }

  ghost function Columnar(rows: seq<Line>, cells: seq<Segment>): (columnar: seq<bool>)
    ensures |columnar| == |cells|
  {
    seq(|cells|, k requires 0 <= k < |cells| => IsColumn(rows, cells[k]))
  }

  lemma {:induction false} ColumnsAreMarked(rows: seq<Line>, cells: seq<Segment>, n: nat)
    requires n <= |cells|
    ensures AlignedColumns(rows, cells, n) == MarkCount(Columnar(rows, cells), n)
  {
    hide IsColumn, RowsWith;
    if n > 0 {
      ColumnsAreMarked(rows, cells, n - 1);
      ColumnMeans(rows, cells[n - 1]);
    }
  }

  lemma TwoColumnsMean(rows: seq<Line>, cells: seq<Segment>)
    ensures AlignedColumns(rows, cells, |cells|) >= 2 <==> HasTwoColumns(rows, cells)
  {
    hide IsColumn, AlignedColumns;
    ColumnsAreMarked(rows, cells, |cells|);
    var columnar := Columnar(rows, cells);
    MarkedTwo(columnar, |cells|);
    assert forall k :: 0 <= k < |cells| ==> columnar[k] == IsColumn(rows, cells[k]);
  }

  lemma TableMeans(rows: seq<Line>)
    ensures IsTable(rows) <==> MakesTable(rows)
  {
    hide HasTwoColumns, AlignedColumns;
    if |rows| >= 3 {
      var r := Richest(rows, |rows|);
      assert IsReference(rows, r);
      forall k: nat | IsReference(rows, k) ensures k == r {
        assert |rows[r].segments| <= |rows[k].segments| && |rows[k].segments| <= |rows[r].segments|;
      }
      TwoColumnsMean(rows, rows[r].segments);
    }
  }

  lemma RunIsShortCelled(lines: seq<Line>)
    ensures forall k :: 0 <= k < |lines| ==> IsTabular(lines[k]) == IsShortCelled(lines[k])
  {
    forall k | 0 <= k < |lines| ensures IsTabular(lines[k]) == IsShortCelled(lines[k]) {
      TabularMeans(lines[k]);
    }
  }

  lemma OneRun(lines: seq<Line>, i: nat, start: nat, end: nat)
    requires i < |lines| && IsRun(lines, start, end) && start <= i < end
    ensures start == RunStart(lines, i) && end == RunEnd(lines, i)
  {
    hide IsTabular, IsShortCelled;
    RunIsShortCelled(lines);
    SameRun(lines, start, end, i);
  }

  /** The lines that are marked are those of the runs that make a table. */
  lemma InTableMeans(lines: seq<Line>, i: nat)
    requires i < |lines|
    ensures InTable(lines, i) <==> IsTableLine(lines, i)
  {
    hide IsTabular, IsShortCelled, IsTable, MakesTable;
    RunIsShortCelled(lines);
    var start, end := RunStart(lines, i), RunEnd(lines, i);
    TableMeans(lines[start..end]);
    if IsTabular(lines[i]) {
      assert IsRun(lines, start, end);
    }
    forall s: nat, e: nat | IsRun(lines, s, e) && s <= i < e ensures s == start && e == end {
      OneRun(lines, i, s, e);
    }
  }

  // ---- columns ----

  /** Which lines are outside of the tables and have that many segments. */
  function WithSegments(lines: seq<Laid>, atLeast: nat): (marks: seq<bool>)
    ensures |marks| == |lines|
  {
    seq(|lines|, i requires 0 <= i < |lines| => !lines[i].table && |lines[i].line.segments| >= atLeast)
  }

  ghost predicate AreLinesAt(lines: seq<Laid>, at: seq<nat>, chosen: seq<Line>) {
    |chosen| == |at| && forall j :: 0 <= j < |at| ==> at[j] < |lines| && chosen[j] == lines[at[j]].line
  }

  /** A place of the central third that at most one line in ten covers, in two-hundredths of the page. */
  ghost predicate IsClear(lines: seq<Line>, bin: nat) {
    && 400 <= 3 * (2 * bin + 1) <= 800
    && 10 * |set i: nat | i < |lines| && CoversAt(lines[i], (2 * bin + 1) as real / 400.0)| <= |lines|
  }

  ghost predicate IsClearBand(lines: seq<Line>, start: nat, end: nat) {
    start < end && forall bin :: start <= bin < end ==> IsClear(lines, bin)
  }

  /** Of at least three lines, the first of the widest clear bands, of 1.5 % of the page or more. */
  ghost predicate IsWidestBand(lines: seq<Line>, start: nat, end: nat) {
    && |lines| >= 3 && IsClearBand(lines, start, end) && end - start >= 3
    && forall s: nat, e: nat :: IsClearBand(lines, s, e) ==> e - s < end - start || (e - s == end - start && start <= s)
  }

  /** Text on both sides, and none across. */
  predicate Crosses(line: Line, x: real) {
    && (forall k :: 0 <= k < |line.segments| ==> x <= line.segments[k].left || line.segments[k].right <= x)
    && (exists k :: 0 <= k < |line.segments| && line.segments[k].right <= x)
    && exists k :: 0 <= k < |line.segments| && x <= line.segments[k].left
  }

  /** Three lines or more, and three in ten. */
  ghost predicate IsCrossed(lines: seq<Line>, x: real) {
    var crossings := |set i: nat | i < |lines| && Crosses(lines[i], x)|;
    crossings >= 3 && 10 * crossings >= 3 * |lines|
  }

  lemma {:induction false} GeometricMeans(lines: seq<Laid>, atLeast: nat, n: nat) returns (at: seq<nat>)
    requires atLeast > 0 && n <= |lines|
    ensures Selects(at, WithSegments(lines, atLeast)[..n], true) && AreLinesAt(lines, at, Geometric(lines, atLeast, n))
  {
    hide *;
    if n == 0 {
      at := [];
      NoneGeometric(lines, atLeast);
    } else {
      at := GeometricMeans(lines, atLeast, n - 1);
      var marks := WithSegments(lines, atLeast);
      SelectsNext(at, marks[..n - 1], true, marks[n - 1]);
      OneMoreGeometric(lines, atLeast, n, at);
      assert marks[..n] == marks[..n - 1] + [marks[n - 1]];
      at := if marks[n - 1] then at + [n - 1] else at;
    }
  }

  lemma NoneGeometric(lines: seq<Laid>, atLeast: nat)
    ensures Selects([], WithSegments(lines, atLeast)[..0], true) && AreLinesAt(lines, [], Geometric(lines, atLeast, 0))
  {
  }

  lemma OneMoreGeometric(lines: seq<Laid>, atLeast: nat, n: nat, at: seq<nat>)
    requires atLeast > 0 && 0 < n <= |lines| && AreLinesAt(lines, at, Geometric(lines, atLeast, n - 1))
    ensures AreLinesAt(lines, if WithSegments(lines, atLeast)[n - 1] then at + [n - 1] else at,
                       Geometric(lines, atLeast, n))
  {
  }

  ghost function Covering(lines: seq<Line>, x: real): (covering: seq<bool>)
    ensures |covering| == |lines|
  {
    seq(|lines|, i requires 0 <= i < |lines| => CoversAt(lines[i], x))
  }

  lemma {:induction false} CoverageIsMarked(lines: seq<Line>, x: real, n: nat)
    requires n <= |lines|
    ensures Coverage(lines, x, n) == MarkCount(Covering(lines, x), n)
  {
    hide CoversAt;
    if n > 0 {
      CoverageIsMarked(lines, x, n - 1);
    }
  }

  lemma ClearMeans(lines: seq<Line>, bin: nat)
    ensures IsEmpty(lines, bin) <==> IsClear(lines, bin)
  {
    hide CoversAt, Coverage;
    var x := (2 * bin + 1) as real / 400.0;
    assert Center(bin) == x;
    CoverageIsMarked(lines, x, |lines|);
    MarkedIsSize(Covering(lines, x), |lines|);
    assert MarkedSet(Covering(lines, x), |lines|) == set i: nat | i < |lines| && CoversAt(lines[i], x);
  }

  lemma BandMeans(lines: seq<Line>, start: nat, end: nat)
    ensures IsBand(lines, start, end) <==> IsClearBand(lines, start, end)
  {
    hide IsEmpty, IsClear;
    forall bin: nat ensures IsEmpty(lines, bin) <==> IsClear(lines, bin) {
      ClearMeans(lines, bin);
    }
    if IsClearBand(lines, start, end) {
      ClearIsInside(lines, end - 1);
    }
  }

  lemma ClearIsInside(lines: seq<Line>, bin: nat)
    requires IsClear(lines, bin)
    ensures bin < BINS
  {
  }

  lemma GutterMeans(lines: seq<Line>, start: nat, end: nat)
    ensures IsGutter(lines, start, end) <==> IsWidestBand(lines, start, end)
  {
    hide IsBand, IsClearBand;
    forall s: nat, e: nat ensures IsBand(lines, s, e) <==> IsClearBand(lines, s, e) {
      BandMeans(lines, s, e);
    }
    WideMeans(start, end);
  }

  lemma WideMeans(start: nat, end: nat)
    ensures IsWide(start, end) <==> end - start >= 3
  {
  }

  lemma {:induction false} LeftOfSome(segments: seq<Segment>, x: real)
    ensures LeftOf(segments, x) != [] <==> exists k :: 0 <= k < |segments| && segments[k].right <= x
  {
    if segments != [] {
      LeftOfSome(segments[1..], x);
      assert forall k :: 0 < k < |segments| ==> segments[k] == segments[1..][k - 1];
    }
  }

  lemma {:induction false} RightOfSome(segments: seq<Segment>, x: real)
    ensures RightOf(segments, x) != [] <==> exists k :: 0 <= k < |segments| && x <= segments[k].left
  {
    if segments != [] {
      RightOfSome(segments[1..], x);
      assert forall k :: 0 < k < |segments| ==> segments[k] == segments[1..][k - 1];
    }
  }

  lemma CrossingMeans(line: Line, x: real)
    ensures IsCrossing(line, x) <==> Crosses(line, x)
  {
    LeftOfSome(line.segments, x);
    RightOfSome(line.segments, x);
  }

  ghost function CrossingOf(lines: seq<Line>, x: real): (crossing: seq<bool>)
    ensures |crossing| == |lines|
  {
    seq(|lines|, i requires 0 <= i < |lines| => Crosses(lines[i], x))
  }

  lemma {:induction false} CrossingIsMarked(lines: seq<Line>, x: real, n: nat)
    requires n <= |lines|
    ensures Crossing(lines, x, n) == MarkCount(CrossingOf(lines, x), n)
  {
    hide IsCrossing, Crosses;
    if n > 0 {
      CrossingIsMarked(lines, x, n - 1);
      CrossingMeans(lines[n - 1], x);
    }
  }

  lemma CrossedMeans(lines: seq<Line>, x: real)
    ensures var crossing := Crossing(lines, x, |lines|);
            crossing >= MIN_CROSSING_LINES && crossing as real >= |lines| as real * MIN_CROSSING_RATIO
            <==> IsCrossed(lines, x)
  {
    hide Crosses, Crossing;
    CrossingIsMarked(lines, x, |lines|);
    MarkedIsSize(CrossingOf(lines, x), |lines|);
    assert MarkedSet(CrossingOf(lines, x), |lines|) == set i: nat | i < |lines| && Crosses(lines[i], x);
  }

  /**
   * Two columns: six lines with geometry or more, and enough of them crossed at
   * the middle of the widest band of those with two segments.
   */
  lemma ColumnsMean(lines: seq<Laid>, start: nat, end: nat)
    ensures var (all, several) := (Geometric(lines, 1, |lines|), Geometric(lines, 2, |lines|));
            HasColumns(lines, start, end)
            <==> |all| >= 6 && IsWidestBand(several, start, end) && IsCrossed(all, (start + end) as real / 400.0)
  {
    hide IsGutter, IsWidestBand, IsCrossed, Geometric, Crossing;
    var all := Geometric(lines, 1, |lines|);
    GutterMeans(Geometric(lines, 2, |lines|), start, end);
    CrossedMeans(all, Middle(start, end));
    assert Middle(start, end) == (start + end) as real / 400.0;
  }

  // ---- the parts of a line ----

  /** The texts of the segments, each after the same separator. */
  function Following(segments: seq<Segment>, between: Text): (texts: seq<Text>)
    ensures |texts| == |segments|
  {
    seq(|segments|, k requires 0 <= k < |segments| => between + segments[k].text)
  }

  /** The separator stands between two segments, and nowhere else. */
  predicate AreJoined(segments: seq<Segment>, between: Text, text: Text)
    requires segments != []
  {
    text == segments[0].text + Flatten(Following(segments[1..], between))
  }

  lemma {:induction false} JoinedSoFar(segments: seq<Segment>, between: Text, n: nat)
    requires 0 < n <= |segments|
    ensures JoinTexts(segments, between, n) == segments[0].text + Flatten(Following(segments[1..n], between))
  {
    hide Flatten;
    if n > 1 {
      JoinedSoFar(segments, between, n - 1);
      var before, last := segments[1..n - 1], segments[n - 1];
      assert segments[1..n] == before + [last];
      assert Following(before + [last], between) == Following(before, between) + [between + last.text];
      FlattenSnoc(Following(before, between), between + last.text);
    } else {
      assert segments[1..n] == [] && Following([], between) == [];
      NothingFlat();
    }
  }

  lemma NothingFlat()
    ensures Flatten<CodeUnit>([]) == []
  {
  }

  lemma JoinTextsJoin(segments: seq<Segment>, between: Text)
    requires segments != []
    ensures AreJoined(segments, between, JoinTexts(segments, between, |segments|))
  {
    JoinedSoFar(segments, between, |segments|);
    assert segments[1..|segments|] == segments[1..];
  }

  function EndingBy(segments: seq<Segment>, x: real): (marks: seq<bool>)
    ensures |marks| == |segments|
  {
    seq(|segments|, k requires 0 <= k < |segments| => segments[k].right <= x)
  }

  function StartingFrom(segments: seq<Segment>, x: real): (marks: seq<bool>)
    ensures |marks| == |segments|
  {
    seq(|segments|, k requires 0 <= k < |segments| => x <= segments[k].left)
  }

  /** The segments with a mark, in order, as one line at the place of the whole one; no line when there is none. */
  ghost predicate IsPart(l: Laid, marks: seq<bool>, part: seq<Laid>) {
    exists at: seq<nat> :: IsPartAt(l, marks, at, part)
  }

  ghost predicate IsPartAt(l: Laid, marks: seq<bool>, at: seq<nat>, part: seq<Laid>) {
    && |marks| == |l.line.segments| && Selects(at, marks, true)
    && if at == [] then part == []
       else
         && |part| == 1 && !part[0].table && !part[0].line.vertical
         && part[0].line.top == l.line.top && part[0].line.fontSize == l.line.fontSize
         && AreSegmentsAt(l.line.segments, at, part[0].line.segments) && part[0].line.segments != []
         && AreJoined(part[0].line.segments, Ascii(" "), part[0].line.text)
  }

  /** The segments that are marked. */
  function MarkedOf(segments: seq<Segment>, marks: seq<bool>): seq<Segment>
    requires |marks| == |segments|
  {
    if segments == [] then []
    else (if marks[0] then [segments[0]] else []) + MarkedOf(segments[1..], marks[1..])
  }

  ghost predicate AreSegmentsAt(segments: seq<Segment>, at: seq<nat>, part: seq<Segment>) {
    |part| == |at| && forall j :: 0 <= j < |at| ==> at[j] < |segments| && part[j] == segments[at[j]]
  }

  lemma SegmentsShift(segments: seq<Segment>, first: bool, after: seq<nat>, rest: seq<Segment>)
    requires segments != [] && AreSegmentsAt(segments[1..], after, rest)
    ensures AreSegmentsAt(segments, Shifted(first, after), (if first then [segments[0]] else []) + rest)
  {
    hide Shifted;
    var at := Shifted(first, after);
    forall j | 0 <= j < |at|
      ensures at[j] < |segments| && ((if first then [segments[0]] else []) + rest)[j] == segments[at[j]]
    {
      ShiftedAt(first, after, j);
    }
  }

  lemma {:induction false} MarkedAreSelected(segments: seq<Segment>, marks: seq<bool>) returns (at: seq<nat>)
    requires |marks| == |segments|
    ensures Selects(at, marks, true) && AreSegmentsAt(segments, at, MarkedOf(segments, marks))
  {
    if segments == [] {
      at := [];
    } else {
      hide Selects, AreSegmentsAt, Shifted;
      var after := MarkedAreSelected(segments[1..], marks[1..]);
      at := Shifted(marks[0], after);
      SegmentsShift(segments, marks[0], after, MarkedOf(segments[1..], marks[1..]));
      ShiftedSelects(marks[1..], after, marks[0]);
      assert marks == [marks[0]] + marks[1..];
    }
  }

  lemma {:induction false} SidesAreMarked(segments: seq<Segment>, x: real)
    ensures LeftOf(segments, x) == MarkedOf(segments, EndingBy(segments, x))
    ensures RightOf(segments, x) == MarkedOf(segments, StartingFrom(segments, x))
  {
    if segments != [] {
      SidesAreMarked(segments[1..], x);
      assert EndingBy(segments, x)[1..] == EndingBy(segments[1..], x);
      assert StartingFrom(segments, x)[1..] == StartingFrom(segments[1..], x);
    }
  }

  /** What each column gets of a line: its segments on that side, joined by blanks. */
  lemma PartsMean(l: Laid, x: real)
    ensures IsPart(l, EndingBy(l.line.segments, x), LeftPart(l, x))
    ensures IsPart(l, StartingFrom(l.line.segments, x), RightPart(l, x))
  {
    hide Selects, LeftOf, RightOf, JoinTexts, AreJoined, MarkedOf;
    var segments := l.line.segments;
    SidesAreMarked(segments, x);
    var left := MarkedAreSelected(segments, EndingBy(segments, x));
    var right := MarkedAreSelected(segments, StartingFrom(segments, x));
    Blank();
    if left != [] {
      JoinTextsJoin(LeftOf(segments, x), Ascii(" "));
    }
    if right != [] {
      JoinTextsJoin(RightOf(segments, x), Ascii(" "));
    }
    assert IsPartAt(l, EndingBy(segments, x), left, LeftPart(l, x));
    assert IsPartAt(l, StartingFrom(segments, x), right, RightPart(l, x));
  }

  lemma Blank()
    ensures Ascii(" ") == [' ' as int]
  {
  }
}
