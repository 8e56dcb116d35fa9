/** Tables and columns of a page, from the horizontal segments of its lines. */
module Layout {
  import opened Wrappers
  import opened Words

  const MAX_CELL_LENGTH := 25
  const MIN_TABLE_ROWS := 3
  const MIN_TABLE_COLUMNS := 3
  const MIN_ALIGNED_COLUMNS := 2
  const ALIGNED_ROWS_RATIO := 0.6
  const ALIGN_TOLERANCE := 0.015
  const MIN_GUTTER_WIDTH := 0.015
  const GUTTER_MAX_COVERAGE := 0.1
  const MIN_CROSSING_LINES := 3
  const MIN_CROSSING_RATIO := 0.3
  const MIN_LINES_FOR_COLUMNS := 6
  const BINS := 200

  /** A block of text on a line, its edges from 0 to 1 across the page. */
  datatype Segment = Segment(text: Text, left: real, right: real)

  /** A line; no segments when the geometry is unknown. */
  datatype Line = Line(text: Text, top: Option<real>, fontSize: Option<real>, segments: seq<Segment>, vertical: bool)

  /** A line of a page that is laid out, marked when it belongs to a table. */
  datatype Laid = Laid(line: Line, table: bool)

  // ---- tables ----

  function TotalLength(segments: seq<Segment>, n: nat): nat
    requires n <= |segments|
  {
    if n == 0 then 0 else TotalLength(segments, n - 1) + |segments[n - 1].text|
  }

  /** At least two cells, short on average. */
  predicate IsTabular(line: Line) {
    |line.segments| >= 2 && TotalLength(line.segments, |line.segments|) <= MAX_CELL_LENGTH * |line.segments|
  }

  function Abs(x: real): real {
    if x < 0.0 then -x else x
  }

  predicate IsAligned(a: Segment, b: Segment) {
    || Abs(a.left - b.left) <= ALIGN_TOLERANCE
    || Abs((a.left + a.right) / 2.0 - (b.left + b.right) / 2.0) <= ALIGN_TOLERANCE
    || Abs(a.right - b.right) <= ALIGN_TOLERANCE
  }

  predicate HasCell(row: Line, cell: Segment) {
    exists k :: 0 <= k < |row.segments| && IsAligned(cell, row.segments[k])
  }

  function RowsWith(rows: seq<Line>, cell: Segment, n: nat): (count: nat)
    requires n <= |rows|
  {
    if n == 0 then 0 else RowsWith(rows, cell, n - 1) + (if HasCell(rows[n - 1], cell) then 1 else 0)
  }

  /** The first row with the most cells. */
  function Richest(rows: seq<Line>, n: nat): (k: nat)
    requires 0 < n <= |rows|
    ensures k < n && forall i :: 0 <= i < n ==> |rows[i].segments| <= |rows[k].segments|
    ensures forall i :: 0 <= i < k ==> |rows[i].segments| < |rows[k].segments|
  {
    if n == 1 then 0
    else
      var best := Richest(rows, n - 1);
      if |rows[n - 1].segments| > |rows[best].segments| then n - 1 else best
  }

  function AlignedColumns(rows: seq<Line>, cells: seq<Segment>, n: nat): nat
    requires n <= |cells|
  {
    if n == 0 then 0
    else AlignedColumns(rows, cells, n - 1)
         + (if RowsWith(rows, cells[n - 1], |rows|) as real >= |rows| as real * ALIGNED_ROWS_RATIO then 1 else 0)
  }

  predicate IsTable(rows: seq<Line>) {
    && |rows| >= MIN_TABLE_ROWS
    && var cells := rows[Richest(rows, |rows|)].segments;
       |cells| >= MIN_TABLE_COLUMNS && AlignedColumns(rows, cells, |cells|) >= MIN_ALIGNED_COLUMNS
  }

  /** Where the run of tabular lines that ends before `n` starts. */
  function RunStart(lines: seq<Line>, n: nat): (start: nat)
    requires n <= |lines|
    ensures start <= n && forall i :: start <= i < n ==> IsTabular(lines[i])
    ensures start == 0 || !IsTabular(lines[start - 1])
  {
    if n == 0 || !IsTabular(lines[n - 1]) then n else RunStart(lines, n - 1)
  }

  function RunEnd(lines: seq<Line>, i: nat): (end: nat)
    requires i <= |lines|
    ensures i <= end <= |lines| && forall k :: i <= k < end ==> IsTabular(lines[k])
    ensures end == |lines| || !IsTabular(lines[end])
    decreases |lines| - i
  {
    if i == |lines| || !IsTabular(lines[i]) then i else RunEnd(lines, i + 1)
  }

  /** A line is in a table when the longest run of tabular lines around it is one. */
  predicate InTable(lines: seq<Line>, i: nat)
    requires i < |lines|
  {
    IsTabular(lines[i]) && IsTable(lines[RunStart(lines, i)..RunEnd(lines, i)])
  }

  lemma {:induction false} SameRun(lines: seq<Line>, start: nat, end: nat, i: nat)
    requires start <= i < end <= |lines| && forall k :: start <= k < end ==> IsTabular(lines[k])
    requires start == 0 || !IsTabular(lines[start - 1])
    requires end == |lines| || !IsTabular(lines[end])
    ensures RunStart(lines, i) == start && RunEnd(lines, i) == end
  {
  }

  /** The runs of tabular lines, each kept when it makes a table. */
  method FindTableLines(lines: seq<Line>) returns (tables: seq<bool>)
    ensures |tables| == |lines|
    ensures forall i :: 0 <= i < |lines| ==> (tables[i] <==> InTable(lines, i))
  {
    tables := [];
    for n := 0 to |lines|
      invariant |tables| == RunStart(lines, n)
      invariant forall i :: 0 <= i < |tables| ==> (tables[i] <==> InTable(lines, i))
    {
      if !IsTabular(lines[n]) {
        tables := CloseRun(lines, tables, n);
        tables := tables + [false];
      }
    }
    tables := CloseRun(lines, tables, |lines|);
  }

  method CloseRun(lines: seq<Line>, tables: seq<bool>, end: nat) returns (tables': seq<bool>)
    requires end <= |lines| && |tables| == RunStart(lines, end) && (end == |lines| || !IsTabular(lines[end]))
    requires forall i :: 0 <= i < |tables| ==> (tables[i] <==> InTable(lines, i))
    ensures |tables'| == end && forall i :: 0 <= i < end ==> (tables'[i] <==> InTable(lines, i))
  {
    var start := |tables|;
    var table := IsTable(lines[start..end]);
    tables' := tables + seq(end - start, _ => table);
    forall i | start <= i < end ensures InTable(lines, i) <==> table {
      SameRun(lines, start, end, i);
    }
  }

  // ---- the gutter ----

  function Center(bin: nat): real {
    (bin as real + 0.5) / BINS as real
  }

  predicate CoversAt(line: Line, x: real) {
    exists k :: 0 <= k < |line.segments| && line.segments[k].left <= x <= line.segments[k].right
  }

  function Coverage(lines: seq<Line>, x: real, n: nat): nat
    requires n <= |lines|
  {
    if n == 0 then 0 else Coverage(lines, x, n - 1) + (if CoversAt(lines[n - 1], x) then 1 else 0)
  }

  /** A bin of the central third that at most a tenth of the lines cover. */
  predicate IsEmpty(lines: seq<Line>, bin: nat) {
    && bin < BINS && 1.0 / 3.0 <= Center(bin) <= 2.0 / 3.0
    && Coverage(lines, Center(bin), |lines|) as real <= |lines| as real * GUTTER_MAX_COVERAGE
  }

  predicate IsBand(lines: seq<Line>, start: nat, end: nat) {
    start < end <= BINS && forall bin :: start <= bin < end ==> IsEmpty(lines, bin)
  }

  /** No wider band, and none as wide before it. */
  ghost predicate IsFirstWidest(lines: seq<Line>, start: nat, end: nat) {
    && IsBand(lines, start, end)
    && forall s: nat, e: nat :: IsBand(lines, s, e) ==> e - s < end - start || (e - s == end - start && start <= s)
  }

  predicate IsWide(start: nat, end: nat) {
    (end as real - start as real) / BINS as real >= MIN_GUTTER_WIDTH
  }

  function Middle(start: nat, end: nat): real {
    (start + end) as real / 2.0 / BINS as real
  }

  ghost predicate IsGutter(lines: seq<Line>, start: nat, end: nat) {
    |lines| >= MIN_CROSSING_LINES && IsFirstWidest(lines, start, end) && IsWide(start, end)
  }

  /** The middle of the widest empty band, the first of them, when it is wide enough. */
  method FindGutter(lines: seq<Line>) returns (gutter: Option<real>)
    ensures forall s: nat, e: nat :: IsGutter(lines, s, e) ==> gutter == Some(Middle(s, e))
    ensures gutter.Some? ==> exists s: nat, e: nat :: IsGutter(lines, s, e)
  {
    if |lines| < MIN_CROSSING_LINES {
      return None;
    }
    var best: Option<(nat, nat)> := None;
    var start: Option<nat> := None;
    for bin := 0 to BINS + 1
      invariant start.Some? ==> start.value < bin <= BINS && IsBand(lines, start.value, bin)
      invariant start.Some? ==> start.value == 0 || !IsEmpty(lines, start.value - 1)
      invariant start.None? && bin > 0 ==> !IsEmpty(lines, bin - 1)
      invariant best.Some? ==>
                  IsBand(lines, best.value.0, best.value.1) && best.value.1 <= if start.Some? then start.value else bin
      invariant BestUpTo(lines, best, if start.Some? then start.value else bin)
    {
      var empty := IsEmpty(lines, bin);
      if empty && start.None? {
        start := Some(bin);
      }
      if !empty && start.Some? {
        RunEnds(lines, best, start.value, bin);
        if best.None? || bin - start.value > best.value.1 - best.value.0 {
          best := Some((start.value, bin));
        }
        start := None;
      } else if !empty {
        NoBandEndsAt(lines, best, bin);
      }
    }
    if best.None? || (best.value.1 as real - best.value.0 as real) / BINS as real < MIN_GUTTER_WIDTH {
      return None;
    }
    assert IsGutter(lines, best.value.0, best.value.1);
    gutter := Some((best.value.0 + best.value.1) as real / 2.0 / BINS as real);
  }

  /** `best` is the first widest of the bands that end by `bin`. */
  ghost predicate BestUpTo(lines: seq<Line>, best: Option<(nat, nat)>, bin: nat) {
    forall s: nat, e: nat :: IsBand(lines, s, e) && e <= bin ==>
      best.Some? && var width := best.value.1 - best.value.0; e - s < width || (e - s == width && best.value.0 <= s)
  }

  /** A band that ends within the run is a part of it. */
  lemma RunEnds(lines: seq<Line>, best: Option<(nat, nat)>, start: nat, bin: nat)
    requires BestUpTo(lines, best, start) && IsBand(lines, start, bin) && !IsEmpty(lines, bin)
    requires start == 0 || !IsEmpty(lines, start - 1)
    requires best.Some? ==> best.value.1 <= start && best.value.0 < best.value.1
    ensures var after := if best.None? || bin - start > best.value.1 - best.value.0 then Some((start, bin)) else best;
            BestUpTo(lines, after, bin + 1)
  {
    var after := if best.None? || bin - start > best.value.1 - best.value.0 then Some((start, bin)) else best;
    forall s: nat, e: nat | IsBand(lines, s, e) && e <= bin + 1
      ensures var width := after.value.1 - after.value.0; e - s < width || (e - s == width && after.value.0 <= s)
    {
      assert e > bin ==> s <= bin < e;
      assert e > start && start > 0 ==> !(s <= start - 1 < e);
    }
  }

  lemma NoBandEndsAt(lines: seq<Line>, best: Option<(nat, nat)>, bin: nat)
    requires BestUpTo(lines, best, bin) && !IsEmpty(lines, bin)
    ensures BestUpTo(lines, best, bin + 1)
  {
    forall s: nat, e: nat | IsBand(lines, s, e) && e <= bin + 1 ensures e <= bin {
      assert e > bin ==> s <= bin < e;
    }
  }

  // ---- columns ----

  predicate StraddlesSegment(s: Segment, gutter: real) {
    s.left < gutter < s.right
  }

  predicate Over(line: Line, gutter: real) {
    exists k :: 0 <= k < |line.segments| && StraddlesSegment(line.segments[k], gutter)
  }

  function LeftOf(segments: seq<Segment>, gutter: real): seq<Segment> {
    if segments == [] then []
    else (if segments[0].right <= gutter then [segments[0]] else []) + LeftOf(segments[1..], gutter)
  }

  function RightOf(segments: seq<Segment>, gutter: real): seq<Segment> {
    if segments == [] then []
    else (if segments[0].left >= gutter then [segments[0]] else []) + RightOf(segments[1..], gutter)
  }

  function JoinTexts(segments: seq<Segment>, between: Text, n: nat): Text
    requires n <= |segments|
  {
    if n == 0 then [] else JoinTexts(segments, between, n - 1) + (if n > 1 then between else []) + segments[n - 1].text
  }

  /** The part of a line that lies in one column. */
  function LineOf(line: Line, segments: seq<Segment>): Line {
    Line(JoinTexts(segments, [' ' as int], |segments|), line.top, line.fontSize, segments, false)
  }

  predicate IsCrossing(line: Line, gutter: real) {
    !Over(line, gutter) && LeftOf(line.segments, gutter) != [] && RightOf(line.segments, gutter) != []
  }

  /** A full-width line, a line of a table, or one without geometry: both columns are read before it. */
  predicate IsBarrier(l: Laid, gutter: real) {
    l.line.segments == [] || l.table || Over(l.line, gutter)
  }

  function LeftPart(l: Laid, gutter: real): seq<Laid> {
    var part := LeftOf(l.line.segments, gutter);
    if part == [] then [] else [Laid(LineOf(l.line, part), false)]
  }

  function RightPart(l: Laid, gutter: real): seq<Laid> {
    var part := RightOf(l.line.segments, gutter);
    if part == [] then [] else [Laid(LineOf(l.line, part), false)]
  }

  /** How lines are placed: which ones stop the columns, and what each gives to the left and to the right. */
  datatype Rule = Rule(stops: Laid -> bool, left: Laid -> seq<Laid>, right: Laid -> seq<Laid>)

  function Around(gutter: real): Rule {
    Rule(l => IsBarrier(l, gutter), l => LeftPart(l, gutter), l => RightPart(l, gutter))
  }

  datatype Columns = Columns(ordered: seq<Laid>, left: seq<Laid>, right: seq<Laid>)

  function Flush(c: Columns): seq<Laid> {
    c.ordered + c.left + c.right
  }

  function Place(c: Columns, l: Laid, rule: Rule): Columns {
    if rule.stops(l) then Columns(Flush(c) + [l], [], [])
    else Columns(c.ordered, c.left + rule.left(l), c.right + rule.right(l))
  }

  function PlaceAll(c: Columns, lines: seq<Laid>, rule: Rule, n: nat): Columns
    requires n <= |lines|
  {
    if n == 0 then c else Place(PlaceAll(c, lines, rule, n - 1), lines[n - 1], rule)
  }

  const NoColumns := Columns([], [], [])

  /** The reading order. */
  function Reordered(lines: seq<Laid>, rule: Rule): seq<Laid> {
    Flush(PlaceAll(NoColumns, lines, rule, |lines|))
  }

  predicate IsGeometric(l: Laid) {
    l.line.segments != [] && !l.table
  }

  function Geometric(lines: seq<Laid>, atLeast: nat, n: nat): seq<Line>
    requires n <= |lines|
  {
    if n == 0 then []
    else Geometric(lines, atLeast, n - 1)
         + (if IsGeometric(lines[n - 1]) && |lines[n - 1].line.segments| >= atLeast then [lines[n - 1].line] else [])
  }

  function Crossing(lines: seq<Line>, gutter: real, n: nat): nat
    requires n <= |lines|
  {
    if n == 0 then 0 else Crossing(lines, gutter, n - 1) + (if IsCrossing(lines[n - 1], gutter) then 1 else 0)
  }

  /** The gutter between two columns: read on the lines of several segments, and crossed by enough lines. */
  ghost predicate HasColumns(lines: seq<Laid>, start: nat, end: nat) {
    var geometric := Geometric(lines, 1, |lines|);
    var crossing := Crossing(geometric, Middle(start, end), |geometric|);
    && |geometric| >= MIN_LINES_FOR_COLUMNS
    && IsGutter(Geometric(lines, 2, |lines|), start, end)
    && crossing >= MIN_CROSSING_LINES && crossing as real >= |geometric| as real * MIN_CROSSING_RATIO
  }

  /** The page as it is, or around its gutter. */
  ghost predicate IsReadingOrder(lines: seq<Laid>, ordered: seq<Laid>) {
    && (forall s: nat, e: nat :: HasColumns(lines, s, e) ==> ordered == Reordered(lines, Around(Middle(s, e))))
    && ((forall s: nat, e: nat :: !HasColumns(lines, s, e)) ==> ordered == lines)
  }

  method RestoreColumnOrder(lines: seq<Laid>) returns (ordered: seq<Laid>)
    ensures IsReadingOrder(lines, ordered)
  {
    var geometric := Geometric(lines, 1, |lines|);
    if |geometric| < MIN_LINES_FOR_COLUMNS {
      return lines;
    }
    var several := Geometric(lines, 2, |lines|);
    var gutter := FindGutter(several);
    if gutter.None? {
      return lines;
    }
    ghost var s: nat, e: nat :| IsGutter(several, s, e);
    var crossing := Crossing(geometric, gutter.value, |geometric|);
    if crossing < MIN_CROSSING_LINES || (crossing as real) < |geometric| as real * MIN_CROSSING_RATIO {
      return lines;
    }
    assert HasColumns(lines, s, e);
    ordered := ColumnByColumn(lines, gutter.value);
  }

  method ColumnByColumn(lines: seq<Laid>, gutter: real) returns (ordered: seq<Laid>)
    ensures ordered == Reordered(lines, Around(gutter))
  {
    ordered := [];
    var left: seq<Laid>, right: seq<Laid> := [], [];
    for n := 0 to |lines|
      invariant Columns(ordered, left, right) == PlaceAll(NoColumns, lines, Around(gutter), n)
    {
      var l := lines[n];
      if l.line.segments == [] || l.table || Over(l.line, gutter) {
        ordered := ordered + left + right;
        left, right := [], [];
        ordered := ordered + [l];
        continue;
      }
      var leftPart, rightPart := LeftOf(l.line.segments, gutter), RightOf(l.line.segments, gutter);
      if |leftPart| > 0 { left := left + [Laid(LineOf(l.line, leftPart), false)]; }
      if |rightPart| > 0 { right := right + [Laid(LineOf(l.line, rightPart), false)]; }
    }
    ordered := ordered + left + right;
  }

  // ---- what the reading order keeps ----

  function Lefts(lines: seq<Laid>, rule: Rule, n: nat): seq<Laid>
    requires n <= |lines|
  {
    if n == 0 then [] else Lefts(lines, rule, n - 1) + rule.left(lines[n - 1])
  }

  function Rights(lines: seq<Laid>, rule: Rule, n: nat): seq<Laid>
    requires n <= |lines|
  {
    if n == 0 then [] else Rights(lines, rule, n - 1) + rule.right(lines[n - 1])
  }

  lemma {:induction false} ColumnsSoFar(lines: seq<Laid>, rule: Rule, n: nat)
    requires n <= |lines| && forall i :: 0 <= i < |lines| ==> !rule.stops(lines[i])
    ensures PlaceAll(NoColumns, lines, rule, n) == Columns([], Lefts(lines, rule, n), Rights(lines, rule, n))
  {
    if n > 0 {
      ColumnsSoFar(lines, rule, n - 1);
    }
  }

  /** Between two barriers: the left column from top to bottom, then the right one from top to bottom. */
  lemma ColumnAfterColumn(lines: seq<Laid>, rule: Rule)
    requires forall i :: 0 <= i < |lines| ==> !rule.stops(lines[i])
    ensures Reordered(lines, rule) == Lefts(lines, rule, |lines|) + Rights(lines, rule, |lines|)
  {
    ColumnsSoFar(lines, rule, |lines|);
  }

  function Under(before: seq<Laid>, c: Columns): Columns {
    Columns(before + c.ordered, c.left, c.right)
  }

  lemma PlaceUnder(before: seq<Laid>, c: Columns, l: Laid, rule: Rule)
    ensures Place(Under(before, c), l, rule) == Under(before, Place(c, l, rule))
  {
    assert (before + c.ordered) + c.left + c.right + [l] == before + (c.ordered + c.left + c.right + [l]);
  }

  lemma {:induction false} PlaceAllUnder(before: seq<Laid>, c: Columns, lines: seq<Laid>, rule: Rule, n: nat)
    requires n <= |lines|
    ensures PlaceAll(Under(before, c), lines, rule, n) == Under(before, PlaceAll(c, lines, rule, n))
  {
    if n > 0 {
      PlaceAllUnder(before, c, lines, rule, n - 1);
      PlaceUnder(before, PlaceAll(c, lines, rule, n - 1), lines[n - 1], rule);
    }
  }

  lemma {:induction false} PlaceConcat(c: Columns, a: seq<Laid>, b: seq<Laid>, rule: Rule, n: nat)
    requires n <= |b|
    ensures PlaceAll(c, a + b, rule, |a| + n) == PlaceAll(PlaceAll(c, a, rule, |a|), b, rule, n)
  {
    if n == 0 {
      PlacePrefix(c, a, b, rule, |a|);
    } else {
      PlaceConcat(c, a, b, rule, n - 1);
    }
  }

  lemma {:induction false} PlacePrefix(c: Columns, a: seq<Laid>, b: seq<Laid>, rule: Rule, n: nat)
    requires n <= |a|
    ensures PlaceAll(c, a + b, rule, n) == PlaceAll(c, a, rule, n)
  {
    if n > 0 {
      PlacePrefix(c, a, b, rule, n - 1);
    }
  }

  lemma FlushUnder(before: seq<Laid>, c: Columns)
    ensures Flush(Under(before, c)) == before + Flush(c)
  {
    assert (before + c.ordered) + c.left + c.right == before + (c.ordered + c.left + c.right);
  }

  /** Nothing moves across a full-width line, a line of a table or a line without geometry. */
  lemma BarriersHold(above: seq<Laid>, barrier: Laid, below: seq<Laid>, rule: Rule)
    requires rule.stops(barrier)
    ensures Reordered(above + [barrier] + below, rule) == Reordered(above, rule) + [barrier] + Reordered(below, rule)
  {
    var done := Reordered(above, rule) + [barrier];
    PlaceConcat(NoColumns, above, [barrier], rule, 1);
    PlaceConcat(NoColumns, above + [barrier], below, rule, |below|);
    assert done + [] == done;
    assert PlaceAll(NoColumns, above + [barrier], rule, |above| + 1) == Under(done, NoColumns);
    PlaceAllUnder(done, NoColumns, below, rule, |below|);
    FlushUnder(done, PlaceAll(NoColumns, below, rule, |below|));
  }

  /** All the segments, line by line. */
  function SegmentsUpTo(lines: seq<Laid>, n: nat): seq<Segment>
    requires n <= |lines|
  {
    if n == 0 then [] else SegmentsUpTo(lines, n - 1) + lines[n - 1].line.segments
  }

  function SegmentsOf(lines: seq<Laid>): seq<Segment> {
    SegmentsUpTo(lines, |lines|)
  }

  /** A segment on both sides: of no width, on the gutter. */
  predicate OnGutter(s: Segment, gutter: real) {
    s.right <= gutter <= s.left
  }

  function OnGutterOf(segments: seq<Segment>, gutter: real): seq<Segment> {
    if segments == [] then []
    else (if OnGutter(segments[0], gutter) then [segments[0]] else []) + OnGutterOf(segments[1..], gutter)
  }

  /** What placing a line adds twice: nothing for a barrier, its segments on the gutter otherwise. */
  function Twice(l: Laid, gutter: real): seq<Segment> {
    if IsBarrier(l, gutter) then [] else OnGutterOf(l.line.segments, gutter)
  }

  /** Segments on the gutter of the first `n` lines, where those lines are split. */
  function Doubled(lines: seq<Laid>, gutter: real, n: nat): seq<Segment>
    requires n <= |lines|
  {
    if n == 0 then [] else Doubled(lines, gutter, n - 1) + Twice(lines[n - 1], gutter)
  }

  // ---- how often a segment comes ----

  function Count(segments: seq<Segment>, s: Segment): nat {
    if segments == [] then 0 else (if segments[0] == s then 1 else 0) + Count(segments[1..], s)
  }

  lemma {:induction false} CountConcat(a: seq<Segment>, b: seq<Segment>, s: Segment)
    ensures Count(a + b, s) == Count(a, s) + Count(b, s)
  {
    if a == [] {
      assert a + b == b;
    } else {
      assert (a + b)[1..] == a[1..] + b;
      CountConcat(a[1..], b, s);
    }
  }

  lemma {:induction false} CountIsMultiplicity(a: seq<Segment>, s: Segment)
    ensures Count(a, s) == multiset(a)[s]
  {
    if a != [] {
      assert a == [a[0]] + a[1..];
      CountIsMultiplicity(a[1..], s);
    }
  }

  lemma {:induction false} SplitCounts(segments: seq<Segment>, gutter: real, s: Segment)
    requires forall k :: 0 <= k < |segments| ==> !StraddlesSegment(segments[k], gutter)
    ensures Count(LeftOf(segments, gutter), s) + Count(RightOf(segments, gutter), s)
            == Count(segments, s) + Count(OnGutterOf(segments, gutter), s)
  {
    if segments != [] {
      var first, rest := segments[0], segments[1..];
      SplitCounts(rest, gutter, s);
      CountConcat(if first.right <= gutter then [first] else [], LeftOf(rest, gutter), s);
      CountConcat(if first.left >= gutter then [first] else [], RightOf(rest, gutter), s);
      CountConcat(if OnGutter(first, gutter) then [first] else [], OnGutterOf(rest, gutter), s);
      assert !StraddlesSegment(first, gutter);
    }
  }

  function LineCount(lines: seq<Laid>, s: Segment, n: nat): nat
    requires n <= |lines|
  {
    if n == 0 then 0 else LineCount(lines, s, n - 1) + Count(lines[n - 1].line.segments, s)
  }

  lemma {:induction false} LineCountPrefix(a: seq<Laid>, b: seq<Laid>, s: Segment, n: nat)
    requires n <= |a|
    ensures LineCount(a + b, s, n) == LineCount(a, s, n)
  {
    if n > 0 {
      LineCountPrefix(a, b, s, n - 1);
    }
  }

  lemma {:induction false} LineCountSuffix(a: seq<Laid>, b: seq<Laid>, s: Segment, n: nat)
    requires n <= |b|
    ensures LineCount(a + b, s, |a| + n) == LineCount(a, s, |a|) + LineCount(b, s, n)
  {
    if n == 0 {
      LineCountPrefix(a, b, s, |a|);
    } else {
      LineCountSuffix(a, b, s, n - 1);
    }
  }

  lemma LineCountConcat(a: seq<Laid>, b: seq<Laid>, s: Segment)
    ensures LineCount(a + b, s, |a + b|) == LineCount(a, s, |a|) + LineCount(b, s, |b|)
  {
    LineCountSuffix(a, b, s, |b|);
  }

  lemma {:induction false} LineCountIsCount(lines: seq<Laid>, s: Segment, n: nat)
    requires n <= |lines|
    ensures LineCount(lines, s, n) == Count(SegmentsUpTo(lines, n), s)
  {
    if n > 0 {
      LineCountIsCount(lines, s, n - 1);
      CountConcat(SegmentsUpTo(lines, n - 1), lines[n - 1].line.segments, s);
    }
  }

  function Placed(c: Columns, s: Segment): nat {
    LineCount(c.ordered, s, |c.ordered|) + LineCount(c.left, s, |c.left|) + LineCount(c.right, s, |c.right|)
  }

  lemma FlushCounts(c: Columns, s: Segment)
    ensures LineCount(Flush(c), s, |Flush(c)|) == Placed(c, s)
  {
    LineCountConcat(c.ordered, c.left, s);
    LineCountConcat(c.ordered + c.left, c.right, s);
  }

  lemma OneLineCount(l: Laid, s: Segment)
    ensures LineCount([l], s, 1) == Count(l.line.segments, s)
  {
    assert LineCount([l], s, 0) == 0;
  }

  lemma StopCounts(c: Columns, l: Laid, s: Segment)
    ensures Placed(Columns(Flush(c) + [l], [], []), s) == Placed(c, s) + Count(l.line.segments, s)
  {
    FlushCounts(c, s);
    LineCountConcat(Flush(c), [l], s);
    OneLineCount(l, s);
  }

  lemma PartCount(line: Line, part: seq<Segment>, s: Segment)
    ensures var laid := if part == [] then [] else [Laid(LineOf(line, part), false)];
            LineCount(laid, s, |laid|) == Count(part, s)
  {
    if part != [] {
      OneLineCount(Laid(LineOf(line, part), false), s);
    }
  }

  lemma SplitLineCounts(c: Columns, l: Laid, gutter: real, s: Segment)
    requires !IsBarrier(l, gutter)
    ensures Placed(Columns(c.ordered, c.left + LeftPart(l, gutter), c.right + RightPart(l, gutter)), s)
            == Placed(c, s) + Count(l.line.segments, s) + Count(OnGutterOf(l.line.segments, gutter), s)
  {
    LineCountConcat(c.left, LeftPart(l, gutter), s);
    LineCountConcat(c.right, RightPart(l, gutter), s);
    PartCount(l.line, LeftOf(l.line.segments, gutter), s);
    PartCount(l.line, RightOf(l.line.segments, gutter), s);
    SplitCounts(l.line.segments, gutter, s);
  }

  lemma PlaceCounts(c: Columns, l: Laid, gutter: real, s: Segment)
    ensures Placed(Place(c, l, Around(gutter)), s)
            == Placed(c, s) + Count(l.line.segments, s) + Count(Twice(l, gutter), s)
  {
    if IsBarrier(l, gutter) {
      StopCounts(c, l, s);
    } else {
      SplitLineCounts(c, l, gutter, s);
    }
  }

  /** A rule whose every placement adds what `gain` says. */
  ghost predicate Gains(rule: Rule, m: Columns -> int, gain: Laid -> int) {
    forall c, l {:trigger Place(c, l, rule)} :: m(Place(c, l, rule)) == m(c) + gain(l)
  }

  function Total(lines: seq<Laid>, gain: Laid -> int, n: nat): int
    requires n <= |lines|
  {
    if n == 0 then 0 else Total(lines, gain, n - 1) + gain(lines[n - 1])
  }

  lemma {:induction false} GainsAddUp(lines: seq<Laid>, rule: Rule, m: Columns -> int, gain: Laid -> int, n: nat)
    requires n <= |lines| && Gains(rule, m, gain)
    ensures m(PlaceAll(NoColumns, lines, rule, n)) == m(NoColumns) + Total(lines, gain, n)
  {
    if n > 0 {
      GainsAddUp(lines, rule, m, gain, n - 1);
      var c := PlaceAll(NoColumns, lines, rule, n - 1);
      assert m(Place(c, lines[n - 1], rule)) == m(c) + gain(lines[n - 1]);
    }
  }

  function Gain(gutter: real, s: Segment): Laid -> int {
    (l: Laid) => Count(l.line.segments, s) + Count(Twice(l, gutter), s)
  }

  function Measure(s: Segment): Columns -> int {
    (c: Columns) => Placed(c, s)
  }

  lemma AroundGains(gutter: real, s: Segment)
    ensures Gains(Around(gutter), Measure(s), Gain(gutter, s))
  {
    forall c: Columns, l: Laid
      ensures Placed(Place(c, l, Around(gutter)), s)
              == Placed(c, s) + (Count(l.line.segments, s) + Count(Twice(l, gutter), s)) {
      PlaceCounts(c, l, gutter, s);
    }
  }

  lemma {:induction false} TotalIs(lines: seq<Laid>, gutter: real, s: Segment, n: nat)
    requires n <= |lines|
    ensures Total(lines, Gain(gutter, s), n) == LineCount(lines, s, n) + Count(Doubled(lines, gutter, n), s)
  {
    hide Twice;
    if n > 0 {
      TotalIs(lines, gutter, s, n - 1);
      CountConcat(Doubled(lines, gutter, n - 1), Twice(lines[n - 1], gutter), s);
    }
  }

  lemma PlacedIs(lines: seq<Laid>, rule: Rule, gutter: real, s: Segment)
    requires Gains(rule, Measure(s), Gain(gutter, s))
    ensures LineCount(Reordered(lines, rule), s, |Reordered(lines, rule)|) == Total(lines, Gain(gutter, s), |lines|)
  {
    GainsAddUp(lines, rule, Measure(s), Gain(gutter, s), |lines|);
    FlushCounts(PlaceAll(NoColumns, lines, rule, |lines|), s);
    assert Measure(s)(NoColumns) == 0;
  }

  lemma ReorderedCounts(lines: seq<Laid>, rule: Rule, gutter: real, s: Segment)
    requires Gains(rule, Measure(s), Gain(gutter, s))
    ensures Count(SegmentsOf(Reordered(lines, rule)), s)
            == Count(SegmentsOf(lines), s) + Count(Doubled(lines, gutter, |lines|), s)
  {
    PlacedIs(lines, rule, gutter, s);
    TotalIs(lines, gutter, s, |lines|);
    LineCountIsCount(Reordered(lines, rule), s, |Reordered(lines, rule)|);
    LineCountIsCount(lines, s, |lines|);
  }

  /** What comes out is what went in, and once more every segment of a split line that lies on the gutter. */
  lemma ReorderedSegments(lines: seq<Laid>, gutter: real)
    ensures multiset(SegmentsOf(Reordered(lines, Around(gutter))))
            == multiset(SegmentsOf(lines)) + multiset(Doubled(lines, gutter, |lines|))
  {
    forall s: Segment
      ensures Count(SegmentsOf(Reordered(lines, Around(gutter))), s)
              == Count(SegmentsOf(lines), s) + Count(Doubled(lines, gutter, |lines|), s)
    {
      AroundGains(gutter, s);
      ReorderedCounts(lines, Around(gutter), gutter, s);
    }
    SameMultiset(SegmentsOf(Reordered(lines, Around(gutter))), SegmentsOf(lines), Doubled(lines, gutter, |lines|));
  }

  lemma SameMultiset(out: seq<Segment>, a: seq<Segment>, b: seq<Segment>)
    requires forall s: Segment :: Count(out, s) == Count(a, s) + Count(b, s)
    ensures multiset(out) == multiset(a) + multiset(b)
  {
    forall s: Segment ensures multiset(out)[s] == multiset(a)[s] + multiset(b)[s] {
      CountIsMultiplicity(out, s);
      CountIsMultiplicity(a, s);
      CountIsMultiplicity(b, s);
    }
  }

  /** The reading order is a permutation of the segments exactly when no split line has a segment on the gutter. */
  lemma PermutationIff(lines: seq<Laid>, gutter: real)
    ensures multiset(SegmentsOf(Reordered(lines, Around(gutter)))) == multiset(SegmentsOf(lines))
            <==> Doubled(lines, gutter, |lines|) == []
  {
    ReorderedSegments(lines, gutter);
    var doubled := Doubled(lines, gutter, |lines|);
    assert |multiset(SegmentsOf(lines)) + multiset(doubled)| == |SegmentsOf(lines)| + |doubled|;
  }
}
