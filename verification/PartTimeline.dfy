/** When each word of a part is spoken, in milliseconds from the start of the part. */
module PartTimeline {
  import opened Numbers
  import opened Wrappers
  import opened Words
  import opened Pipeline

  /** A synthesis mark: the name of a word's mark and its time in the segment. */
  datatype Mark = Mark(name: Text, seconds: real)

  datatype TimelineSegment = TimelineSegment(
    firstWordIndex: nat, words: seq<Word>, timepoints: seq<Option<real>>, durationMs: nat)

  datatype TimedWord = TimedWord(index: nat, text: Text, page: int, startMs: int, endMs: int)

  /** `Math.round`: halves go up. */
  function Round(x: real): int {
    (x + 0.5).Floor
  }

  // ---- the marks of the engine, word by word ----

  function MarkName(i: nat): Text {
    ['w' as int] + Decimal(i)
  }

  /** Mark `k` is the last one of that name. */
  predicate IsLastNamed(marks: seq<Mark>, name: Text, k: int) {
    0 <= k < |marks| && marks[k].name == name && forall m :: k < m < |marks| ==> marks[m].name != name
  }

  /** The last mark of that name, as when marks are put into a map one by one. */
  function TimeOf(marks: seq<Mark>, name: Text): (t: Option<real>)
    ensures t.None? <==> forall k :: 0 <= k < |marks| ==> marks[k].name != name
    ensures t.Some? ==> exists k :: IsLastNamed(marks, name, k) && marks[k].seconds == t.value
  {
    if marks == [] then None
    else
      var last := |marks| - 1;
      if marks[last].name == name then
        assert IsLastNamed(marks, name, last);
        Some(marks[last].seconds)
      else
        var t := TimeOf(marks[..last], name);
        NamedInFront(marks, name, t);
        t
  }

  lemma NamedInFront(marks: seq<Mark>, name: Text, t: Option<real>)
    requires marks != [] && marks[|marks| - 1].name != name
    requires var front := marks[..|marks| - 1];
             && (t.None? <==> forall k :: 0 <= k < |front| ==> front[k].name != name)
             && (t.Some? ==> exists k :: IsLastNamed(front, name, k) && front[k].seconds == t.value)
    ensures t.None? <==> forall k :: 0 <= k < |marks| ==> marks[k].name != name
    ensures t.Some? ==> exists k :: IsLastNamed(marks, name, k) && marks[k].seconds == t.value
  {
    var front := marks[..|marks| - 1];
    if t.Some? {
      var k :| IsLastNamed(front, name, k) && front[k].seconds == t.value;
      assert IsLastNamed(marks, name, k);
    } else {
      forall k | 0 <= k < |marks| ensures marks[k].name != name {
        assert k < |front| ==> marks[k] == front[k];
      }
    }
  }

  method AlignTimepoints(words: seq<Word>, marks: seq<Mark>) returns (timepoints: seq<Option<real>>)
    ensures |timepoints| == |words|
    ensures forall i :: 0 <= i < |words| ==> timepoints[i] == TimeOf(marks, MarkName(i))
  {
    var byName: map<Text, real> := map[];
    for k := 0 to |marks|
      invariant forall name :: name in byName <==> TimeOf(marks[..k], name).Some?
      invariant forall name :: name in byName ==> TimeOf(marks[..k], name) == Some(byName[name])
    {
      assert marks[..k + 1][..k] == marks[..k];
      byName := byName[marks[k].name := marks[k].seconds];
    }
    assert marks[..|marks|] == marks;
    timepoints := seq(|words|, i requires 0 <= i < |words| =>
      if MarkName(i) in byName then Some(byName[MarkName(i)]) else None);
  }

  /** A mark belongs to one word. */
  lemma MarkNameInjective(i: nat, j: nat)
    requires MarkName(i) == MarkName(j)
    ensures i == j
  {
    assert MarkName(i)[1..] == Decimal(i) && MarkName(j)[1..] == Decimal(j);
    DecimalInjective(i, j);
  }

  // ---- the starts of the words of one segment ----

  /** The first known mark at or after `i`. */
  function NextKnown(known: seq<Option<int>>, i: nat): (next: nat)
    requires i <= |known|
    ensures i <= next <= |known|
    ensures next < |known| ==> known[next].Some?
    ensures forall k :: i <= k < next ==> known[k].None?
    decreases |known| - i
  {
    if i == |known| || known[i].Some? then i else NextKnown(known, i + 1)
  }

  function ValueAt(known: seq<Option<int>>, i: nat, durationMs: nat): int
    requires i <= |known| && (i < |known| ==> known[i].Some?)
  {
    if i < |known| then known[i].value else durationMs
  }

  /** One `gap`-th of the way from `before` to `after`. */
  function Interpolate(before: int, after: int, gap: nat): int
    requires gap > 0
  {
    Round(before as real + (after - before) as real / gap as real)
  }

  /**
   * The first pass: known marks, and for each missing one a step from the
   * start before it towards the next known mark.
   */
  function RawStarts(known: seq<Option<int>>, durationMs: nat, n: nat): (starts: seq<int>)
    requires n <= |known|
    ensures |starts| == n
  {
    if n == 0 then []
    else
      var starts := RawStarts(known, durationMs, n - 1);
      var i := n - 1;
      if known[i].Some? then starts + [known[i].value]
      else
        var next := NextKnown(known, i + 1);
        starts + [Interpolate(if i == 0 then 0 else starts[i - 1], ValueAt(known, next, durationMs), next - i + 1)]
  }

  /** The largest of the first `i + 1` values. */
  function MaxUpTo(s: seq<int>, i: nat): int
    requires i < |s|
  {
    if i == 0 then s[0] else Max(s[i], MaxUpTo(s, i - 1))
  }

  function RunningMax(s: seq<int>): (r: seq<int>)
    ensures |r| == |s|
  {
    seq(|s|, i requires 0 <= i < |s| => MaxUpTo(s, i))
  }

  /** The rounded mark of each word, `None` when the engine gave none. */
  function Known(segment: TimelineSegment): (known: seq<Option<int>>)
    ensures |known| == |segment.words|
  {
    seq(|segment.words|, i requires 0 <= i < |segment.words| =>
      if i < |segment.timepoints| && segment.timepoints[i].Some?
      then Some(Round(segment.timepoints[i].value * 1000.0)) else None)
  }

  function StartsOf(known: seq<Option<int>>, durationMs: nat): (starts: seq<int>)
    ensures |starts| == |known|
  {
    RunningMax(RawStarts(known, durationMs, |known|))
  }

  method FillStarts(known: seq<Option<int>>, durationMs: nat) returns (starts: seq<int>)
    ensures starts == RawStarts(known, durationMs, |known|)
  {
    starts := [];
    for i := 0 to |known|
      invariant starts == RawStarts(known, durationMs, i)
    {
      if known[i].Some? {
        starts := starts + [known[i].value];
        continue;
      }
      var next := i + 1;
      while next < |known| && known[next].None?
        invariant i + 1 <= next <= |known|
        invariant NextKnown(known, i + 1) == NextKnown(known, next)
      {
        next := next + 1;
      }
      var before := if |starts| > 0 then starts[|starts| - 1] else 0;
      var after := if next < |known| then known[next].value else durationMs;
      var gap := next - i + 1;
      starts := starts + [Interpolate(before, after, gap)];
    }
  }

  // ---- what the starts satisfy ----

  lemma {:induction false} StartsNeverDecrease(known: seq<Option<int>>, durationMs: nat, i: nat, j: nat)
    requires i <= j < |known|
    ensures StartsOf(known, durationMs)[i] <= StartsOf(known, durationMs)[j]
    decreases j
  {
    if i < j {
      StartsNeverDecrease(known, durationMs, i, j - 1);
      assert MaxUpTo(RawStarts(known, durationMs, |known|), j) >= MaxUpTo(RawStarts(known, durationMs, |known|), j - 1);
    }
  }

  lemma FloorMonotone(x: real, y: real)
    requires x <= y
    ensures Round(x) <= Round(y)
  {
  }

  lemma Scaled(q: real, g: real)
    requires g >= 1.0
    ensures q >= 0.0 ==> q * g >= q
    ensures q < 0.0 ==> q * g < 0.0
  {
  }

  lemma Fraction(d: real, g: real)
    requires d >= 0.0 && g >= 1.0
    ensures 0.0 <= d / g <= d
  {
    var q := d / g;
    assert q * g == d;
    Scaled(q, g);
  }

  /** A rounded step never leaves the interval between the two marks. */
  lemma InterpolateBetween(before: int, after: int, gap: nat)
    requires gap > 0
    ensures before <= after ==> before <= Interpolate(before, after, gap) <= after
    ensures after <= before ==> after <= Interpolate(before, after, gap) <= before
  {
    var b, a, g := before as real, after as real, gap as real;
    if before <= after {
      Fraction(a - b, g);
      FloorMonotone(b, b + (a - b) / g);
      FloorMonotone(b + (a - b) / g, a);
    } else {
      Fraction(b - a, g);
      assert (a - b) / g == -((b - a) / g);
      FloorMonotone(a, b + (a - b) / g);
      FloorMonotone(b + (a - b) / g, b);
    }
  }

  ghost predicate NonNegative(known: seq<Option<int>>) {
    forall i :: 0 <= i < |known| && known[i].Some? ==> known[i].value >= 0
  }

  lemma {:induction false} RawNonNegative(known: seq<Option<int>>, durationMs: nat, n: nat)
    requires NonNegative(known) && n <= |known|
    ensures forall i :: 0 <= i < n ==> RawStarts(known, durationMs, n)[i] >= 0
  {
    if n > 0 {
      RawNonNegative(known, durationMs, n - 1);
      var starts := RawStarts(known, durationMs, n - 1);
      if known[n - 1].None? {
        var next := NextKnown(known, n);
        InterpolateBetween(if n == 1 then 0 else starts[n - 2], ValueAt(known, next, durationMs), next - n + 2);
      }
    }
  }

  /** The known marks never go back and stay within the segment. */
  ghost predicate WellMarked(known: seq<Option<int>>, durationMs: nat) {
    && (forall i :: 0 <= i < |known| && known[i].Some? ==> 0 <= known[i].value <= durationMs)
    && (forall i, j :: 0 <= i < j < |known| && known[i].Some? && known[j].Some? ==> known[i].value <= known[j].value)
  }

  /**
   * With well-behaved marks the first pass keeps every known mark, never goes
   * back and never passes the next known mark.
   */
  lemma {:induction false} RawOrdered(known: seq<Option<int>>, durationMs: nat, n: nat)
    requires WellMarked(known, durationMs) && n <= |known|
    ensures var starts := RawStarts(known, durationMs, n);
            && (forall i :: 0 <= i < n && known[i].Some? ==> starts[i] == known[i].value)
            && (forall i, j :: 0 <= i <= j < n ==> 0 <= starts[i] <= starts[j])
            && (n > 0 ==> starts[n - 1] <= ValueAt(known, NextKnown(known, n), durationMs))
  {
    if n > 0 {
      RawOrdered(known, durationMs, n - 1);
      var starts := RawStarts(known, durationMs, n - 1);
      if known[n - 1].None? {
        var next := NextKnown(known, n);
        assert NextKnown(known, n - 1) == next;
        InterpolateBetween(if n == 1 then 0 else starts[n - 2], ValueAt(known, next, durationMs), next - n + 2);
      }
    }
  }

  lemma {:induction false} MaxOfOrdered(s: seq<int>, i: nat)
    requires i < |s| && forall a, b :: 0 <= a <= b < |s| ==> s[a] <= s[b]
    ensures MaxUpTo(s, i) == s[i]
  {
    if i > 0 {
      MaxOfOrdered(s, i - 1);
    }
  }

  /**
   * Marks that never go back and stay within the segment are kept unchanged;
   * a missing one lands between its neighbours: after every earlier start, not
   * after any later known mark nor the end of the segment.
   */
  lemma MarksKept(known: seq<Option<int>>, durationMs: nat, i: nat)
    requires WellMarked(known, durationMs) && i < |known|
    ensures var starts := StartsOf(known, durationMs);
            && (known[i].Some? ==> starts[i] == known[i].value)
            && 0 <= starts[i] <= durationMs
            && (forall j :: i < j < |known| && known[j].Some? ==> starts[i] <= known[j].value)
            && (forall j :: 0 <= j < i && known[j].Some? ==> known[j].value <= starts[i])
  {
    var raw := RawStarts(known, durationMs, |known|);
    RawOrdered(known, durationMs, |known|);
    forall k | 0 <= k < |known| ensures StartsOf(known, durationMs)[k] == raw[k] {
      MaxOfOrdered(raw, k);
    }
  }

  // ---- where each word starts, from the marks themselves ----

  /** When word `i` was marked, in milliseconds; before the first word is 0, after the last the end of the segment. */
  function MarkedMs(segment: TimelineSegment, i: int): Option<real>
    requires -1 <= i <= |segment.words|
  {
    if i == -1 then Some(0.0)
    else if i == |segment.words| then Some(segment.durationMs as real)
    else if i < |segment.timepoints| && segment.timepoints[i].Some? then Some(1000.0 * segment.timepoints[i].value)
    else None
  }

  /** Marks that stay within the segment and never go back. */
  ghost predicate WellTimed(segment: TimelineSegment) {
    forall i, j {:trigger MarkedMs(segment, i), MarkedMs(segment, j)} ::
      -1 <= i <= j <= |segment.words| && MarkedMs(segment, i).Some? && MarkedMs(segment, j).Some? ==>
        MarkedMs(segment, i).value <= MarkedMs(segment, j).value
  }

  /** Words `low` and `high` are marked, or are the edges of the segment, and none between them is. */
  ghost predicate IsGap(segment: TimelineSegment, low: int, high: int) {
    && -1 <= low < high <= |segment.words|
    && MarkedMs(segment, low).Some? && MarkedMs(segment, high).Some?
    && forall k :: low < k < high ==> MarkedMs(segment, k).None?
  }

  /** An even share of the time between two instants, `done` words of `all` on. */
  function Share(from: real, to: real, done: int, all: int): real
    requires all > 0
  {
    from + (to - from) * done as real / all as real
  }

  predicate Within(x: real, y: real, bound: real) {
    -bound <= x - y <= bound
  }

  /**
   * A marked word starts when it was marked, to the nearest millisecond. The
   * words between two marks share the time between them evenly, up to half a
   * millisecond for each rounding since the first of the two.
   */
  ghost predicate StartsFairly(segment: TimelineSegment, starts: seq<int>)
    requires |starts| == |segment.words|
  {
    && (forall i :: 0 <= i < |starts| && MarkedMs(segment, i).Some? ==>
          Within(starts[i] as real, MarkedMs(segment, i).value, 0.5))
    && (forall low, i, high :: IsGap(segment, low, high) && low < i < high ==>
          Within(starts[i] as real,
                 Share(MarkedMs(segment, low).value, MarkedMs(segment, high).value, i - low, high - low),
                 (i - low + 1) as real / 2.0))
  }

  lemma RoundNear(x: real)
    ensures Within(Round(x) as real, x, 0.5)
  {
  }

  lemma KnownIsMarked(segment: TimelineSegment, i: nat)
    requires i < |segment.words|
    ensures Known(segment)[i].Some? <==> MarkedMs(segment, i).Some?
    ensures Known(segment)[i].Some? ==> Within(Known(segment)[i].value as real, MarkedMs(segment, i).value, 0.5)
    ensures Known(segment)[i].Some? ==> Known(segment)[i].value == Round(MarkedMs(segment, i).value)
  {
  }

  lemma WellTimedIsWellMarked(segment: TimelineSegment)
    requires WellTimed(segment)
    ensures WellMarked(Known(segment), segment.durationMs)
  {
    hide Known, Round;
    var known, n := Known(segment), |segment.words|;
    forall i | 0 <= i < n && known[i].Some? ensures 0 <= known[i].value <= segment.durationMs {
      KnownIsMarked(segment, i);
      assert MarkedMs(segment, -1).value <= MarkedMs(segment, i).value <= MarkedMs(segment, n).value;
      FloorMonotone(0.0, MarkedMs(segment, i).value);
      FloorMonotone(MarkedMs(segment, i).value, segment.durationMs as real);
      RoundInt(0);
      RoundInt(segment.durationMs);
    }
    forall i, j | 0 <= i < j < n && known[i].Some? && known[j].Some? ensures known[i].value <= known[j].value {
      KnownIsMarked(segment, i);
      KnownIsMarked(segment, j);
      FloorMonotone(MarkedMs(segment, i).value, MarkedMs(segment, j).value);
    }
  }

  lemma RoundInt(n: int)
    ensures Round(n as real) == n
  {
  }

  /** One step from an even share, towards the same end, is the next even share. */
  lemma NextShare(from: real, to: real, done: int, all: int)
    requires 0 < done < all
    ensures Share(from, to, done, all)
            == Share(from, to, done - 1, all) + (to - Share(from, to, done - 1, all)) / (all - done + 1) as real
  {
    var d, a := done as real, all as real;
    var left := (all - done + 1) as real;
    var step := (to - from) / a;
    MulDiv(to - from, d, a);
    MulDiv(to - from, d - 1.0, a);
    assert step * a == to - from;
    assert to - (from + step * (d - 1.0)) == step * left;
    assert step * left / left == step;
    assert (done - 1) as real == d - 1.0;
  }

  lemma MulDiv(x: real, d: real, a: real)
    requires a > 0.0
    ensures x * d / a == (x / a) * d
  {
  }

  /** A step from nearby lands nearby. */
  lemma StepNear(x: real, y: real, to: real, parts: real, bound: real)
    requires Within(x, y, bound) && parts >= 1.0
    ensures Within(x + (to - x) / parts, y + (to - y) / parts, bound)
  {
    var d := x - y;
    assert x + (to - x) / parts - (y + (to - y) / parts) == d - d / parts;
    if d >= 0.0 {
      Fraction(d, parts);
    } else {
      Fraction(-d, parts);
      assert -d / parts == -(d / parts);
    }
  }

  /** The share between two rounded instants is near the share between the exact ones. */
  lemma ShareNear(from: real, to: real, low: real, high: real, done: int, all: int)
    requires 0 <= done <= all && all > 0 && Within(low, from, 0.5) && Within(high, to, 0.5)
    ensures Within(Share(low, high, done, all), Share(from, to, done, all), 0.5)
  {
    hide Share, Within;
    var t := done as real / all as real;
    UnitFraction(done, all);
    ShareIs(low, high, done, all);
    ShareIs(from, to, done, all);
    WithinIs(low, from, 0.5);
    WithinIs(high, to, 0.5);
    Blend(low, high, from, to, t);
    WithinIs(Share(low, high, done, all), Share(from, to, done, all), 0.5);
  }

  lemma WithinIs(x: real, y: real, bound: real)
    ensures Within(x, y, bound) <==> -bound <= x - y <= bound
  {
  }

  lemma UnitFraction(done: int, all: int)
    requires 0 <= done <= all && all > 0
    ensures 0.0 <= done as real / all as real <= 1.0
  {
  }

  function Times(x: real, y: real): real {
    x * y
  }

  lemma Blend(low: real, high: real, from: real, to: real, t: real)
    requires -0.5 <= low - from <= 0.5 && -0.5 <= high - to <= 0.5 && 0.0 <= t <= 1.0
    ensures -0.5 <= low + (high - low) * t - (from + (to - from) * t) <= 0.5
  {
    hide Times;
    BlendIs(low, high, from, to, t);
    TimesBound(low - from, 1.0 - t);
    TimesBound(high - to, t);
  }

  lemma BlendIs(low: real, high: real, from: real, to: real, t: real)
    ensures low + (high - low) * t - (from + (to - from) * t) == Times(low - from, 1.0 - t) + Times(high - to, t)
  {
  }

  lemma TimesBound(a: real, t: real)
    requires -0.5 <= a <= 0.5 && t >= 0.0
    ensures -t / 2.0 <= Times(a, t) <= t / 2.0
  {
    ProductSign(a + 0.5, t);
    ProductSign(0.5 - a, t);
  }

  lemma ProductSign(x: real, y: real)
    requires x >= 0.0 && y >= 0.0
    ensures x * y >= 0.0
  {
  }

  lemma ShareIs(from: real, to: real, done: int, all: int)
    requires all > 0
    ensures Share(from, to, done, all) == from + (to - from) * (done as real / all as real)
  {
    MulDivLast(to - from, done as real, all as real);
  }

  lemma MulDivLast(x: real, d: real, a: real)
    requires a > 0.0
    ensures x * d / a == x * (d / a)
  {
  }

  /** What stands before the first word and after the last one is known too. */
  function KnownOr(known: seq<Option<int>>, durationMs: nat, i: int): int
    requires -1 <= i <= |known| && (0 <= i < |known| ==> known[i].Some?)
  {
    if i == -1 then 0 else if i == |known| then durationMs else known[i].value
  }

  /** Between two known marks, each raw start is its even share, up to half a millisecond for each rounding. */
  lemma {:induction false} RawShares(known: seq<Option<int>>, durationMs: nat, low: int, high: int, i: int)
    requires -1 <= low < i < high <= |known|
    requires (low >= 0 ==> known[low].Some?) && (high < |known| ==> known[high].Some?)
    requires forall k :: low < k < high ==> known[k].None?
    ensures var from, to := KnownOr(known, durationMs, low), KnownOr(known, durationMs, high);
            Within(RawStarts(known, durationMs, i + 1)[i] as real,
                   Share(from as real, to as real, i - low, high - low), (i - low) as real / 2.0)
    decreases i
  {
    hide Share, Round, Within, RawStarts, Interpolate;
    var from, to := KnownOr(known, durationMs, low), KnownOr(known, durationMs, high);
    var before := if i == 0 then 0 else RawStarts(known, durationMs, i)[i - 1];
    NextIs(known, i + 1, high);
    RawMissing(known, durationMs, i);
    if low == i - 1 {
      ShareStart(from as real, to as real, high - low);
      SameWithin(from as real);
      if i > 0 {
        RawMarked(known, durationMs, i - 1);
      }
    } else {
      RawShares(known, durationMs, low, high, i - 1);
    }
    OneStep(before, from, to, i - low, high - low);
  }

  /** One rounded step further. */
  lemma OneStep(before: int, from: int, to: int, done: int, all: int)
    requires 0 < done < all
    requires Within(before as real, Share(from as real, to as real, done - 1, all), (done - 1) as real / 2.0)
    ensures Within(Interpolate(before, to, all - done + 1) as real,
                   Share(from as real, to as real, done, all), done as real / 2.0)
  {
    hide Share, Within, Interpolate;
    var x, y, parts := before as real, Share(from as real, to as real, done - 1, all), all - done + 1;
    NextShare(from as real, to as real, done, all);
    StepNear(x, y, to as real, parts as real, (done - 1) as real / 2.0);
    InterpolateNear(before, to, parts);
    Together(Interpolate(before, to, parts) as real, x + (to as real - x) / parts as real,
             y + (to as real - y) / parts as real, (done - 1) as real / 2.0);
    assert (done - 1) as real / 2.0 + 0.5 == done as real / 2.0;
  }

  lemma RawMissing(known: seq<Option<int>>, durationMs: nat, i: nat)
    requires i < |known| && known[i].None?
    ensures var next := NextKnown(known, i + 1);
            RawStarts(known, durationMs, i + 1)[i]
            == Interpolate(if i == 0 then 0 else RawStarts(known, durationMs, i)[i - 1],
                           ValueAt(known, next, durationMs), next - i + 1)
  {
  }

  lemma RawMarked(known: seq<Option<int>>, durationMs: nat, i: nat)
    requires i < |known| && known[i].Some?
    ensures RawStarts(known, durationMs, i + 1)[i] == known[i].value
  {
  }

  lemma NextIs(known: seq<Option<int>>, i: nat, high: nat)
    requires i <= high <= |known| && (high < |known| ==> known[high].Some?)
    requires forall k :: i <= k < high ==> known[k].None?
    ensures NextKnown(known, i) == high
  {
  }

  lemma ShareStart(from: real, to: real, all: int)
    requires all > 0
    ensures Share(from, to, 0, all) == from
  {
  }

  lemma SameWithin(x: real)
    ensures Within(x, x, 0.0)
  {
  }

  lemma InterpolateNear(before: int, after: int, gap: nat)
    requires gap > 0
    ensures Within(Interpolate(before, after, gap) as real,
                   before as real + (after as real - before as real) / gap as real, 0.5)
  {
    assert (after - before) as real == after as real - before as real;
    RoundNear(before as real + (after - before) as real / gap as real);
  }

  lemma Together(x: real, y: real, z: real, bound: real)
    requires Within(x, y, 0.5) && Within(y, z, bound)
    ensures Within(x, z, bound + 0.5)
  {
  }

  lemma {:induction false} RawPrefix(known: seq<Option<int>>, durationMs: nat, i: nat, n: nat)
    requires i < n <= |known|
    ensures RawStarts(known, durationMs, n)[i] == RawStarts(known, durationMs, i + 1)[i]
  {
    if i + 1 < n {
      RawPrefix(known, durationMs, i, n - 1);
    }
  }

  lemma StartsAreRaw(known: seq<Option<int>>, durationMs: nat)
    requires WellMarked(known, durationMs)
    ensures StartsOf(known, durationMs) == RawStarts(known, durationMs, |known|)
  {
    var raw := RawStarts(known, durationMs, |known|);
    RawOrdered(known, durationMs, |known|);
    forall k | 0 <= k < |known| ensures StartsOf(known, durationMs)[k] == raw[k] {
      MaxOfOrdered(raw, k);
    }
  }

  /** With marks that stay within the segment and never go back, every word starts where the marks say. */
  lemma StartsAreFair(segment: TimelineSegment)
    requires WellTimed(segment)
    ensures StartsFairly(segment, StartsOf(Known(segment), segment.durationMs))
  {
    hide Known, StartsOf, RawStarts, Share, Within, Round, WellTimed;
    var known := Known(segment);
    var starts := StartsOf(known, segment.durationMs);
    WellTimedIsWellMarked(segment);
    StartsAreRaw(known, segment.durationMs);
    forall i | 0 <= i < |starts| && MarkedMs(segment, i).Some?
      ensures Within(starts[i] as real, MarkedMs(segment, i).value, 0.5) {
      KnownIsMarked(segment, i);
      MarksKept(known, segment.durationMs, i);
    }
    forall low, i, high | IsGap(segment, low, high) && low < i < high
      ensures Within(starts[i] as real,
                     Share(MarkedMs(segment, low).value, MarkedMs(segment, high).value, i - low, high - low),
                     (i - low + 1) as real / 2.0) {
      GapIsFair(segment, low, high, i);
    }
  }

  lemma EdgeNear(segment: TimelineSegment, i: int)
    requires -1 <= i <= |segment.words| && MarkedMs(segment, i).Some?
    ensures 0 <= i < |segment.words| ==> Known(segment)[i].Some?
    ensures Within(KnownOr(Known(segment), segment.durationMs, i) as real, MarkedMs(segment, i).value, 0.5)
  {
    if 0 <= i < |segment.words| {
      KnownIsMarked(segment, i);
    }
  }

  lemma GapIsFair(segment: TimelineSegment, low: int, high: int, i: int)
    requires IsGap(segment, low, high) && low < i < high
    ensures Within(RawStarts(Known(segment), segment.durationMs, |segment.words|)[i] as real,
                   Share(MarkedMs(segment, low).value, MarkedMs(segment, high).value, i - low, high - low),
                   (i - low + 1) as real / 2.0)
  {
    hide Known, RawStarts, Within, Round, Share;
    var known, n := Known(segment), |segment.words|;
    EdgeNear(segment, low);
    EdgeNear(segment, high);
    forall k | low < k < high ensures known[k].None? {
      KnownIsMarked(segment, k);
    }
    var from, to := KnownOr(known, segment.durationMs, low) as real, KnownOr(known, segment.durationMs, high) as real;
    RawPrefix(known, segment.durationMs, i, n);
    RawShares(known, segment.durationMs, low, high, i);
    ShareNear(MarkedMs(segment, low).value, MarkedMs(segment, high).value, from, to, i - low, high - low);
    Apart(RawStarts(known, segment.durationMs, n)[i] as real, Share(from, to, i - low, high - low),
          Share(MarkedMs(segment, low).value, MarkedMs(segment, high).value, i - low, high - low),
          (i - low) as real / 2.0);
    assert (i - low) as real / 2.0 + 0.5 == (i - low + 1) as real / 2.0;
  }

  lemma Apart(x: real, y: real, z: real, bound: real)
    requires Within(x, y, bound) && Within(y, z, 0.5)
    ensures Within(x, z, bound + 0.5)
  {
  }

  method WordStarts(segment: TimelineSegment) returns (starts: seq<int>)
    ensures starts == StartsOf(Known(segment), segment.durationMs)
    ensures WellTimed(segment) ==> StartsFairly(segment, starts)
  {
    hide WellTimed, StartsFairly;
    starts := FillStarts(Known(segment), segment.durationMs);
    ghost var raw := starts;
    var i := 1;
    while i < |starts|
      invariant 1 <= i && |starts| == |raw|
      invariant forall k :: 0 <= k < i && k < |raw| ==> starts[k] == MaxUpTo(raw, k)
      invariant forall k :: i <= k < |raw| ==> starts[k] == raw[k]
    {
      starts := starts[i := Max(starts[i], starts[i - 1])];
      i := i + 1;
    }
    assert starts == RunningMax(raw);
    if WellTimed(segment) {
      StartsAreFair(segment);
    }
  }

  // ---- the timeline of a part ----

  function TimedWordAt(segment: TimelineSegment, starts: seq<int>, offset: nat, i: nat): TimedWord
    requires i < |segment.words| == |starts|
  {
    TimedWord(segment.firstWordIndex + i, segment.words[i].t, segment.words[i].p,
              offset + Min(starts[i], segment.durationMs),
              offset + Min(if i + 1 < |starts| then starts[i + 1] else segment.durationMs, segment.durationMs))
  }

  /** The words of one segment, `offset` milliseconds into the part. */
  function TimedWords(segment: TimelineSegment, offset: nat): (words: seq<TimedWord>)
    ensures |words| == |segment.words|
  {
    var starts := StartsOf(Known(segment), segment.durationMs);
    seq(|segment.words|, i requires 0 <= i < |segment.words| => TimedWordAt(segment, starts, offset, i))
  }

  function OffsetOf(segments: seq<TimelineSegment>, n: nat): nat
    requires n <= |segments|
  {
    if n == 0 then 0 else OffsetOf(segments, n - 1) + segments[n - 1].durationMs
  }

  function TimelineUpTo(segments: seq<TimelineSegment>, n: nat): seq<TimedWord>
    requires n <= |segments|
  {
    if n == 0 then [] else TimelineUpTo(segments, n - 1) + TimedWords(segments[n - 1], OffsetOf(segments, n - 1))
  }

  // ---- what the timeline satisfies ----

  /** The engine's times are never negative. */
  predicate NoNegativeTime(segment: TimelineSegment) {
    forall i :: 0 <= i < |segment.timepoints| && segment.timepoints[i].Some? ==> segment.timepoints[i].value >= 0.0
  }

  /** Between `low` and `high`, each word ending no later than the next one starts. */
  ghost predicate Ordered(words: seq<TimedWord>, low: int, high: int) {
    && (forall i :: 0 <= i < |words| ==> low <= words[i].startMs <= words[i].endMs <= high)
    && (forall i, j :: 0 <= i < j < |words| ==> words[i].endMs <= words[j].startMs)
  }

  /** Starts that are not negative and never go back. */
  predicate GoodStarts(starts: seq<int>) {
    && (forall i :: 0 <= i < |starts| ==> starts[i] >= 0)
    && (forall i, j :: 0 <= i <= j < |starts| ==> starts[i] <= starts[j])
  }

  lemma StartsAreGood(segment: TimelineSegment)
    requires NoNegativeTime(segment)
    ensures GoodStarts(StartsOf(Known(segment), segment.durationMs))
  {
    var known := Known(segment);
    var raw := RawStarts(known, segment.durationMs, |known|);
    KnownNonNegative(segment);
    RawNonNegative(known, segment.durationMs, |known|);
    forall i | 0 <= i < |known| ensures RunningMax(raw)[i] >= 0 {
      MaxAbove(raw, i);
    }
    forall i, j | 0 <= i <= j < |known| ensures RunningMax(raw)[i] <= RunningMax(raw)[j] {
      StartsNeverDecrease(known, segment.durationMs, i, j);
    }
  }

  lemma WordInside(segment: TimelineSegment, starts: seq<int>, offset: nat, i: nat)
    requires GoodStarts(starts) && i < |segment.words| == |starts|
    ensures var w := TimedWordAt(segment, starts, offset, i);
            offset <= w.startMs <= w.endMs <= offset + segment.durationMs
    ensures i == |starts| - 1 ==> TimedWordAt(segment, starts, offset, i).endMs == offset + segment.durationMs
    ensures forall j :: i < j < |starts| ==>
              TimedWordAt(segment, starts, offset, i).endMs <= TimedWordAt(segment, starts, offset, j).startMs
  {
  }

  lemma SegmentOrdered(segment: TimelineSegment, offset: nat)
    requires NoNegativeTime(segment)
    ensures Ordered(TimedWords(segment, offset), offset, offset + segment.durationMs)
    ensures segment.words != [] ==>
              TimedWords(segment, offset)[|segment.words| - 1].endMs == offset + segment.durationMs
  {
    StartsAreGood(segment);
    var starts := StartsOf(Known(segment), segment.durationMs);
    forall i | 0 <= i < |segment.words|
      ensures TimedWords(segment, offset)[i] == TimedWordAt(segment, starts, offset, i)
    {
      WordInside(segment, starts, offset, i);
    }
    if segment.words != [] {
      WordInside(segment, starts, offset, |starts| - 1);
    }
    OrderedWords(segment, starts, offset, TimedWords(segment, offset));
  }

  lemma OrderedWords(segment: TimelineSegment, starts: seq<int>, offset: nat, words: seq<TimedWord>)
    requires GoodStarts(starts) && |words| == |segment.words| == |starts|
    requires forall i :: 0 <= i < |words| ==> words[i] == TimedWordAt(segment, starts, offset, i)
    ensures Ordered(words, offset, offset + segment.durationMs)
  {
    forall i, j | 0 <= i < j < |words| ensures words[i].endMs <= words[j].startMs {
      WordInside(segment, starts, offset, i);
    }
    forall i | 0 <= i < |words| ensures offset <= words[i].startMs <= words[i].endMs <= offset + segment.durationMs {
      WordInside(segment, starts, offset, i);
    }
  }

  lemma KnownNonNegative(segment: TimelineSegment)
    requires NoNegativeTime(segment)
    ensures NonNegative(Known(segment))
  {
    forall i | 0 <= i < |segment.words| && Known(segment)[i].Some? ensures Known(segment)[i].value >= 0 {
      assert segment.timepoints[i].value >= 0.0;
      FloorMonotone(0.0, segment.timepoints[i].value * 1000.0);
    }
  }

  lemma {:induction false} MaxAbove(s: seq<int>, i: nat)
    requires i < |s| && forall k :: 0 <= k < |s| ==> s[k] >= 0
    ensures MaxUpTo(s, i) >= 0
  {
  }

  /**
   * In every timeline each word lies inside its segment's span, starts never
   * go back across the whole part, and a word ends no later than the next starts.
   */
  lemma {:induction false} TimelineOrdered(segments: seq<TimelineSegment>, n: nat)
    requires n <= |segments| && forall k :: 0 <= k < |segments| ==> NoNegativeTime(segments[k])
    ensures Ordered(TimelineUpTo(segments, n), 0, OffsetOf(segments, n))
  {
    if n > 0 {
      hide TimedWords;
      TimelineOrdered(segments, n - 1);
      SegmentOrdered(segments[n - 1], OffsetOf(segments, n - 1));
    }
  }

  // ---- the timeline of a part, from its segments ----

  /** When the words of a timeline start, `at` milliseconds into the part. */
  function StartsFrom(words: seq<TimedWord>, at: int): (starts: seq<int>)
    ensures |starts| == |words|
  {
    seq(|words|, i requires 0 <= i < |words| => words[i].startMs - at)
  }

  /**
   * The words of a segment that is heard from `at` on: each at its place in the
   * book, ending when the next one starts, the last one with the segment; and
   * with good marks each starting where the marks say.
   */
  ghost predicate IsSpoken(words: seq<TimedWord>, segment: TimelineSegment, at: int) {
    && |words| == |segment.words|
    && (forall i :: 0 <= i < |words| ==>
          && words[i].index == segment.firstWordIndex + i
          && words[i].text == segment.words[i].t && words[i].page == segment.words[i].p)
    && (forall i {:trigger words[i + 1]} :: 0 <= i < |words| - 1 ==> words[i].endMs == words[i + 1].startMs)
    && (words != [] ==> words[|words| - 1].endMs == at + segment.durationMs)
    && (NoNegativeTime(segment) ==> Ordered(words, at, at + segment.durationMs))
    && (WellTimed(segment) ==> StartsFairly(segment, StartsFrom(words, at)))
  }

  /** The segments one after the other: each is heard when the one before it ends. */
  ghost predicate IsTimelineOf(words: seq<TimedWord>, segments: seq<TimelineSegment>) {
    exists at: seq<int>, from: seq<nat> :: Follow(words, segments, at, from)
  }

  ghost predicate Follow(words: seq<TimedWord>, segments: seq<TimelineSegment>, at: seq<int>, from: seq<nat>) {
    && |at| == |from| == |segments| + 1
    && at[0] == 0 && from[0] == 0 && from[|segments|] == |words|
    && forall k :: 0 <= k < |segments| ==> IsHeard(words, segments[k], at[k], at[k + 1], from[k], from[k + 1])
  }

  /** The segment is heard from `at` to `end`, with the words from `low` to `high`. */
  ghost predicate IsHeard(words: seq<TimedWord>, segment: TimelineSegment, at: int, end: int, low: nat, high: nat) {
    end == at + segment.durationMs && low <= high <= |words| && IsSpoken(words[low..high], segment, at)
  }

  lemma WithinDuration(segment: TimelineSegment, i: nat)
    requires WellTimed(segment) && i < |segment.words|
    ensures 0 <= StartsOf(Known(segment), segment.durationMs)[i] <= segment.durationMs
  {
    hide WellTimed, WellMarked;
    WellTimedIsWellMarked(segment);
    MarksKept(Known(segment), segment.durationMs, i);
  }

  lemma SegmentIsSpoken(segment: TimelineSegment, offset: nat)
    ensures IsSpoken(TimedWords(segment, offset), segment, offset)
  {
    hide StartsFairly, WellTimed, Ordered, Known, StartsOf;
    var words, starts := TimedWords(segment, offset), StartsOf(Known(segment), segment.durationMs);
    if NoNegativeTime(segment) {
      SegmentOrdered(segment, offset);
    }
    if words != [] {
      assert words[|words| - 1] == TimedWordAt(segment, starts, offset, |words| - 1);
    }
    if WellTimed(segment) {
      forall i | 0 <= i < |words| ensures StartsFrom(words, offset)[i] == starts[i] {
        WithinDuration(segment, i);
      }
      assert StartsFrom(words, offset) == starts;
      StartsAreFair(segment);
    }
  }

  lemma FollowMore(words: seq<TimedWord>, segments: seq<TimelineSegment>, at: seq<int>, from: seq<nat>,
                   more: seq<TimedWord>, segment: TimelineSegment)
    requires Follow(words, segments, at, from) && |at| == |segments| + 1 && IsSpoken(more, segment, at[|segments|])
    ensures Follow(words + more, segments + [segment], at + [at[|segments|] + segment.durationMs],
                   from + [|words| + |more|])
  {
    hide IsHeard;
    var all, ats, froms := words + more, at + [at[|segments|] + segment.durationMs], from + [|words| + |more|];
    var longer := segments + [segment];
    forall k | 0 <= k < |longer| ensures IsHeard(all, longer[k], ats[k], ats[k + 1], froms[k], froms[k + 1]) {
      if k < |segments| {
        assert IsHeard(words, segments[k], at[k], at[k + 1], from[k], from[k + 1]);
        HeardStill(words, more, segments[k], at[k], at[k + 1], from[k], from[k + 1]);
      } else {
        HeardLast(words, more, segment, at[k]);
      }
    }
  }

  lemma HeardStill(words: seq<TimedWord>, more: seq<TimedWord>, segment: TimelineSegment, at: int, end: int,
                   low: nat, high: nat)
    requires IsHeard(words, segment, at, end, low, high)
    ensures IsHeard(words + more, segment, at, end, low, high)
  {
    hide IsSpoken;
    assert (words + more)[low..high] == words[low..high];
  }

  lemma HeardLast(words: seq<TimedWord>, more: seq<TimedWord>, segment: TimelineSegment, at: int)
    requires IsSpoken(more, segment, at)
    ensures IsHeard(words + more, segment, at, at + segment.durationMs, |words|, |words| + |more|)
  {
    hide IsSpoken;
    assert (words + more)[|words|..|words| + |more|] == more;
  }

  lemma {:induction false} TimelineSoFar(segments: seq<TimelineSegment>, n: nat) returns (at: seq<int>, from: seq<nat>)
    requires n <= |segments|
    ensures Follow(TimelineUpTo(segments, n), segments[..n], at, from)
    ensures |at| == |from| == n + 1 && at[n] == OffsetOf(segments, n)
  {
    if n == 0 {
      at, from := [0], [0];
    } else {
      hide Follow, TimelineUpTo, OffsetOf;
      at, from := TimelineSoFar(segments, n - 1);
      at, from := OneSegmentMore(segments, n, at, from);
    }
  }

  lemma OneSegmentMore(segments: seq<TimelineSegment>, n: nat, at: seq<int>, from: seq<nat>)
    returns (ats: seq<int>, froms: seq<nat>)
    requires 0 < n <= |segments| && |at| == |from| == n && at[n - 1] == OffsetOf(segments, n - 1)
    requires Follow(TimelineUpTo(segments, n - 1), segments[..n - 1], at, from)
    ensures Follow(TimelineUpTo(segments, n), segments[..n], ats, froms)
    ensures |ats| == |froms| == n + 1 && ats[n] == OffsetOf(segments, n)
  {
    hide IsSpoken, TimedWords, Follow;
    var words, offset := TimelineUpTo(segments, n - 1), OffsetOf(segments, n - 1);
    var more := TimedWords(segments[n - 1], offset);
    SegmentIsSpoken(segments[n - 1], offset);
    FollowMore(words, segments[..n - 1], at, from, more, segments[n - 1]);
    assert segments[..n] == segments[..n - 1] + [segments[n - 1]];
    ats, froms := at + [offset + segments[n - 1].durationMs], from + [|words| + |more|];
  }

  lemma TimelineIs(segments: seq<TimelineSegment>)
    ensures IsTimelineOf(TimelineUpTo(segments, |segments|), segments)
  {
    hide Follow;
    var at, from := TimelineSoFar(segments, |segments|);
    assert segments[..|segments|] == segments;
    assert Follow(TimelineUpTo(segments, |segments|), segments, at, from);
  }

  method BuildPartTimeline(segments: seq<TimelineSegment>) returns (words: seq<TimedWord>)
    ensures words == TimelineUpTo(segments, |segments|)
    ensures IsTimelineOf(words, segments)
  {
    hide StartsOf, Known;
    words := [];
    var offset := 0;
    for k := 0 to |segments|
      invariant offset == OffsetOf(segments, k)
      invariant words == TimelineUpTo(segments, k)
    {
      var segment := segments[k];
      var starts := WordStarts(segment);
      ghost var before := words;
      for i := 0 to |segment.words|
        invariant words == before + TimedWords(segment, offset)[..i]
      {
        var startMs := offset + Min(starts[i], segment.durationMs);
        var endMs := offset + Min(if i + 1 < |starts| then starts[i + 1] else segment.durationMs, segment.durationMs);
        words := words
          + [TimedWord(segment.firstWordIndex + i, segment.words[i].t, segment.words[i].p, startMs, endMs)];
      }
      assert TimedWords(segment, offset)[..|segment.words|] == TimedWords(segment, offset);
      offset := offset + segment.durationMs;
    }
    TimelineIs(segments);
  }

  /** The timeline without its times. */
  function Untimed(words: seq<TimedWord>): (placed: seq<Placed>)
    ensures |placed| == |words|
  {
    seq(|words|, i requires 0 <= i < |words| => Placed(words[i].index, Word(words[i].text, words[i].page)))
  }

  /** Segments of a part as its timeline sees them. */
  predicate SegmentsOfRows(segments: seq<TimelineSegment>, rows: seq<Prepared>) {
    && |segments| == |rows|
    && forall i :: 0 <= i < |rows| ==>
      segments[i].words == rows[i].raw.words && segments[i].firstWordIndex == rows[i].firstWordIndex
  }

  lemma UntimedSegment(segment: TimelineSegment, offset: nat)
    ensures Untimed(TimedWords(segment, offset)) == Numbered(segment.words, segment.firstWordIndex)
  {
  }

  lemma UntimedConcat(a: seq<TimedWord>, b: seq<TimedWord>)
    ensures Untimed(a + b) == Untimed(a) + Untimed(b)
  {
  }

  /** Times apart, the timeline of a part is its words, each once, in order, at its place in the book. */
  lemma {:induction false} TimelineIsPlaced(segments: seq<TimelineSegment>, rows: seq<Prepared>, n: nat)
    requires SegmentsOfRows(segments, rows) && n <= |rows|
    ensures Untimed(TimelineUpTo(segments, n)) == PlacedUpTo(rows, n)
  {
    if n > 0 {
      TimelineIsPlaced(segments, rows, n - 1);
      UntimedConcat(TimelineUpTo(segments, n - 1), TimedWords(segments[n - 1], OffsetOf(segments, n - 1)));
      UntimedSegment(segments[n - 1], OffsetOf(segments, n - 1));
    }
  }
}
