/** Grouping consecutive segments into parts by a character target. */
module PartPlan {
  const FIRST_PART_TARGET_CHARS := 1800
  const PART_TARGET_CHARS := 9000

  datatype PlannedPart = PlannedPart(index: nat, firstSegment: nat, lastSegment: nat)

  function Target(part: nat): nat {
    if part == 0 then 1800 else 9000
  }

  /** Characters of segments `from` up to but not including `end`. */
  function Chars(counts: seq<nat>, from: nat, end: nat): nat
    requires from <= end <= |counts|
    decreases end
  {
    if from == end then 0 else Chars(counts, from, end - 1) + counts[end - 1]
  }

  /** The parts cover segments 0, 1, ... in order, without gap or overlap, up to `end`. */
  predicate Contiguous(parts: seq<PlannedPart>, end: nat) {
    && (forall k :: 0 <= k < |parts| ==> parts[k].index == k && parts[k].firstSegment <= parts[k].lastSegment < end)
    && (forall k :: 0 <= k < |parts| - 1 ==> parts[k + 1].firstSegment == parts[k].lastSegment + 1)
    && (parts == [] ==> end == 0)
    && (parts != [] ==> parts[0].firstSegment == 0 && parts[|parts| - 1].lastSegment == end - 1)
  }

  /** A part closes exactly on the segment that reaches its target, or on the last one. */
  predicate ClosesOnTarget(counts: seq<nat>, part: PlannedPart)
    requires part.firstSegment <= part.lastSegment < |counts|
  {
    && (part.lastSegment == |counts| - 1
        || Chars(counts, part.firstSegment, part.lastSegment + 1) >= Target(part.index))
    && (forall e :: part.firstSegment < e <= part.lastSegment ==>
        Chars(counts, part.firstSegment, e) < Target(part.index))
  }

  predicate IsPlan(counts: seq<nat>, parts: seq<PlannedPart>) {
    && Contiguous(parts, |counts|)
    && forall k :: 0 <= k < |parts| ==> ClosesOnTarget(counts, parts[k])
  }

  lemma AppendPart(counts: seq<nat>, parts: seq<PlannedPart>, part: PlannedPart)
    requires Contiguous(parts, part.firstSegment) && part.index == |parts|
    requires part.firstSegment <= part.lastSegment < |counts| && ClosesOnTarget(counts, part)
    requires forall k :: 0 <= k < |parts| ==> ClosesOnTarget(counts, parts[k])
    ensures Contiguous(parts + [part], part.lastSegment + 1)
    ensures forall k :: 0 <= k < |parts| + 1 ==> ClosesOnTarget(counts, (parts + [part])[k])
  {
  }

  method PlanParts(counts: seq<nat>) returns (parts: seq<PlannedPart>)
    ensures IsPlan(counts, parts)
  {
    parts := [];
    var first := 0;
    var chars := 0;
    for index := 0 to |counts|
      invariant first <= index && chars == Chars(counts, first, index)
      invariant Contiguous(parts, first)
      invariant forall k :: 0 <= k < |parts| ==> ClosesOnTarget(counts, parts[k])
      invariant forall e :: first < e <= index ==> Chars(counts, first, e) < Target(|parts|)
      invariant index == |counts| ==> first == index
    {
      chars := chars + counts[index];
      var target := if |parts| == 0 then FIRST_PART_TARGET_CHARS else PART_TARGET_CHARS;
      if chars >= target || index == |counts| - 1 {
        AppendPart(counts, parts, PlannedPart(|parts|, first, index));
        parts := parts + [PlannedPart(|parts|, first, index)];
        first := index + 1;
        chars := 0;
      }
    }
  }

  /** The contract leaves no choice: there is one plan. */
  lemma {:induction false} PlanIsUnique(counts: seq<nat>, a: seq<PlannedPart>, b: seq<PlannedPart>, k: nat)
    requires IsPlan(counts, a) && IsPlan(counts, b) && k <= |a|
    ensures k <= |b| && a[..k] == b[..k]
  {
    if k > 0 {
      PlanIsUnique(counts, a, b, k - 1);
      var part := a[k - 1];
      if k == 1 {
        assert |counts| > 0;
      } else {
        assert a[k - 2] == a[..k - 1][k - 2] == b[..k - 1][k - 2] == b[k - 2];
        assert part.firstSegment == a[k - 2].lastSegment + 1;
        assert b[k - 2].lastSegment < |counts| - 1;
      }
      assert k <= |b|;
      assert b[k - 1].firstSegment == part.firstSegment by {
        if k > 1 { assert b[(k - 2) + 1].firstSegment == b[k - 2].lastSegment + 1; }
      }
      SameClose(counts, part, b[k - 1]);
      assert a[..k] == a[..k - 1] + [part] && b[..k] == b[..k - 1] + [part];
    }
  }

  lemma SameClose(counts: seq<nat>, a: PlannedPart, b: PlannedPart)
    requires a.index == b.index && a.firstSegment == b.firstSegment
    requires a.firstSegment <= a.lastSegment < |counts| && b.firstSegment <= b.lastSegment < |counts|
    requires ClosesOnTarget(counts, a) && ClosesOnTarget(counts, b)
    ensures a == b
  {
    var upToA := Chars(counts, a.firstSegment, a.lastSegment + 1);
    var upToB := Chars(counts, b.firstSegment, b.lastSegment + 1);
  }

  /** The part of a segment. */
  function PartOf(parts: seq<PlannedPart>, segment: nat): (k: nat)
    requires parts != []
    ensures k < |parts|
  {
    if |parts| == 1 || segment >= parts[|parts| - 1].firstSegment then |parts| - 1
    else PartOf(parts[..|parts| - 1], segment)
  }

  lemma ContiguousFront(parts: seq<PlannedPart>, end: nat)
    requires Contiguous(parts, end) && |parts| > 1
    ensures Contiguous(parts[..|parts| - 1], parts[|parts| - 1].firstSegment)
  {
    var last := |parts| - 1;
    var front := parts[..last];
    assert parts[(last - 1) + 1].firstSegment == parts[last - 1].lastSegment + 1;
    LaterStarts(parts, end, 0, last - 1);
    forall k | 0 <= k < |front|
      ensures front[k].index == k && front[k].firstSegment <= front[k].lastSegment < parts[last].firstSegment {
      LaterStarts(parts, end, k, last);
    }
    forall k | 0 <= k < |front| - 1 ensures front[k + 1].firstSegment == front[k].lastSegment + 1 {
      assert parts[k + 1].firstSegment == parts[k].lastSegment + 1;
    }
  }

  lemma {:induction false} LaterStarts(parts: seq<PlannedPart>, end: nat, k: nat, m: nat)
    requires Contiguous(parts, end) && k <= m < |parts|
    ensures k < m ==> parts[k].lastSegment < parts[m].firstSegment
    decreases m
  {
    if k < m {
      LaterStarts(parts, end, k, m - 1);
      assert parts[(m - 1) + 1].firstSegment == parts[m - 1].lastSegment + 1;
    }
  }

  lemma {:induction false} PartOfContains(parts: seq<PlannedPart>, end: nat, segment: nat)
    requires Contiguous(parts, end) && segment < end
    ensures parts[PartOf(parts, segment)].firstSegment <= segment <= parts[PartOf(parts, segment)].lastSegment
    decreases |parts|
  {
    var last := |parts| - 1;
    if last > 0 && segment < parts[last].firstSegment {
      ContiguousFront(parts, end);
      PartOfContains(parts[..last], parts[last].firstSegment, segment);
    }
  }
}
