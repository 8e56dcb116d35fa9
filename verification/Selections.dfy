/** The positions that a condition selects, in order: what a filter keeps. */
module Selections {

  /** The positions with that mark, each once, in order. */
  ghost predicate Selects(at: seq<nat>, marks: seq<bool>, mark: bool) {
    && (forall j, k :: 0 <= j < k < |at| ==> at[j] < at[k])
    && (forall j :: 0 <= j < |at| ==> at[j] < |marks| && marks[at[j]] == mark)
    && (forall i :: 0 <= i < |marks| && marks[i] == mark ==> i in at)
  }

  lemma SelectsNext(at: seq<nat>, marks: seq<bool>, mark: bool, next: bool)
    requires Selects(at, marks, mark)
    ensures Selects(if next == mark then at + [|marks|] else at, marks + [next], mark)
  {
    var more := at + [|marks| as nat];
    assert more[|at|] == |marks|;
    forall i | 0 <= i < |marks| && marks[i] == mark ensures i in more {
      assert i in at;
    }
  }

  lemma SelectedBelow(at: seq<nat>, marks: seq<bool>, mark: bool)
    requires Selects(at, marks, mark)
    ensures forall j :: 0 <= j < |at| ==> at[j] < |marks|
  {
  }

  /** How many of the first `n` marks are set. */
  function MarkCount(marks: seq<bool>, n: nat): (count: nat)
    requires n <= |marks|
    ensures count <= n
  {
    if n == 0 then 0 else MarkCount(marks, n - 1) + (if marks[n - 1] then 1 else 0)
  }

  /** The positions below `n` whose mark is set. */
  ghost function MarkedSet(marks: seq<bool>, n: nat): set<nat>
    requires n <= |marks|
  {
    set i: nat | i < n && marks[i]
  }

  /** Counting one by one counts the set. */
  lemma {:induction false} MarkedIsSize(marks: seq<bool>, n: nat)
    requires n <= |marks|
    ensures |MarkedSet(marks, n)| == MarkCount(marks, n)
  {
    if n == 0 {
      assert MarkedSet(marks, 0) == {};
    } else {
      MarkedIsSize(marks, n - 1);
      var before := MarkedSet(marks, n - 1);
      assert MarkedSet(marks, n) == if marks[n - 1] then before + {n - 1} else before;
    }
  }

  lemma {:induction false} MarkedSome(marks: seq<bool>, n: nat)
    requires n <= |marks|
    ensures MarkCount(marks, n) >= 1 <==> exists i :: 0 <= i < n && marks[i]
  {
    if n > 0 {
      MarkedSome(marks, n - 1);
    }
  }

  lemma {:induction false} MarkedTwo(marks: seq<bool>, n: nat)
    requires n <= |marks|
    ensures MarkCount(marks, n) >= 2 <==> exists i, j :: 0 <= i < j < n && marks[i] && marks[j]
  {
    if n > 0 {
      MarkedTwo(marks, n - 1);
      MarkedSome(marks, n - 1);
    }
  }

  lemma {:induction false} MarkedThree(marks: seq<bool>, n: nat)
    requires n <= |marks|
    ensures MarkCount(marks, n) >= 3 <==> exists i, j, k :: 0 <= i < j < k < n && marks[i] && marks[j] && marks[k]
  {
    if n > 0 {
      MarkedThree(marks, n - 1);
      MarkedTwo(marks, n - 1);
    }
  }

  /** One position more at the front. */
  function Shifted(first: bool, after: seq<nat>): (at: seq<nat>)
    ensures |at| == |after| + if first then 1 else 0
  {
    (if first then [0] else []) + seq(|after|, j requires 0 <= j < |after| => after[j] + 1)
  }

  lemma ShiftedAt(first: bool, after: seq<nat>, j: nat)
    requires j < |Shifted(first, after)|
    ensures Shifted(first, after)[j] == if !first then after[j] + 1 else if j == 0 then 0 else after[j - 1] + 1
  {
  }

  lemma ShiftedSelects(marks: seq<bool>, after: seq<nat>, first: bool)
    requires Selects(after, marks, true)
    ensures Selects(Shifted(first, after), [first] + marks, true)
  {
    hide Shifted;
    var at, all := Shifted(first, after), [first] + marks;
    forall j, k | 0 <= j < k < |at| ensures at[j] < at[k] {
      ShiftedAt(first, after, j);
      ShiftedAt(first, after, k);
    }
    forall j | 0 <= j < |at| ensures at[j] < |all| && all[at[j]] {
      ShiftedAt(first, after, j);
    }
    forall i | 0 <= i < |all| && all[i] ensures i in at {
      FoundShifted(marks, after, first, i);
    }
  }

  lemma FoundShifted(marks: seq<bool>, after: seq<nat>, first: bool, i: nat)
    requires Selects(after, marks, true) && i <= |marks| && ([first] + marks)[i]
    ensures i in Shifted(first, after)
  {
    hide Shifted;
    if i == 0 {
      ShiftedAt(first, after, 0);
      assert Shifted(first, after)[0] == 0;
    } else {
      assert marks[i - 1];
      var j :| 0 <= j < |after| && after[j] == i - 1;
      var k := if first then j + 1 else j;
      ShiftedAt(first, after, k);
      assert Shifted(first, after)[k] == i;
    }
  }
}
