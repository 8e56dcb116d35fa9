/**
 * From segments to parts to timelines: positions of words in the whole book,
 * and the pages that start in each part.
 */
module Pipeline {
  import opened Wrappers
  import opened Words
  import opened PartPlan

  /** A segment as the segmenter leaves it. */
  datatype Raw = Raw(ssml: Text, words: seq<Word>, charCount: nat)

  /** A segment with its part and the position of its first word in the book. */
  datatype Prepared = Prepared(raw: Raw, partIndex: nat, firstWordIndex: nat)

  /** A word of a timeline, without its times. */
  datatype Placed = Placed(index: nat, word: Word)

  datatype PageStart = PageStart(page: int, wordIndex: nat)

  /** The words of the first `n` segments. */
  function WordsUpTo(segments: seq<Raw>, n: nat): seq<Word>
    requires n <= |segments|
  {
    if n == 0 then [] else WordsUpTo(segments, n - 1) + segments[n - 1].words
  }

  function WordsOf(segments: seq<Raw>): seq<Word> {
    WordsUpTo(segments, |segments|)
  }

  /** How many words come before segment `n`. */
  function WordsBefore(segments: seq<Raw>, n: nat): (count: nat)
    requires n <= |segments|
    ensures count == |WordsUpTo(segments, n)|
  {
    if n == 0 then 0 else WordsBefore(segments, n - 1) + |segments[n - 1].words|
  }

  function CharCounts(segments: seq<Raw>): (counts: seq<nat>)
    ensures |counts| == |segments|
  {
    seq(|segments|, i requires 0 <= i < |segments| => segments[i].charCount)
  }

  /** Segment `i` knows its part and how many words come before it. */
  predicate PositionedAt(segments: seq<Raw>, parts: seq<PlannedPart>, row: Prepared, i: nat)
    requires i < |segments|
  {
    && row.raw == segments[i]
    && row.firstWordIndex == WordsBefore(segments, i)
    && row.partIndex < |parts|
    && parts[row.partIndex].firstSegment <= i <= parts[row.partIndex].lastSegment
  }

  predicate Positioned(segments: seq<Raw>, parts: seq<PlannedPart>, prepared: seq<Prepared>) {
    && |prepared| == |segments|
    && Contiguous(parts, |segments|)
    && forall i :: 0 <= i < |segments| ==> PositionedAt(segments, parts, prepared[i], i)
  }

  method PartMap(parts: seq<PlannedPart>, end: nat) returns (partOf: map<nat, nat>)
    requires Contiguous(parts, end)
    ensures forall s: nat :: s in partOf <==> s < end
    ensures forall s: nat :: s in partOf ==>
              partOf[s] < |parts| && parts[partOf[s]].firstSegment <= s <= parts[partOf[s]].lastSegment
  {
    partOf := map[];
    for k := 0 to |parts|
      invariant forall s: nat :: s in partOf <==> k > 0 && s <= parts[k - 1].lastSegment
      invariant forall s: nat :: s in partOf ==>
                  partOf[s] < k && parts[partOf[s]].firstSegment <= s <= parts[partOf[s]].lastSegment
    {
      var part := parts[k];
      assert k > 0 ==> parts[(k - 1) + 1].firstSegment == parts[k - 1].lastSegment + 1;
      for s := part.firstSegment to part.lastSegment + 1
        invariant forall r: nat :: r in partOf <==> r < s
        invariant forall r: nat :: r in partOf ==>
                    partOf[r] <= k && parts[partOf[r]].firstSegment <= r <= parts[partOf[r]].lastSegment
      {
        partOf := partOf[s := part.index];
      }
    }
  }

  /** Parts and positions of every segment of the book. */
  method Position(segments: seq<Raw>) returns (parts: seq<PlannedPart>, prepared: seq<Prepared>)
    ensures IsPlan(CharCounts(segments), parts)
    ensures Positioned(segments, parts, prepared)
  {
    parts := PlanParts(CharCounts(segments));
    var partOf := PartMap(parts, |segments|);
    var firstWordIndex := 0;
    prepared := [];
    for i := 0 to |segments|
      invariant |prepared| == i && firstWordIndex == WordsBefore(segments, i)
      invariant forall k :: 0 <= k < i ==> PositionedAt(segments, parts, prepared[k], k)
    {
      prepared := prepared + [Prepared(segments[i], if i in partOf then partOf[i] else 0, firstWordIndex)];
      firstWordIndex := firstWordIndex + |segments[i].words|;
    }
  }

  // ---- what a part reads back ----

  /** The rows of one part among the first `n`, in order: a query on the part's number. */
  function PartRows(prepared: seq<Prepared>, part: nat, n: nat): seq<Prepared>
    requires n <= |prepared|
  {
    if n == 0 then []
    else PartRows(prepared, part, n - 1) + (if prepared[n - 1].partIndex == part then [prepared[n - 1]] else [])
  }

  function PartSegments(prepared: seq<Prepared>, part: nat): seq<Prepared> {
    PartRows(prepared, part, |prepared|)
  }

  function Clamp(n: nat, low: nat, high: nat): nat
    requires low <= high
  {
    if n < low then low else if n > high then high else n
  }

  lemma {:induction false} RowsSoFar(segments: seq<Raw>, parts: seq<PlannedPart>, prepared: seq<Prepared>, part: nat,
                                     n: nat)
    requires Positioned(segments, parts, prepared) && part < |parts| && n <= |prepared|
    ensures var from, end := parts[part].firstSegment, parts[part].lastSegment + 1;
            PartRows(prepared, part, n) == prepared[from..Clamp(n, from, end)]
  {
    if n > 0 {
      hide Positioned, Contiguous, Clamp;
      RowsSoFar(segments, parts, prepared, part, n - 1);
      RowInPart(segments, parts, prepared, part, n - 1);
      SliceGrows(prepared, parts[part].firstSegment, parts[part].lastSegment + 1, n);
    }
  }

  /** A row is of the part exactly when its segment lies within it. */
  lemma RowInPart(segments: seq<Raw>, parts: seq<PlannedPart>, prepared: seq<Prepared>, part: nat, i: nat)
    requires Positioned(segments, parts, prepared) && part < |parts| && i < |prepared|
    ensures prepared[i].partIndex == part <==> parts[part].firstSegment <= i <= parts[part].lastSegment
    ensures parts[part].firstSegment <= parts[part].lastSegment < |prepared|
  {
    assert PositionedAt(segments, parts, prepared[i], i);
    OnlyOnePart(parts, |segments|, i, prepared[i].partIndex, part);
  }

  lemma SliceGrows(rows: seq<Prepared>, from: nat, end: nat, n: nat)
    requires from <= end <= |rows| && 0 < n <= |rows|
    ensures Clamp(n - 1, from, end) <= |rows| && Clamp(n, from, end) <= |rows|
    ensures rows[from..Clamp(n, from, end)]
            == rows[from..Clamp(n - 1, from, end)] + (if from <= n - 1 < end then [rows[n - 1]] else [])
  {
    if from <= n - 1 < end {
      assert Clamp(n, from, end) == n && Clamp(n - 1, from, end) == n - 1;
    } else {
      assert Clamp(n, from, end) == Clamp(n - 1, from, end);
    }
  }

  lemma OnlyOnePart(parts: seq<PlannedPart>, end: nat, segment: nat, a: nat, b: nat)
    requires Contiguous(parts, end) && a < |parts| && b < |parts|
    requires parts[a].firstSegment <= segment <= parts[a].lastSegment
    ensures a == b <==> parts[b].firstSegment <= segment <= parts[b].lastSegment
  {
    if a <= b {
      LaterStarts(parts, end, a, b);
    } else {
      LaterStarts(parts, end, b, a);
    }
  }

  /** The query returns exactly the part's slice of the book. */
  lemma QueryIsSlice(segments: seq<Raw>, parts: seq<PlannedPart>, prepared: seq<Prepared>, part: nat)
    requires Positioned(segments, parts, prepared) && part < |parts|
    ensures PartSegments(prepared, part) == prepared[parts[part].firstSegment..parts[part].lastSegment + 1]
  {
    RowsSoFar(segments, parts, prepared, part, |prepared|);
  }

  // ---- the words of the timelines ----

  function Numbered(words: seq<Word>, from: nat): (placed: seq<Placed>)
    ensures |placed| == |words|
  {
    seq(|words|, i requires 0 <= i < |words| => Placed(from + i, words[i]))
  }

  /** The words of the timeline built from the first `n` rows. */
  function PlacedUpTo(rows: seq<Prepared>, n: nat): seq<Placed>
    requires n <= |rows|
  {
    if n == 0 then [] else PlacedUpTo(rows, n - 1) + Numbered(rows[n - 1].raw.words, rows[n - 1].firstWordIndex)
  }

  function PlacedWords(rows: seq<Prepared>): seq<Placed> {
    PlacedUpTo(rows, |rows|)
  }

  /** The words of segments `from` to `end`, numbered in the book. */
  ghost function Book(segments: seq<Raw>, from: nat, end: nat): seq<Placed>
    requires from <= end <= |segments|
    decreases end
  {
    if from == end then []
    else Book(segments, from, end - 1) + Numbered(segments[end - 1].words, WordsBefore(segments, end - 1))
  }

  lemma {:induction false} BookIsNumbered(segments: seq<Raw>, n: nat)
    requires n <= |segments|
    ensures Book(segments, 0, n) == Numbered(WordsUpTo(segments, n), 0)
  {
    if n > 0 {
      BookIsNumbered(segments, n - 1);
    }
  }

  lemma {:induction false} BookSplits(segments: seq<Raw>, from: nat, mid: nat, end: nat)
    requires from <= mid <= end <= |segments|
    ensures Book(segments, from, end) == Book(segments, from, mid) + Book(segments, mid, end)
    decreases end
  {
    if mid < end {
      BookSplits(segments, from, mid, end - 1);
    }
  }

  lemma {:induction false} SliceIsBook(segments: seq<Raw>, parts: seq<PlannedPart>, prepared: seq<Prepared>,
                                       from: nat, end: nat, n: nat)
    requires Positioned(segments, parts, prepared) && from <= end <= |segments| && n <= end - from
    ensures PlacedUpTo(prepared[from..end], n) == Book(segments, from, from + n)
  {
    if n > 0 {
      SliceIsBook(segments, parts, prepared, from, end, n - 1);
      assert PositionedAt(segments, parts, prepared[from + n - 1], from + n - 1);
    }
  }

  /** The words of the timelines of the first `k` parts, each built from its own query. */
  function PlacedOfParts(prepared: seq<Prepared>, k: nat): seq<Placed> {
    if k == 0 then [] else PlacedOfParts(prepared, k - 1) + PlacedWords(PartSegments(prepared, k - 1))
  }

  function EndOf(parts: seq<PlannedPart>, k: nat): nat
    requires k <= |parts|
  {
    if k == 0 then 0 else parts[k - 1].lastSegment + 1
  }

  lemma EndIsStart(parts: seq<PlannedPart>, end: nat, k: nat)
    requires Contiguous(parts, end) && k <= |parts|
    ensures EndOf(parts, k) <= end
    ensures k < |parts| ==> EndOf(parts, k) == parts[k].firstSegment
    ensures k == |parts| ==> EndOf(parts, k) == end
  {
    if 0 < k < |parts| {
      assert parts[(k - 1) + 1].firstSegment == parts[k - 1].lastSegment + 1;
    }
  }

  lemma PartIsBook(segments: seq<Raw>, parts: seq<PlannedPart>, prepared: seq<Prepared>, part: nat)
    requires Positioned(segments, parts, prepared) && part < |parts|
    ensures PlacedWords(PartSegments(prepared, part))
            == Book(segments, parts[part].firstSegment, parts[part].lastSegment + 1)
  {
    hide Book, PlacedUpTo, PartRows;
    var from, end := parts[part].firstSegment, parts[part].lastSegment + 1;
    QueryIsSlice(segments, parts, prepared, part);
    SliceIsBook(segments, parts, prepared, from, end, end - from);
  }

  lemma {:induction false} PartsSoFar(segments: seq<Raw>, parts: seq<PlannedPart>, prepared: seq<Prepared>, k: nat)
    requires Positioned(segments, parts, prepared) && k <= |parts|
    ensures EndOf(parts, k) <= |segments|
    ensures PlacedOfParts(prepared, k) == Book(segments, 0, EndOf(parts, k))
  {
    hide PositionedAt, PartSegments, PlacedWords;
    if k > 0 {
      PartsSoFar(segments, parts, prepared, k - 1);
      EndIsStart(parts, |segments|, k - 1);
      PartIsBook(segments, parts, prepared, k - 1);
      BookSplits(segments, 0, parts[k - 1].firstSegment, parts[k - 1].lastSegment + 1);
    }
  }

  /**
   * Nothing is lost, duplicated or misnumbered: the words of all the parts'
   * timelines, in part order, are the words of the book, numbered from 0.
   */
  lemma TimelinesCoverTheBook(segments: seq<Raw>, parts: seq<PlannedPart>, prepared: seq<Prepared>)
    requires Positioned(segments, parts, prepared)
    ensures PlacedOfParts(prepared, |parts|) == Numbered(WordsOf(segments), 0)
  {
    PartsSoFar(segments, parts, prepared, |parts|);
    EndIsStart(parts, |segments|, |parts|);
    BookIsNumbered(segments, |segments|);
  }

  // ---- the pages that start in each part ----

  function PageBefore(words: seq<Placed>, i: nat, previous: Option<int>): Option<int>
    requires i <= |words|
  {
    if i == 0 then previous else Some(words[i - 1].word.p)
  }

  /** The words among the first `n` that open a page, seen from what comes just before. */
  function PageStartsUpTo(words: seq<Placed>, previous: Option<int>, n: nat): seq<PageStart>
    requires n <= |words|
  {
    if n == 0 then []
    else
      PageStartsUpTo(words, previous, n - 1)
      + (if Some(words[n - 1].word.p) != PageBefore(words, n - 1, previous)
         then [PageStart(words[n - 1].word.p, words[n - 1].index)] else [])
  }

  function PageStarts(words: seq<Placed>, previous: Option<int>): seq<PageStart> {
    PageStartsUpTo(words, previous, |words|)
  }

  method PageStartsOf(words: seq<Placed>, previousPage: Option<int>) returns (starts: seq<PageStart>)
    ensures starts == PageStarts(words, previousPage)
  {
    starts := [];
    var current := previousPage;
    for i := 0 to |words|
      invariant starts == PageStartsUpTo(words, previousPage, i)
      invariant current == PageBefore(words, i, previousPage)
    {
      if Some(words[i].word.p) != current {
        starts := starts + [PageStart(words[i].word.p, words[i].index)];
        current := Some(words[i].word.p);
      }
    }
  }

  lemma {:induction false} PageStartsFront(a: seq<Placed>, b: seq<Placed>, previous: Option<int>, n: nat)
    requires n <= |a|
    ensures PageStartsUpTo(a + b, previous, n) == PageStartsUpTo(a, previous, n)
  {
    if n > 0 {
      PageStartsFront(a, b, previous, n - 1);
    }
  }

  lemma {:induction false} PageStartsBack(a: seq<Placed>, b: seq<Placed>, previous: Option<int>, n: nat)
    requires n <= |b|
    ensures PageStartsUpTo(a + b, previous, |a| + n)
            == PageStarts(a, previous) + PageStartsUpTo(b, PageBefore(a, |a|, previous), n)
  {
    if n == 0 {
      PageStartsFront(a, b, previous, |a|);
    } else {
      PageStartsBack(a, b, previous, n - 1);
    }
  }

  lemma PageStartsConcat(a: seq<Placed>, b: seq<Placed>, previous: Option<int>)
    ensures PageStarts(a + b, previous) == PageStarts(a, previous) + PageStarts(b, PageBefore(a, |a|, previous))
  {
    PageStartsBack(a, b, previous, |b|);
  }

  /** The page of the last word of the previous part, read from that part's rows. */
  function LastPageBefore(prepared: seq<Prepared>, part: nat): Option<int> {
    if part == 0 then None else LastPage(PartSegments(prepared, part - 1))
  }

  function LastPage(rows: seq<Prepared>): Option<int> {
    if rows == [] || rows[|rows| - 1].raw.words == [] then None
    else
      var words := rows[|rows| - 1].raw.words;
      Some(words[|words| - 1].p)
  }

  /** What the assembly of a part stores. */
  function StartsOfPart(prepared: seq<Prepared>, part: nat): seq<PageStart> {
    PageStarts(PlacedWords(PartSegments(prepared, part)), LastPageBefore(prepared, part))
  }

  function StartsOfParts(prepared: seq<Prepared>, k: nat): seq<PageStart> {
    if k == 0 then [] else StartsOfParts(prepared, k - 1) + StartsOfPart(prepared, k - 1)
  }

  lemma LastPageIsLastWord(rows: seq<Prepared>, before: seq<Placed>)
    requires rows != [] && rows[|rows| - 1].raw.words != []
    ensures var placed := before + PlacedWords(rows);
            LastPage(rows) == PageBefore(placed, |placed|, None)
  {
  }

  lemma PartHasLastWord(segments: seq<Raw>, parts: seq<PlannedPart>, prepared: seq<Prepared>, part: nat)
    requires Positioned(segments, parts, prepared) && part < |parts|
    requires forall i :: 0 <= i < |segments| ==> segments[i].words != []
    ensures var rows := PartSegments(prepared, part);
            rows != [] && rows[|rows| - 1].raw.words != []
  {
    QueryIsSlice(segments, parts, prepared, part);
    assert PositionedAt(segments, parts, prepared[parts[part].lastSegment], parts[part].lastSegment);
  }

  lemma {:induction false} StartsSoFar(segments: seq<Raw>, parts: seq<PlannedPart>, prepared: seq<Prepared>, k: nat)
    requires Positioned(segments, parts, prepared) && k <= |parts|
    requires forall i :: 0 <= i < |segments| ==> segments[i].words != []
    ensures StartsOfParts(prepared, k) == PageStarts(PlacedOfParts(prepared, k), None)
  {
    if k > 0 {
      var before := PlacedOfParts(prepared, k - 1);
      StartsSoFar(segments, parts, prepared, k - 1);
      PageStartsConcat(before, PlacedWords(PartSegments(prepared, k - 1)), None);
      if k > 1 {
        PartHasLastWord(segments, parts, prepared, k - 2);
        LastPageIsLastWord(PartSegments(prepared, k - 2), PlacedOfParts(prepared, k - 2));
      }
      assert LastPageBefore(prepared, k - 1) == PageBefore(before, |before|, None);
    }
  }

  /** The page starts of the parts, end to end, are the page starts of the whole book. */
  lemma PageStartsCoverTheBook(segments: seq<Raw>, parts: seq<PlannedPart>, prepared: seq<Prepared>)
    requires Positioned(segments, parts, prepared)
    requires forall i :: 0 <= i < |segments| ==> segments[i].words != []
    ensures StartsOfParts(prepared, |parts|) == PageStarts(Numbered(WordsOf(segments), 0), None)
  {
    StartsSoFar(segments, parts, prepared, |parts|);
    TimelinesCoverTheBook(segments, parts, prepared);
  }
}
