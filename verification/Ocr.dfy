/**
 * The recognition of a scanned document in batches of pages, by workers that
 * may run at the same time, be lost, or be repeated.
 */
module Ocr {
  import opened Wrappers
  import opened Words
  import opened Sums

  const OCR_BATCH_PAGES := 10

  datatype Status = Uploaded | Extracting | TextReady | ExtractionFailed

  datatype Method = Native | ByOcr

  datatype OcrPage = OcrPage(pageNumber: nat, lines: seq<Text>, confidence: Option<real>)

  datatype PreparedPage = PreparedPage(pageNumber: nat, text: Text, charCount: nat, confidence: Option<real>)

  /**
   * One document, the rows of its recognised pages, and its text once it is
   * ready. `saved` is every page ever written to the rows, which are deleted.
   */
  datatype Doc = Doc(status: Status, extraction: Option<Method>, ocrPageCount: Option<nat>, rows: map<nat, OcrPage>,
                     saved: set<OcrPage>, pages: seq<PreparedPage>)

  const NewDoc := Doc(Uploaded, None, None, map[], {}, [])

  // ---- batches ----

  function OcrBatchEnd(fromPage: nat, pageCount: nat): nat {
    if fromPage + OCR_BATCH_PAGES - 1 < pageCount then fromPage + OCR_BATCH_PAGES - 1 else pageCount
  }

  /** Pages of 1 to `pageCount` that are not recognised yet. */
  function Missing(done: set<nat>, pageCount: nat): set<nat> {
    set p: nat | 1 <= p <= pageCount && p !in done
  }

  predicate Covers(done: set<nat>, from: nat, end: nat) {
    forall p :: from <= p <= end ==> p in done
  }

  /** The least page of `page` to `pageCount` that is missing. */
  function FirstMissing(done: set<nat>, page: nat, pageCount: nat): (first: Option<nat>)
    ensures first.None? ==> forall p :: page <= p <= pageCount ==> p in done
    ensures first.Some? ==>
              && page <= first.value <= pageCount && first.value !in done
              && forall p :: page <= p < first.value ==> p in done
    decreases pageCount + 1 - page
  {
    if page > pageCount then None else if page !in done then Some(page) else FirstMissing(done, page + 1, pageCount)
  }

  /** The first missing page is the least of those that are missing. */
  lemma FirstIsLeast(done: set<nat>, pageCount: nat)
    ensures var first := FirstMissing(done, 1, pageCount);
            && (first.None? <==> Missing(done, pageCount) == {})
            && (first.Some? ==>
                && first.value in Missing(done, pageCount)
                && forall p :: p in Missing(done, pageCount) ==> first.value <= p)
  {
    var first := FirstMissing(done, 1, pageCount);
    if first.Some? {
      assert first.value in Missing(done, pageCount);
    }
  }

  method FirstMissingOcrPage(done: set<nat>, pageCount: nat) returns (first: Option<nat>)
    ensures first == FirstMissing(done, 1, pageCount)
    ensures first.None? <==> Missing(done, pageCount) == {}
    ensures first.Some? ==>
              && first.value in Missing(done, pageCount)
              && forall p :: p in Missing(done, pageCount) ==> first.value <= p
  {
    FirstIsLeast(done, pageCount);
    var page := 1;
    while page <= pageCount
      invariant 1 <= page && FirstMissing(done, page, pageCount) == FirstMissing(done, 1, pageCount)
    {
      if page !in done {
        return Some(page);
      }
      page := page + 1;
    }
    first := None;
  }

  method CoversRange(done: set<nat>, from: nat, end: nat) returns (covered: bool)
    ensures covered <==> Covers(done, from, end)
  {
    var page := from;
    while page <= end
      invariant from <= page && forall p :: from <= p < page ==> p in done
    {
      if page !in done {
        return false;
      }
      page := page + 1;
    }
    covered := true;
  }

  /** Pages `from` to `end`, one each, in order. */
  predicate IsBatch(recognized: seq<OcrPage>, from: nat, end: nat) {
    from <= end + 1 && |recognized| == end + 1 - from && forall i :: 0 <= i < |recognized| ==>
      recognized[i].pageNumber == from + i
  }

  function Numbers(recognized: seq<OcrPage>): set<nat> {
    set i | 0 <= i < |recognized| :: recognized[i].pageNumber
  }

  // ---- assembling ----

  /** The rows in the order of their numbers. */
  function Listed(rows: map<nat, OcrPage>, n: nat): seq<OcrPage> {
    if n == 0 then [] else Listed(rows, n - 1) + (if n in rows then [rows[n]] else [])
  }

  /** What the cleaning makes of the lines: one text and one count per page. */
  type Cleaning = seq<OcrPage> -> seq<(Text, nat)>

  ghost predicate OneTextPerPage(clean: Cleaning) {
    forall pages {:trigger clean(pages)} :: |clean(pages)| == |pages|
  }

  /** Numbered from 1, the confidence kept page by page. */
  function Prepare(clean: Cleaning, recognized: seq<OcrPage>): (pages: seq<PreparedPage>)
    requires |clean(recognized)| == |recognized|
    ensures |pages| == |recognized|
  {
    seq(|recognized|, i requires 0 <= i < |recognized| =>
      PreparedPage(i + 1, clean(recognized)[i].0, clean(recognized)[i].1, recognized[i].confidence))
  }

  /** Nothing to read and to bill on any page. */
  predicate IsEmptyText(pages: seq<PreparedPage>) {
    Sum(pages, (p: PreparedPage) => p.charCount as int) == 0
  }

  // ---- the atomic steps ----

  datatype Action =
    | MarkExtracting
    | StartOcr(pageCount: nat)
    | SavePages(recognized: seq<OcrPage>)
    | CompleteNative(native: seq<PreparedPage>)
    | CompleteOcr(recognized: seq<OcrPage>)
    | MarkFailed

  /**
   * What a worker has made sure of: it saves pages of the document, and
   * completes with all of them as they were saved.
   */
  predicate Sound(doc: Doc, a: Action) {
    match a
    case SavePages(recognized) =>
      && doc.ocrPageCount.Some?
      && forall i :: 0 <= i < |recognized| ==> 1 <= recognized[i].pageNumber <= doc.ocrPageCount.value
    case CompleteOcr(recognized) =>
      doc.status == Extracting ==>
        && doc.ocrPageCount.Some? && IsBatch(recognized, 1, doc.ocrPageCount.value)
        && forall i :: 0 <= i < |recognized| ==> recognized[i] in doc.saved
    case _ => true
  }

  function Upsert(rows: map<nat, OcrPage>, recognized: seq<OcrPage>, n: nat): map<nat, OcrPage>
    requires n <= |recognized|
  {
    if n == 0 then rows else Upsert(rows, recognized, n - 1)[recognized[n - 1].pageNumber := recognized[n - 1]]
  }

  function PagesOf(recognized: seq<OcrPage>): set<OcrPage> {
    set page | page in recognized
  }

  function AfterSave(doc: Doc, recognized: seq<OcrPage>): Doc {
    doc.(rows := Upsert(doc.rows, recognized, |recognized|), saved := doc.saved + PagesOf(recognized))
  }

  function Apply(clean: Cleaning, doc: Doc, a: Action): Doc {
    if !Sound(doc, a) then doc
    else
      match a
      case MarkExtracting =>
        if doc.status == Uploaded || doc.status == Extracting then doc.(status := Extracting) else doc
      case StartOcr(n) =>
        if doc.status == Extracting && doc.extraction.None?
        then doc.(extraction := Some(ByOcr), ocrPageCount := Some(n)) else doc
      case SavePages(recognized) => AfterSave(doc, recognized)
      case CompleteNative(native) =>
        if doc.status == Extracting
        then doc.(status := TextReady, extraction := Some(Native), rows := map[], pages := native)
        else doc
      case CompleteOcr(recognized) =>
        if doc.status == Extracting && |clean(recognized)| == |recognized|
        then doc.(status := TextReady, extraction := Some(ByOcr), rows := map[], pages := Prepare(clean, recognized))
        else doc
      case MarkFailed =>
        doc.(status := if doc.status == Uploaded || doc.status == Extracting then ExtractionFailed else doc.status,
             rows := map[])
  }

  function Run(clean: Cleaning, doc: Doc, actions: seq<Action>): Doc {
    if actions == [] then doc else Apply(clean, Run(clean, doc, actions[..|actions| - 1]), actions[|actions| - 1])
  }

  lemma RunOne(clean: Cleaning, doc: Doc, before: seq<Action>, a: Action)
    ensures Run(clean, doc, before + [a]) == Apply(clean, Run(clean, doc, before), a)
  {
    assert (before + [a])[..|before|] == before;
  }

  lemma {:induction false} RunConcat(clean: Cleaning, doc: Doc, before: seq<Action>, after: seq<Action>)
    ensures Run(clean, doc, before + after) == Run(clean, Run(clean, doc, before), after)
  {
    if after == [] {
      assert before + after == before;
    } else {
      var last := |after| - 1;
      assert before + after == (before + after[..last]) + [after[last]];
      RunConcat(clean, doc, before, after[..last]);
      RunOne(clean, doc, before + after[..last], after[last]);
    }
  }

  // ---- what every reachable state keeps ----

  /** The text is that of `recognized`: pages 1 to `n` in order, each of them one that was saved. */
  ghost predicate IsTextOf(clean: Cleaning, doc: Doc, n: nat, recognized: seq<OcrPage>) {
    && IsBatch(recognized, 1, n) && |clean(recognized)| == |recognized| && doc.pages == Prepare(clean, recognized)
    && forall i :: 0 <= i < |recognized| ==> recognized[i] in doc.saved
  }

  ghost predicate FromAllPages(clean: Cleaning, doc: Doc, n: nat) {
    exists recognized: seq<OcrPage> :: IsTextOf(clean, doc, n, recognized)
  }

  ghost predicate Inv(clean: Cleaning, doc: Doc) {
    && (forall p :: p in doc.rows ==>
          && doc.ocrPageCount.Some? && 1 <= p <= doc.ocrPageCount.value
          && doc.rows[p].pageNumber == p && doc.rows[p] in doc.saved)
    && (doc.ocrPageCount.Some? ==> doc.extraction.Some?)
    && (doc.status == TextReady && doc.extraction == Some(ByOcr) ==>
          doc.ocrPageCount.Some? && FromAllPages(clean, doc, doc.ocrPageCount.value))
  }

  lemma {:induction false} UpsertRows(rows: map<nat, OcrPage>, recognized: seq<OcrPage>, n: nat)
    requires n <= |recognized|
    ensures var after := Upsert(rows, recognized, n);
            && after.Keys == rows.Keys + Numbers(recognized[..n])
            && (forall p :: p in after ==>
                (p in rows && after[p] == rows[p]) || (after[p].pageNumber == p && after[p] in recognized))
  {
    if n > 0 {
      UpsertRows(rows, recognized, n - 1);
      assert recognized[..n] == recognized[..n - 1] + [recognized[n - 1]];
      assert Numbers(recognized[..n]) == Numbers(recognized[..n - 1]) + {recognized[n - 1].pageNumber} by {
        NumbersSnoc(recognized[..n - 1], recognized[n - 1]);
      }
    }
  }

  lemma NumbersSnoc(front: seq<OcrPage>, last: OcrPage)
    ensures Numbers(front + [last]) == Numbers(front) + {last.pageNumber}
  {
    var all := front + [last];
    assert all[|front|] == last;
    forall p | p in Numbers(front) ensures p in Numbers(all) {
      var i :| 0 <= i < |front| && front[i].pageNumber == p;
      assert all[i] == front[i];
    }
  }

  lemma ApplyKeeps(clean: Cleaning, doc: Doc, a: Action)
    requires Inv(clean, doc)
    ensures Inv(clean, Apply(clean, doc, a))
  {
    if Sound(doc, a) {
      match a
      case SavePages(recognized) => SaveKeeps(clean, doc, recognized);
      case CompleteOcr(recognized) =>
        if doc.status == Extracting && |clean(recognized)| == |recognized| {
          assert IsTextOf(clean, Apply(clean, doc, a), doc.ocrPageCount.value, recognized);
        }
      case MarkFailed => TextStays(clean, doc, Apply(clean, doc, a));
      case _ =>
    }
  }

  lemma TextStays(clean: Cleaning, doc: Doc, after: Doc)
    requires doc.pages == after.pages && doc.saved <= after.saved && doc.ocrPageCount == after.ocrPageCount
    ensures doc.ocrPageCount.Some? && FromAllPages(clean, doc, doc.ocrPageCount.value) ==>
              FromAllPages(clean, after, doc.ocrPageCount.value)
  {
    if doc.ocrPageCount.Some? && FromAllPages(clean, doc, doc.ocrPageCount.value) {
      var all :| IsTextOf(clean, doc, doc.ocrPageCount.value, all);
      assert IsTextOf(clean, after, doc.ocrPageCount.value, all);
    }
  }

  lemma SaveKeeps(clean: Cleaning, doc: Doc, recognized: seq<OcrPage>)
    requires Inv(clean, doc) && Sound(doc, SavePages(recognized))
    ensures Inv(clean, AfterSave(doc, recognized))
  {
    var after := AfterSave(doc, recognized);
    UpsertRows(doc.rows, recognized, |recognized|);
    assert recognized[..|recognized|] == recognized;
    TextStays(clean, doc, after);
  }

  lemma {:induction false} RunKeeps(clean: Cleaning, actions: seq<Action>)
    ensures Inv(clean, Run(clean, NewDoc, actions))
  {
    if actions != [] {
      RunKeeps(clean, actions[..|actions| - 1]);
      ApplyKeeps(clean, Run(clean, NewDoc, actions[..|actions| - 1]), actions[|actions| - 1]);
    }
  }

  /** A step of the run that took effect wrote the page. */
  ghost predicate WasSaved(clean: Cleaning, actions: seq<Action>, page: OcrPage) {
    exists k :: 0 <= k < |actions| && Saves(clean, actions, k, page)
  }

  predicate Saves(clean: Cleaning, actions: seq<Action>, k: nat, page: OcrPage)
    requires k < |actions|
  {
    actions[k].SavePages? && page in actions[k].recognized && Sound(Run(clean, NewDoc, actions[..k]), actions[k])
  }

  lemma {:induction false} SavedInRun(clean: Cleaning, actions: seq<Action>, page: OcrPage)
    requires page in Run(clean, NewDoc, actions).saved
    ensures WasSaved(clean, actions, page)
  {
    if actions != [] {
      var last := |actions| - 1;
      if page in Run(clean, NewDoc, actions[..last]).saved {
        SavedInRun(clean, actions[..last], page);
        var k :| 0 <= k < last && Saves(clean, actions[..last], k, page);
        assert actions[..last][..k] == actions[..k];
        assert Saves(clean, actions, k, page);
      } else {
        assert Saves(clean, actions, last, page);
      }
    }
  }

  /**
   * In every interleaving, a text that is ready by recognition is the text of
   * pages 1 to n in order, and each of these pages was recognised: a step of
   * the run saved it.
   */
  lemma ReadyIsComplete(clean: Cleaning, actions: seq<Action>) returns (recognized: seq<OcrPage>)
    requires var doc := Run(clean, NewDoc, actions); doc.status == TextReady && doc.extraction == Some(ByOcr)
    ensures var doc := Run(clean, NewDoc, actions);
            && doc.ocrPageCount.Some? && IsBatch(recognized, 1, doc.ocrPageCount.value)
            && |clean(recognized)| == |recognized| && doc.pages == Prepare(clean, recognized)
    ensures forall i :: 0 <= i < |recognized| ==> WasSaved(clean, actions, recognized[i])
  {
    RunKeeps(clean, actions);
    var doc := Run(clean, NewDoc, actions);
    recognized :| IsTextOf(clean, doc, doc.ocrPageCount.value, recognized);
    forall i | 0 <= i < |recognized| ensures WasSaved(clean, actions, recognized[i]) {
      SavedInRun(clean, actions, recognized[i]);
    }
  }

  // ---- an extraction in progress only gains pages ----

  /** Once started, an extraction is settled for good or keeps its size and every row it has. */
  predicate Progresses(a: Doc, b: Doc) {
    && b.status != Uploaded
    && (a.status != Extracting ==> b.status == a.status && b.pages == a.pages && b.extraction == a.extraction)
    && (b.status == Extracting ==> a.rows.Keys <= b.rows.Keys && (a.extraction.Some? ==> b.extraction == a.extraction))
    && (a.ocrPageCount.Some? ==> b.ocrPageCount == a.ocrPageCount)
    && a.saved <= b.saved
  }

  lemma ApplyProgresses(clean: Cleaning, doc: Doc, a: Action)
    requires Inv(clean, doc) && doc.status != Uploaded
    ensures Progresses(doc, Apply(clean, doc, a))
  {
    if a.SavePages? {
      UpsertRows(doc.rows, a.recognized, |a.recognized|);
    }
  }

  lemma {:induction false} RunProgresses(clean: Cleaning, doc: Doc, actions: seq<Action>)
    requires Inv(clean, doc) && doc.status != Uploaded
    ensures Inv(clean, Run(clean, doc, actions)) && Progresses(doc, Run(clean, doc, actions))
  {
    if actions != [] {
      RunProgresses(clean, doc, actions[..|actions| - 1]);
      var before := Run(clean, doc, actions[..|actions| - 1]);
      ApplyProgresses(clean, before, actions[|actions| - 1]);
      ApplyKeeps(clean, before, actions[|actions| - 1]);
    }
  }

  lemma Later(clean: Cleaning, before: seq<Action>, after: seq<Action>)
    requires before <= after && Run(clean, NewDoc, before).status != Uploaded
    ensures Progresses(Run(clean, NewDoc, before), Run(clean, NewDoc, after))
    ensures Inv(clean, Run(clean, NewDoc, after))
  {
    assert after == before + after[|before|..];
    RunKeeps(clean, before);
    RunConcat(clean, NewDoc, before, after[|before|..]);
    RunProgresses(clean, Run(clean, NewDoc, before), after[|before|..]);
  }

  lemma {:induction false} ListedAll(rows: map<nat, OcrPage>, n: nat)
    requires forall p :: 1 <= p <= n ==> p in rows && rows[p].pageNumber == p
    ensures IsBatch(Listed(rows, n), 1, n) && forall i :: 0 <= i < n ==> Listed(rows, n)[i] == rows[i + 1]
  {
    if n > 0 {
      ListedAll(rows, n - 1);
    }
  }

  // ---- the worker ----

  lemma BatchNumbers(recognized: seq<OcrPage>, from: nat, end: nat)
    requires IsBatch(recognized, from, end)
    ensures forall p :: p in Numbers(recognized) <==> from <= p <= end
  {
    forall p | from <= p <= end ensures p in Numbers(recognized) {
      assert recognized[p - from].pageNumber == p;
    }
  }

  lemma FewerMissing(before: set<nat>, after: set<nat>, page: nat, pageCount: nat)
    ensures before <= after && page in after && page in Missing(before, pageCount) ==>
              Missing(after, pageCount) < Missing(before, pageCount)
  {
    if before <= after && page in after && page in Missing(before, pageCount) {
      assert page !in Missing(after, pageCount);
    }
  }

  // ---- a run without faults ----

  /** What the recognition of a batch gives. */
  datatype Recognition = Pages(pages: seq<OcrPage>) | SourceMissing | Unreadable

  datatype Outcome = BatchDone(lastPage: nat, next: nat) | Ready(pageCount: nat) | Failed | Skipped

  /** What one batch leaves and returns. */
  datatype Turn = Turn(doc: Doc, outcome: Outcome)

  predicate IsRecognizing(doc: Doc, fromPage: nat) {
    && doc.status == Extracting && doc.extraction == Some(ByOcr) && doc.ocrPageCount.Some?
    && 1 <= fromPage <= doc.ocrPageCount.value
  }

  /** The rows once the pages of the batch are there. */
  function AfterRecognition(doc: Doc, fromPage: nat, lastPage: nat, recognized: seq<OcrPage>): Doc {
    if Covers(doc.rows.Keys, fromPage, lastPage) then doc else AfterSave(doc, recognized)
  }

  /** The text of all rows, or a failure when it is empty. */
  function Finish(clean: Cleaning, doc: Doc, pageCount: nat): Turn
    requires |clean(Listed(doc.rows, pageCount))| == |Listed(doc.rows, pageCount)|
  {
    var recognized := Listed(doc.rows, pageCount);
    var pages := Prepare(clean, recognized);
    if |recognized| == 0 || IsEmptyText(pages) then Turn(doc.(status := ExtractionFailed, rows := map[]), Failed)
    else Turn(doc.(status := TextReady, extraction := Some(ByOcr), rows := map[], pages := pages), Ready(|recognized|))
  }

  /** The pages that a batch knows of once it has done its part. */
  function Seen(doc: Doc, fromPage: nat, lastPage: nat, recognition: Recognition): set<nat> {
    doc.rows.Keys
      + (if Covers(doc.rows.Keys, fromPage, lastPage) || !recognition.Pages? then {} else Numbers(recognition.pages))
  }

  /** One batch while nobody else writes. */
  ghost function Visit(clean: Cleaning, doc: Doc, fromPage: nat, recognized: seq<OcrPage>): Turn
    requires OneTextPerPage(clean)
  {
    if !IsRecognizing(doc, fromPage) then Turn(doc, Skipped)
    else
      var pageCount := doc.ocrPageCount.value;
      var lastPage := OcrBatchEnd(fromPage, pageCount);
      var after := AfterRecognition(doc, fromPage, lastPage, recognized);
      var next := FirstMissing(after.rows.Keys, 1, pageCount);
      if next.Some? then Turn(after, BatchDone(lastPage, next.value)) else Finish(clean, after, pageCount)
  }

  /** Pages `from` to `end` as an engine that never fails reads them. */
  function Recognized(read: nat -> OcrPage, from: nat, end: nat): (recognized: seq<OcrPage>)
    requires from <= end + 1
    ensures |recognized| == end + 1 - from
  {
    seq(end + 1 - from, i requires 0 <= i < end + 1 - from => read(from + i))
  }

  ghost predicate ReadsPages(read: nat -> OcrPage) {
    forall p {:trigger read(p)} :: read(p).pageNumber == p
  }

  /** A document whose recognition has just started. */
  function Started(pageCount: nat): Doc {
    NewDoc.(status := Extracting, extraction := Some(ByOcr), ocrPageCount := Some(pageCount))
  }

  lemma StartedIs(clean: Cleaning, pageCount: nat)
    ensures Run(clean, NewDoc, [MarkExtracting, StartOcr(pageCount)]) == Started(pageCount)
  {
    assert [MarkExtracting, StartOcr(pageCount)] == [] + [MarkExtracting] + [StartOcr(pageCount)];
    RunOne(clean, NewDoc, [], MarkExtracting);
    RunOne(clean, NewDoc, [] + [MarkExtracting], StartOcr(pageCount));
  }

  function BatchAt(read: nat -> OcrPage, fromPage: nat, pageCount: nat): seq<OcrPage> {
    if fromPage <= pageCount then Recognized(read, fromPage, OcrBatchEnd(fromPage, pageCount)) else []
  }

  /**
   * The first `k` batches from a document whose recognition has just started:
   * the first at page 1, each later one at the page that the last one scheduled.
   */
  ghost function Turns(clean: Cleaning, read: nat -> OcrPage, pageCount: nat, k: nat): Turn
    requires OneTextPerPage(clean)
  {
    if k == 0 then Turn(Run(clean, NewDoc, [MarkExtracting, StartOcr(pageCount)]), BatchDone(0, 1))
    else
      var last := Turns(clean, read, pageCount, k - 1);
      if last.outcome.BatchDone?
      then Visit(clean, last.doc, last.outcome.next, BatchAt(read, last.outcome.next, pageCount))
      else last
  }

  /** The rows of pages 1 to `m`. */
  function FirstRows(read: nat -> OcrPage, m: nat): map<nat, OcrPage> {
    map p: nat | 1 <= p <= m :: read(p)
  }

  function FirstSaved(read: nat -> OcrPage, m: nat): set<OcrPage> {
    PagesOf(Recognized(read, 1, m))
  }

  lemma {:induction false} UpsertNext(read: nat -> OcrPage, from: nat, end: nat, n: nat)
    requires 1 <= from <= end + 1 && n <= end + 1 - from && ReadsPages(read)
    ensures Upsert(FirstRows(read, from - 1), Recognized(read, from, end), n) == FirstRows(read, from - 1 + n)
  {
    if n > 0 {
      UpsertNext(read, from, end, n - 1);
    }
  }

  lemma SavedNext(read: nat -> OcrPage, mid: nat, end: nat)
    requires mid <= end
    ensures FirstSaved(read, mid) + PagesOf(Recognized(read, mid + 1, end)) == FirstSaved(read, end)
  {
    assert Recognized(read, 1, mid) + Recognized(read, mid + 1, end) == Recognized(read, 1, end);
  }

  /** The document once pages 1 to `m` are recognised. */
  function Halfway(read: nat -> OcrPage, pageCount: nat, m: nat): Doc {
    Started(pageCount).(rows := FirstRows(read, m), saved := FirstSaved(read, m))
  }

  /** A batch at the first missing page recognises the next ten, or what is left. */
  lemma BatchFollows(read: nat -> OcrPage, pageCount: nat, m: nat)
    requires m < pageCount && ReadsPages(read)
    ensures var end := OcrBatchEnd(m + 1, pageCount);
            AfterRecognition(Halfway(read, pageCount, m), m + 1, end, Recognized(read, m + 1, end))
              == Halfway(read, pageCount, end)
  {
    var end := OcrBatchEnd(m + 1, pageCount);
    assert m + 1 !in FirstRows(read, m).Keys;
    UpsertNext(read, m + 1, end, end - m);
    SavedNext(read, m, end);
  }

  lemma {:induction false} NextAfter(read: nat -> OcrPage, m: nat, page: nat, pageCount: nat)
    requires 1 <= page <= m + 1 && m <= pageCount
    ensures FirstMissing(FirstRows(read, m).Keys, page, pageCount) == if m < pageCount then Some(m + 1) else None
    decreases m + 1 - page
  {
    if page <= m {
      NextAfter(read, m, page + 1, pageCount);
    }
  }

  lemma OneVisit(clean: Cleaning, read: nat -> OcrPage, pageCount: nat, m: nat)
    requires OneTextPerPage(clean) && ReadsPages(read) && m < pageCount
    ensures var end := OcrBatchEnd(m + 1, pageCount);
            var turn := Visit(clean, Halfway(read, pageCount, m), m + 1, BatchAt(read, m + 1, pageCount));
            && (end < pageCount ==> turn == Turn(Halfway(read, pageCount, end), BatchDone(end, end + 1)))
            && (end == pageCount ==> turn == Finish(clean, Halfway(read, pageCount, pageCount), pageCount))
  {
    hide FirstRows, FirstSaved, FirstMissing, AfterRecognition, Finish;
    var end := OcrBatchEnd(m + 1, pageCount);
    BatchFollows(read, pageCount, m);
    NextAfter(read, end, 1, pageCount);
  }

  lemma {:induction false} TurnsSoFar(clean: Cleaning, read: nat -> OcrPage, pageCount: nat, k: nat)
    requires OneTextPerPage(clean) && ReadsPages(read) && OCR_BATCH_PAGES * k < pageCount
    ensures Turns(clean, read, pageCount, k)
            == Turn(Halfway(read, pageCount, OCR_BATCH_PAGES * k),
                    BatchDone(OCR_BATCH_PAGES * k, OCR_BATCH_PAGES * k + 1))
  {
    hide Halfway, Visit, BatchAt, Finish, Run, Started;
    if k == 0 {
      StartedIs(clean, pageCount);
      NothingYet(read, pageCount);
    } else {
      TurnsSoFar(clean, read, pageCount, k - 1);
      OneVisit(clean, read, pageCount, OCR_BATCH_PAGES * (k - 1));
    }
  }

  lemma NothingYet(read: nat -> OcrPage, pageCount: nat)
    ensures Halfway(read, pageCount, 0) == Started(pageCount)
  {
    assert FirstRows(read, 0) == map[] && FirstSaved(read, 0) == {};
  }

  function BatchCount(pageCount: nat): nat {
    (pageCount + OCR_BATCH_PAGES - 1) / OCR_BATCH_PAGES
  }

  lemma {:induction false} TurnsStay(clean: Cleaning, read: nat -> OcrPage, pageCount: nat, k: nat, m: nat)
    requires OneTextPerPage(clean) && k <= m && !Turns(clean, read, pageCount, k).outcome.BatchDone?
    ensures Turns(clean, read, pageCount, m) == Turns(clean, read, pageCount, k)
    decreases m
  {
    hide Visit;
    if k < m {
      TurnsStay(clean, read, pageCount, k, m - 1);
    }
  }

  lemma LastTurn(clean: Cleaning, read: nat -> OcrPage, pageCount: nat)
    requires OneTextPerPage(clean) && ReadsPages(read) && pageCount >= 1
    ensures Turns(clean, read, pageCount, BatchCount(pageCount))
            == Finish(clean, Halfway(read, pageCount, pageCount), pageCount)
  {
    hide Halfway, Visit, Finish;
    var k := BatchCount(pageCount) - 1;
    TurnsSoFar(clean, read, pageCount, k);
    OneVisit(clean, read, pageCount, OCR_BATCH_PAGES * k);
  }

  lemma FinishIs(clean: Cleaning, read: nat -> OcrPage, pageCount: nat)
    requires OneTextPerPage(clean) && ReadsPages(read) && pageCount >= 1
    ensures var all := Recognized(read, 1, pageCount);
            var turn := Finish(clean, Halfway(read, pageCount, pageCount), pageCount);
            && |clean(all)| == |all|
            && (turn.outcome == Ready(pageCount) <==> !IsEmptyText(Prepare(clean, all)))
            && (turn.outcome == Failed <==> IsEmptyText(Prepare(clean, all)))
            && (turn.outcome == Ready(pageCount) ==>
                turn.doc.status == TextReady && turn.doc.pages == Prepare(clean, all))
            && !turn.outcome.BatchDone?
  {
    ListedAll(FirstRows(read, pageCount), pageCount);
    assert Listed(FirstRows(read, pageCount), pageCount) == Recognized(read, 1, pageCount);
  }

  /**
   * From scratch and without faults, recognising `n` pages takes exactly n / 10
   * batches, rounded up: each earlier one schedules another, that one ends the
   * extraction with the text of all pages, or fails when there is no text.
   */
  lemma BatchesNeeded(clean: Cleaning, read: nat -> OcrPage, pageCount: nat, k: nat)
    requires OneTextPerPage(clean) && ReadsPages(read) && pageCount >= 1
    ensures Turns(clean, read, pageCount, k).outcome.BatchDone? <==> k < BatchCount(pageCount)
    ensures k >= BatchCount(pageCount) ==>
              var all := Recognized(read, 1, pageCount);
              var turn := Turns(clean, read, pageCount, k);
              && |clean(all)| == |all|
              && (turn.outcome == Ready(pageCount) <==> !IsEmptyText(Prepare(clean, all)))
              && (turn.outcome == Failed <==> IsEmptyText(Prepare(clean, all)))
              && (turn.outcome == Ready(pageCount) ==>
                  turn.doc.status == TextReady && turn.doc.pages == Prepare(clean, all))
  {
    hide Turns, Halfway, Finish;
    if k < BatchCount(pageCount) {
      TurnsSoFar(clean, read, pageCount, k);
    } else {
      LastTurn(clean, read, pageCount);
      FinishIs(clean, read, pageCount);
      TurnsStay(clean, read, pageCount, BatchCount(pageCount), k);
    }
  }

  lemma {:induction false} ListedLength(rows: map<nat, OcrPage>, n: nat)
    ensures |Listed(rows, n)| <= n
  {
    if n > 0 {
      ListedLength(rows, n - 1);
    }
  }

  class OcrTables {
    const clean: Cleaning
    var doc: Doc

    /** Every step taken so far, by whichever worker. */
    ghost var history: seq<Action>

    ghost predicate Valid()
      reads this
    {
      OneTextPerPage(clean) && doc == Run(clean, NewDoc, history)
    }

    constructor (clean: Cleaning)
      requires OneTextPerPage(clean)
      ensures Valid() && this.clean == clean && history == []
    {
      this.clean := clean;
      doc, history := NewDoc, [];
    }

    method Others(actions: seq<Action>)
      requires Valid()
      modifies this
      ensures Valid() && history == old(history) + actions && doc == Run(clean, old(doc), actions)
    {
      RunConcat(clean, NewDoc, history, actions);
      doc := Run(clean, doc, actions);
      history := history + actions;
    }

    /** A page saved twice keeps its last recognition. No test on the status. */
    method SaveOcrPages(recognized: seq<OcrPage>)
      requires Valid() && Sound(doc, SavePages(recognized))
      modifies this
      ensures Valid() && history == old(history) + [SavePages(recognized)]
      ensures doc == AfterSave(old(doc), recognized)
    {
      RunOne(clean, NewDoc, history, SavePages(recognized));
      history := history + [SavePages(recognized)];
      var rows := doc.rows;
      for i := 0 to |recognized|
        invariant rows == Upsert(doc.rows, recognized, i)
      {
        rows := rows[recognized[i].pageNumber := recognized[i]];
      }
      doc := doc.(rows := rows, saved := doc.saved + PagesOf(recognized));
    }

    /** The text and the status in one transaction, only while the extraction goes on; the rows are deleted. */
    method CompleteExtraction(recognized: seq<OcrPage>) returns (completed: bool)
      requires Valid() && Sound(doc, CompleteOcr(recognized))
      modifies this
      ensures Valid() && history == old(history) + [CompleteOcr(recognized)]
      ensures completed <==> old(doc).status == Extracting
      ensures completed ==>
                doc.status == TextReady && doc.extraction == Some(ByOcr) && doc.pages == Prepare(clean, recognized)
      ensures !completed ==> doc == old(doc)
    {
      RunOne(clean, NewDoc, history, CompleteOcr(recognized));
      history := history + [CompleteOcr(recognized)];
      assert |clean(recognized)| == |recognized|;
      if doc.status != Extracting {
        return false;
      }
      doc := doc.(status := TextReady, extraction := Some(ByOcr), rows := map[], pages := Prepare(clean, recognized));
      completed := true;
    }

    method MarkExtractionFailed()
      requires Valid()
      modifies this
      ensures Valid() && history == old(history) + [MarkFailed] && doc.status != Extracting && doc.status != Uploaded
      ensures old(doc).status == Extracting ==> doc == old(doc).(status := ExtractionFailed, rows := map[])
    {
      RunOne(clean, NewDoc, history, MarkFailed);
      history := history + [MarkFailed];
      if doc.status == Uploaded || doc.status == Extracting {
        doc := doc.(status := ExtractionFailed);
      }
      doc := doc.(rows := map[]);
    }

    /**
     * One batch: recognised unless it already is; then the first missing page
     * of the whole document is scheduled, or the text is assembled.
     */
    method RecognizeBatch(fromPage: nat, recognition: Recognition, others: (seq<Action>, seq<Action>, seq<Action>))
      returns (outcome: Outcome)
      requires Valid()
      requires recognition.Pages? && doc.ocrPageCount.Some? && 1 <= fromPage <= doc.ocrPageCount.value ==>
                 IsBatch(recognition.pages, fromPage, OcrBatchEnd(fromPage, doc.ocrPageCount.value))
      modifies this
      ensures Valid() && old(history) <= history
      ensures outcome == Skipped <==>
                !(old(doc).status == Extracting && old(doc).extraction == Some(ByOcr) && old(doc).ocrPageCount.Some?
                  && 1 <= fromPage <= old(doc).ocrPageCount.value)
      ensures outcome.BatchDone? ==>
                && outcome.lastPage == OcrBatchEnd(fromPage, old(doc).ocrPageCount.value)
                && FirstMissing(Seen(Run(clean, old(doc), others.0), fromPage, outcome.lastPage, recognition), 1,
                                old(doc).ocrPageCount.value)
                   == Some(outcome.next)
      ensures outcome.BatchDone? && doc.status == Extracting ==> Covers(doc.rows.Keys, fromPage, outcome.lastPage)
      ensures recognition.Pages? && others == ([], [], []) ==>
                Turn(doc, outcome) == Visit(clean, old(doc), fromPage, recognition.pages)
      ensures outcome.Ready? ==> doc.status != Extracting && outcome.pageCount <= old(doc).ocrPageCount.value
      ensures outcome.Failed? ==> doc.status != Extracting
      ensures outcome != Skipped && doc.status == Extracting
              && fromPage in Missing(old(doc).rows.Keys, old(doc).ocrPageCount.value) ==>
                Missing(doc.rows.Keys, old(doc).ocrPageCount.value)
                < Missing(old(doc).rows.Keys, old(doc).ocrPageCount.value)
    {
      hide FirstMissing, Missing, Upsert, PagesOf, Finish, FromAllPages, Inv;
      if doc.status != Extracting || doc.extraction != Some(ByOcr) || doc.ocrPageCount.None? || fromPage < 1
         || fromPage > doc.ocrPageCount.value {
        return Skipped;
      }
      var pageCount := doc.ocrPageCount.value;
      var lastPage := OcrBatchEnd(fromPage, pageCount);
      Later(clean, history, history + others.0);
      Others(others.0);
      var done := doc.rows.Keys;
      var covered := CoversRange(done, fromPage, lastPage);
      if !covered {
        if !recognition.Pages? {
          MarkExtractionFailed();
          return Failed;
        }
        done := RecognizeMissing(recognition.pages, done, pageCount, others.1);
        BatchNumbers(recognition.pages, fromPage, lastPage);
      }
      ghost var alone := recognition.Pages? && others == ([], [], []);
      assert alone ==> doc == AfterRecognition(old(doc), fromPage, lastPage, recognition.pages);
      assert alone ==> done == doc.rows.Keys;
      var next := FirstMissingOcrPage(done, pageCount);
      if next.Some? {
        Later(clean, old(history), history);
        FewerMissing(old(doc).rows.Keys, doc.rows.Keys, fromPage, pageCount);
        return BatchDone(lastPage, next.value);
      }
      assert Covers(done, 1, pageCount) by {
        forall p | 1 <= p <= pageCount ensures p in done {
          assert p !in Missing(done, pageCount);
        }
      }
      outcome := Complete(done, pageCount, others.2);
    }

    method RecognizeMissing(recognized: seq<OcrPage>, done: set<nat>, pageCount: nat, others: seq<Action>)
      returns (after: set<nat>)
      requires Valid() && doc.status != Uploaded && doc.ocrPageCount == Some(pageCount)
      requires doc.status == Extracting ==> doc.extraction == Some(ByOcr) && done <= doc.rows.Keys
      requires forall i :: 0 <= i < |recognized| ==> 1 <= recognized[i].pageNumber <= pageCount
      modifies this
      ensures Valid() && old(history) <= history && after == done + Numbers(recognized)
      ensures doc.status != Uploaded && doc.ocrPageCount == Some(pageCount)
      ensures doc.status == Extracting ==> doc.extraction == Some(ByOcr) && after <= doc.rows.Keys
      ensures others == [] ==>
                doc == AfterSave(old(doc), recognized) && doc.rows.Keys == old(doc).rows.Keys + Numbers(recognized)
    {
      Later(clean, history, history + others);
      Others(others);
      UpsertRows(doc.rows, recognized, |recognized|);
      assert recognized[..|recognized|] == recognized;
      SaveOcrPages(recognized);
      after := done + Numbers(recognized);
    }

    /** Every page was seen recognised: the rows are read, the text is written if the extraction still goes on. */
    method Complete(done: set<nat>, pageCount: nat, others: seq<Action>) returns (outcome: Outcome)
      requires Valid() && doc.status != Uploaded && doc.ocrPageCount == Some(pageCount)
      requires doc.status == Extracting ==> done <= doc.rows.Keys
      requires Covers(done, 1, pageCount)
      modifies this
      ensures Valid() && old(history) <= history
      ensures outcome.Failed? || outcome.Ready?
      ensures doc.status != Extracting
      ensures outcome.Ready? ==> outcome.pageCount <= pageCount
      ensures others == [] && old(doc).status == Extracting ==> Turn(doc, outcome) == Finish(clean, old(doc), pageCount)
    {
      var recognized := Listed(doc.rows, pageCount);
      ListedLength(doc.rows, pageCount);
      RunKeeps(clean, history);
      if doc.status == Extracting {
        ListedAll(doc.rows, pageCount);
      }
      ghost var extracting := doc.status == Extracting;
      Later(clean, history, history + others);
      Others(others);
      assert |clean(recognized)| == |recognized|;
      var pages := Prepare(clean, recognized);
      if |recognized| == 0 || IsEmptyText(pages) {
        MarkExtractionFailed();
        return Failed;
      }
      var completed := CompleteExtraction(recognized);
      outcome := Ready(|recognized|);
    }
  }
}
