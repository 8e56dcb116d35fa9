/**
 * The pages of a ready document, corrected by their owner while a worker reads
 * them in batches, and the revision that tells whether they were.
 */
module DocumentText {
  import opened Numbers
  import opened Wrappers
  import opened Words
  import opened Pipeline
  import opened Tokenizer
  import opened Segmenter

  const PAGE_READ_BATCH := 500
  const LF: CodeUnit := 0x0a

  datatype Page = Page(pageNumber: nat, text: Text, charCount: nat)

  /** One document: its pages by number, what the quota counts, and the revision of its text. */
  datatype Doc = Doc(pages: seq<Page>, charCount: nat, revision: nat)

  /** A correction of one page. */
  datatype Correction = Correction(pageNumber: nat, text: Text)

  /** Billable units of a text: line breaks are not counted. */
  function CountChars(text: Text): nat {
    if text == [] then 0 else CountChars(text[..|text| - 1]) + (if text[|text| - 1] == LF then 0 else 1)
  }

  function TotalChars(pages: seq<Page>, n: nat): nat
    requires n <= |pages|
  {
    if n == 0 then 0 else TotalChars(pages, n - 1) + pages[n - 1].charCount
  }

  /** Numbered in order, each page counted by its own text. */
  predicate PagesOk(pages: seq<Page>) {
    && (forall i, j :: 0 <= i < j < |pages| ==> pages[i].pageNumber < pages[j].pageNumber)
    && (forall i :: 0 <= i < |pages| ==> pages[i].charCount == CountChars(pages[i].text))
    && (pages != [] ==> pages[0].pageNumber > 0)
  }

  predicate DocOk(doc: Doc) {
    PagesOk(doc.pages) && doc.charCount == TotalChars(doc.pages, |doc.pages|)
  }

  function FindPage(pages: seq<Page>, number: nat): (r: Option<nat>)
    ensures r.Some? ==> r.value < |pages| && pages[r.value].pageNumber == number
    ensures r.None? ==> forall i :: 0 <= i < |pages| ==> pages[i].pageNumber != number
  {
    if pages == [] then None
    else if pages[|pages| - 1].pageNumber == number then Some(|pages| - 1)
    else FindPage(pages[..|pages| - 1], number)
  }

  function WithText(pages: seq<Page>, i: nat, text: Text): seq<Page>
    requires i < |pages|
  {
    pages[i := Page(pages[i].pageNumber, text, CountChars(text))]
  }

  /** The page, the total counted again from the pages, and the next revision, in one transaction. */
  function Apply(doc: Doc, c: Correction): Doc {
    var found := FindPage(doc.pages, c.pageNumber);
    if found.None? then doc
    else
      var pages := WithText(doc.pages, found.value, c.text);
      Doc(pages, TotalChars(pages, |pages|), doc.revision + 1)
  }

  function Run(doc: Doc, corrections: seq<Correction>): Doc {
    if corrections == [] then doc else Apply(Run(doc, corrections[..|corrections| - 1]), corrections[|corrections| - 1])
  }

  lemma {:induction false} RunConcat(doc: Doc, before: seq<Correction>, after: seq<Correction>)
    ensures Run(doc, before + after) == Run(Run(doc, before), after)
  {
    if after == [] {
      assert before + after == before;
    } else {
      var last := |after| - 1;
      assert (before + after)[..|before + after| - 1] == before + after[..last];
      RunConcat(doc, before, after[..last]);
    }
  }

  /** Corrections keep the count right, whatever their number and order. */
  lemma {:induction false} RunKeepsOk(doc: Doc, corrections: seq<Correction>)
    requires DocOk(doc)
    ensures DocOk(Run(doc, corrections))
  {
    if corrections != [] {
      RunKeepsOk(doc, corrections[..|corrections| - 1]);
    }
  }

  predicate SameNumbers(a: seq<Page>, b: seq<Page>) {
    |a| == |b| && forall i :: 0 <= i < |a| ==> a[i].pageNumber == b[i].pageNumber
  }

  /** The revision only grows, and a run that leaves it as it was changes nothing at all. */
  lemma {:induction false} SameRevisionSameDoc(doc: Doc, corrections: seq<Correction>)
    ensures Run(doc, corrections).revision >= doc.revision
    ensures Run(doc, corrections).revision == doc.revision ==> Run(doc, corrections) == doc
    ensures SameNumbers(doc.pages, Run(doc, corrections).pages)
  {
    if corrections != [] {
      SameRevisionSameDoc(doc, corrections[..|corrections| - 1]);
    }
  }

  /** A revision designates one text: two moments of a document with the same revision have the same pages and count. */
  lemma RevisionIsText(doc: Doc, first: seq<Correction>, second: seq<Correction>)
    requires Run(doc, first).revision == Run(doc, second).revision && first <= second
    ensures Run(doc, first) == Run(doc, second)
  {
    assert second == first + second[|first|..];
    RunConcat(doc, first, second[|first|..]);
    SameRevisionSameDoc(Run(doc, first), second[|first|..]);
  }

  // ---- reading the pages ----

  function PageTexts(pages: seq<Page>): (texts: seq<PageText>)
    ensures |texts| == |pages|
  {
    seq(|pages|, i requires 0 <= i < |pages| => PageText(pages[i].pageNumber, pages[i].text))
  }

  /** How many pages have a number up to `after`. */
  function UpTo(pages: seq<Page>, after: nat, n: nat): (count: nat)
    requires n <= |pages|
    ensures count <= n
  {
    if n == 0 then 0 else UpTo(pages, after, n - 1) + (if pages[n - 1].pageNumber <= after then 1 else 0)
  }

  /** A query: the pages numbered after `after`, in order, at most `limit` of them. */
  function ListPages(pages: seq<Page>, after: nat, limit: nat): seq<Page> {
    var from := UpTo(pages, after, |pages|);
    pages[from..Min(from + limit, |pages|)]
  }

  lemma {:induction false} UpToIndex(pages: seq<Page>, k: nat, n: nat)
    requires PagesOk(pages) && 0 < k <= n <= |pages|
    ensures UpTo(pages, pages[k - 1].pageNumber, n) == k
  {
    if n > k {
      UpToIndex(pages, k, n - 1);
    } else {
      AllUpTo(pages, pages[k - 1].pageNumber, n);
    }
  }

  lemma {:induction false} AllUpTo(pages: seq<Page>, after: nat, n: nat)
    requires PagesOk(pages) && n <= |pages| && (n > 0 ==> pages[n - 1].pageNumber <= after)
    ensures UpTo(pages, after, n) == n
  {
    if n > 0 {
      AllUpTo(pages, after, n - 1);
    }
  }

  lemma {:induction false} NoneUpToZero(pages: seq<Page>, n: nat)
    requires PagesOk(pages) && n <= |pages|
    ensures UpTo(pages, 0, n) == 0
  {
    if n > 0 {
      NoneUpToZero(pages, n - 1);
      assert pages[n - 1].pageNumber > 0 by { assert n > 1 ==> pages[0].pageNumber < pages[n - 1].pageNumber; }
    }
  }

  lemma {:induction false} SameNumbersSameIndex(a: seq<Page>, b: seq<Page>, after: nat, n: nat)
    requires SameNumbers(a, b) && n <= |a|
    ensures UpTo(a, after, n) == UpTo(b, after, n)
  {
    if n > 0 {
      SameNumbersSameIndex(a, b, after, n - 1);
    }
  }

  /** The first numbers, in order. */
  predicate NumbersOf(texts: seq<PageText>, pages: seq<Page>) {
    |texts| <= |pages| && forall i :: 0 <= i < |texts| ==> texts[i].pageNumber == pages[i].pageNumber
  }

  /** Pages read so far: all the first numbers, and the first texts as long as the revision has not moved. */
  predicate ReadSoFar(start: Doc, revision: nat, texts: seq<PageText>) {
    && NumbersOf(texts, start.pages)
    && revision >= start.revision
    && (revision == start.revision ==> texts == PageTexts(start.pages[..|texts|]))
  }

  lemma TextsOfSlice(pages: seq<Page>, m: nat, end: nat)
    requires m <= end <= |pages|
    ensures PageTexts(pages[..m]) + PageTexts(pages[m..end]) == PageTexts(pages[..end])
  {
  }

  lemma NumbersOfSlice(texts: seq<PageText>, pages: seq<Page>, now: seq<Page>, end: nat)
    requires NumbersOf(texts, pages) && SameNumbers(pages, now) && |texts| <= end <= |now|
    ensures NumbersOf(texts + PageTexts(now[|texts|..end]), pages)
  {
  }

  lemma BatchIs(pages: seq<Page>, now: seq<Page>, after: nat, m: nat)
    requires PagesOk(pages) && SameNumbers(pages, now) && UpTo(pages, after, |pages|) == m
    ensures var end := Min(m + PAGE_READ_BATCH, |now|);
            && ListPages(now, after, PAGE_READ_BATCH) == now[m..end]
            && (m < end ==> UpTo(pages, now[end - 1].pageNumber, |pages|) == end)
  {
    var end := Min(m + PAGE_READ_BATCH, |now|);
    SameNumbersSameIndex(pages, now, after, |now|);
    if m < end {
      UpToIndex(pages, end, |pages|);
    }
  }

  /** One batch more. */
  lemma BatchRead(start: Doc, revision: nat, pages: seq<Page>, texts: seq<PageText>, end: nat)
    requires SameNumbers(start.pages, pages) && |texts| <= end <= |pages|
    requires revision == start.revision ==> pages == start.pages
    requires ReadSoFar(start, revision, texts)
    ensures ReadSoFar(start, revision, texts + PageTexts(pages[|texts|..end]))
  {
    NumbersOfSlice(texts, start.pages, pages, end);
    TextsOfSlice(pages, |texts|, end);
  }

  lemma Interleaved(start: Doc, before: seq<Correction>, corrections: seq<Correction>)
    ensures var mid, now := Run(start, before), Run(start, before + corrections);
            && now == Run(mid, corrections) && SameNumbers(start.pages, now.pages)
            && start.revision <= mid.revision <= now.revision
            && (now.revision == start.revision ==> now == start)
  {
    RunConcat(start, before, corrections);
    SameRevisionSameDoc(start, before);
    SameRevisionSameDoc(Run(start, before), corrections);
    SameRevisionSameDoc(start, before + corrections);
  }

  /** One query and what it adds to what was read before. */
  method TakeBatch(ghost start: Doc, ghost revision: nat, pages: seq<Page>, texts: seq<PageText>, after: nat)
    returns (texts': seq<PageText>, after': nat, last: bool)
    requires PagesOk(start.pages) && SameNumbers(start.pages, pages)
    requires revision == start.revision ==> pages == start.pages
    requires ReadSoFar(start, revision, texts) && UpTo(start.pages, after, |start.pages|) == |texts|
    ensures ReadSoFar(start, revision, texts')
    ensures last ==> |texts'| == |start.pages|
    ensures !last ==> |texts| < |texts'| && UpTo(start.pages, after', |start.pages|) == |texts'|
  {
    hide ListPages, PageTexts;
    var batch := ListPages(pages, after, PAGE_READ_BATCH);
    BatchIs(start.pages, pages, after, |texts|);
    BatchRead(start, revision, pages, texts, |texts| + |batch|);
    texts' := texts + PageTexts(batch);
    last := |batch| < PAGE_READ_BATCH;
    after' := if last then after else batch[|batch| - 1].pageNumber;
  }

  class DocumentTable {
    var pages: seq<Page>
    var charCount: nat
    var revision: nat

    /** The text as it was prepared, and every correction since. */
    ghost const first: Doc
    ghost var history: seq<Correction>

    function Snapshot(): Doc
      reads this
    {
      Doc(pages, charCount, revision)
    }

    ghost predicate Valid()
      reads this
    {
      DocOk(first) && DocOk(Snapshot()) && Snapshot() == Run(first, history)
    }

    constructor (prepared: seq<Page>)
      requires PagesOk(prepared)
      ensures Valid() && pages == prepared && revision == 1 && history == []
    {
      pages, charCount, revision := prepared, TotalChars(prepared, |prepared|), 1;
      first, history := Doc(prepared, TotalChars(prepared, |prepared|), 1), [];
    }

    /** `false` when there is no such page. */
    method UpdatePageText(pageNumber: nat, text: Text) returns (updated: bool)
      requires Valid()
      modifies this
      ensures Valid() && history == old(history) + [Correction(pageNumber, text)]
      ensures Snapshot() == Apply(old(Snapshot()), Correction(pageNumber, text))
      ensures updated <==> revision == old(revision) + 1
    {
      RunKeepsOk(Snapshot(), [Correction(pageNumber, text)]);
      assert Run(Snapshot(), [Correction(pageNumber, text)][..0]) == Snapshot();
      RunConcat(first, history, [Correction(pageNumber, text)]);
      history := history + [Correction(pageNumber, text)];
      var found := FindPage(pages, pageNumber);
      if found.None? {
        return false;
      }
      pages := pages[found.value := pages[found.value].(text := text, charCount := CountChars(text))];
      charCount := TotalChars(pages, |pages|);
      revision := revision + 1;
      updated := true;
    }

    method Others(corrections: seq<Correction>)
      requires Valid()
      modifies this
      ensures Valid() && Snapshot() == Run(old(Snapshot()), corrections) && history == old(history) + corrections
    {
      RunKeepsOk(Snapshot(), corrections);
      RunConcat(first, history, corrections);
      history := history + corrections;
      var after := Run(Snapshot(), corrections);
      pages, charCount, revision := after.pages, after.charCount, after.revision;
    }

    /**
     * Reads every page in batches; `others(k)` is what is corrected before batch
     * `k`. The numbers read are all the numbers, in order. The texts are those
     * of one moment when no correction went through meanwhile.
     */
    method ReadPages(others: nat -> seq<Correction>) returns (texts: seq<PageText>, ghost corrections: seq<Correction>)
      requires Valid()
      modifies this
      ensures Valid() && Snapshot() == Run(old(Snapshot()), corrections) && history == old(history) + corrections
      ensures |texts| == |old(pages)| && forall i :: 0 <= i < |texts| ==>
                texts[i].pageNumber == old(pages)[i].pageNumber
      ensures revision == old(revision) ==> texts == PageTexts(old(pages))
    {
      hide Apply, PagesOk, CountChars, UpTo, PageTexts;
      texts, corrections := [], [];
      ghost var start := Snapshot();
      var after := 0;
      var k := 0;
      var last := false;
      NoneUpToZero(start.pages, |start.pages|);
      while !last
        invariant Valid() && Snapshot() == Run(start, corrections) && history == old(history) + corrections
        invariant ReadSoFar(start, revision, texts)
        invariant !last ==> UpTo(start.pages, after, |start.pages|) == |texts|
        invariant last ==> |texts| == |start.pages|
        decreases !last, |start.pages| - |texts|
      {
        ghost var before := corrections;
        Assoc(old(history), corrections, others(k));
        corrections := corrections + others(k);
        texts, after, last := ReadBatch(start, before, texts, after, others(k));
        k := k + 1;
      }
      assert start.pages[..|texts|] == start.pages;
    }

    method ReadBatch(ghost start: Doc, ghost before: seq<Correction>, texts: seq<PageText>, after: nat,
                     corrections: seq<Correction>)
      returns (texts': seq<PageText>, after': nat, last: bool)
      requires Valid() && DocOk(start) && Snapshot() == Run(start, before)
      requires ReadSoFar(start, revision, texts) && UpTo(start.pages, after, |start.pages|) == |texts|
      modifies this
      ensures Valid() && Snapshot() == Run(start, before + corrections) && history == old(history) + corrections
      ensures ReadSoFar(start, revision, texts')
      ensures last ==> |texts'| == |start.pages|
      ensures !last ==> |texts| < |texts'| && UpTo(start.pages, after', |start.pages|) == |texts'|
    {
      Interleaved(start, before, corrections);
      Others(corrections);
      texts', after', last := TakeBatch(start, revision, pages, texts, after);
    }

    /** The revision before the pages, the pages, the revision after them. */
    method ReadBetween(others: nat -> seq<Correction>, last: seq<Correction>)
      returns (before: nat, texts: seq<PageText>, after: nat)
      requires Valid()
      modifies this
      ensures Valid() && old(history) <= history && before == old(revision) && after == revision
      ensures before == after ==> Snapshot() == old(Snapshot()) && texts == PageTexts(pages)
    {
      before := revision;
      ghost var start := Snapshot();
      ghost var corrections;
      texts, corrections := ReadPages(others);
      RunConcat(start, corrections, last);
      SameRevisionSameDoc(start, corrections);
      SameRevisionSameDoc(Snapshot(), last);
      Others(last);
      after := revision;
    }

    /**
     * The double check of the preparation is sound. `launch` is the history of
     * the document when the conversion was started and `reservedChars` what was
     * reserved then. When the revisions on both sides of the pages are the one
     * reserved, the pages are the text of that moment, and the count reserved
     * is the count of exactly these pages.
     */
    method ReadRevision(ghost launch: seq<Correction>, reserved: nat, ghost reservedChars: nat,
                        others: nat -> seq<Correction>, last: seq<Correction>)
      returns (before: nat, texts: seq<PageText>, after: nat)
      requires Valid() && launch <= history
      requires Run(first, launch).revision == reserved && Run(first, launch).charCount == reservedChars
      modifies this
      ensures Valid() && old(history) <= history && before == old(revision) && after == revision
      ensures before == reserved && after == reserved ==>
                texts == PageTexts(Run(first, launch).pages) && reservedChars == CharsOf(texts, |texts|)
    {
      before, texts, after := ReadBetween(others, last);
      if before == reserved && after == reserved {
        RevisionIsText(first, launch, history);
        CountOfTexts(pages, |pages|);
      }
    }
  }

  /** Billable units of the first `n` pages. */
  function CharsOf(texts: seq<PageText>, n: nat): nat
    requires n <= |texts|
  {
    if n == 0 then 0 else CharsOf(texts, n - 1) + CountChars(texts[n - 1].text)
  }

  lemma {:induction false} CountOfTexts(pages: seq<Page>, n: nat)
    requires PagesOk(pages) && n <= |pages|
    ensures CharsOf(PageTexts(pages), n) == TotalChars(pages, n)
  {
    if n > 0 {
      CountOfTexts(pages, n - 1);
    }
  }

  // ---- what the segments count, against what was reserved ----

  /** White space other than line breaks: what is billed without being spoken. */
  function InlineSpaces(text: Text): nat {
    if text == [] then 0 else (if IsSpace(text[0]) && text[0] != LF then 1 else 0) + InlineSpaces(text[1..])
  }

  lemma {:induction false} CountFront(text: Text)
    requires text != []
    ensures CountChars(text) == (if text[0] == LF then 0 else 1) + CountChars(text[1..])
  {
    if |text| > 1 {
      CountFront(text[..|text| - 1]);
      assert text[..|text| - 1][1..] == text[1..][..|text| - 2];
    } else {
      assert CountChars(text[..0]) == 0 && text[1..] == [];
    }
  }

  lemma {:induction false} CountIsVisible(text: Text)
    ensures CountChars(text) == |Visible(text)| + InlineSpaces(text)
  {
    if text != [] {
      CountFront(text);
      CountIsVisible(text[1..]);
    }
  }

  function InlineSpacesOf(texts: seq<PageText>, n: nat): nat
    requires n <= |texts|
  {
    if n == 0 then 0 else InlineSpacesOf(texts, n - 1) + InlineSpaces(texts[n - 1].text)
  }

  lemma {:induction false} ReservedIsVisible(texts: seq<PageText>, n: nat)
    requires n <= |texts|
    ensures CharsOf(texts, n) == |VisiblePages(texts, n)| + InlineSpacesOf(texts, n)
  {
    if n > 0 {
      ReservedIsVisible(texts, n - 1);
      CountIsVisible(texts[n - 1].text);
    }
  }

  lemma {:induction false} UnitsAreFlat(words: seq<Word>, n: nat)
    requires n <= |words|
    ensures UnitsOf(words, n) == |Flatten(Texts(words[..n]))|
  {
    if n > 0 {
      UnitsAreFlat(words, n - 1);
      TextsSnoc(words, n);
      FlattenSnoc(Texts(words[..n - 1]), words[n - 1].t);
    }
  }

  lemma TextsSnoc(words: seq<Word>, n: nat)
    requires 0 < n <= |words|
    ensures Texts(words[..n]) == Texts(words[..n - 1]) + [words[n - 1].t]
  {
  }

  /**
   * What all the segments of a book count, against what was reserved for it: a
   * separator for every two neighbours of a segment, instead of the white space
   * that was billed. More is consumed than reserved exactly when the separators
   * outnumber the spaces that are not line breaks.
   */
  lemma ConsumedAgainstReserved(texts: seq<PageText>, segments: seq<Raw>)
    requires WordsOf(segments) == WordsOfPages(texts, |texts|)
    requires forall k :: 0 <= k < |segments| ==> CharsOk(segments[k])
    ensures var words := |WordsOf(segments)|;
            CharsUpTo(segments, |segments|) + |segments| + InlineSpacesOf(texts, |texts|)
              == CharsOf(texts, |texts|) + words
    ensures CharsUpTo(segments, |segments|) > CharsOf(texts, |texts|)
            <==> |WordsOf(segments)| > |segments| + InlineSpacesOf(texts, |texts|)
  {
    var words := WordsOf(segments);
    CharsCounted(segments, |segments|);
    UnitsAreFlat(words, |words|);
    assert words[..|words|] == words;
    WordsKeepTheText(texts, |texts|);
    ReservedIsVisible(texts, |texts|);
  }
}
