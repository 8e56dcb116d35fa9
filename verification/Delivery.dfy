/** From the pages of a document to the files of its parts, and back. */
module Delivery {
  import opened Wrappers
  import opened Words
  import opened Tokenizer
  import PageAssembly
  import opened PartPlan
  import opened Pipeline
  import opened PartTimeline
  import opened WebVtt

  /** The timeline of a part: the words of its rows, at their places in the book. */
  predicate IsPart(words: seq<TimedWord>, rows: seq<Prepared>) {
    Untimed(words) == PlacedWords(rows)
  }

  /** What the assembly of a part writes. */
  ghost predicate IsFileOf(file: Text, words: seq<TimedWord>) {
    (forall i :: 0 <= i < |words| ==> words[i].startMs >= 0) && file == BuildWebVtt(words)
  }

  /** The cues carry these words at these places in the book. */
  predicate Carry(cues: seq<Cue>, placed: seq<Placed>) {
    |cues| == |placed| && forall i :: 0 <= i < |cues| ==>
      cues[i].index == Some(placed[i].index) && cues[i].text == placed[i].word.t
  }

  predicate AllOneLine(words: seq<TimedWord>) {
    forall i :: 0 <= i < |words| ==> OneLine(words[i].text)
  }

  lemma WordIsOneLine(t: Text)
    requires NoSpace(t)
    ensures OneLine(t)
  {
    assert IsSpace(LF) && IsSpace(CR);
  }

  lemma {:induction false} PlacedInBook(rows: seq<Prepared>, k: nat, n: nat, w: Placed)
    requires k < n && w in PlacedWords(PartSegments(rows, k))
    ensures w in PlacedOfParts(rows, n)
  {
    if k < n - 1 {
      PlacedInBook(rows, k, n - 1, w);
    }
  }

  lemma PartIsOneLine(rows: seq<Prepared>, k: nat, n: nat, words: seq<Word>, timeline: seq<TimedWord>)
    requires k < n && PlacedOfParts(rows, n) == Numbered(words, 0) && AllWords(words)
    requires Untimed(timeline) == PlacedWords(PartSegments(rows, k))
    ensures AllOneLine(timeline)
  {
    forall i | 0 <= i < |timeline| ensures OneLine(timeline[i].text) {
      var w := Untimed(timeline)[i];
      PlacedInBook(rows, k, n, w);
      var j :| 0 <= j < |words| && Numbered(words, 0)[j] == w;
      WordIsOneLine(words[j].t);
    }
  }

  /** The file of a part is read back as its words at their places. */
  lemma PartReadsBack(timeline: seq<TimedWord>, rows: seq<Prepared>, file: Text, cues: seq<Cue>)
    requires IsPart(timeline, rows) && IsFileOf(file, timeline) && AllOneLine(timeline)
    requires ParseWebVtt(file) == Some(cues)
    ensures Carry(cues, PlacedWords(rows))
  {
    forall i | 0 <= i < |timeline| ensures Legible(timeline[i].text) {
      OneLineIsLegible(timeline[i].text);
    }
    WebVttRoundTrip(timeline);
    assert cues == CuesOf(timeline);
    forall i | 0 <= i < |cues|
      ensures cues[i].index == Some(PlacedWords(rows)[i].index) && cues[i].text == PlacedWords(rows)[i].word.t {
      assert Untimed(timeline)[i] == PlacedWords(rows)[i];
    }
  }

  lemma {:induction false} FilesSoFar(rows: seq<Prepared>, cues: seq<seq<Cue>>, n: nat)
    requires n <= |cues| && forall k :: 0 <= k < n ==> Carry(cues[k], PlacedWords(PartSegments(rows, k)))
    ensures Carry(Flatten(cues[..n]), PlacedOfParts(rows, n))
  {
    if n > 0 {
      FilesSoFar(rows, cues, n - 1);
      assert cues[..n] == cues[..n - 1] + [cues[n - 1]];
      FlattenSnoc(cues[..n - 1], cues[n - 1]);
    }
  }

  function CueTextsOf(cues: seq<Cue>): (texts: seq<Text>)
    ensures |texts| == |cues|
  {
    seq(|cues|, i requires 0 <= i < |cues| => cues[i].text)
  }

  /**
   * Whoever reads the files of all the parts in order gets the document back:
   * its words, each once, in order, numbered from 0, and joined end to end they
   * are its visible text.
   */
  lemma FilesAreTheDocument(pages: seq<PageText>, raws: seq<Raw>, plans: seq<PlannedPart>, rows: seq<Prepared>,
                            parts: seq<seq<TimedWord>>, files: seq<Text>, cues: seq<seq<Cue>>)
    requires WordsOf(raws) == WordsOfPages(pages, |pages|) && Positioned(raws, plans, rows)
    requires |parts| == |files| == |cues| == |plans|
    requires forall k :: 0 <= k < |plans| ==> IsPart(parts[k], PartSegments(rows, k))
    requires forall k :: 0 <= k < |plans| ==> IsFileOf(files[k], parts[k])
    requires forall k :: 0 <= k < |plans| ==> ParseWebVtt(files[k]) == Some(cues[k])
    ensures Carry(Flatten(cues), Numbered(WordsOfPages(pages, |pages|), 0))
    ensures Flatten(CueTextsOf(Flatten(cues))) == VisiblePages(pages, |pages|)
  {
    hide WordsOfPages, VisiblePages, Positioned, Carry, Numbered, IsFileOf, IsPart, PlacedOfParts, PartSegments,
      PlacedWords, ParseWebVtt;
    var words := WordsOfPages(pages, |pages|);
    WordsKeepTheText(pages, |pages|);
    TimelinesCoverTheBook(raws, plans, rows);
    forall k | 0 <= k < |plans| ensures Carry(cues[k], PlacedWords(PartSegments(rows, k))) {
      FileOfPart(rows, k, |plans|, words, parts[k], files[k], cues[k]);
    }
    FilesSoFar(rows, cues, |plans|);
    assert cues[..|plans|] == cues;
    CarriedTexts(Flatten(cues), words);
  }

  /** What the kept lines of the first `n` pages show. */
  function LinesOfPages(alphabet: PageAssembly.Alphabet, kept: seq<seq<Text>>, n: nat): Text
    requires n <= |kept|
  {
    if n == 0 then []
    else LinesOfPages(alphabet, kept, n - 1) + PageAssembly.ShownLines(alphabet, kept[n - 1], |kept[n - 1]|)
  }

  ghost predicate AreTexts(alphabet: PageAssembly.Alphabet, kept: seq<seq<Text>>, pages: seq<PageText>) {
    |kept| == |pages| && forall k :: 0 <= k < |pages| ==> pages[k].text == PageAssembly.PageTextOf(alphabet, kept[k])
  }

  lemma {:induction false} TextsAreLines(alphabet: PageAssembly.Alphabet, kept: seq<seq<Text>>, pages: seq<PageText>,
                                         n: nat)
    requires AreTexts(alphabet, kept, pages) && n <= |pages| && PageAssembly.HyphenIsNoLetter(alphabet)
    ensures VisiblePages(pages, n) == LinesOfPages(alphabet, kept, n)
  {
    hide PageAssembly.PageTextOf, PageAssembly.ShownLines, Visible;
    if n > 0 {
      TextsAreLines(alphabet, kept, pages, n - 1);
      PageAssembly.PageTextIsItsLines(alphabet, kept[n - 1]);
    }
  }

  /**
   * The whole chain: from the lines that were kept of each page, assembled into
   * its text, to the files of all the parts, read back and joined.
   */
  lemma FilesAreTheLines(alphabet: PageAssembly.Alphabet, kept: seq<seq<Text>>, pages: seq<PageText>, raws: seq<Raw>,
                         plans: seq<PlannedPart>, rows: seq<Prepared>,
                         parts: seq<seq<TimedWord>>, files: seq<Text>, cues: seq<seq<Cue>>)
    requires AreTexts(alphabet, kept, pages) && PageAssembly.HyphenIsNoLetter(alphabet)
    requires WordsOf(raws) == WordsOfPages(pages, |pages|) && Positioned(raws, plans, rows)
    requires |parts| == |files| == |cues| == |plans|
    requires forall k :: 0 <= k < |plans| ==> IsPart(parts[k], PartSegments(rows, k))
    requires forall k :: 0 <= k < |plans| ==> IsFileOf(files[k], parts[k])
    requires forall k :: 0 <= k < |plans| ==> ParseWebVtt(files[k]) == Some(cues[k])
    ensures Flatten(CueTextsOf(Flatten(cues))) == LinesOfPages(alphabet, kept, |kept|)
  {
    hide WordsOfPages, VisiblePages, Positioned, IsFileOf, IsPart, ParseWebVtt, LinesOfPages, AreTexts;
    FilesAreTheDocument(pages, raws, plans, rows, parts, files, cues);
    SamePages(alphabet, kept, pages);
    TextsAreLines(alphabet, kept, pages, |pages|);
  }

  lemma SamePages(alphabet: PageAssembly.Alphabet, kept: seq<seq<Text>>, pages: seq<PageText>)
    requires AreTexts(alphabet, kept, pages)
    ensures |kept| == |pages|
  {
  }

  lemma FileOfPart(rows: seq<Prepared>, k: nat, n: nat, words: seq<Word>, part: seq<TimedWord>, file: Text,
                   cues: seq<Cue>)
    requires k < n && PlacedOfParts(rows, n) == Numbered(words, 0) && AllWords(words)
    requires IsPart(part, PartSegments(rows, k)) && IsFileOf(file, part) && ParseWebVtt(file) == Some(cues)
    ensures Carry(cues, PlacedWords(PartSegments(rows, k)))
  {
    hide PlacedOfParts, AllWords, Numbered, IsFileOf, ParseWebVtt, PartSegments, Carry, AllOneLine;
    PartIsOneLine(rows, k, n, words, part);
    PartReadsBack(part, PartSegments(rows, k), file, cues);
  }

  lemma CarriedTexts(cues: seq<Cue>, words: seq<Word>)
    requires Carry(cues, Numbered(words, 0))
    ensures CueTextsOf(cues) == Texts(words)
  {
  }
}
