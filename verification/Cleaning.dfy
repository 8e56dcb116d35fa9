/** Setting lines of a page aside without losing any. */
module Cleaning {
  import opened Wrappers
  import opened Words
  import opened Tokenizer
  import opened Layout
  import opened Selections
  import LayoutRules
  import PageAssembly

  datatype Reason = Header | Footer | PageNumber | Footnote | Caption | Table

  datatype SetAside = SetAside(text: Text, reason: Reason)

  datatype CleanedPage = CleanedPage(kept: seq<Line>, setAside: seq<SetAside>)

  const REPEAT_MIN_PAGES := 3
  const REPEAT_WINDOW_PAGES := 6

  /** A line of a table is kept aside cell by cell. */
  function TableRowText(line: Line): Text {
    if line.segments == [] then line.text
    else JoinTexts(line.segments, [' ' as int, '|' as int, ' ' as int], |line.segments|)
  }

  function AsideOf(line: Line, reason: Reason): SetAside {
    SetAside(if reason == Table then TableRowText(line) else line.text, reason)
  }

  function Chars(lines: seq<Line>, n: nat): nat
    requires n <= |lines|
  {
    if n == 0 then 0 else Chars(lines, n - 1) + |lines[n - 1].text|
  }

  function RemovedChars(lines: seq<Line>, reasons: seq<Option<Reason>>, n: nat): nat
    requires n <= |lines| == |reasons|
  {
    if n == 0 then 0
    else RemovedChars(lines, reasons, n - 1) + (if reasons[n - 1].Some? then |lines[n - 1].text| else 0)
  }

  function KeptLines(lines: seq<Line>, reasons: seq<Option<Reason>>, n: nat): seq<Line>
    requires n <= |lines| == |reasons|
  {
    if n == 0 then [] else KeptLines(lines, reasons, n - 1) + (if reasons[n - 1].None? then [lines[n - 1]] else [])
  }

  function AsideLines(lines: seq<Line>, reasons: seq<Option<Reason>>, n: nat): seq<SetAside>
    requires n <= |lines| == |reasons|
  {
    if n == 0 then []
    else
      AsideLines(lines, reasons, n - 1)
      + (if reasons[n - 1].Some? then [AsideOf(lines[n - 1], reasons[n - 1].value)] else [])
  }

  /** What was really set aside: nothing when it would have been more than half of the page. */
  function Applied(lines: seq<Line>, reasons: seq<Option<Reason>>): (applied: seq<Option<Reason>>)
    requires |lines| == |reasons|
    ensures |applied| == |lines|
  {
    var total, removed := Chars(lines, |lines|), RemovedChars(lines, reasons, |lines|);
    if total == 0 || 2 * removed > total then seq(|lines|, _ => None) else reasons
  }

  predicate IsCleaned(lines: seq<Line>, reasons: seq<Option<Reason>>, page: CleanedPage) {
    && |reasons| == |lines|
    && page.kept == KeptLines(lines, Applied(lines, reasons), |lines|)
    && page.setAside == AsideLines(lines, Applied(lines, reasons), |lines|)
  }

  method ApplyWithGuard(lines: seq<Line>, reasons: seq<Option<Reason>>) returns (page: CleanedPage)
    requires |reasons| == |lines|
    ensures IsCleaned(lines, reasons, page) && IsSorted(lines, reasons, page)
  {
    hide IsSorted;
    var total, removed := 0, 0;
    for i := 0 to |lines|
      invariant total == Chars(lines, i) && removed == RemovedChars(lines, reasons, i)
    {
      total := total + |lines[i].text|;
      if reasons[i].Some? { removed := removed + |lines[i].text|; }
    }
    if total == 0 || 2 * removed > total {
      AllKept(lines, Applied(lines, reasons), |lines|);
      page := CleanedPage(lines, []);
      CleanedIsSorted(lines, reasons, page);
      return;
    }
    var kept: seq<Line>, setAside: seq<SetAside> := [], [];
    for i := 0 to |lines|
      invariant kept == KeptLines(lines, reasons, i) && setAside == AsideLines(lines, reasons, i)
    {
      match reasons[i] {
        case None => kept := kept + [lines[i]];
        case Some(reason) =>
          setAside := setAside + [SetAside(if reason == Table then TableRowText(lines[i]) else lines[i].text, reason)];
      }
    }
    page := CleanedPage(kept, setAside);
    CleanedIsSorted(lines, reasons, page);
  }

  lemma {:induction false} AllKept(lines: seq<Line>, reasons: seq<Option<Reason>>, n: nat)
    requires n <= |lines| == |reasons| && forall i :: 0 <= i < |reasons| ==> reasons[i].None?
    ensures KeptLines(lines, reasons, n) == lines[..n] && AsideLines(lines, reasons, n) == []
    ensures RemovedChars(lines, reasons, n) == 0
  {
    if n > 0 {
      AllKept(lines, reasons, n - 1);
    }
  }

  /** How many of the first `n` lines land on the same side as a line with that reason. */
  function Place(reasons: seq<Option<Reason>>, isKept: bool, n: nat): (place: nat)
    requires n <= |reasons|
    ensures place <= n
  {
    if n == 0 then 0 else Place(reasons, isKept, n - 1) + (if reasons[n - 1].None? == isKept then 1 else 0)
  }

  lemma {:induction false} SidesAreAll(lines: seq<Line>, reasons: seq<Option<Reason>>, n: nat)
    requires n <= |lines| == |reasons|
    ensures |KeptLines(lines, reasons, n)| == Place(reasons, true, n)
    ensures |AsideLines(lines, reasons, n)| == Place(reasons, false, n)
    ensures Place(reasons, true, n) + Place(reasons, false, n) == n
  {
    if n > 0 {
      SidesAreAll(lines, reasons, n - 1);
    }
  }

  lemma {:induction false} SidesGrow(lines: seq<Line>, reasons: seq<Option<Reason>>, i: nat, n: nat)
    requires i <= n <= |lines| == |reasons|
    ensures KeptLines(lines, reasons, i) <= KeptLines(lines, reasons, n)
    ensures AsideLines(lines, reasons, i) <= AsideLines(lines, reasons, n)
  {
    if i < n {
      SidesGrow(lines, reasons, i, n - 1);
    }
  }

  /** Line `i` is at its place, after the earlier lines of its side and before the later ones. */
  predicate Lands(lines: seq<Line>, reasons: seq<Option<Reason>>, kept: seq<Line>, setAside: seq<SetAside>, i: nat)
    requires i < |lines| == |reasons|
  {
    var place := Place(reasons, reasons[i].None?, i);
    if reasons[i].None? then place < |kept| && kept[place] == lines[i]
    else place < |setAside| && setAside[place] == AsideOf(lines[i], reasons[i].value)
  }

  lemma LineLands(lines: seq<Line>, reasons: seq<Option<Reason>>, i: nat)
    requires i < |lines| == |reasons|
    ensures Lands(lines, reasons, KeptLines(lines, reasons, |lines|), AsideLines(lines, reasons, |lines|), i)
  {
    SidesAreAll(lines, reasons, i);
    SidesGrow(lines, reasons, i + 1, |lines|);
  }

  /**
   * Nothing is lost: every line lands exactly once in what is kept or in what
   * is set aside, in order; at most half of the characters are set aside.
   */
  lemma CleaningLosesNothing(lines: seq<Line>, reasons: seq<Option<Reason>>)
    requires |reasons| == |lines|
    ensures var applied := Applied(lines, reasons);
            var kept, aside := KeptLines(lines, applied, |lines|), AsideLines(lines, applied, |lines|);
            && (forall i :: 0 <= i < |lines| ==> Lands(lines, applied, kept, aside, i))
            && |kept| + |aside| == |lines|
            && 2 * RemovedChars(lines, applied, |lines|) <= Chars(lines, |lines|)
  {
    var applied := Applied(lines, reasons);
    SidesAreAll(lines, applied, |lines|);
    forall i | 0 <= i < |lines|
      ensures Lands(lines, applied, KeptLines(lines, applied, |lines|), AsideLines(lines, applied, |lines|), i)
    {
      LineLands(lines, applied, i);
    }
    if Chars(lines, |lines|) == 0 || 2 * RemovedChars(lines, reasons, |lines|) > Chars(lines, |lines|) {
      AllKept(lines, applied, |lines|);
    }
  }

  // ---- each line on its side ----

  function TextsOf(lines: seq<Line>): (texts: seq<Text>)
    ensures |texts| == |lines|
  {
    seq(|lines|, i requires 0 <= i < |lines| => lines[i].text)
  }

  function JudgedTexts(lines: seq<Line>, reasons: seq<Option<Reason>>): (texts: seq<Text>)
    requires |lines| == |reasons|
    ensures |texts| == |lines|
  {
    seq(|lines|, i requires 0 <= i < |lines| == |reasons| => if reasons[i].Some? then lines[i].text else [])
  }

  /** The page has characters, and at most half of them are in lines with a reason. */
  predicate WithinHalf(lines: seq<Line>, reasons: seq<Option<Reason>>)
    requires |lines| == |reasons|
  {
    var all, judged := Flatten(TextsOf(lines)), Flatten(JudgedTexts(lines, reasons));
    |all| > 0 && |judged| + |judged| <= |all|
  }

  /** Lines go aside for their reason, unless the page would lose more than half of its characters. */
  function Goes(lines: seq<Line>, reasons: seq<Option<Reason>>): (goes: seq<bool>)
    requires |lines| == |reasons|
    ensures |goes| == |lines|
  {
    seq(|lines|, i requires 0 <= i < |lines| == |reasons| => reasons[i].Some? && WithinHalf(lines, reasons))
  }

  /** What is set aside of a line, and why; the cells of a table row stand between bars. */
  predicate IsAsideOf(line: Line, reason: Reason, aside: SetAside) {
    && aside.reason == reason
    && if reason == Table && line.segments != []
       then LayoutRules.AreJoined(line.segments, Ascii(" | "), aside.text)
       else aside.text == line.text
  }

  /** Every line is on the side where it goes, in order. */
  ghost predicate AreSides(lines: seq<Line>, reasons: seq<Option<Reason>>, goes: seq<bool>, page: CleanedPage,
                           kept: seq<nat>, aside: seq<nat>)
    requires |goes| <= |lines| == |reasons|
  {
    && Selects(kept, goes, false) && Selects(aside, goes, true)
    && |page.kept| == |kept| && (forall j :: 0 <= j < |kept| ==> page.kept[j] == lines[kept[j]])
    && |page.setAside| == |aside|
    && forall j :: 0 <= j < |aside| ==>
         reasons[aside[j]].Some? && IsAsideOf(lines[aside[j]], reasons[aside[j]].value, page.setAside[j])
  }

  /** The lines that go aside are set aside, each for its reason, and all the others are kept. */
  ghost predicate IsSorted(lines: seq<Line>, reasons: seq<Option<Reason>>, page: CleanedPage)
    requires |lines| == |reasons|
  {
    exists kept, aside :: AreSides(lines, reasons, Goes(lines, reasons), page, kept, aside)
  }

  lemma {:induction false} CharsAreCounted(lines: seq<Line>, reasons: seq<Option<Reason>>, n: nat)
    requires n <= |lines| == |reasons|
    ensures |Flatten(TextsOf(lines)[..n])| == Chars(lines, n)
    ensures |Flatten(JudgedTexts(lines, reasons)[..n])| == RemovedChars(lines, reasons, n)
  {
    if n > 0 {
      CharsAreCounted(lines, reasons, n - 1);
      var all, judged := TextsOf(lines), JudgedTexts(lines, reasons);
      assert all[..n] == all[..n - 1] + [all[n - 1]] && judged[..n] == judged[..n - 1] + [judged[n - 1]];
      FlattenSnoc(all[..n - 1], all[n - 1]);
      FlattenSnoc(judged[..n - 1], judged[n - 1]);
    }
  }

  /** The guard decides as the characters say. */
  lemma AppliedGoes(lines: seq<Line>, reasons: seq<Option<Reason>>)
    requires |lines| == |reasons|
    ensures forall i :: 0 <= i < |lines| ==> Applied(lines, reasons)[i].Some? == Goes(lines, reasons)[i]
    ensures forall i :: 0 <= i < |lines| && Goes(lines, reasons)[i] ==> Applied(lines, reasons)[i] == reasons[i]
  {
    CharsAreCounted(lines, reasons, |lines|);
    assert TextsOf(lines)[..|lines|] == TextsOf(lines);
    assert JudgedTexts(lines, reasons)[..|lines|] == JudgedTexts(lines, reasons);
  }

  lemma AsideIs(line: Line, reason: Reason)
    ensures IsAsideOf(line, reason, AsideOf(line, reason))
  {
    hide JoinTexts, LayoutRules.AreJoined;
    if line.segments != [] {
      LayoutRules.JoinTextsJoin(line.segments, Ascii(" | "));
      Bar();
    }
  }

  lemma Bar()
    ensures Ascii(" | ") == [' ' as int, '|' as int, ' ' as int]
  {
  }

  /** One line more. */
  lemma SidesNext(lines: seq<Line>, reasons: seq<Option<Reason>>, goes: seq<bool>, page: CleanedPage,
                  kept: seq<nat>, aside: seq<nat>, goesNext: bool)
    requires |goes| < |lines| == |reasons| && (goesNext ==> reasons[|goes|].Some?)
    requires AreSides(lines, reasons, goes, page, kept, aside)
    ensures var n := |goes|;
            if goesNext then
              var more := CleanedPage(page.kept, page.setAside + [AsideOf(lines[n], reasons[n].value)]);
              AreSides(lines, reasons, goes + [true], more, kept, aside + [n])
            else
              var more := CleanedPage(page.kept + [lines[n]], page.setAside);
              AreSides(lines, reasons, goes + [false], more, kept + [n], aside)
  {
    hide Selects, IsAsideOf, AsideOf;
    SelectsNext(kept, goes, false, goesNext);
    SelectsNext(aside, goes, true, goesNext);
    SelectedBelow(kept, goes, false);
    SelectedBelow(aside, goes, true);
    if goesNext {
      AsideIs(lines[|goes|], reasons[|goes|].value);
    }
  }

  lemma {:induction false} SidesSoFar(lines: seq<Line>, reasons: seq<Option<Reason>>, n: nat)
    returns (kept: seq<nat>, aside: seq<nat>)
    requires n <= |lines| == |reasons|
    ensures var applied := Applied(lines, reasons);
            var page := CleanedPage(KeptLines(lines, applied, n), AsideLines(lines, applied, n));
            AreSides(lines, reasons, Goes(lines, reasons)[..n], page, kept, aside)
  {
    hide *;
    var applied, goes := Applied(lines, reasons), Goes(lines, reasons);
    if n == 0 {
      kept, aside := [], [];
      NoSides(lines, reasons, applied);
    } else {
      kept, aside := SidesSoFar(lines, reasons, n - 1);
      AppliedGoes(lines, reasons);
      OneLineMore(lines, applied, n);
      var page := CleanedPage(KeptLines(lines, applied, n - 1), AsideLines(lines, applied, n - 1));
      GoesForReason(lines, reasons);
      SidesNext(lines, reasons, goes[..n - 1], page, kept, aside, goes[n - 1]);
      assert goes[..n] == goes[..n - 1] + [goes[n - 1]];
      kept, aside := if goes[n - 1] then kept else kept + [n - 1], if goes[n - 1] then aside + [n - 1] else aside;
    }
  }

  lemma NoSides(lines: seq<Line>, reasons: seq<Option<Reason>>, applied: seq<Option<Reason>>)
    requires |lines| == |reasons| == |applied|
    ensures var page := CleanedPage(KeptLines(lines, applied, 0), AsideLines(lines, applied, 0));
            AreSides(lines, reasons, Goes(lines, reasons)[..0], page, [], [])
  {
  }

  lemma GoesForReason(lines: seq<Line>, reasons: seq<Option<Reason>>)
    requires |lines| == |reasons|
    ensures forall i :: 0 <= i < |lines| && Goes(lines, reasons)[i] ==> reasons[i].Some?
  {
  }

  lemma OneLineMore(lines: seq<Line>, reasons: seq<Option<Reason>>, n: nat)
    requires 0 < n <= |lines| == |reasons|
    ensures var kept, aside := KeptLines(lines, reasons, n - 1), AsideLines(lines, reasons, n - 1);
            if reasons[n - 1].Some? then
              && KeptLines(lines, reasons, n) == kept
              && AsideLines(lines, reasons, n) == aside + [AsideOf(lines[n - 1], reasons[n - 1].value)]
            else KeptLines(lines, reasons, n) == kept + [lines[n - 1]] && AsideLines(lines, reasons, n) == aside
  {
  }

  lemma CleanedIsSorted(lines: seq<Line>, reasons: seq<Option<Reason>>, page: CleanedPage)
    requires |lines| == |reasons| && IsCleaned(lines, reasons, page)
    ensures IsSorted(lines, reasons, page)
  {
    hide Applied, AreSides;
    var kept, aside := SidesSoFar(lines, reasons, |lines|);
    assert Goes(lines, reasons)[..|lines|] == Goes(lines, reasons);
  }

  // ---- repeated margin lines ----

  function InWindow(pages: seq<int>, start: int, end: int, n: nat): nat
    requires n <= |pages|
  {
    if n == 0 then 0 else InWindow(pages, start, end, n - 1) + (if start <= pages[n - 1] <= end then 1 else 0)
  }

  /** The window of six pages that begins at `start` holds three occurrences. */
  predicate WindowRepeats(pages: seq<int>, start: int) {
    InWindow(pages, start, start + REPEAT_WINDOW_PAGES - 1, |pages|) >= REPEAT_MIN_PAGES
  }

  /** Some window around `page` does. */
  predicate Repeats(pages: seq<int>, page: int) {
    exists start :: page - REPEAT_WINDOW_PAGES < start <= page && WindowRepeats(pages, start)
  }

  function Within(pages: seq<int>, start: int): (within: seq<bool>)
    ensures |within| == |pages|
  {
    seq(|pages|, i requires 0 <= i < |pages| => start <= pages[i] < start + 6)
  }

  /** Three occurrences within six pages in a row, `page` among the six. */
  ghost predicate ThreeInSix(pages: seq<int>, page: int) {
    exists start :: page - 6 < start <= page && ThreeFrom(pages, start)
  }

  ghost predicate ThreeFrom(pages: seq<int>, start: int) {
    exists i, j, k :: 0 <= i < j < k < |pages| && Within(pages, start)[i] && Within(pages, start)[j]
                      && Within(pages, start)[k]
  }

  lemma {:induction false} WindowIsMarked(pages: seq<int>, start: int, n: nat)
    requires n <= |pages|
    ensures InWindow(pages, start, start + REPEAT_WINDOW_PAGES - 1, n) == MarkCount(Within(pages, start), n)
  {
    if n > 0 {
      WindowIsMarked(pages, start, n - 1);
    }
  }

  lemma RepeatsMeans(pages: seq<int>, page: int)
    ensures Repeats(pages, page) <==> ThreeInSix(pages, page)
  {
    hide Within, InWindow, MarkCount;
    forall start ensures WindowRepeats(pages, start) <==> ThreeFrom(pages, start) {
      WindowIsMarked(pages, start, |pages|);
      MarkedThree(Within(pages, start), |pages|);
    }
  }

  method RepeatsAround(pages: seq<int>, page: int) returns (repeats: bool)
    ensures repeats <==> Repeats(pages, page)
    ensures repeats <==> ThreeInSix(pages, page)
  {
    hide ThreeInSix;
    RepeatsMeans(pages, page);
    var start := page - REPEAT_WINDOW_PAGES + 1;
    while start <= page
      invariant page - REPEAT_WINDOW_PAGES < start <= page + 1
      invariant forall s :: page - REPEAT_WINDOW_PAGES < s < start ==> !WindowRepeats(pages, s)
    {
      var count := 0;
      for i := 0 to |pages|
        invariant count == InWindow(pages, start, start + REPEAT_WINDOW_PAGES - 1, i)
      {
        if start <= pages[i] <= start + REPEAT_WINDOW_PAGES - 1 { count := count + 1; }
      }
      if count >= REPEAT_MIN_PAGES {
        assert WindowRepeats(pages, start);
        return true;
      }
      start := start + 1;
    }
    repeats := false;
  }

  // ---- the pages ----

  function Lines(laid: seq<Laid>): (lines: seq<Line>)
    ensures |lines| == |laid|
  {
    seq(|laid|, i requires 0 <= i < |laid| => laid[i].line)
  }

  /** The lines of a page, each marked when it is in a table. */
  function Marked(lines: seq<Line>): (laid: seq<Laid>)
    ensures |laid| == |lines|
  {
    seq(|lines|, i requires 0 <= i < |lines| => Laid(lines[i], InTable(lines, i)))
  }

  /** The first `n` lines with single blanks between their words; blank lines are dropped. */
  function Normalized(lines: seq<Line>, n: nat): seq<Line>
    requires n <= |lines|
  {
    if n == 0 then []
    else
      var text := PageAssembly.Joined(PageAssembly.RowOf(lines[n - 1].text), PageAssembly.BLANK);
      Normalized(lines, n - 1) + (if text == [] then [] else [lines[n - 1].(text := text)])
  }

  method Normalize(lines: seq<Line>) returns (normalized: seq<Line>)
    ensures normalized == Normalized(lines, |lines|) && IsNormalized(lines, normalized)
  {
    normalized := [];
    for i := 0 to |lines|
      invariant normalized == Normalized(lines, i)
    {
      var text := PageAssembly.Joined(PageAssembly.RowOf(lines[i].text), PageAssembly.BLANK);
      if |text| > 0 {
        normalized := normalized + [lines[i].(text := text)];
      }
    }
    NormalizedIs(lines);
  }

  /** Normalising keeps what a line shows. */
  lemma NormalizedShows(text: Text)
    ensures Visible(PageAssembly.Joined(PageAssembly.RowOf(text), PageAssembly.BLANK)) == Visible(text)
  {
    PageAssembly.LineIsRow(text);
    if PageAssembly.RowOf(text) == [] {
      PageAssembly.BlankLine(text);
    } else {
      PageAssembly.OneRowVisible(PageAssembly.RowOf(text));
      PageAssembly.RowIsVisible(text);
    }
  }

  /** Which lines show something. */
  function Shown(lines: seq<Line>): (shown: seq<bool>)
    ensures |shown| == |lines|
  {
    seq(|lines|, i requires 0 <= i < |lines| => Visible(lines[i].text) != [])
  }

  function SqueezedLine(line: Line): Line {
    line.(text := PageAssembly.Squeezed(line.text, |line.text|))
  }

  ghost predicate AreNormalized(lines: seq<Line>, shown: seq<bool>, normalized: seq<Line>, at: seq<nat>)
    requires |shown| <= |lines|
  {
    && Selects(at, shown, true) && |normalized| == |at|
    && forall j :: 0 <= j < |at| ==>
         normalized[j] == SqueezedLine(lines[at[j]])
  }

  /** The lines that show something, in order, each with its runs of spaces squeezed. */
  ghost predicate IsNormalized(lines: seq<Line>, normalized: seq<Line>) {
    exists at :: AreNormalized(lines, Shown(lines), normalized, at)
  }

  lemma BlankIff(text: Text)
    ensures PageAssembly.Joined(PageAssembly.RowOf(text), PageAssembly.BLANK) == [] <==> Visible(text) == []
  {
    NormalizedShows(text);
    PageAssembly.LineIsRow(text);
    PageAssembly.RowIsVisible(text);
    if PageAssembly.RowOf(text) != [] {
      PageAssembly.RowEnds(PageAssembly.RowOf(text));
    }
  }

  lemma {:induction false} NormalizedSoFar(lines: seq<Line>, n: nat) returns (at: seq<nat>)
    requires n <= |lines|
    ensures AreNormalized(lines, Shown(lines)[..n], Normalized(lines, n), at)
  {
    hide *;
    if n == 0 {
      at := [];
      NothingNormalized(lines);
    } else {
      at := NormalizedSoFar(lines, n - 1);
      var shown := Shown(lines);
      NormalizedStep(lines, n);
      ShownIs(lines, n - 1);
      NormalizedNext(lines, shown[..n - 1], Normalized(lines, n - 1), at, shown[n - 1]);
      assert shown[..n] == shown[..n - 1] + [shown[n - 1]];
      at := if shown[n - 1] then at + [n - 1] else at;
    }
  }

  lemma NothingNormalized(lines: seq<Line>)
    ensures AreNormalized(lines, Shown(lines)[..0], Normalized(lines, 0), [])
  {
  }

  lemma ShownIs(lines: seq<Line>, i: nat)
    requires i < |lines|
    ensures Shown(lines)[i] <==> Visible(lines[i].text) != []
  {
  }

  lemma NormalizedStep(lines: seq<Line>, n: nat)
    requires 0 < n <= |lines|
    ensures Normalized(lines, n)
            == if Visible(lines[n - 1].text) == [] then Normalized(lines, n - 1)
               else Normalized(lines, n - 1) + [SqueezedLine(lines[n - 1])]
  {
    hide PageAssembly.Joined, PageAssembly.RowOf, PageAssembly.Squeezed, Visible;
    BlankIff(lines[n - 1].text);
    PageAssembly.RowIsSqueezed(lines[n - 1].text);
  }

  lemma NormalizedNext(lines: seq<Line>, shown: seq<bool>, normalized: seq<Line>, at: seq<nat>, next: bool)
    requires |shown| < |lines| && AreNormalized(lines, shown, normalized, at)
    ensures var line := SqueezedLine(lines[|shown|]);
            AreNormalized(lines, shown + [next], if next then normalized + [line] else normalized,
                          if next then at + [|shown|] else at)
  {
    hide Selects, PageAssembly.Squeezed;
    SelectsNext(at, shown, true, next);
    SelectedBelow(at, shown, true);
  }

  lemma NormalizedIs(lines: seq<Line>)
    ensures IsNormalized(lines, Normalized(lines, |lines|))
  {
    hide AreNormalized;
    var at := NormalizedSoFar(lines, |lines|);
    assert Shown(lines)[..|lines|] == Shown(lines);
  }

  method LayOut(lines: seq<Line>) returns (ordered: seq<Laid>)
    ensures IsReadingOrder(Marked(lines), ordered)
  {
    hide IsReadingOrder, InTable;
    var tables := FindTableLines(lines);
    var marked := seq(|lines|, i requires 0 <= i < |lines| && i < |tables| => Laid(lines[i], tables[i]));
    assert marked == Marked(lines);
    ordered := RestoreColumnOrder(marked);
  }

  /** What `classify` says of the lines of each page, which it may judge from all of them. */
  ghost predicate OneReasonPerLine(classify: (seq<seq<Laid>>, nat) -> seq<Option<Reason>>) {
    forall pages, k: nat {:trigger classify(pages, k)} :: k < |pages| ==> |classify(pages, k)| == |pages[k]|
  }

  /** Every page normalised and laid out in reading order, then each of its lines kept or set aside. */
  method CleanPages(pages: seq<seq<Line>>, classify: (seq<seq<Laid>>, nat) -> seq<Option<Reason>>)
    returns (cleaned: seq<CleanedPage>, laidOut: seq<seq<Laid>>)
    requires OneReasonPerLine(classify)
    ensures |laidOut| == |cleaned| == |pages|
    ensures forall k :: 0 <= k < |pages| ==> IsReadingOrder(Marked(Normalized(pages[k], |pages[k]|)), laidOut[k])
    ensures forall k :: 0 <= k < |pages| ==> IsNormalized(pages[k], Normalized(pages[k], |pages[k]|))
    ensures forall k :: 0 <= k < |pages| ==>
              var reasons := classify(laidOut, k);
              |reasons| == |laidOut[k]| && IsCleaned(Lines(laidOut[k]), reasons, cleaned[k])
              && IsSorted(Lines(laidOut[k]), reasons, cleaned[k])
  {
    hide IsReadingOrder, IsCleaned, Marked, Normalized, IsSorted, IsNormalized;
    laidOut := [];
    for k := 0 to |pages|
      invariant |laidOut| == k && forall n :: 0 <= n < k ==>
                  IsReadingOrder(Marked(Normalized(pages[n], |pages[n]|)), laidOut[n])
                  && IsNormalized(pages[n], Normalized(pages[n], |pages[n]|))
    {
      var normalized := Normalize(pages[k]);
      var ordered := LayOut(normalized);
      laidOut := laidOut + [ordered];
    }
    cleaned := [];
    for k := 0 to |pages|
      invariant |cleaned| == k && forall n :: 0 <= n < k ==>
                  |classify(laidOut, n)| == |laidOut[n]|
                  && IsCleaned(Lines(laidOut[n]), classify(laidOut, n), cleaned[n])
                  && IsSorted(Lines(laidOut[n]), classify(laidOut, n), cleaned[n])
    {
      var page := ApplyWithGuard(Lines(laidOut[k]), classify(laidOut, k));
      cleaned := cleaned + [page];
    }
  }
}
