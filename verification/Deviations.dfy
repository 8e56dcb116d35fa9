/** Inputs on which the code departs from what is said of it. */
module Deviations {
  import opened Wrappers
  import opened Words
  import opened Encoding
  import opened Tokenizer
  import opened Segmenter
  import opened Pipeline
  import Pronouncing
  import opened Allocation
  import opened UnitsLedger
  import opened PartPlan
  import opened Manifest
  import opened ConversionState
  import opened ConversionProperties
  import D = DocumentText
  import L = Layout
  import C = Cleaning

  // ---- a segment over the limit ----

  const ZERO: CodeUnit := '0' as int
  const BLANK: CodeUnit := ' ' as int

  /** 1 000 000 …: groups of three zeros after a 1. */
  function LongNumber(n: nat): (text: Text)
    ensures |text| == 1 + 4 * n
  {
    seq(1 + 4 * n, i requires 0 <= i < 1 + 4 * n => if i == 0 then '1' as int else if i % 4 == 1 then BLANK else ZERO)
  }

  lemma {:induction false} WordEndIs(text: Text, i: nat, end: nat)
    requires i <= end <= |text| && (end < |text| ==> IsSpace(text[end]))
    requires forall k :: i <= k < end ==> !IsSpace(text[k])
    ensures WordEnd(text, i) == end
    decreases end - i
  {
    if i < end {
      WordEndIs(text, i + 1, end);
    }
  }

  /** One word, then one blank, then what follows. */
  lemma PieceThen(text: Text, from: nat, end: nat)
    requires from < end < |text| - 1 && text[end] == BLANK && !IsSpace(text[end + 1])
    requires forall k :: from <= k < end ==> !IsSpace(text[k])
    ensures Pieces(text, from) == [text[from..end]] + Pieces(text, end + 1)
  {
    WordEndIs(text, from, end);
    assert SpaceEnd(text, end) == end + 1;
  }

  lemma LastPiece(text: Text, from: nat)
    requires from < |text| && forall k :: from <= k < |text| ==> !IsSpace(text[k])
    ensures Pieces(text, from) == [text[from..]]
  {
    WordEndIs(text, from, |text|);
  }

  lemma Group(n: nat, j: nat)
    requires 1 <= j <= n
    ensures var text := LongNumber(n);
            && text[4 * j - 2..4 * j + 1] == Pronouncing.ZEROS
            && (forall k :: 4 * j - 2 <= k < 4 * j + 1 ==> !IsSpace(text[k]))
            && (j < n ==> text[4 * j + 1] == BLANK && !IsSpace(text[4 * j + 2]))
  {
    var text := LongNumber(n);
    assert (4 * j - 2) % 4 == 2 && (4 * j - 1) % 4 == 3 && (4 * j) % 4 == 0 && (4 * j + 1) % 4 == 1
      && (4 * j + 2) % 4 == 2;
    assert text[4 * j - 2] == ZERO && text[4 * j - 1] == ZERO && text[4 * j] == ZERO;
  }

  lemma {:induction false} GroupPieces(n: nat, j: nat)
    requires 1 <= j <= n
    ensures Pieces(LongNumber(n), 4 * j - 2) == Copies(Pronouncing.ZEROS, n + 1 - j)
    decreases n - j
  {
    hide LongNumber, Pieces, IsSpace, Copies;
    var text := LongNumber(n);
    Group(n, j);
    if j == n {
      LastPiece(text, 4 * j - 2);
      assert text[4 * j - 2..] == text[4 * j - 2..4 * j + 1];
    } else {
      PieceThen(text, 4 * j - 2, 4 * j + 1);
      GroupPieces(n, j + 1);
      OneMore(Pronouncing.ZEROS, n - j);
    }
  }

  function Copies<T>(x: T, n: nat): (s: seq<T>)
    ensures |s| == n && forall i :: 0 <= i < n ==> s[i] == x
  {
    seq(n, _ => x)
  }

  lemma OneMore<T>(x: T, n: nat)
    ensures [x] + Copies(x, n) == Copies(x, n + 1)
  {
  }

  lemma LongPieces(n: nat)
    requires n >= 1
    ensures Pieces(LongNumber(n), 0) == Pronouncing.Thousands(n)
  {
    var text := LongNumber(n);
    assert text[0] == '1' as int && text[1] == BLANK && text[2] == ZERO;
    PieceThen(text, 0, 1);
    GroupPieces(n, 1);
    assert text[0..1] == ['1' as int];
  }

  /** Pieces of at most 200 units are the words. */
  lemma {:induction false} ShortPieces(pieces: seq<Text>)
    requires forall k :: 0 <= k < |pieces| ==> 1 <= |pieces[k]| <= MAX_WORD_LENGTH
    ensures ChunksOf(pieces) == pieces
  {
    if pieces != [] {
      var front, last := pieces[..|pieces| - 1], pieces[|pieces| - 1];
      ShortPieces(front);
      assert ChunkEnd(last, 0) == |last| && last[0..|last|] == last;
      assert Chunks(last, 0) == [last] + Chunks(last, MAX_WORD_LENGTH);
      assert pieces == front + [last];
    }
  }

  lemma LongWords(n: nat)
    requires n >= 1
    ensures Texts(WordsOfPages([PageText(1, LongNumber(n))], 1)) == Pronouncing.Thousands(n)
  {
    var pages := [PageText(1, LongNumber(n))];
    LongPieces(n);
    ShortPieces(Pronouncing.Thousands(n));
    assert WordsOfPages(pages, 1) == WordsOfPages(pages, 0) + PageWords(pages[0]);
    assert Texts(WordsOfPages(pages, 1)) == ChunksOf(Pieces(LongNumber(n), 0));
  }

  /** No unit is encoded in less than a byte. */
  lemma {:induction false} PointsTakeBytes(text: Text)
    ensures PointsBytes(CodePoints(text)) >= |text|
  {
    if text == [] {
    } else if StartsPair(text) {
      PointsTakeBytes(text[2..]);
    } else {
      PointsTakeBytes(text[1..]);
    }
  }

  lemma FormTakes(token: Token)
    requires TokenOk(token)
    ensures token.bytes >= |token.spoken|
  {
    EscapedBytes(token.spoken);
    PointsTakeBytes(token.spoken);
  }

  function Say(lexicon: Pronouncing.Lexicon): seq<Text> -> Pronunciation {
    words => Pronouncing.Pronounced(lexicon, words)
  }

  /** From 1590 groups on, a page that is one number has a segment over 4800 bytes, whatever the word lists. */
  lemma SegmentOverLimit(lexicon: Pronouncing.Lexicon, anchor: Text -> bool, n: nat, segments: seq<Raw>)
    requires n >= 1590 && Pronouncing.NoRuleBefore(lexicon, ['1' as int]) && OneFormPerWord(Say(lexicon))
    requires IsSegmentation(segments,
                            Groups(SentencesOf(TokensOfPages([PageText(1, LongNumber(n))], Say(lexicon))),
                                   SsmlRules(anchor)))
    ensures exists k :: 0 <= k < |segments| && |Utf8(segments[k].ssml)| > MAX_SSML_BYTES
  {
    hide Groups, SentencesOf, Size;
    var tokens := TokensOfPages([PageText(1, LongNumber(n))], Say(lexicon));
    LongToken(lexicon, n);
    forall t | t in tokens ensures TokenOk(t) {
    }
    WithinIff(segments, tokens, anchor);
  }

  lemma LongToken(lexicon: Pronouncing.Lexicon, n: nat)
    requires n >= 1590 && Pronouncing.NoRuleBefore(lexicon, ['1' as int]) && OneFormPerWord(Say(lexicon))
    ensures !FormsFit(TokensOfPages([PageText(1, LongNumber(n))], Say(lexicon)))
  {
    hide Pronouncing.Pronounced, LongNumber;
    var tokens := TokensOfPages([PageText(1, LongNumber(n))], Say(lexicon));
    LongWords(n);
    Pronouncing.FormsAreUnbounded(lexicon, n);
    assert |tokens[0].spoken| == 3 * n + 1;
    FormTakes(tokens[0]);
    assert tokens[0] in tokens;
  }

  // ---- more consumed than reserved ----

  const A: Text := ['a' as int]
  const B: Text := ['b' as int]

  /** A page of two lines, one word each. */
  const TWO_LINES := PageText(1, ['a' as int, '\n' as int, 'b' as int])

  /** Every word read as it is shown. */
  function AsShown(words: seq<Text>): Pronunciation {
    Pronunciation(words, seq(|words|, _ => false))
  }

  function Shown(): seq<Text> -> Pronunciation {
    words => AsShown(words)
  }

  lemma TwoPieces()
    ensures Pieces(TWO_LINES.text, 0) == [A, B]
  {
    var text := TWO_LINES.text;
    WordEndIs(text, 0, 1);
    assert SpaceEnd(text, 1) == 2;
    LastPiece(text, 2);
    assert text[0..1] == A && text[2..] == B;
  }

  lemma TwoWords()
    ensures WordsOfPages([TWO_LINES], 1) == [Word(A, 1), Word(B, 1)]
  {
    TwoPieces();
    ShortPieces([A, B]);
    assert WordsOfPages([TWO_LINES], 1) == WordsOfPages([TWO_LINES], 0) + PageWords(TWO_LINES);
    assert PageWords(TWO_LINES) == [Word(A, 1), Word(B, 1)];
  }

  function TwoTokens(): seq<Token> {
    [TokenOf(Word(A, 1), A, false), TokenOf(Word(B, 1), B, false)]
  }

  lemma TwoTokensAre()
    ensures OneFormPerWord(Shown()) && TokensOfPages([TWO_LINES], Shown()) == TwoTokens()
  {
    TwoWords();
    assert Texts([Word(A, 1), Word(B, 1)]) == [A, B];
  }

  lemma OneSentence()
    ensures SentencesOf(TwoTokens()) == [TwoTokens()]
  {
    var tokens := TwoTokens();
    assert !EndsSentence(A) && !EndsSentence(B);
    assert CutTo(tokens, 0) == Cutting([], []);
    assert CutTo(tokens, 1) == Cutting([], [tokens[0]]);
    assert CutTo(tokens, 2) == Cutting([], [tokens[0]] + [tokens[1]]);
    assert [tokens[0]] + [tokens[1]] == tokens && [] + [tokens] == [tokens];
  }

  lemma UnitBytes(t: Text)
    requires |t| == 1 && t[0] < 0x80 && EscapeUnit(t[0]) == [t[0]]
    ensures |Utf8(EscapeXml(t))| == 1
  {
    assert t[1..] == [];
    assert EscapeXml(t) == t;
    Utf8One(t[0]);
    assert [t[0]] == t;
  }

  lemma SmallSize()
    ensures Size(TwoTokens()) <= MAX_SSML_BYTES
  {
    hide Size, TokenOk;
    var tokens := TwoTokens();
    UnitBytes(A);
    UnitBytes(B);
    SizeIsCounted(tokens);
    assert BytesFrom(tokens, 0, 0) == 0 && |Decimal(0)| == 1 && |Decimal(1)| == 1;
    assert BytesFrom(tokens, 0, 1) == 18;
    assert BytesFrom(tokens, 0, 2) == 18 + 19;
  }

  lemma OneGroup(tokens: seq<Token>, rules: Rules)
    requires tokens != [] && rules.size(tokens) <= MAX_SSML_BYTES
    ensures Groups([tokens], rules) == [tokens]
  {
    assert PackAll(Fresh, [tokens], rules, 0) == Fresh;
    assert [] + tokens == tokens;
    assert Segmenter.Fill(Fresh, tokens, rules) == Pack([], tokens);
  }

  /**
   * Two characters are billed for that page, and its one segment counts three:
   * a separator where the text has a line break.
   */
  lemma MoreIsConsumed(anchor: Text -> bool, segments: seq<Raw>)
    requires OneFormPerWord(Shown())
    requires IsSegmentation(segments, Groups(SentencesOf(TokensOfPages([TWO_LINES], Shown())), SsmlRules(anchor)))
    ensures D.CharsOf([TWO_LINES], 1) == 2
    ensures |segments| == 1 && segments[0].words != [] && segments[0].charCount == 3
  {
    hide Size;
    TwoTokensAre();
    OneSentence();
    SmallSize();
    OneGroup(TwoTokens(), SsmlRules(anchor));
    TwoLinesCount();
    UnitsOfTwo();
  }

  lemma TwoLinesCount()
    ensures D.CharsOf([TWO_LINES], 1) == 2
  {
    var text := TWO_LINES.text;
    assert text[..2] == ['a' as int, '\n' as int] && text[..2][..1] == ['a' as int] && text[..2][..1][..0] == [];
    assert D.CountChars(text[..2][..1]) == 1;
    assert D.CountChars(text[..2]) == 1;
    assert D.CountChars(text) == 2;
    assert D.CharsOf([TWO_LINES], 0) == 0;
  }

  lemma UnitsOfTwo()
    ensures Units(TwoTokens(), 2) == 2
  {
    assert Units(TwoTokens(), 0) == 0;
    assert Units(TwoTokens(), 1) == 1;
  }

  // ---- conversions ----

  /** A month of ten free units, and texts of ten characters. */
  const POLICY := Policy(10, 10)

  function Queued(reserved: nat): Conversion {
    NewQueued("owner", "document", "voice", Standard, 1, reserved)
  }

  function Launch(reserved: nat): Action {
    Start("id", Queued(reserved), 0, "month")
  }

  /** One segment in one part. */
  function OneRow(raw: Raw, audio: Option<Audio>): seq<Segment> {
    [Segment(Prepared(raw, 0, 0), "fingerprint", audio)]
  }

  const ONE_PART: seq<Part> := [Part(PlannedPart(0, 0, 0), 0, None)]

  const AUDIO := Audio("key", [], 0, false)

  lemma Launched(reserved: nat)
    requires 0 < reserved <= 10
    ensures Run(EmptyDb, POLICY, [Launch(reserved)]).jobs == map["id" := Job(Queued(reserved), [], [], None)]
  {
    var q := ReserveRequestOf("id", Queued(reserved), 0, "month");
    assert [] + [Launch(reserved)] == [Launch(reserved)];
    RunOne(EmptyDb, POLICY, [], Launch(reserved));
    assert Available(NoRows, POLICY, "owner", "month", 0) == UnitsBySource(10, 0, 0);
    assert ReserveResult(NoRows, POLICY, q).Reserved?;
    assert !HasActive(EmptyDb, Queued(reserved));
  }

  /** A sound step of a conversion, after any run. */
  lemma Steps(before: seq<Action>, id: Id, step: Step)
    requires id in Run(EmptyDb, POLICY, before).jobs && SoundStep(id, Run(EmptyDb, POLICY, before).jobs[id], step)
    ensures var db, after := Run(EmptyDb, POLICY, before), Run(EmptyDb, POLICY, before + [Advance(id, step)]);
            id in after.jobs && after.jobs[id] == Next(db.jobs[id], step)
  {
    RunOne(EmptyDb, POLICY, before, Advance(id, step));
  }

  lemma OneRowIsPrepared(raw: Raw)
    requires raw.words != []
    ensures WellPrepared(Rows(OneRow(raw, None)), Plans(ONE_PART))
  {
    var rows, raws, plans := Rows(OneRow(raw, None)), [raw], Plans(ONE_PART);
    assert rows == [Prepared(raw, 0, 0)] && Raws(rows) == raws && plans == [PlannedPart(0, 0, 0)];
    assert WordsBefore(raws, 0) == 0;
    assert PositionedAt(raws, plans, rows[0], 0);
  }

  /** Started, marked and prepared with one segment. */
  function PreparedRun(raw: Raw, reserved: nat): seq<Action> {
    [Launch(reserved)] + [Advance("id", MarkPreparing)]
      + [Advance("id", CompletePreparation(OneRow(raw, None), ONE_PART))]
  }

  lemma PreparedRunIs(raw: Raw, reserved: nat)
    requires raw.words != [] && 0 < reserved <= 10
    ensures var db := Run(EmptyDb, POLICY, PreparedRun(raw, reserved));
            && "id" in db.jobs && db.jobs["id"].conversion.status == Synthesizing
            && db.jobs["id"].conversion.reservedChars == reserved
            && db.jobs["id"].conversion.tier == Standard
            && db.jobs["id"].segments == OneRow(raw, None) && db.jobs["id"].parts == ONE_PART
  {
    var marked := [Launch(reserved)] + [Advance("id", MarkPreparing)];
    Launched(reserved);
    Steps([Launch(reserved)], "id", MarkPreparing);
    OneRowIsPrepared(raw);
    Steps(marked, "id", CompletePreparation(OneRow(raw, None), ONE_PART));
  }

  /** And then its one segment has its audio. */
  function SpokenRun(raw: Raw, reserved: nat): seq<Action> {
    PreparedRun(raw, reserved) + [Advance("id", CompleteSegment(0, AUDIO))]
  }

  lemma SpokenRunIs(raw: Raw, reserved: nat)
    requires raw.words != [] && 0 < reserved <= 10
    ensures var db := Run(EmptyDb, POLICY, SpokenRun(raw, reserved));
            && "id" in db.jobs && db.jobs["id"].conversion.status == Synthesizing
            && db.jobs["id"].conversion.reservedChars == reserved
            && db.jobs["id"].conversion.tier == Standard
            && db.jobs["id"].segments == OneRow(raw, Some(AUDIO))
            && Consumed(db.jobs["id"].segments) == raw.charCount && AllAudio(db.jobs["id"].segments)
  {
    PreparedRunIs(raw, reserved);
    Steps(PreparedRun(raw, reserved), "id", CompleteSegment(0, AUDIO));
    assert ConsumedUpTo(OneRow(raw, Some(AUDIO)), 0) == 0;
  }

  /**
   * A failed conversion that is not refunded: the page of two lines is reserved
   * at two characters, its segment consumes three, and then it fails.
   */
  lemma FailedNotRefunded(anchor: Text -> bool, segments: seq<Raw>)
    requires OneFormPerWord(Shown())
    requires IsSegmentation(segments, Groups(SentencesOf(TokensOfPages([TWO_LINES], Shown())), SsmlRules(anchor)))
    ensures |segments| == 1 && D.CharsOf([TWO_LINES], 1) == 2
    ensures var before := SpokenRun(segments[0], 2);
            var db, after := Run(EmptyDb, POLICY, before), Run(EmptyDb, POLICY, before + [Fail("id", Internal)]);
            && "id" in db.jobs && InProgress(db.jobs["id"].conversion.status) && "id" in after.jobs
            && after.jobs["id"].conversion.status == Failed
            && KeptUnits(after.ledger.reservations, "id") == KeptUnits(db.ledger.reservations, "id") == 2
            && exists k ::
                 && 0 <= k < |after.ledger.reservations| && after.ledger.reservations[k].id == "id"
                 && after.ledger.reservations[k].refundedChars.None?
  {
    hide Groups, SentencesOf, TokensOfPages, SpokenRun;
    MoreIsConsumed(anchor, segments);
    SpokenRunIs(segments[0], 2);
    KeptInFull(SpokenRun(segments[0], 2), "id");
  }

  /** Where consumed reaches reserved, failing gives nothing back. */
  lemma KeptInFull(before: seq<Action>, id: Id)
    requires id in Run(EmptyDb, POLICY, before).jobs
             && InProgress(Run(EmptyDb, POLICY, before).jobs[id].conversion.status)
    requires var job := Run(EmptyDb, POLICY, before).jobs[id]; Consumed(job.segments) >= job.conversion.reservedChars
    ensures var db, after := Run(EmptyDb, POLICY, before), Run(EmptyDb, POLICY, before + [Fail(id, Internal)]);
            var c := db.jobs[id].conversion;
            && id in after.jobs && after.jobs[id].conversion.status == Failed
            && KeptUnits(after.ledger.reservations, id) == KeptUnits(db.ledger.reservations, id)
            && KeptUnits(after.ledger.reservations, id) == ForChars(c.reservedChars, c.tier)
            && exists k ::
                 && 0 <= k < |after.ledger.reservations| && after.ledger.reservations[k].id == id
                 && after.ledger.reservations[k].refundedChars.None?
  {
    hide AfterRefund, Consumed, KeptUnits, ForChars;
    var db := Run(EmptyDb, POLICY, before);
    RunOne(EmptyDb, POLICY, before, Fail(id, Internal));
    ActiveCharge(POLICY, before, id);
    var k := ReachableCharge(POLICY, before, id);
    FailureCharge(db, id, Internal, k);
  }

  /** A conversion that has failed and gains its audio afterwards. */
  lemma AudioAfterFailureReached(raw: Raw, reserved: nat)
    requires raw.words != [] && 0 < reserved <= 10
    ensures var db :=
            Run(EmptyDb, POLICY, PreparedRun(raw, reserved) + [Fail("id", Internal)]
                + [Advance("id", CompleteSegment(0, AUDIO))]);
            "id" in db.jobs && db.jobs["id"].conversion.status == Failed
              && db.jobs["id"].segments == OneRow(raw, Some(AUDIO))
  {
    PreparedRunIs(raw, reserved);
    RunOne(EmptyDb, POLICY, PreparedRun(raw, reserved), Fail("id", Internal));
    Steps(PreparedRun(raw, reserved) + [Fail("id", Internal)], "id", CompleteSegment(0, AUDIO));
  }

  /** From nothing: a synthesized conversion whose parts are all assembled, for which the sweep schedules nothing. */
  lemma StuckFromScratch(raw: Raw, reserved: nat) returns (actions: seq<Action>)
    requires raw.words != [] && 0 < reserved <= 10
    ensures var db := Run(EmptyDb, POLICY, actions);
            "id" in db.jobs && db.jobs["id"].conversion.status == Synthesized && Stuck(db.jobs["id"])
  {
    var before := SpokenRun(raw, reserved);
    SpokenRunIs(raw, reserved);
    var more := StuckIsReachable(Run(EmptyDb, POLICY, before), POLICY, "id");
    RunConcat(EmptyDb, POLICY, before, more);
    actions := before + more;
  }

  // ---- a page that is not permuted ----

  /** Running text on both sides of the page, and a mark without width in the middle. */
  const BROAD: Text := seq(80, _ => 'a' as int)
  const SIDES: seq<L.Segment> := [L.Segment(BROAD, 0.0, 0.4), L.Segment(A, 0.5, 0.5), L.Segment(BROAD, 0.6, 1.0)]
  const LINE := L.Line(BROAD, None, None, SIDES, false)
  const LAID := L.Laid(LINE, false)

  lemma NotTabular()
    ensures !L.IsTabular(LINE)
  {
    assert L.TotalLength(SIDES, 0) == 0;
    assert L.TotalLength(SIDES, 1) == 80;
    assert L.TotalLength(SIDES, 2) == 81;
  }

  lemma MarkedIs()
    ensures C.Marked(Copies(LINE, 6)) == Copies(LAID, 6)
  {
    NotTabular();
  }

  lemma {:induction false} GeometricIs(atLeast: nat, n: nat)
    requires n <= 6 && atLeast <= 3
    ensures L.Geometric(Copies(LAID, 6), atLeast, n) == Copies(LINE, n)
  {
    if n > 0 {
      GeometricIs(atLeast, n - 1);
    }
  }

  lemma {:induction false} CoverageIs(x: real, n: nat)
    requires n <= 6
    ensures L.Coverage(Copies(LINE, 6), x, n) == if L.CoversAt(LINE, x) then n else 0
  {
    if n > 0 {
      CoverageIs(x, n - 1);
    }
  }

  lemma SidesCover(x: real)
    requires 0.0 <= x <= 1.0 && x != 0.5
    ensures L.CoversAt(LINE, x) <==> x <= 0.4 || x >= 0.6
  {
    assert SIDES[0].left <= x <= SIDES[0].right <==> x <= 0.4;
    assert SIDES[2].left <= x <= SIDES[2].right <==> x >= 0.6;
  }

  /** The bins between the two sides are empty, and no other. */
  lemma EmptyBins(bin: nat)
    ensures L.IsEmpty(Copies(LINE, 6), bin) <==> 80 <= bin < 120
  {
    if bin < 200 {
      assert L.Center(bin) == bin as real / 200.0 + 0.0025;
      CoverageIs(L.Center(bin), 6);
      SidesCover(L.Center(bin));
    }
  }

  lemma TheGutter()
    ensures L.IsGutter(Copies(LINE, 6), 80, 120) && L.Middle(80, 120) == 0.5
  {
    var lines := Copies(LINE, 6);
    forall bin | 80 <= bin < 120 ensures L.IsEmpty(lines, bin) {
      EmptyBins(bin);
    }
    forall s: nat, e: nat | L.IsBand(lines, s, e) ensures 80 <= s && e <= 120 {
      EmptyBins(s);
      EmptyBins(e - 1);
      assert L.IsEmpty(lines, s) && L.IsEmpty(lines, e - 1);
    }
  }

  lemma LineCrosses()
    ensures L.IsCrossing(LINE, 0.5) && !L.Over(LINE, 0.5) && L.OnGutterOf(SIDES, 0.5) != []
  {
    assert SIDES[1..][0] == SIDES[1];
    assert L.RightOf(SIDES[1..], 0.5) != [];
    assert L.OnGutterOf(SIDES[1..], 0.5) != [];
  }

  lemma {:induction false} CrossingIs(n: nat)
    requires n <= 6
    ensures L.Crossing(Copies(LINE, 6), 0.5, n) == n
  {
    if n > 0 {
      LineCrosses();
      CrossingIs(n - 1);
    }
  }

  /** A page of six lines whose reading order is no permutation of its segments: the mark comes out on both sides. */
  lemma PageNotPermuted(ordered: seq<L.Laid>)
    requires L.IsReadingOrder(C.Marked(Copies(LINE, 6)), ordered)
    ensures multiset(L.SegmentsOf(ordered)) != multiset(L.SegmentsOf(C.Marked(Copies(LINE, 6))))
  {
    hide L.IsGutter, L.Crossing, L.Geometric, L.Reordered, L.Middle, L.OnGutterOf;
    var lines := Copies(LAID, 6);
    MarkedIs();
    GeometricIs(1, 6);
    GeometricIs(2, 6);
    TheGutter();
    CrossingIs(6);
    assert L.HasColumns(lines, 80, 120);
    LineCrosses();
    assert L.Twice(lines[5], 0.5) != [];
    assert L.Doubled(lines, 0.5, 6) != [];
    L.PermutationIff(lines, 0.5);
  }
}
