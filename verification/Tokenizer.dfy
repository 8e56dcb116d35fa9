/** From page texts to words and sentences. */
module Tokenizer {
  import opened Words
  import opened Encoding

  const MAX_WORD_LENGTH := 200

  datatype PageText = PageText(pageNumber: int, text: Text)

  /** What the voice says for each word, and which words are recognised abbreviations. */
  datatype Pronunciation = Pronunciation(spoken: seq<Text>, abbreviation: seq<bool>)

  datatype Token = Token(word: Word, spoken: Text, abbreviation: bool, bytes: nat)

  /** The white space of the regular expressions. */
  predicate IsSpace(u: CodeUnit) {
    || 0x09 <= u <= 0x0d || u == 0x20 || u == 0xa0 || u == 0x1680 || 0x2000 <= u <= 0x200a
    || u == 0x2028 || u == 0x2029 || u == 0x202f || u == 0x205f || u == 0x3000 || u == 0xfeff
  }

  predicate NoSpace(t: Text) {
    forall i :: 0 <= i < |t| ==> !IsSpace(t[i])
  }

  /** The text without its white space. */
  function Visible(t: Text): Text {
    if t == [] then [] else (if IsSpace(t[0]) then [] else [t[0]]) + Visible(t[1..])
  }

  lemma {:induction false} VisibleConcat(a: Text, b: Text)
    ensures Visible(a + b) == Visible(a) + Visible(b)
  {
    if a == [] {
      assert a + b == b;
    } else {
      assert (a + b)[1..] == a[1..] + b;
      VisibleConcat(a[1..], b);
    }
  }

  lemma {:induction false} VisibleOfSpaces(t: Text)
    requires forall i :: 0 <= i < |t| ==> IsSpace(t[i])
    ensures Visible(t) == []
  {
    if t != [] {
      VisibleOfSpaces(t[1..]);
    }
  }

  lemma {:induction false} VisibleOfWord(t: Text)
    requires NoSpace(t)
    ensures Visible(t) == t
  {
    if t != [] {
      VisibleOfWord(t[1..]);
    }
  }

  /** The first white space at or after `i`, or the end. */
  function WordEnd(text: Text, i: nat): (end: nat)
    requires i <= |text|
    ensures i <= end <= |text| && NoSpace(text[i..end]) && (end < |text| ==> IsSpace(text[end]))
    decreases |text| - i
  {
    if i == |text| || IsSpace(text[i]) then i else WordEnd(text, i + 1)
  }

  /** The first unit that is not white space at or after `i`, or the end. */
  function SpaceEnd(text: Text, i: nat): (end: nat)
    requires i <= |text|
    ensures i <= end <= |text| && (end < |text| ==> !IsSpace(text[end]))
    ensures forall k :: i <= k < end ==> IsSpace(text[k])
    ensures i < |text| && IsSpace(text[i]) ==> i < end
    decreases |text| - i
  {
    if i == |text| || !IsSpace(text[i]) then i else SpaceEnd(text, i + 1)
  }

  /** The pieces between runs of white space, from `from` on; the first and the last may be empty. */
  function Pieces(text: Text, from: nat): seq<Text>
    requires from <= |text|
    decreases |text| - from
  {
    var end := WordEnd(text, from);
    if end == |text| then [text[from..]]
    else [text[from..end]] + Pieces(text, SpaceEnd(text, end))
  }

  method SplitSpaces(text: Text) returns (pieces: seq<Text>)
    ensures pieces == Pieces(text, 0)
  {
    pieces := [];
    var from := 0;
    while WordEnd(text, from) < |text|
      invariant from <= |text| && pieces + Pieces(text, from) == Pieces(text, 0)
      decreases |text| - from
    {
      var end := WordEnd(text, from);
      pieces := pieces + [text[from..end]];
      from := SpaceEnd(text, end);
    }
    pieces := pieces + [text[from..]];
  }

  lemma PieceVisible(text: Text, from: nat, end: nat, next: nat)
    requires from <= end <= next <= |text| && NoSpace(text[from..end])
    requires forall i :: end <= i < next ==> IsSpace(text[i])
    ensures Visible(text[from..]) == text[from..end] + Visible(text[next..])
  {
    assert text[from..] == text[from..end] + (text[end..next] + text[next..]);
    VisibleConcat(text[from..end], text[end..next] + text[next..]);
    VisibleConcat(text[end..next], text[next..]);
    VisibleOfWord(text[from..end]);
    VisibleOfSpaces(text[end..next]);
  }

  /** Splitting drops the white space and nothing else. */
  lemma {:induction false} PiecesKeep(text: Text, from: nat)
    requires from <= |text|
    ensures Flatten(Pieces(text, from)) == Visible(text[from..])
    ensures forall k :: 0 <= k < |Pieces(text, from)| ==> NoSpace(Pieces(text, from)[k])
    decreases |text| - from
  {
    var end := WordEnd(text, from);
    if end == |text| {
      assert text[from..] == text[from..end];
      VisibleOfWord(text[from..end]);
      FlattenOne(text[from..]);
    } else {
      var next := SpaceEnd(text, end);
      PiecesKeep(text, next);
      PieceVisible(text, from, end, next);
      assert Pieces(text, from)[1..] == Pieces(text, next);
    }
  }

  // ---- words ----

  /** A piece in chunks of at most `MAX_WORD_LENGTH` units, from `i` on. */
  function Chunks(raw: Text, i: nat): seq<Text>
    decreases |raw| - i
  {
    if i >= |raw| then [] else [raw[i..ChunkEnd(raw, i)]] + Chunks(raw, i + MAX_WORD_LENGTH)
  }

  /** As `slice` does, a chunk stops at the end of the piece. */
  function ChunkEnd(raw: Text, i: nat): (end: nat)
    requires i < |raw|
    ensures i < end <= |raw|
  {
    if i + MAX_WORD_LENGTH < |raw| then i + MAX_WORD_LENGTH else |raw|
  }

  function ChunksOf(pieces: seq<Text>): seq<Text> {
    if pieces == [] then [] else ChunksOf(pieces[..|pieces| - 1]) + Chunks(pieces[|pieces| - 1], 0)
  }

  function OnPage(texts: seq<Text>, page: int): (words: seq<Word>)
    ensures |words| == |texts|
  {
    seq(|texts|, i requires 0 <= i < |texts| => Word(texts[i], page))
  }

  function PageWords(page: PageText): seq<Word> {
    OnPage(ChunksOf(Pieces(page.text, 0)), page.pageNumber)
  }

  /** The words of the first `n` pages. */
  function WordsOfPages(pages: seq<PageText>, n: nat): seq<Word>
    requires n <= |pages|
  {
    if n == 0 then [] else WordsOfPages(pages, n - 1) + PageWords(pages[n - 1])
  }

  lemma OnPageCons(t: Text, texts: seq<Text>, page: int)
    ensures OnPage([t] + texts, page) == [Word(t, page)] + OnPage(texts, page)
  {
  }

  /** A chunk at a time; an empty one is not a word. */
  method AppendChunks(words: seq<Word>, raw: Text, page: int) returns (after: seq<Word>)
    ensures after == words + OnPage(Chunks(raw, 0), page)
  {
    after := words;
    var i := 0;
    while i < |raw|
      invariant after + OnPage(Chunks(raw, i), page) == words + OnPage(Chunks(raw, 0), page)
      decreases |raw| - i
    {
      var t := raw[i..ChunkEnd(raw, i)];
      if t != [] {
        after := after + [Word(t, page)];
      }
      OnPageCons(t, Chunks(raw, i + MAX_WORD_LENGTH), page);
      i := i + MAX_WORD_LENGTH;
    }
  }

  lemma OnPageConcat(a: seq<Text>, b: seq<Text>, page: int)
    ensures OnPage(a + b, page) == OnPage(a, page) + OnPage(b, page)
  {
  }

  method AppendPage(words: seq<Word>, page: PageText) returns (after: seq<Word>)
    ensures after == words + PageWords(page)
  {
    hide Pieces, Chunks, OnPage;
    var pieces := SplitSpaces(page.text);
    after := words;
    for m := 0 to |pieces|
      invariant after == words + OnPage(ChunksOf(pieces[..m]), page.pageNumber)
    {
      assert pieces[..m + 1][..m] == pieces[..m];
      OnPageConcat(ChunksOf(pieces[..m]), Chunks(pieces[m], 0), page.pageNumber);
      after := AppendChunks(after, pieces[m], page.pageNumber);
    }
    assert pieces[..|pieces|] == pieces;
  }

  predicate IsWord(t: Text) {
    t != [] && |t| <= MAX_WORD_LENGTH && NoSpace(t)
  }

  lemma {:induction false} ChunksKeep(raw: Text, i: nat)
    requires NoSpace(raw)
    ensures i <= |raw| ==> Flatten(Chunks(raw, i)) == raw[i..]
    ensures i > |raw| ==> Chunks(raw, i) == []
    ensures forall k :: 0 <= k < |Chunks(raw, i)| ==> IsWord(Chunks(raw, i)[k])
    decreases |raw| - i
  {
    if i < |raw| {
      ChunksKeep(raw, i + MAX_WORD_LENGTH);
      var end := ChunkEnd(raw, i);
      assert Chunks(raw, i)[1..] == Chunks(raw, i + MAX_WORD_LENGTH);
      assert raw[i..] == raw[i..end] + raw[end..];
    }
  }

  lemma {:induction false} ChunksOfKeep(pieces: seq<Text>)
    requires forall k :: 0 <= k < |pieces| ==> NoSpace(pieces[k])
    ensures Flatten(ChunksOf(pieces)) == Flatten(pieces)
    ensures forall k :: 0 <= k < |ChunksOf(pieces)| ==> IsWord(ChunksOf(pieces)[k])
  {
    if pieces != [] {
      var front, last := pieces[..|pieces| - 1], pieces[|pieces| - 1];
      ChunksOfKeep(front);
      ChunksKeep(last, 0);
      FlattenConcat(ChunksOf(front), Chunks(last, 0));
      FlattenSnoc(front, last);
      assert front + [last] == pieces;
    }
  }

  function Texts(words: seq<Word>): (texts: seq<Text>)
    ensures |texts| == |words|
  {
    seq(|words|, i requires 0 <= i < |words| => words[i].t)
  }

  lemma TextsConcat(a: seq<Word>, b: seq<Word>)
    ensures Texts(a + b) == Texts(a) + Texts(b)
  {
  }

  /** The visible text of the first `n` pages. */
  function VisiblePages(pages: seq<PageText>, n: nat): Text
    requires n <= |pages|
  {
    if n == 0 then [] else VisiblePages(pages, n - 1) + Visible(pages[n - 1].text)
  }

  predicate AllWords(words: seq<Word>) {
    forall k :: 0 <= k < |words| ==> IsWord(words[k].t)
  }

  lemma PageKeepsTheText(page: PageText)
    ensures Flatten(Texts(PageWords(page))) == Visible(page.text)
    ensures AllWords(PageWords(page))
  {
    var chunks := ChunksOf(Pieces(page.text, 0));
    PiecesKeep(page.text, 0);
    ChunksOfKeep(Pieces(page.text, 0));
    assert page.text[0..] == page.text;
    assert Texts(PageWords(page)) == chunks;
  }

  lemma AppendKeeps(a: seq<Word>, b: seq<Word>)
    ensures Flatten(Texts(a + b)) == Flatten(Texts(a)) + Flatten(Texts(b))
    ensures AllWords(a) && AllWords(b) ==> AllWords(a + b)
  {
    TextsConcat(a, b);
    FlattenConcat(Texts(a), Texts(b));
  }

  lemma PageAppendsTheText(words: seq<Word>, page: PageText)
    requires AllWords(words)
    ensures Flatten(Texts(words + PageWords(page))) == Flatten(Texts(words)) + Visible(page.text)
    ensures AllWords(words + PageWords(page))
  {
    PageKeepsTheText(page);
    AppendKeeps(words, PageWords(page));
  }

  /** The words are the text: what is not white space, each unit once, in order, in words of 1 to 200 units. */
  lemma {:induction false} WordsKeepTheText(pages: seq<PageText>, n: nat)
    requires n <= |pages|
    ensures Flatten(Texts(WordsOfPages(pages, n))) == VisiblePages(pages, n)
    ensures AllWords(WordsOfPages(pages, n))
  {
    if n > 0 {
      WordsKeepTheText(pages, n - 1);
      PageAppendsTheText(WordsOfPages(pages, n - 1), pages[n - 1]);
    }
  }

  // ---- where each word stands ----

  /** Where a word stands in the text of its page. */
  datatype Span = Span(from: nat, to: nat)

  /** The gap between two words, or before the first and after the last: only white space. */
  predicate IsGap(text: Text, from: nat, to: nat) {
    from <= to <= |text| && forall i :: from <= i < to ==> IsSpace(text[i])
  }

  /** No white space, up to the next one, the end, or the 200th unit. */
  predicate IsWordAt(text: Text, span: Span) {
    && span.from < span.to <= |text| && span.to - span.from <= 200
    && (forall i :: span.from <= i < span.to ==> !IsSpace(text[i]))
    && (span.to == |text| || IsSpace(text[span.to]) || span.to - span.from == 200)
  }

  /** From `from` on, the words stand at these spans, one after the other, with white space between them. */
  ghost predicate StandAt(text: Text, from: nat, words: seq<Text>, spans: seq<Span>)
    decreases |words|
  {
    && |spans| == |words|
    && if words == [] then IsGap(text, from, |text|)
       else
         && IsGap(text, from, spans[0].from) && IsWordAt(text, spans[0])
         && words[0] == text[spans[0].from..spans[0].to]
         && StandAt(text, spans[0].to, words[1..], spans[1..])
  }

  /** The words of a text: the runs without white space, in order, each cut after every 200 units. */
  ghost predicate AreWordsOf(text: Text, words: seq<Text>) {
    exists spans :: StandAt(text, 0, words, spans)
  }

  lemma OneWordNext(text: Text, from: nat, a: Span, b: Span)
    requires IsGap(text, from, a.from) && IsWordAt(text, a)
    requires IsGap(text, from, b.from) && IsWordAt(text, b)
    ensures a == b
  {
    assert !IsSpace(text[a.from]) && !IsSpace(text[b.from]);
    assert a.from == b.from;
  }

  /** There is one such list of words. */
  lemma {:induction false} WordsAreUnique(text: Text, from: nat, a: seq<Text>, b: seq<Text>,
                                          spansA: seq<Span>, spansB: seq<Span>)
    requires StandAt(text, from, a, spansA) && StandAt(text, from, b, spansB)
    ensures a == b
    decreases |a|
  {
    assert a != [] ==> !IsSpace(text[spansA[0].from]);
    assert b != [] ==> !IsSpace(text[spansB[0].from]);
    if a != [] && b != [] {
      OneWordNext(text, from, spansA[0], spansB[0]);
      WordsAreUnique(text, spansA[0].to, a[1..], b[1..], spansA[1..], spansB[1..]);
      assert a == [a[0]] + a[1..] && b == [b[0]] + b[1..];
    }
  }

  /** White space before the first word. */
  lemma GapFirst(text: Text, from: nat, next: nat, words: seq<Text>, spans: seq<Span>)
    requires IsGap(text, from, next) && StandAt(text, next, words, spans)
    ensures StandAt(text, from, words, spans)
  {
  }

  lemma WordFirst(text: Text, span: Span, words: seq<Text>, spans: seq<Span>)
    requires IsWordAt(text, span) && StandAt(text, span.to, words, spans)
    ensures StandAt(text, span.from, [text[span.from..span.to]] + words, [span] + spans)
  {
    var all, allSpans := [text[span.from..span.to]] + words, [span] + spans;
    assert all[1..] == words && allSpans[1..] == spans;
    assert IsGap(text, span.from, span.from);
  }

  /** A chunk of the run between `start` and `end` is a word there. */
  lemma ChunkIsWord(text: Text, start: nat, end: nat, i: nat)
    requires start <= end <= |text| && NoSpace(text[start..end]) && i < end - start
    requires end == |text| || IsSpace(text[end])
    ensures IsWordAt(text, Span(start + i, start + ChunkEnd(text[start..end], i)))
  {
    var raw := text[start..end];
    forall k | start + i <= k < start + ChunkEnd(raw, i) ensures !IsSpace(text[k]) {
      assert text[k] == raw[k - start];
    }
  }

  lemma ChunksCons(raw: Text, i: nat, rest: seq<Text>)
    requires i < |raw|
    ensures Chunks(raw, i) + rest == [raw[i..ChunkEnd(raw, i)]] + (Chunks(raw, ChunkEnd(raw, i)) + rest)
  {
    assert Chunks(raw, i + MAX_WORD_LENGTH) == Chunks(raw, ChunkEnd(raw, i));
  }

  lemma NothingLeft(raw: Text, rest: seq<Text>)
    ensures Chunks(raw, |raw|) + rest == rest && ChunksOf([]) == []
  {
    assert Chunks(raw, |raw|) == [];
  }

  /** The chunks of the run between `start` and `end`, from its `i`th unit on, then what follows it. */
  lemma {:induction false} ChunksStand(text: Text, start: nat, end: nat, i: nat, rest: seq<Text>, spans: seq<Span>)
    returns (all: seq<Span>)
    requires start <= end <= |text| && NoSpace(text[start..end]) && i <= end - start
    requires end == |text| || IsSpace(text[end])
    requires StandAt(text, end, rest, spans)
    ensures StandAt(text, start + i, Chunks(text[start..end], i) + rest, all)
    decreases end - start - i
  {
    hide StandAt, NoSpace, IsSpace, Chunks;
    var raw := text[start..end];
    if i == |raw| {
      all := spans;
      NothingLeft(raw, rest);
      assert start + i == end;
    } else {
      var next := ChunkEnd(raw, i);
      var more := ChunksStand(text, start, end, next, rest, spans);
      ChunkIsWord(text, start, end, i);
      var word := Span(start + i, start + next);
      WordFirst(text, word, Chunks(raw, next) + rest, more);
      ChunksCons(raw, i, rest);
      assert raw[i..next] == text[word.from..word.to];
      all := [word] + more;
    }
  }

  lemma {:induction false} ChunksOfCons(first: Text, rest: seq<Text>)
    ensures ChunksOf([first] + rest) == Chunks(first, 0) + ChunksOf(rest)
    decreases |rest|
  {
    hide Chunks;
    var all := [first] + rest;
    if rest == [] {
      assert all[..|all| - 1] == [] && ChunksOf(rest) == [];
    } else {
      ChunksOfCons(first, rest[..|rest| - 1]);
      assert all[..|all| - 1] == [first] + rest[..|rest| - 1];
    }
  }

  lemma {:induction false} PiecesStand(text: Text, from: nat) returns (spans: seq<Span>)
    requires from <= |text|
    ensures StandAt(text, from, ChunksOf(Pieces(text, from)), spans)
    decreases |text| - from
  {
    hide Chunks, ChunksOf, NoSpace, IsSpace;
    var end := WordEnd(text, from);
    var piece := text[from..end];
    if end == |text| {
      NothingLeft(piece, []);
      spans := ChunksStand(text, from, end, 0, [], []);
      ChunksOfCons(piece, []);
      assert text[from..] == piece == text[from..end];
      assert Pieces(text, from) == [piece] + [];
    } else {
      var next := SpaceEnd(text, end);
      var after := PiecesStand(text, next);
      GapFirst(text, end, next, ChunksOf(Pieces(text, next)), after);
      spans := ChunksStand(text, from, end, 0, ChunksOf(Pieces(text, next)), after);
      ChunksOfCons(text[from..end], Pieces(text, next));
    }
  }

  /** The words of a page are those of its text, each with the number of the page. */
  ghost predicate AreWordsOfPage(page: PageText, words: seq<Word>) {
    AreWordsOf(page.text, Texts(words)) && forall i :: 0 <= i < |words| ==> words[i].p == page.pageNumber
  }

  lemma PageWordsStand(page: PageText)
    ensures AreWordsOfPage(page, PageWords(page))
  {
    var spans := PiecesStand(page.text, 0);
    assert Texts(PageWords(page)) == ChunksOf(Pieces(page.text, 0));
  }

  /** The words page after page. */
  ghost predicate AreWordsOfPages(pages: seq<PageText>, words: seq<Word>) {
    exists parts :: |parts| == |pages| && words == Flatten(parts)
                    && forall k :: 0 <= k < |pages| ==> AreWordsOfPage(pages[k], parts[k])
  }

  lemma {:induction false} WordsSoFar(pages: seq<PageText>, n: nat) returns (parts: seq<seq<Word>>)
    requires n <= |pages|
    ensures |parts| == n && WordsOfPages(pages, n) == Flatten(parts)
    ensures forall k :: 0 <= k < n ==> AreWordsOfPage(pages[k], parts[k])
  {
    hide AreWordsOfPage, PageWords;
    if n == 0 {
      parts := [];
    } else {
      parts := WordsSoFar(pages, n - 1);
      PageWordsStand(pages[n - 1]);
      FlattenSnoc(parts, PageWords(pages[n - 1]));
      parts := parts + [PageWords(pages[n - 1])];
    }
  }

  lemma WordsStand(pages: seq<PageText>)
    ensures AreWordsOfPages(pages, WordsOfPages(pages, |pages|))
  {
    hide AreWordsOfPage;
    var parts := WordsSoFar(pages, |pages|);
  }

  method SplitWords(pages: seq<PageText>) returns (words: seq<Word>)
    ensures words == WordsOfPages(pages, |pages|)
    ensures AreWordsOfPages(pages, words)
  {
    words := [];
    for k := 0 to |pages|
      invariant words == WordsOfPages(pages, k)
    {
      words := AppendPage(words, pages[k]);
    }
    WordsStand(pages);
  }

  // ---- tokens and sentences ----

  ghost predicate OneFormPerWord(pronounce: seq<Text> -> Pronunciation) {
    forall words {:trigger pronounce(words)} :: |pronounce(words).spoken| == |words| == |pronounce(words).abbreviation|
  }

  /** The size that a token carries is that of its escaped spoken form. */
  predicate TokenOk(token: Token) {
    token.bytes == |Utf8(EscapeXml(token.spoken))|
  }

  function TokenOf(word: Word, spoken: Text, abbreviation: bool): (token: Token)
    ensures TokenOk(token)
  {
    Token(word, spoken, abbreviation, |Utf8(EscapeXml(spoken))|)
  }

  /** One token per word, with what the voice says for it. */
  function TokensOf(words: seq<Word>, said: Pronunciation): (tokens: seq<Token>)
    requires |said.spoken| == |words| == |said.abbreviation|
    ensures |tokens| == |words|
  {
    seq(|words|, i requires 0 <= i < |words| => TokenOf(words[i], said.spoken[i], said.abbreviation[i]))
  }

  method Tokenize(pages: seq<PageText>, pronounce: seq<Text> -> Pronunciation) returns (tokens: seq<Token>)
    requires OneFormPerWord(pronounce)
    ensures tokens == TokensOf(WordsOfPages(pages, |pages|), pronounce(Texts(WordsOfPages(pages, |pages|))))
  {
    var words := SplitWords(pages);
    var said := pronounce(Texts(words));
    tokens := AttachForms(words, said);
  }

  method AttachForms(words: seq<Word>, said: Pronunciation) returns (tokens: seq<Token>)
    requires |said.spoken| == |words| == |said.abbreviation|
    ensures tokens == TokensOf(words, said)
  {
    tokens := [];
    for i := 0 to |words|
      invariant |tokens| == i && tokens == TokensOf(words, said)[..i]
    {
      var bytes := EscapedByteLength(said.spoken[i]);
      tokens := tokens + [Token(words[i], said.spoken[i], said.abbreviation[i], bytes)];
    }
  }

  predicate IsCloser(u: CodeUnit) {
    u == '"' as int || u == '\'' as int || u == 0xbb || u == 0x201d || u == 0x2019 || u == ')' as int || u == ']' as int
  }

  predicate IsTerminal(u: CodeUnit) {
    u == '.' as int || u == '!' as int || u == '?' as int || u == 0x2026
  }

  /** Final punctuation, then only closing quotes and brackets. */
  predicate EndsSentence(t: Text) {
    exists i :: 0 <= i < |t| && IsTerminal(t[i]) && forall k :: i < k < |t| ==> IsCloser(t[k])
  }

  predicate ClosesSentence(token: Token) {
    !token.abbreviation && EndsSentence(token.word.t)
  }

  /** No token but the last closes a sentence. */
  predicate IsSentence(sentence: seq<Token>) {
    sentence != [] && forall i :: 0 <= i < |sentence| - 1 ==> !ClosesSentence(sentence[i])
  }

  predicate Closed(sentence: seq<Token>) {
    IsSentence(sentence) && ClosesSentence(sentence[|sentence| - 1])
  }

  /** The tokens cut after each one that closes a sentence, and nowhere else. */
  predicate IsCut(tokens: seq<Token>, sentences: seq<seq<Token>>) {
    && Flatten(sentences) == tokens
    && (forall k :: 0 <= k < |sentences| ==> IsSentence(sentences[k]))
    && (forall k :: 0 <= k < |sentences| - 1 ==> Closed(sentences[k]))
  }

  /** The sentences closed so far, and the one being read. */
  datatype Cutting = Cutting(closed: seq<seq<Token>>, current: seq<Token>)

  function CutTo(tokens: seq<Token>, n: nat): Cutting
    requires n <= |tokens|
  {
    if n == 0 then Cutting([], [])
    else
      var before := CutTo(tokens, n - 1);
      var current := before.current + [tokens[n - 1]];
      if ClosesSentence(tokens[n - 1]) then Cutting(before.closed + [current], []) else Cutting(before.closed, current)
  }

  function SentencesOf(tokens: seq<Token>): seq<seq<Token>> {
    var cut := CutTo(tokens, |tokens|);
    if cut.current == [] then cut.closed else cut.closed + [cut.current]
  }

  predicate CutSoFar(tokens: seq<Token>, n: nat, cut: Cutting)
    requires n <= |tokens|
  {
    && Flatten(cut.closed) + cut.current == tokens[..n]
    && (forall k :: 0 <= k < |cut.closed| ==> Closed(cut.closed[k]))
    && (forall i :: 0 <= i < |cut.current| ==> !ClosesSentence(cut.current[i]))
  }

  lemma {:induction false} CutToIsCut(tokens: seq<Token>, n: nat)
    requires n <= |tokens|
    ensures CutSoFar(tokens, n, CutTo(tokens, n))
  {
    hide ClosesSentence;
    if n > 0 {
      CutToIsCut(tokens, n - 1);
      var before := CutTo(tokens, n - 1);
      var current := before.current + [tokens[n - 1]];
      assert Flatten(before.closed) + current == tokens[..n];
      if ClosesSentence(tokens[n - 1]) {
        FlattenSnoc(before.closed, current);
      }
    }
  }

  /** The sentences are the tokens, cut after each one that closes a sentence and nowhere else. */
  lemma SentencesAreCut(tokens: seq<Token>)
    ensures IsCut(tokens, SentencesOf(tokens))
  {
    hide ClosesSentence;
    CutToIsCut(tokens, |tokens|);
    var cut := CutTo(tokens, |tokens|);
    assert tokens[..|tokens|] == tokens;
    if cut.current != [] {
      FlattenSnoc(cut.closed, cut.current);
    }
  }

  method SplitSentences(tokens: seq<Token>) returns (sentences: seq<seq<Token>>)
    ensures sentences == SentencesOf(tokens)
  {
    sentences := [];
    var current: seq<Token> := [];
    for n := 0 to |tokens|
      invariant Cutting(sentences, current) == CutTo(tokens, n)
    {
      current := current + [tokens[n]];
      if ClosesSentence(tokens[n]) {
        sentences := sentences + [current];
        current := [];
      }
    }
    if |current| > 0 {
      sentences := sentences + [current];
    }
  }
}
