/**
 * SSML segments under a byte limit: greedy packing of sentences with a running
 * byte count that never builds the SSML it counts.
 */
module Segmenter {
  import opened Words
  import opened Encoding
  import opened Tokenizer
  import opened Pipeline

  const MAX_SSML_BYTES := 4800
  const SOFT_MIN_SSML_BYTES := 2400

  // ---- the SSML of a segment ----

  function MarkTag(localIndex: nat): Text {
    Ascii("<mark name=\"w") + Decimal(localIndex) + Ascii("\"/>")
  }

  const SPEAK_OPEN: Text := Ascii("<speak>")
  const SPEAK_CLOSE: Text := Ascii("</speak>")

  function Separator(position: nat): Text {
    if position == 0 then [] else [' ' as int]
  }

  /** One mark and one escaped spoken form per token, joined by single spaces. */
  function Body(tokens: seq<Token>, n: nat): Text
    requires n <= |tokens|
  {
    if n == 0 then []
    else Body(tokens, n - 1) + (Separator(n - 1) + MarkTag(n - 1)) + EscapeXml(tokens[n - 1].spoken)
  }

  function Ssml(tokens: seq<Token>): Text {
    SPEAK_OPEN + Body(tokens, |tokens|) + SPEAK_CLOSE
  }

  /** The size that counts: UTF-8 bytes of the SSML itself. */
  function Size(tokens: seq<Token>): nat {
    |Utf8(Ssml(tokens))|
  }

  function WordsOfTokens(tokens: seq<Token>): (words: seq<Word>)
    ensures |words| == |tokens|
  {
    seq(|tokens|, i requires 0 <= i < |tokens| => tokens[i].word)
  }

  function Units(tokens: seq<Token>, n: nat): nat
    requires n <= |tokens|
  {
    if n == 0 then 0 else Units(tokens, n - 1) + |tokens[n - 1].word.t|
  }

  /** Displayed units and one separator between two words. */
  function ToSegment(tokens: seq<Token>): Raw
    requires tokens != []
  {
    Raw(Ssml(tokens), WordsOfTokens(tokens), Units(tokens, |tokens|) + |tokens| - 1)
  }

  // ---- the running count ----

  const MARK_FRAME_BYTES := 16
  const FRAME_BYTES := 15

  /** What tokens add when they are placed from position `start` on. */
  function BytesFrom(tokens: seq<Token>, start: nat, n: nat): nat
    requires n <= |tokens|
  {
    if n == 0 then 0
    else
      BytesFrom(tokens, start, n - 1)
      + (if start + n - 1 == 0 then 0 else 1) + MARK_FRAME_BYTES + |Decimal(start + n - 1)| + tokens[n - 1].bytes
  }

  method BytesOf(tokens: seq<Token>, start: nat) returns (bytes: nat)
    ensures bytes == BytesFrom(tokens, start, |tokens|)
  {
    bytes := 0;
    for offset := 0 to |tokens|
      invariant bytes == BytesFrom(tokens, start, offset)
    {
      var position := start + offset;
      var separator := if position == 0 then 0 else 1;
      bytes := bytes + separator + MARK_FRAME_BYTES + |Decimal(position)| + tokens[offset].bytes;
    }
  }

  lemma {:induction false} DecimalIsAscii(n: nat)
    ensures IsAscii(Decimal(n))
  {
    if n >= 10 {
      DecimalIsAscii(n / 10);
    }
  }

  lemma MarkIsAscii(position: nat)
    ensures IsAscii(Separator(position) + MarkTag(position))
    ensures |Separator(position) + MarkTag(position)|
            == (if position == 0 then 0 else 1) + MARK_FRAME_BYTES + |Decimal(position)|
  {
    DecimalIsAscii(position);
  }

  /** ASCII text never closes or opens a pair of surrogates. */
  lemma AsciiAppend(a: Text, b: Text)
    requires IsAscii(b)
    ensures |Utf8(a + b)| == |Utf8(a)| + |b|
  {
    Utf8Concat(a, b);
    AsciiLength(b);
  }

  lemma AppendAfterAscii(a: Text, mark: Text, b: Text)
    requires IsAscii(mark) && mark != []
    ensures |Utf8(a + mark + b)| == |Utf8(a)| + |mark| + |Utf8(b)|
  {
    Utf8Concat(a + mark, b);
    AsciiAppend(a, mark);
  }

  ghost predicate TokensOk(tokens: seq<Token>) {
    forall i :: 0 <= i < |tokens| ==> TokenOk(tokens[i])
  }

  lemma TokenBytes(body: Text, mark: Text, token: Token)
    requires IsAscii(mark) && mark != [] && TokenOk(token)
    ensures |Utf8(body + mark + EscapeXml(token.spoken))| == |Utf8(body)| + |mark| + token.bytes
  {
    hide Utf8, EscapeXml, IsAscii;
    AppendAfterAscii(body, mark, EscapeXml(token.spoken));
  }

  lemma {:induction false} BodyBytes(tokens: seq<Token>, n: nat)
    requires TokensOk(tokens) && n <= |tokens|
    ensures |Utf8(Body(tokens, n))| == BytesFrom(tokens, 0, n)
  {
    if n > 0 {
      hide Utf8, EscapeXml, Decimal, MarkTag, Separator, IsAscii;
      assert TokenOk(tokens[n - 1]);
      hide TokenOk;
      BodyBytes(tokens, n - 1);
      MarkIsAscii(n - 1);
      TokenBytes(Body(tokens, n - 1), Separator(n - 1) + MarkTag(n - 1), tokens[n - 1]);
    }
  }

  lemma Framed(open: Text, body: Text, close: Text)
    requires IsAscii(open) && open != [] && IsAscii(close)
    ensures |Utf8(open + body + close)| == |open| + |Utf8(body)| + |close|
  {
    AsciiAppend(open + body, close);
    Utf8Concat(open, body);
    AsciiLength(open);
  }

  lemma FrameIsAscii()
    ensures IsAscii(SPEAK_OPEN) && IsAscii(SPEAK_CLOSE)
    ensures |SPEAK_OPEN| + |SPEAK_CLOSE| == FRAME_BYTES
  {
  }

  /** The arithmetic count is the size of the SSML: frame, numbered marks, separators and escapes included. */
  lemma SizeIsCounted(tokens: seq<Token>)
    requires TokensOk(tokens)
    ensures Size(tokens) == FRAME_BYTES + BytesFrom(tokens, 0, |tokens|)
  {
    BodyBytes(tokens, |tokens|);
    FrameIsAscii();
    Framed(SPEAK_OPEN, Body(tokens, |tokens|), SPEAK_CLOSE);
  }

  lemma {:induction false} BytesFromPrefix(a: seq<Token>, b: seq<Token>, n: nat)
    requires n <= |a|
    ensures BytesFrom(a + b, 0, n) == BytesFrom(a, 0, n)
  {
    if n > 0 {
      BytesFromPrefix(a, b, n - 1);
    }
  }

  lemma {:induction false} BytesFromSuffix(a: seq<Token>, b: seq<Token>, n: nat)
    requires n <= |b|
    ensures BytesFrom(a + b, 0, |a| + n) == BytesFrom(a, 0, |a|) + BytesFrom(b, |a|, n)
  {
    if n == 0 {
      BytesFromPrefix(a, b, |a|);
    } else {
      BytesFromSuffix(a, b, n - 1);
    }
  }

  lemma BytesAppend(a: seq<Token>, b: seq<Token>)
    ensures BytesFrom(a + b, 0, |a + b|) == BytesFrom(a, 0, |a|) + BytesFrom(b, |a|, |b|)
  {
    BytesFromSuffix(a, b, |b|);
  }

  // ---- the packing ----

  /** How a run measures tokens and recognises the sentences it may close on. */
  datatype Rules = Rules(size: seq<Token> -> nat, anchor: Text -> bool)

  /** The rules of the program: UTF-8 bytes of the SSML. */
  function SsmlRules(anchor: Text -> bool): Rules {
    Rules(Size, anchor)
  }

  /** The groups already closed and the one being filled. */
  datatype Pack = Pack(closed: seq<seq<Token>>, current: seq<Token>)

  const Fresh := Pack([], [])

  function Close(p: Pack): Pack {
    if p.current == [] then p else Pack(p.closed + [p.current], [])
  }

  function Fit(p: Pack, tokens: seq<Token>, rules: Rules): Pack {
    if p.current != [] && rules.size(p.current + tokens) > MAX_SSML_BYTES then Pack(p.closed + [p.current], tokens)
    else Pack(p.closed, p.current + tokens)
  }

  function FitEach(p: Pack, tokens: seq<Token>, rules: Rules, n: nat): Pack
    requires n <= |tokens|
  {
    if n == 0 then p else Fit(FitEach(p, tokens, rules, n - 1), [tokens[n - 1]], rules)
  }

  /** The displayed words of a sentence, joined: what decides whether it is an anchor. */
  function Joined(sentence: seq<Token>, n: nat): Text
    requires n <= |sentence|
  {
    if n == 0 then [] else Joined(sentence, n - 1) + Separator(n - 1) + sentence[n - 1].word.t
  }

  predicate IsAnchor(rules: Rules, sentence: seq<Token>) {
    rules.anchor(Joined(sentence, |sentence|))
  }

  /** Sentence by sentence; one that does not fit a segment by itself, word by word. */
  function Fill(p: Pack, sentence: seq<Token>, rules: Rules): Pack {
    if rules.size(sentence) <= MAX_SSML_BYTES then Fit(p, sentence, rules) else FitEach(p, sentence, rules, |sentence|)
  }

  function AddSentence(p: Pack, sentence: seq<Token>, rules: Rules): Pack {
    var filled := Fill(p, sentence, rules);
    if rules.size(filled.current) >= SOFT_MIN_SSML_BYTES && IsAnchor(rules, sentence) then Close(filled) else filled
  }

  function PackAll(p: Pack, sentences: seq<seq<Token>>, rules: Rules, n: nat): Pack
    requires n <= |sentences|
  {
    if n == 0 then p else AddSentence(PackAll(p, sentences, rules, n - 1), sentences[n - 1], rules)
  }

  /** The groups of tokens of the segments of a book. */
  function Groups(sentences: seq<seq<Token>>, rules: Rules): seq<seq<Token>> {
    Close(PackAll(Fresh, sentences, rules, |sentences|)).closed
  }

  // ---- the packing by running count ----

  /** The arithmetic count gives the measure of any tokens. */
  ghost predicate Counts(rules: Rules) {
    forall tokens {:trigger rules.size(tokens)} :: TokensOk(tokens) ==>
      rules.size(tokens) == FRAME_BYTES + BytesFrom(tokens, 0, |tokens|)
  }

  lemma SsmlIsCounted(anchor: Text -> bool)
    ensures Counts(SsmlRules(anchor))
  {
    forall tokens | TokensOk(tokens) ensures Size(tokens) == FRAME_BYTES + BytesFrom(tokens, 0, |tokens|) {
      SizeIsCounted(tokens);
    }
  }

  predicate Counted(tokens: seq<Token>, rules: Rules) {
    rules.size(tokens) == FRAME_BYTES + BytesFrom(tokens, 0, |tokens|)
  }

  /** What the running count adds for tokens is what they add to the measure. */
  lemma CountAppend(current: seq<Token>, added: seq<Token>, rules: Rules)
    requires Counted(current, rules) && Counted(current + added, rules)
    ensures rules.size(current + added) == rules.size(current) + BytesFrom(added, |current|, |added|)
  {
    BytesAppend(current, added);
  }

  lemma SizeAppend(current: seq<Token>, added: seq<Token>, rules: Rules)
    requires Counts(rules) && TokensOk(current) && TokensOk(added)
    ensures rules.size(current + added) == rules.size(current) + BytesFrom(added, |current|, |added|)
  {
    assert Counted(current, rules);
    assert TokensOk(current + added) && Counted(current + added, rules);
    CountAppend(current, added, rules);
  }

  /** The segments are those of the closed groups, and `bytes` is the measure of the one being filled. */
  ghost predicate Tracks(p: Pack, rules: Rules, segments: seq<Raw>, current: seq<Token>, bytes: nat) {
    && current == p.current && TokensOk(current) && bytes == rules.size(current)
    && IsSegmentation(segments, p.closed)
  }

  /** Each segment is that of its group. */
  ghost predicate IsSegmentation(segments: seq<Raw>, groups: seq<seq<Token>>) {
    && |segments| == |groups|
    && forall k :: 0 <= k < |segments| ==> groups[k] != [] && segments[k] == ToSegment(groups[k])
  }

  method CloseSegment(segments: seq<Raw>, current: seq<Token>, bytes: nat, ghost p: Pack, ghost rules: Rules)
    returns (segments': seq<Raw>, current': seq<Token>, bytes': nat)
    requires Counts(rules) && Tracks(p, rules, segments, current, bytes)
    ensures Tracks(Close(p), rules, segments', current', bytes')
  {
    if |current| == 0 {
      return segments, current, bytes;
    }
    segments' := segments + [ToSegment(current)];
    current' := [];
    bytes' := FRAME_BYTES;
    assert rules.size([]) == FRAME_BYTES;
  }

  method FitTokens(segments: seq<Raw>, current: seq<Token>, bytes: nat, tokens: seq<Token>, ghost p: Pack,
                   ghost rules: Rules)
    returns (segments': seq<Raw>, current': seq<Token>, bytes': nat)
    requires Counts(rules) && Tracks(p, rules, segments, current, bytes) && TokensOk(tokens)
    ensures Tracks(Fit(p, tokens, rules), rules, segments', current', bytes')
  {
    segments', current', bytes' := segments, current, bytes;
    var added := BytesOf(tokens, |current|);
    SizeAppend(current, tokens, rules);
    if |current| > 0 && bytes + added > MAX_SSML_BYTES {
      segments', current', bytes' := CloseSegment(segments, current, bytes, p, rules);
      added := BytesOf(tokens, 0);
      SizeAppend([], tokens, rules);
      assert [] + tokens == tokens;
    }
    bytes' := bytes' + added;
    current' := current' + tokens;
  }

  method FillSentence(segments: seq<Raw>, current: seq<Token>, bytes: nat, sentence: seq<Token>, ghost p: Pack,
                      ghost rules: Rules)
    returns (segments': seq<Raw>, current': seq<Token>, bytes': nat)
    requires Counts(rules) && Tracks(p, rules, segments, current, bytes) && TokensOk(sentence)
    ensures Tracks(Fill(p, sentence, rules), rules, segments', current', bytes')
  {
    segments', current', bytes' := segments, current, bytes;
    var alone := BytesOf(sentence, 0);
    assert rules.size(sentence) == FRAME_BYTES + alone;
    if FRAME_BYTES + alone <= MAX_SSML_BYTES {
      segments', current', bytes' := FitTokens(segments', current', bytes', sentence, p, rules);
      return;
    }
    for k := 0 to |sentence|
      invariant Tracks(FitEach(p, sentence, rules, k), rules, segments', current', bytes')
    {
      segments', current', bytes' :=
        FitTokens(segments', current', bytes', [sentence[k]], FitEach(p, sentence, rules, k), rules);
    }
  }

  method AddToSegments(segments: seq<Raw>, current: seq<Token>, bytes: nat, sentence: seq<Token>, ghost p: Pack,
                       ghost rules: Rules, anchor: Text -> bool)
    returns (segments': seq<Raw>, current': seq<Token>, bytes': nat)
    requires Counts(rules) && Tracks(p, rules, segments, current, bytes) && TokensOk(sentence) && rules.anchor == anchor
    ensures Tracks(AddSentence(p, sentence, rules), rules, segments', current', bytes')
  {
    segments', current', bytes' := FillSentence(segments, current, bytes, sentence, p, rules);
    if bytes' >= SOFT_MIN_SSML_BYTES && anchor(Joined(sentence, |sentence|)) {
      segments', current', bytes' := CloseSegment(segments', current', bytes', Fill(p, sentence, rules), rules);
    }
  }

  method PackSentences(sentences: seq<seq<Token>>, ghost rules: Rules, anchor: Text -> bool)
    returns (segments: seq<Raw>)
    requires Counts(rules) && rules.anchor == anchor
    requires forall k :: 0 <= k < |sentences| ==> TokensOk(sentences[k])
    ensures IsSegmentation(segments, Groups(sentences, rules))
  {
    segments := [];
    var current: seq<Token> := [];
    var bytes: nat := FRAME_BYTES;
    assert rules.size([]) == FRAME_BYTES;
    for k := 0 to |sentences|
      invariant Tracks(PackAll(Fresh, sentences, rules, k), rules, segments, current, bytes)
    {
      segments, current, bytes :=
        AddToSegments(segments, current, bytes, sentences[k], PackAll(Fresh, sentences, rules, k), rules, anchor);
    }
    segments, current, bytes :=
      CloseSegment(segments, current, bytes, PackAll(Fresh, sentences, rules, |sentences|), rules);
  }

  lemma {:induction false} SentencesOk(tokens: seq<Token>, sentences: seq<seq<Token>>)
    requires TokensOk(tokens) && Flatten(sentences) == tokens
    ensures forall k :: 0 <= k < |sentences| ==> TokensOk(sentences[k])
    decreases |sentences|
  {
    if sentences != [] {
      var first := sentences[0];
      assert tokens == first + Flatten(sentences[1..]);
      forall i | 0 <= i < |first| ensures TokenOk(first[i]) {
        assert first[i] == tokens[i];
      }
      forall i | 0 <= i < |tokens| - |first| ensures TokenOk(Flatten(sentences[1..])[i]) {
        assert Flatten(sentences[1..])[i] == tokens[|first| + i];
      }
      SentencesOk(Flatten(sentences[1..]), sentences[1..]);
    }
  }

  // ---- nothing lost ----

  /** Everything packed so far, in order. */
  function Contents(p: Pack): seq<Token> {
    Flatten(p.closed) + p.current
  }

  lemma FitContents(p: Pack, tokens: seq<Token>, rules: Rules)
    ensures Contents(Fit(p, tokens, rules)) == Contents(p) + tokens
  {
    FlattenSnoc(p.closed, p.current);
  }

  lemma CloseContents(p: Pack)
    ensures Contents(Close(p)) == Contents(p)
  {
    FlattenSnoc(p.closed, p.current);
  }

  lemma {:induction false} FitEachContents(p: Pack, tokens: seq<Token>, rules: Rules, n: nat)
    requires n <= |tokens|
    ensures Contents(FitEach(p, tokens, rules, n)) == Contents(p) + tokens[..n]
  {
    if n > 0 {
      FitEachContents(p, tokens, rules, n - 1);
      FitContents(FitEach(p, tokens, rules, n - 1), [tokens[n - 1]], rules);
      assert tokens[..n] == tokens[..n - 1] + [tokens[n - 1]];
    }
  }

  lemma AddContents(p: Pack, sentence: seq<Token>, rules: Rules)
    ensures Contents(AddSentence(p, sentence, rules)) == Contents(p) + sentence
  {
    FitContents(p, sentence, rules);
    FitEachContents(p, sentence, rules, |sentence|);
    assert sentence[..|sentence|] == sentence;
    CloseContents(Fill(p, sentence, rules));
  }

  lemma {:induction false} PackContents(sentences: seq<seq<Token>>, rules: Rules, n: nat)
    requires n <= |sentences|
    ensures Contents(PackAll(Fresh, sentences, rules, n)) == Flatten(sentences[..n])
  {
    if n > 0 {
      PackContents(sentences, rules, n - 1);
      AddContents(PackAll(Fresh, sentences, rules, n - 1), sentences[n - 1], rules);
      assert sentences[..n] == sentences[..n - 1] + [sentences[n - 1]];
      FlattenSnoc(sentences[..n - 1], sentences[n - 1]);
    }
  }

  /** The groups are a partition of the tokens: nothing lost, nothing twice, in order. */
  lemma GroupsPartition(sentences: seq<seq<Token>>, rules: Rules)
    ensures Flatten(Groups(sentences, rules)) == Flatten(sentences)
  {
    PackContents(sentences, rules, |sentences|);
    CloseContents(PackAll(Fresh, sentences, rules, |sentences|));
    assert sentences[..|sentences|] == sentences;
  }

  // ---- the bound ----

  predicate FitsOrAlone(group: seq<Token>, rules: Rules) {
    rules.size(group) <= MAX_SSML_BYTES || |group| == 1
  }

  ghost predicate Bounded(p: Pack, rules: Rules) {
    && (forall k :: 0 <= k < |p.closed| ==> p.closed[k] != [] && FitsOrAlone(p.closed[k], rules))
    && (p.current == [] || FitsOrAlone(p.current, rules))
  }

  lemma FitBounded(p: Pack, tokens: seq<Token>, rules: Rules)
    requires Bounded(p, rules) && tokens != [] && FitsOrAlone(tokens, rules)
    ensures Bounded(Fit(p, tokens, rules), rules)
  {
    assert [] + tokens == tokens;
  }

  lemma {:induction false} FitEachBounded(p: Pack, tokens: seq<Token>, rules: Rules, n: nat)
    requires Bounded(p, rules) && n <= |tokens|
    ensures Bounded(FitEach(p, tokens, rules, n), rules)
  {
    if n > 0 {
      FitEachBounded(p, tokens, rules, n - 1);
      FitBounded(FitEach(p, tokens, rules, n - 1), [tokens[n - 1]], rules);
    }
  }

  lemma {:induction false} PackBounded(sentences: seq<seq<Token>>, rules: Rules, n: nat)
    requires n <= |sentences| && forall k :: 0 <= k < |sentences| ==> sentences[k] != []
    ensures Bounded(PackAll(Fresh, sentences, rules, n), rules)
  {
    if n > 0 {
      PackBounded(sentences, rules, n - 1);
      var p := PackAll(Fresh, sentences, rules, n - 1);
      if rules.size(sentences[n - 1]) <= MAX_SSML_BYTES {
        FitBounded(p, sentences[n - 1], rules);
      } else {
        FitEachBounded(p, sentences[n - 1], rules, |sentences[n - 1]|);
      }
    }
  }

  /** Every segment is at most 4800 bytes, or holds exactly one word, too big by itself. */
  lemma GroupsBounded(sentences: seq<seq<Token>>, rules: Rules, k: nat)
    requires forall i :: 0 <= i < |sentences| ==> sentences[i] != []
    requires k < |Groups(sentences, rules)|
    ensures var group := Groups(sentences, rules)[k];
            group != [] && (rules.size(group) <= MAX_SSML_BYTES || |group| == 1)
  {
    PackBounded(sentences, rules, |sentences|);
  }

  lemma SegmentsBounded(segments: seq<Raw>, sentences: seq<seq<Token>>, anchor: Text -> bool)
    requires IsSegmentation(segments, Groups(sentences, SsmlRules(anchor)))
    requires forall i :: 0 <= i < |sentences| ==> sentences[i] != []
    ensures forall k :: 0 <= k < |segments| ==>
              segments[k].words != [] && (|Utf8(segments[k].ssml)| <= MAX_SSML_BYTES || |segments[k].words| == 1)
  {
    forall k | 0 <= k < |segments|
      ensures segments[k].words != [] && (|Utf8(segments[k].ssml)| <= MAX_SSML_BYTES || |segments[k].words| == 1) {
      GroupsBounded(sentences, SsmlRules(anchor), k);
    }
  }

  // ---- when the limit holds ----

  /** What the limit leaves for one spoken form: 4768 bytes, escaped and encoded. */
  const MAX_FORM_BYTES := MAX_SSML_BYTES - FRAME_BYTES - MARK_FRAME_BYTES - 1

  predicate FormsFit(tokens: seq<Token>) {
    forall t :: t in tokens ==> t.bytes <= MAX_FORM_BYTES
  }

  predicate AllWithin(segments: seq<Raw>) {
    forall k :: 0 <= k < |segments| ==> |Utf8(segments[k].ssml)| <= MAX_SSML_BYTES
  }

  lemma AloneSize(t: Token)
    requires TokenOk(t)
    ensures Size([t]) == MAX_SSML_BYTES - MAX_FORM_BYTES + t.bytes
  {
    hide Size, TokenOk;
    assert TokensOk([t]);
    SizeIsCounted([t]);
    assert BytesFrom([t], 0, 0) == 0 && |Decimal(0)| == 1;
  }

  lemma {:induction false} TokenTakes(tokens: seq<Token>, n: nat, i: nat)
    requires i < n <= |tokens|
    ensures BytesFrom(tokens, 0, n) >= MARK_FRAME_BYTES + 1 + tokens[i].bytes
  {
    DecimalNonEmpty(n - 1);
    if i < n - 1 {
      TokenTakes(tokens, n - 1, i);
    }
  }

  /** A group holds none of its tokens in less than that token takes alone. */
  lemma GroupTakes(group: seq<Token>, t: Token)
    requires TokensOk(group) && t in group
    ensures Size(group) >= MAX_SSML_BYTES - MAX_FORM_BYTES + t.bytes
  {
    hide Size, TokenOk;
    var i :| 0 <= i < |group| && group[i] == t;
    SizeIsCounted(group);
    TokenTakes(group, |group|, i);
  }

  lemma {:induction false} InFlatten<T>(parts: seq<seq<T>>, k: nat, x: T)
    requires k < |parts| && x in parts[k]
    ensures x in Flatten(parts)
  {
    if k > 0 {
      InFlatten(parts[1..], k - 1, x);
    }
  }

  lemma {:induction false} OutOfFlatten<T>(parts: seq<seq<T>>, x: T) returns (k: nat)
    requires x in Flatten(parts)
    ensures k < |parts| && x in parts[k]
  {
    if x in parts[0] {
      k := 0;
    } else {
      k := OutOfFlatten(parts[1..], x);
      k := k + 1;
    }
  }

  lemma GroupWithin(groups: seq<seq<Token>>, tokens: seq<Token>, k: nat)
    requires Flatten(groups) == tokens && TokensOk(tokens) && k < |groups| && FormsFit(tokens)
    requires groups[k] != [] && (Size(groups[k]) <= MAX_SSML_BYTES || |groups[k]| == 1)
    ensures Size(groups[k]) <= MAX_SSML_BYTES
  {
    hide Size, TokenOk;
    if |groups[k]| == 1 {
      var t := groups[k][0];
      assert groups[k] == [t];
      InFlatten(groups, k, t);
      AloneSize(t);
    }
  }

  lemma TokenFits(groups: seq<seq<Token>>, tokens: seq<Token>, t: Token)
    requires Flatten(groups) == tokens && TokensOk(tokens) && t in tokens
    requires forall k :: 0 <= k < |groups| ==> Size(groups[k]) <= MAX_SSML_BYTES
    ensures t.bytes <= MAX_FORM_BYTES
  {
    hide Size, TokenOk;
    var k := OutOfFlatten(groups, t);
    forall u | u in groups[k] ensures TokenOk(u) {
      InFlatten(groups, k, u);
    }
    GroupTakes(groups[k], t);
  }

  /** Every segment is within 4800 bytes if and only if every spoken form is within 4768. */
  lemma WithinIff(segments: seq<Raw>, tokens: seq<Token>, anchor: Text -> bool)
    requires TokensOk(tokens) && IsSegmentation(segments, Groups(SentencesOf(tokens), SsmlRules(anchor)))
    ensures AllWithin(segments) <==> FormsFit(tokens)
  {
    hide Groups, SentencesOf, TokenOk;
    var sentences := SentencesOf(tokens);
    var groups := Groups(sentences, SsmlRules(anchor));
    SentencesAreCut(tokens);
    GroupsPartition(sentences, SsmlRules(anchor));
    assert forall k :: 0 <= k < |groups| ==> |Utf8(segments[k].ssml)| == Size(groups[k]);
    if FormsFit(tokens) {
      forall k | 0 <= k < |groups| ensures Size(groups[k]) <= MAX_SSML_BYTES {
        GroupsBounded(sentences, SsmlRules(anchor), k);
        GroupWithin(groups, tokens, k);
      }
    }
    if AllWithin(segments) {
      forall t | t in tokens ensures t.bytes <= MAX_FORM_BYTES {
        TokenFits(groups, tokens, t);
      }
    }
  }

  predicate SameWords(segments: seq<Raw>, groups: seq<seq<Token>>) {
    |segments| == |groups| && forall k :: 0 <= k < |segments| ==> segments[k].words == WordsOfTokens(groups[k])
  }

  lemma WordsAppend(a: seq<Token>, b: seq<Token>)
    ensures WordsOfTokens(a + b) == WordsOfTokens(a) + WordsOfTokens(b)
  {
  }

  lemma {:induction false} WordsOfGroups(segments: seq<Raw>, groups: seq<seq<Token>>, n: nat)
    requires SameWords(segments, groups) && n <= |segments|
    ensures WordsUpTo(segments, n) == WordsOfTokens(Flatten(groups[..n]))
  {
    if n > 0 {
      WordsOfGroups(segments, groups, n - 1);
      assert groups[..n] == groups[..n - 1] + [groups[n - 1]];
      FlattenSnoc(groups[..n - 1], groups[n - 1]);
      WordsAppend(Flatten(groups[..n - 1]), groups[n - 1]);
    }
  }

  /** The words of the segments, end to end, are the words of the sentences. */
  lemma SegmentsKeepWords(segments: seq<Raw>, sentences: seq<seq<Token>>, rules: Rules)
    requires IsSegmentation(segments, Groups(sentences, rules))
    ensures WordsOf(segments) == WordsOfTokens(Flatten(sentences))
  {
    var groups := Groups(sentences, rules);
    WordsOfGroups(segments, groups, |segments|);
    assert groups[..|segments|] == groups;
    GroupsPartition(sentences, rules);
  }

  // ---- the characters that count ----

  function CharsUpTo(segments: seq<Raw>, n: nat): nat
    requires n <= |segments|
  {
    if n == 0 then 0 else CharsUpTo(segments, n - 1) + segments[n - 1].charCount
  }

  function UnitsOf(words: seq<Word>, n: nat): nat
    requires n <= |words|
  {
    if n == 0 then 0 else UnitsOf(words, n - 1) + |words[n - 1].t|
  }

  lemma {:induction false} UnitsOfGroup(tokens: seq<Token>, n: nat)
    requires n <= |tokens|
    ensures Units(tokens, n) == UnitsOf(WordsOfTokens(tokens), n)
  {
    if n > 0 {
      UnitsOfGroup(tokens, n - 1);
    }
  }

  lemma {:induction false} UnitsConcat(a: seq<Word>, b: seq<Word>, n: nat)
    requires n <= |b|
    ensures UnitsOf(a + b, |a| + n) == UnitsOf(a, |a|) + UnitsOf(b, n)
  {
    if n > 0 {
      UnitsConcat(a, b, n - 1);
    } else {
      UnitsPrefix(a, b, |a|);
    }
  }

  lemma {:induction false} UnitsPrefix(a: seq<Word>, b: seq<Word>, n: nat)
    requires n <= |a|
    ensures UnitsOf(a + b, n) == UnitsOf(a, n)
  {
    if n > 0 {
      UnitsPrefix(a, b, n - 1);
    }
  }

  /** What a segment counts: the units of its words and a separator between two of them. */
  predicate CharsOk(segment: Raw) {
    segment.charCount + 1 == UnitsOf(segment.words, |segment.words|) + |segment.words|
  }

  lemma SegmentChars(tokens: seq<Token>)
    requires tokens != []
    ensures CharsOk(ToSegment(tokens))
  {
    UnitsOfGroup(tokens, |tokens|);
  }

  /** Over a book: the units of all its words and a separator between two words of the same segment. */
  lemma {:induction false} CharsCounted(segments: seq<Raw>, n: nat)
    requires n <= |segments| && forall k :: 0 <= k < |segments| ==> CharsOk(segments[k])
    ensures CharsUpTo(segments, n) + n
            == UnitsOf(WordsUpTo(segments, n), |WordsUpTo(segments, n)|) + |WordsUpTo(segments, n)|
  {
    if n > 0 {
      CharsCounted(segments, n - 1);
      UnitsConcat(WordsUpTo(segments, n - 1), segments[n - 1].words, |segments[n - 1].words|);
      assert CharsOk(segments[n - 1]);
    }
  }

  /** The tokens of the pages, as the voice says them. */
  function TokensOfPages(pages: seq<PageText>, pronounce: seq<Text> -> Pronunciation): seq<Token>
    requires OneFormPerWord(pronounce)
  {
    var words := WordsOfPages(pages, |pages|);
    TokensOf(words, pronounce(Texts(words)))
  }

  lemma SegmentsCounted(segments: seq<Raw>, groups: seq<seq<Token>>)
    requires IsSegmentation(segments, groups)
    ensures forall k :: 0 <= k < |segments| ==> CharsOk(segments[k])
  {
    forall k | 0 <= k < |segments| ensures CharsOk(segments[k]) {
      SegmentChars(groups[k]);
    }
  }

  // ---- sentences are not cut ----

  /** Sentence `k`, which starts after `before` tokens, lies within one group. */
  ghost predicate WithinOne(groups: seq<seq<Token>>, sentence: seq<Token>, before: nat) {
    exists g :: 0 <= g < |groups| && LiesIn(groups, g, sentence, before)
  }

  predicate LiesIn(groups: seq<seq<Token>>, g: nat, sentence: seq<Token>, before: nat)
    requires g < |groups|
  {
    var start := |Flatten(groups[..g])|;
    && start <= before && before + |sentence| <= start + |groups[g]|
    && groups[g][before - start..before - start + |sentence|] == sentence
  }

  /** All the groups of a pack, the one being filled last. */
  function AllGroups(p: Pack): seq<seq<Token>> {
    p.closed + [p.current]
  }

  /** Groups only grow: at the end of the last one, and by new groups. */
  predicate Grows(p: Pack, q: Pack) {
    || (p.closed == q.closed && p.current <= q.current)
    || (|p.closed| < |q.closed| && q.closed[..|p.closed|] == p.closed && p.current <= q.closed[|p.closed|])
  }

  lemma GrowsTransitive(p: Pack, q: Pack, r: Pack)
    requires Grows(p, q) && Grows(q, r)
    ensures Grows(p, r)
  {
    if |p.closed| < |q.closed| && |q.closed| < |r.closed| {
      assert r.closed[..|q.closed|][..|p.closed|] == r.closed[..|p.closed|];
      assert r.closed[|p.closed|] == r.closed[..|q.closed|][|p.closed|];
    }
  }

  lemma {:induction false} FitEachGrows(p: Pack, tokens: seq<Token>, rules: Rules, n: nat)
    requires n <= |tokens|
    ensures Grows(p, FitEach(p, tokens, rules, n))
  {
    if n > 0 {
      FitEachGrows(p, tokens, rules, n - 1);
      GrowsTransitive(p, FitEach(p, tokens, rules, n - 1), FitEach(p, tokens, rules, n));
    }
  }

  lemma AddGrows(p: Pack, sentence: seq<Token>, rules: Rules)
    ensures Grows(p, AddSentence(p, sentence, rules))
  {
    FitEachGrows(p, sentence, rules, |sentence|);
    GrowsTransitive(p, Fill(p, sentence, rules), AddSentence(p, sentence, rules));
  }

  lemma {:induction false} PackGrows(p: Pack, sentences: seq<seq<Token>>, rules: Rules, m: nat, n: nat)
    requires m <= n <= |sentences|
    ensures Grows(PackAll(p, sentences, rules, m), PackAll(p, sentences, rules, n))
    decreases n
  {
    if m < n {
      PackGrows(p, sentences, rules, m, n - 1);
      AddGrows(PackAll(p, sentences, rules, n - 1), sentences[n - 1], rules);
      GrowsTransitive(PackAll(p, sentences, rules, m), PackAll(p, sentences, rules, n - 1),
                      PackAll(p, sentences, rules, n));
    }
  }

  /** A sentence that fits by itself goes in whole, after everything packed before it. */
  lemma FitLies(p: Pack, sentence: seq<Token>, rules: Rules)
    ensures var q := Fit(p, sentence, rules);
            LiesIn(AllGroups(q), |q.closed|, sentence, |Contents(p)|)
  {
    var q := Fit(p, sentence, rules);
    assert AllGroups(q)[..|q.closed|] == q.closed;
    FlattenSnoc(p.closed, p.current);
  }

  lemma LiesInPrefix(groups: seq<seq<Token>>, longer: seq<seq<Token>>, g: nat, sentence: seq<Token>, before: nat)
    requires g < |groups| && g < |longer| && LiesIn(groups, g, sentence, before)
    requires groups[..g] == longer[..g] && groups[g] <= longer[g]
    ensures LiesIn(longer, g, sentence, before)
  {
    var start := |Flatten(groups[..g])|;
    assert longer[g][before - start..before - start + |sentence|]
      == groups[g][before - start..before - start + |sentence|];
  }

  /** What lies in the group being filled still lies in it later. */
  lemma LiesLater(p: Pack, q: Pack, sentence: seq<Token>, before: nat)
    requires Grows(p, q) && LiesIn(AllGroups(p), |p.closed|, sentence, before)
    ensures |p.closed| < |AllGroups(q)| && LiesIn(AllGroups(q), |p.closed|, sentence, before)
  {
    var g := |p.closed|;
    assert AllGroups(p)[..g] == p.closed;
    assert AllGroups(q)[..g] == p.closed by {
      if |q.closed| == g { assert AllGroups(q)[..g] == q.closed; }
      else { assert AllGroups(q)[..g] == q.closed[..g]; }
    }
    LiesInPrefix(AllGroups(p), AllGroups(q), g, sentence, before);
  }

  lemma FilledGrows(p: Pack, sentence: seq<Token>, rules: Rules)
    requires rules.size(sentence) <= MAX_SSML_BYTES
    ensures Grows(Fit(p, sentence, rules), AddSentence(p, sentence, rules))
  {
  }

  /** A sentence that fits a segment by itself is never split across segments. */
  lemma FittingSentenceIsWhole(sentences: seq<seq<Token>>, rules: Rules, k: nat)
    requires k < |sentences| && sentences[k] != [] && rules.size(sentences[k]) <= MAX_SSML_BYTES
    ensures WithinOne(Groups(sentences, rules), sentences[k], |Flatten(sentences[..k])|)
  {
    hide LiesIn, Grows, Fit, AddSentence, Contents, AllGroups, WithinOne, Close;
    var p := PackAll(Fresh, sentences, rules, k);
    var filled := Fit(p, sentences[k], rules);
    var end := PackAll(Fresh, sentences, rules, |sentences|);
    var before := |Flatten(sentences[..k])|;
    PackContents(sentences, rules, k);
    FitLies(p, sentences[k], rules);
    FilledGrows(p, sentences[k], rules);
    PackGrows(Fresh, sentences, rules, k + 1, |sentences|);
    GrowsTransitive(filled, PackAll(Fresh, sentences, rules, k + 1), end);
    LiesLater(filled, end, sentences[k], before);
    EndGroups(end, |filled.closed|, sentences[k], before);
  }

  /** Closing keeps every group that is not empty. */
  lemma EndGroups(p: Pack, g: nat, sentence: seq<Token>, before: nat)
    requires g < |AllGroups(p)| && LiesIn(AllGroups(p), g, sentence, before) && sentence != []
    ensures WithinOne(Close(p).closed, sentence, before)
  {
    if p.current == [] {
      assert g < |p.closed|;
      LiesInPrefix(AllGroups(p), p.closed, g, sentence, before);
      assert LiesIn(p.closed, g, sentence, before);
    } else {
      assert LiesIn(Close(p).closed, g, sentence, before);
    }
  }

  // ---- where segments end ----

  /**
   * What goes into a segment in one go: a sentence, or one word of a sentence
   * that is too long for a segment. `closing`: it ends an anchor sentence.
   */
  datatype Piece = Piece(tokens: seq<Token>, closing: bool)

  function PiecesOf(sentence: seq<Token>, rules: Rules): (pieces: seq<Piece>)
    ensures sentence != [] ==> pieces != []
  {
    var anchored := IsAnchor(rules, sentence);
    if rules.size(sentence) <= 4800 then [Piece(sentence, anchored)]
    else
      var last := |sentence| - 1;
      seq(|sentence|, i requires 0 <= i < |sentence| => Piece([sentence[i]], i == last && anchored))
  }

  function AllPieces(sentences: seq<seq<Token>>, rules: Rules, n: nat): seq<Piece>
    requires n <= |sentences|
  {
    if n == 0 then [] else AllPieces(sentences, rules, n - 1) + PiecesOf(sentences[n - 1], rules)
  }

  function TokensIn(pieces: seq<Piece>): seq<Token> {
    if pieces == [] then [] else TokensIn(pieces[..|pieces| - 1]) + pieces[|pieces| - 1].tokens
  }

  /** A segment that starts with piece `from` has a reason to end before piece `to`. */
  predicate MustEnd(pieces: seq<Piece>, from: nat, to: nat, rules: Rules)
    requires from < to < |pieces|
  {
    || rules.size(TokensIn(pieces[from..to + 1])) > 4800
    || (pieces[to - 1].closing && rules.size(TokensIn(pieces[from..to])) >= 2400)
  }

  /** The groups are the pieces between the cuts, and each ends at the first place where it must. */
  ghost predicate IsPacking(pieces: seq<Piece>, groups: seq<seq<Token>>, cuts: seq<nat>, rules: Rules) {
    && |cuts| == |groups| + 1 && cuts[0] == 0 && cuts[|groups|] == |pieces|
    && (forall k :: 0 <= k < |groups| ==> IsGroup(pieces, groups[k], cuts[k], cuts[k + 1], rules))
  }

  ghost predicate IsGroup(pieces: seq<Piece>, group: seq<Token>, from: nat, to: nat, rules: Rules) {
    && from < to <= |pieces| && group == TokensIn(pieces[from..to])
    && (forall mid :: from < mid < to ==> !MustEnd(pieces, from, mid, rules))
    && (to < |pieces| ==> MustEnd(pieces, from, to, rules))
  }

  /** Some cuts make the groups a packing of the sentences. */
  ghost predicate PackedGreedily(groups: seq<seq<Token>>, sentences: seq<seq<Token>>, rules: Rules) {
    exists cuts :: IsPacking(AllPieces(sentences, rules, |sentences|), groups, cuts, rules)
  }

  /** There is only one packing. */
  lemma {:induction false} PackingIsUnique(pieces: seq<Piece>, a: seq<seq<Token>>, b: seq<seq<Token>>,
                                           cutsA: seq<nat>, cutsB: seq<nat>, rules: Rules, n: nat)
    requires IsPacking(pieces, a, cutsA, rules) && IsPacking(pieces, b, cutsB, rules)
    requires n <= |a|
    ensures n <= |b| && cutsA[n] == cutsB[n] && a[..n] == b[..n]
    ensures n == |a| ==> a == b
  {
    hide MustEnd, TokensIn;
    if n > 0 {
      PackingIsUnique(pieces, a, b, cutsA, cutsB, rules, n - 1);
      assert IsGroup(pieces, a[n - 1], cutsA[n - 1], cutsA[n], rules);
      assert n - 1 < |b| ==> IsGroup(pieces, b[n - 1], cutsB[n - 1], cutsB[n], rules);
    }
    assert n == |a| && n < |b| ==> IsGroup(pieces, b[n], cutsB[n], cutsB[n + 1], rules);
  }

  function AddPiece(p: Pack, piece: Piece, rules: Rules): Pack {
    var fitted := Fit(p, piece.tokens, rules);
    if rules.size(fitted.current) >= SOFT_MIN_SSML_BYTES && piece.closing then Close(fitted) else fitted
  }

  function AddPieces(p: Pack, pieces: seq<Piece>, rules: Rules, n: nat): Pack
    requires n <= |pieces|
  {
    if n == 0 then p else AddPiece(AddPieces(p, pieces, rules, n - 1), pieces[n - 1], rules)
  }

  lemma {:induction false} AddWords(p: Pack, sentence: seq<Token>, rules: Rules, n: nat)
    requires rules.size(sentence) > MAX_SSML_BYTES && n < |sentence|
    ensures AddPieces(p, PiecesOf(sentence, rules), rules, n) == FitEach(p, sentence, rules, n)
  {
    if n > 0 {
      AddWords(p, sentence, rules, n - 1);
    }
  }

  /** A sentence goes in piece by piece. */
  lemma AddSentencePieces(p: Pack, sentence: seq<Token>, rules: Rules)
    requires sentence != []
    ensures AddPieces(p, PiecesOf(sentence, rules), rules, |PiecesOf(sentence, rules)|)
            == AddSentence(p, sentence, rules)
  {
    var pieces := PiecesOf(sentence, rules);
    if rules.size(sentence) <= MAX_SSML_BYTES {
      assert AddPieces(p, pieces, rules, 1) == AddPiece(AddPieces(p, pieces, rules, 0), pieces[0], rules);
    } else {
      AddWords(p, sentence, rules, |sentence| - 1);
    }
  }

  lemma {:induction false} AddPiecesFront(p: Pack, a: seq<Piece>, b: seq<Piece>, rules: Rules, n: nat)
    requires n <= |a|
    ensures AddPieces(p, a + b, rules, n) == AddPieces(p, a, rules, n)
  {
    if n > 0 {
      AddPiecesFront(p, a, b, rules, n - 1);
    }
  }

  lemma {:induction false} AddPiecesBack(p: Pack, a: seq<Piece>, b: seq<Piece>, rules: Rules, n: nat)
    requires n <= |b|
    ensures AddPieces(p, a + b, rules, |a| + n) == AddPieces(AddPieces(p, a, rules, |a|), b, rules, n)
  {
    if n == 0 {
      AddPiecesFront(p, a, b, rules, |a|);
    } else {
      AddPiecesBack(p, a, b, rules, n - 1);
    }
  }

  lemma {:induction false} PackPieces(sentences: seq<seq<Token>>, rules: Rules, n: nat)
    requires n <= |sentences| && forall k :: 0 <= k < |sentences| ==> sentences[k] != []
    ensures var pieces := AllPieces(sentences, rules, n);
            PackAll(Fresh, sentences, rules, n) == AddPieces(Fresh, pieces, rules, |pieces|)
  {
    if n == 0 {
      hide AddSentence, AddPiece, PiecesOf;
    } else {
      hide AllPieces, PackAll, AddPieces;
      PackPieces(sentences, rules, n - 1);
      OneSentenceMore(sentences, rules, n);
    }
  }

  lemma OneSentenceMore(sentences: seq<seq<Token>>, rules: Rules, n: nat)
    requires 0 < n <= |sentences| && sentences[n - 1] != []
    requires var pieces := AllPieces(sentences, rules, n - 1);
             PackAll(Fresh, sentences, rules, n - 1) == AddPieces(Fresh, pieces, rules, |pieces|)
    ensures var pieces := AllPieces(sentences, rules, n);
            PackAll(Fresh, sentences, rules, n) == AddPieces(Fresh, pieces, rules, |pieces|)
  {
    hide AddSentence, PiecesOf, AddPieces;
    AddSentenceTo(AllPieces(sentences, rules, n - 1), sentences[n - 1], rules);
  }

  lemma AddSentenceTo(front: seq<Piece>, sentence: seq<Token>, rules: Rules)
    requires sentence != []
    ensures var pieces := front + PiecesOf(sentence, rules);
            AddPieces(Fresh, pieces, rules, |pieces|)
            == AddSentence(AddPieces(Fresh, front, rules, |front|), sentence, rules)
  {
    hide AddSentence, PiecesOf, AddPieces;
    var back := PiecesOf(sentence, rules);
    AddSentencePieces(AddPieces(Fresh, front, rules, |front|), sentence, rules);
    AddPiecesBack(Fresh, front, back, rules, |back|);
  }

  /** The groups closed after the first `n` pieces end where they must, and the one being filled need not end yet. */
  ghost predicate PackedSoFar(pieces: seq<Piece>, n: nat, p: Pack, cuts: seq<nat>, rules: Rules)
    requires n <= |pieces|
  {
    && |cuts| == |p.closed| + 1 && cuts[0] == 0 && cuts[|p.closed|] <= n
    && (forall k :: 0 <= k < |p.closed| ==> IsGroup(pieces, p.closed[k], cuts[k], cuts[k + 1], rules))
    && IsOpen(pieces, n, p.current, cuts[|p.closed|], rules)
  }

  ghost predicate IsOpen(pieces: seq<Piece>, n: nat, current: seq<Token>, from: nat, rules: Rules)
    requires from <= n <= |pieces|
  {
    && current == TokensIn(pieces[from..n]) && (current == [] <==> from == n)
    && (forall mid :: from < mid < n ==> !MustEnd(pieces, from, mid, rules))
    && (from < n ==> !(pieces[n - 1].closing && rules.size(current) >= 2400))
  }

  lemma TokensInSnoc(pieces: seq<Piece>, from: nat, n: nat)
    requires from <= n < |pieces|
    ensures TokensIn(pieces[from..n + 1]) == TokensIn(pieces[from..n]) + pieces[n].tokens
  {
    assert pieces[from..n + 1][..n - from] == pieces[from..n];
  }

  /** The group that holds pieces `from` to `n` when it is closed there. */
  lemma ClosedHere(pieces: seq<Piece>, n: nat, p: Pack, cuts: seq<nat>, current: seq<Token>, rules: Rules)
    requires |cuts| == |p.closed| + 1 && cuts[0] == 0
    requires forall k :: 0 <= k < |p.closed| ==> IsGroup(pieces, p.closed[k], cuts[k], cuts[k + 1], rules)
    requires IsGroup(pieces, current, cuts[|p.closed|], n, rules)
    ensures PackedSoFar(pieces, n, Pack(p.closed + [current], []), cuts + [n], rules)
  {
    hide MustEnd, TokensIn;
    assert pieces[n..n] == [];
    assert TokensIn([]) == [] by { NoTokens(); }
    var closed, all := p.closed + [current], cuts + [n];
    forall k | 0 <= k < |closed| ensures IsGroup(pieces, closed[k], all[k], all[k + 1], rules) {
    }
  }

  lemma NoTokens()
    ensures TokensIn([]) == []
  {
  }

  lemma OnePieceMore(pieces: seq<Piece>, n: nat, p: Pack, cuts: seq<nat>, rules: Rules) returns (after: seq<nat>)
    requires n < |pieces| && pieces[n].tokens != [] && PackedSoFar(pieces, n, p, cuts, rules)
    ensures PackedSoFar(pieces, n + 1, AddPiece(p, pieces[n], rules), after, rules)
  {
    hide MustEnd, TokensIn;
    var from, piece := cuts[|p.closed|], pieces[n];
    var fitted := Fit(p, piece.tokens, rules);
    TokensInSnoc(pieces, from, n);
    TokensInSnoc(pieces, n, n);
    assert pieces[n..n] == [];
    NoTokens();
    var begun := cuts;
    if p.current != [] && rules.size(p.current + piece.tokens) > MAX_SSML_BYTES {
      assert MustEnd(pieces, from, n, rules) by { MustEndIs(pieces, from, n, rules); }
      ClosedHere(pieces, n, p, cuts, p.current, rules);
      begun := cuts + [n];
    } else if from < n {
      MustEndIs(pieces, from, n, rules);
    }
    var start := begun[|fitted.closed|];
    assert start <= n && fitted.current == TokensIn(pieces[start..n + 1]);
    assert forall mid :: start < mid < n + 1 ==> !MustEnd(pieces, start, mid, rules);
    if rules.size(fitted.current) >= SOFT_MIN_SSML_BYTES && piece.closing {
      if n + 1 < |pieces| {
        MustEndIs(pieces, start, n + 1, rules);
      }
      ClosedHere(pieces, n + 1, fitted, begun, fitted.current, rules);
      after := begun + [n + 1];
    } else {
      after := begun;
    }
  }

  lemma MustEndIs(pieces: seq<Piece>, from: nat, to: nat, rules: Rules)
    requires from < to < |pieces|
    ensures MustEnd(pieces, from, to, rules)
            <==> rules.size(TokensIn(pieces[from..to + 1])) > 4800
                 || (pieces[to - 1].closing && rules.size(TokensIn(pieces[from..to])) >= 2400)
  {
  }

  lemma {:induction false} PiecesPacked(pieces: seq<Piece>, rules: Rules, n: nat) returns (cuts: seq<nat>)
    requires n <= |pieces| && forall i :: 0 <= i < |pieces| ==> pieces[i].tokens != []
    ensures PackedSoFar(pieces, n, AddPieces(Fresh, pieces, rules, n), cuts, rules)
  {
    if n == 0 {
      hide MustEnd;
      cuts := [0];
      assert pieces[0..0] == [];
    } else {
      hide PackedSoFar, AddPiece;
      var before := PiecesPacked(pieces, rules, n - 1);
      cuts := OnePieceMore(pieces, n - 1, AddPieces(Fresh, pieces, rules, n - 1), before, rules);
    }
  }

  lemma {:induction false} PiecesHoldTokens(sentences: seq<seq<Token>>, rules: Rules, n: nat)
    requires n <= |sentences| && forall k :: 0 <= k < |sentences| ==> sentences[k] != []
    ensures forall i :: 0 <= i < |AllPieces(sentences, rules, n)| ==> AllPieces(sentences, rules, n)[i].tokens != []
  {
    if n > 0 {
      PiecesHoldTokens(sentences, rules, n - 1);
    }
  }

  /**
   * Greedy packing: every segment but the last ends because the next sentence
   * (or the next word, where a sentence does not fit by itself) would take it
   * over 4800 bytes, or because it has at least 2400 bytes and its last
   * sentence is an anchor; and it ends at the first place where it must.
   */
  lemma GroupsAreGreedy(sentences: seq<seq<Token>>, rules: Rules)
    requires forall k :: 0 <= k < |sentences| ==> sentences[k] != []
    ensures PackedGreedily(Groups(sentences, rules), sentences, rules)
  {
    hide AllPieces, AddPieces, PackAll;
    var pieces := AllPieces(sentences, rules, |sentences|);
    PackPieces(sentences, rules, |sentences|);
    PiecesHoldTokens(sentences, rules, |sentences|);
    var cuts := PiecesPacked(pieces, rules, |pieces|);
    var p := PackAll(Fresh, sentences, rules, |sentences|);
    if p.current != [] {
      ClosedHere(pieces, |pieces|, p, cuts, p.current, rules);
      assert IsPacking(pieces, Groups(sentences, rules), cuts + [|pieces|], rules);
    } else {
      assert IsPacking(pieces, Groups(sentences, rules), cuts, rules);
    }
  }

  /** The segments are those of a greedy packing of the sentences. */
  ghost predicate SegmentsPacked(segments: seq<Raw>, sentences: seq<seq<Token>>, rules: Rules) {
    exists groups :: IsSegmentation(segments, groups) && PackedGreedily(groups, sentences, rules)
  }

  /**
   * From pages to segments: the tokenised text cut into sentences, packed
   * greedily by the true sizes of the SSML. The words of the segments are the
   * words of the pages, a segment over the limit holds a single word, and the
   * characters of each are those of its words with a separator between two of
   * them.
   */
  method BuildSsmlSegments(pages: seq<PageText>, pronounce: seq<Text> -> Pronunciation, anchor: Text -> bool)
    returns (segments: seq<Raw>)
    requires OneFormPerWord(pronounce)
    ensures IsSegmentation(segments, Groups(SentencesOf(TokensOfPages(pages, pronounce)), SsmlRules(anchor)))
    ensures SegmentsPacked(segments, SentencesOf(TokensOfPages(pages, pronounce)), SsmlRules(anchor))
    ensures WordsOf(segments) == WordsOfPages(pages, |pages|)
    ensures forall k :: 0 <= k < |segments| ==> segments[k].words != [] && CharsOk(segments[k])
    ensures forall k :: 0 <= k < |segments| ==> |Utf8(segments[k].ssml)| <= MAX_SSML_BYTES || |segments[k].words| == 1
    ensures AllWithin(segments) <==> FormsFit(TokensOfPages(pages, pronounce))
  {
    hide FormsFit, AllWithin, Size, TokenOk, PackedGreedily, Groups;
    var tokens := Tokenize(pages, pronounce);
    var sentences := SplitSentences(tokens);
    SentencesAreCut(tokens);
    SsmlIsCounted(anchor);
    SentencesOk(tokens, sentences);
    segments := PackSentences(sentences, SsmlRules(anchor), anchor);
    SegmentsKeepWords(segments, sentences, SsmlRules(anchor));
    assert WordsOfTokens(tokens) == WordsOfPages(pages, |pages|);
    SegmentsBounded(segments, sentences, anchor);
    GroupsAreGreedy(sentences, SsmlRules(anchor));
    SegmentsCounted(segments, Groups(sentences, SsmlRules(anchor)));
    WithinIff(segments, tokens, anchor);
  }

  // ---- the cache ----

  /** Groups closed before do not matter to what follows. */
  function Under(before: seq<seq<Token>>, p: Pack): Pack {
    Pack(before + p.closed, p.current)
  }

  lemma {:induction false} FitEachUnder(before: seq<seq<Token>>, p: Pack, tokens: seq<Token>, rules: Rules, n: nat)
    requires n <= |tokens|
    ensures FitEach(Under(before, p), tokens, rules, n) == Under(before, FitEach(p, tokens, rules, n))
  {
    if n > 0 {
      FitEachUnder(before, p, tokens, rules, n - 1);
      FitUnder(before, FitEach(p, tokens, rules, n - 1), [tokens[n - 1]], rules);
    }
  }

  lemma FitUnder(before: seq<seq<Token>>, p: Pack, tokens: seq<Token>, rules: Rules)
    ensures Fit(Under(before, p), tokens, rules) == Under(before, Fit(p, tokens, rules))
  {
    assert before + p.closed + [p.current] == before + (p.closed + [p.current]);
  }

  lemma CloseUnder(before: seq<seq<Token>>, p: Pack)
    ensures Close(Under(before, p)) == Under(before, Close(p))
  {
    assert before + p.closed + [p.current] == before + (p.closed + [p.current]);
  }

  lemma AddUnder(before: seq<seq<Token>>, p: Pack, sentence: seq<Token>, rules: Rules)
    ensures AddSentence(Under(before, p), sentence, rules) == Under(before, AddSentence(p, sentence, rules))
  {
    FitUnder(before, p, sentence, rules);
    FitEachUnder(before, p, sentence, rules, |sentence|);
    CloseUnder(before, Fill(p, sentence, rules));
  }

  lemma {:induction false} PackUnder(before: seq<seq<Token>>, p: Pack, sentences: seq<seq<Token>>, rules: Rules, n: nat)
    requires n <= |sentences|
    ensures PackAll(Under(before, p), sentences, rules, n) == Under(before, PackAll(p, sentences, rules, n))
  {
    if n > 0 {
      PackUnder(before, p, sentences, rules, n - 1);
      AddUnder(before, PackAll(p, sentences, rules, n - 1), sentences[n - 1], rules);
    }
  }

  lemma {:induction false} PackConcat(p: Pack, a: seq<seq<Token>>, b: seq<seq<Token>>, rules: Rules, n: nat)
    requires n <= |b|
    ensures PackAll(p, a + b, rules, |a| + n) == PackAll(PackAll(p, a, rules, |a|), b, rules, n)
  {
    if n == 0 {
      PackPrefix(p, a, b, rules, |a|);
    } else {
      PackConcat(p, a, b, rules, n - 1);
    }
  }

  lemma {:induction false} PackPrefix(p: Pack, a: seq<seq<Token>>, b: seq<seq<Token>>, rules: Rules, n: nat)
    requires n <= |a|
    ensures PackAll(p, a + b, rules, n) == PackAll(p, a, rules, n)
  {
    if n > 0 {
      PackPrefix(p, a, b, rules, n - 1);
    }
  }

  lemma RestartedPack(head: seq<seq<Token>>, tail: seq<seq<Token>>, rules: Rules)
    requires PackAll(Fresh, head, rules, |head|).current == []
    ensures PackAll(Fresh, head + tail, rules, |head + tail|)
            == Under(PackAll(Fresh, head, rules, |head|).closed, PackAll(Fresh, tail, rules, |tail|))
  {
    var p := PackAll(Fresh, head, rules, |head|);
    PackConcat(Fresh, head, tail, rules, |tail|);
    assert p == Under(p.closed, Fresh);
    PackUnder(p.closed, Fresh, tail, rules, |tail|);
  }

  /** A run that has just closed a segment continues as if it started there. */
  lemma Restarts(head: seq<seq<Token>>, tail: seq<seq<Token>>, rules: Rules)
    requires PackAll(Fresh, head, rules, |head|).current == []
    ensures Groups(head + tail, rules) == Groups(head, rules) + Groups(tail, rules)
  {
    RestartedPack(head, tail, rules);
    CloseUnder(PackAll(Fresh, head, rules, |head|).closed, PackAll(Fresh, tail, rules, |tail|));
  }

  /**
   * Cache realignment: two texts that share a tail of sentences, each run having
   * just closed a segment before it, share every later segment; only the number
   * of segments before them differs.
   */
  lemma TailsRealign(a: seq<seq<Token>>, b: seq<seq<Token>>, tail: seq<seq<Token>>, rules: Rules, i: nat)
    requires PackAll(Fresh, a, rules, |a|).current == [] && PackAll(Fresh, b, rules, |b|).current == []
    requires i < |Groups(tail, rules)|
    ensures var inA, inB := Groups(a + tail, rules), Groups(b + tail, rules);
            && |inA| - |Groups(a, rules)| == |inB| - |Groups(b, rules)| == |Groups(tail, rules)|
            && inA[|Groups(a, rules)| + i] == inB[|Groups(b, rules)| + i]
  {
    Restarts(a, tail, rules);
    Restarts(b, tail, rules);
  }
}
