/** What an engine reads in the SSML of a segment: one mark and one spoken form per word, in order. */
module SsmlReader {
  import opened Wrappers
  import opened Words
  import opened Encoding
  import opened Tokenizer
  import opened Pipeline
  import opened Segmenter
  import PartTimeline
  import WebVtt

  // ---- reading ----

  /** The first character of a text and the units it takes: one of the five entities of XML, or a unit for itself. */
  function Entity(t: Text): (first: (CodeUnit, nat))
    requires t != []
    ensures 1 <= first.1 <= |t|
  {
    if WebVtt.StartsWith(t, Ascii("&amp;")) then ('&' as int, 5)
    else if WebVtt.StartsWith(t, Ascii("&lt;")) then ('<' as int, 4)
    else if WebVtt.StartsWith(t, Ascii("&gt;")) then ('>' as int, 4)
    else if WebVtt.StartsWith(t, Ascii("&quot;")) then ('"' as int, 6)
    else if WebVtt.StartsWith(t, Ascii("&apos;")) then ('\'' as int, 6)
    else (t[0], 1)
  }

  function Unescape(t: Text): Text {
    if t == [] then [] else [Entity(t).0] + Unescape(t[Entity(t).1..])
  }

  /** What is said after a mark. */
  datatype Said = Said(mark: Text, form: Text)

  /** The blank before the next mark is not said. */
  function WithoutBlank(form: Text, rest: Text): Text {
    if WebVtt.StartsWith(rest, Ascii("mark")) && form != [] && form[|form| - 1] == ' ' as int
    then form[..|form| - 1]
    else form
  }

  /** What follows an opening angle bracket: the end of the document, or a mark and what is said after it. */
  function ReadMarks(t: Text): Option<seq<Said>>
    decreases |t|
  {
    if t == Ascii("/speak>") then Some([])
    else if !WebVtt.StartsWith(t, Ascii("mark name=\"")) then None
    else
      var name := WebVtt.TakeUntil(t[11..], WebVtt.IsUnit('"'));
      if name.None? || !WebVtt.StartsWith(name.value.1, Ascii("/>")) then None
      else
        var form := WebVtt.TakeUntil(name.value.1[2..], WebVtt.IsUnit('<'));
        if form.None? then None
        else
          var more := ReadMarks(form.value.1);
          if more.None? then None
          else Some([Said(name.value.0, Unescape(WithoutBlank(form.value.0, form.value.1)))] + more.value)
  }

  function ReadSsml(t: Text): Option<seq<Said>> {
    if WebVtt.StartsWith(t, Ascii("<speak><")) then ReadMarks(t[8..]) else None
  }

  // ---- reading back ----

  lemma StartsAlike(t: Text, prefix: Text, i: nat)
    requires i < |prefix| && WebVtt.StartsWith(t, prefix)
    ensures t[i] == prefix[i]
  {
    assert t[i] == t[..|prefix|][i];
  }

  lemma EntityIsUnit(u: CodeUnit, rest: Text)
    ensures Entity(EscapeUnit(u) + rest) == (u, |EscapeUnit(u)|)
  {
    hide WebVtt.StartsWith;
    var t := EscapeUnit(u) + rest;
    assert WebVtt.StartsWith(t, EscapeUnit(u)) by { StartsWithIt(EscapeUnit(u), rest); }
    if WebVtt.StartsWith(t, Ascii("&amp;")) { StartsAlike(t, Ascii("&amp;"), 0); StartsAlike(t, Ascii("&amp;"), 2); }
    if WebVtt.StartsWith(t, Ascii("&lt;")) { StartsAlike(t, Ascii("&lt;"), 0); StartsAlike(t, Ascii("&lt;"), 1); }
    if WebVtt.StartsWith(t, Ascii("&gt;")) { StartsAlike(t, Ascii("&gt;"), 0); StartsAlike(t, Ascii("&gt;"), 1); }
    if WebVtt.StartsWith(t, Ascii("&quot;")) { StartsAlike(t, Ascii("&quot;"), 0); StartsAlike(t, Ascii("&quot;"), 1); }
    if WebVtt.StartsWith(t, Ascii("&apos;")) { StartsAlike(t, Ascii("&apos;"), 0); StartsAlike(t, Ascii("&apos;"), 2); }
  }

  lemma StartsWithIt(a: Text, b: Text)
    ensures WebVtt.StartsWith(a + b, a)
  {
  }

  lemma UnescapeUnit(u: CodeUnit, rest: Text)
    ensures Unescape(EscapeUnit(u) + rest) == [u] + Unescape(rest)
  {
    hide Entity, EscapeUnit;
    EntityIsUnit(u, rest);
    SomeUnits(u);
    assert (EscapeUnit(u) + rest)[|EscapeUnit(u)|..] == rest;
  }

  lemma SomeUnits(u: CodeUnit)
    ensures EscapeUnit(u) != []
  {
  }

  lemma {:induction false} UnescapeEscaped(t: Text)
    ensures Unescape(EscapeXml(t)) == t
  {
    if t != [] {
      UnescapeEscaped(t[1..]);
      UnescapeUnit(t[0], EscapeXml(t[1..]));
    }
  }

  lemma {:induction false} EscapedHasNoAngle(t: Text)
    ensures '<' as int !in EscapeXml(t)
  {
    if t != [] {
      EscapedHasNoAngle(t[1..]);
    }
  }

  /** What follows the opening angle bracket of token `i`, or of the end of the document. */
  function From(tokens: seq<Token>, i: nat): Text
    requires i <= |tokens|
    decreases |tokens| - i
  {
    if i == |tokens| then Ascii("/speak>") else MarkAndForm(tokens[i], i, i + 1 < |tokens|, From(tokens, i + 1))
  }

  function MarkAndForm(token: Token, i: nat, blank: bool, next: Text): Text {
    var form := EscapeXml(token.spoken) + (if blank then [' ' as int] else []);
    Ascii("mark name=\"") + (['w' as int] + Decimal(i) + ['"' as int] + (Ascii("/>") + (form + ['<' as int] + next)))
  }

  lemma MarkIsRead(token: Token, i: nat, blank: bool, next: Text)
    requires blank == WebVtt.StartsWith(next, Ascii("mark"))
    requires ReadMarks(next).Some?
    ensures ReadMarks(MarkAndForm(token, i, blank, next))
            == Some([Said(PartTimeline.MarkName(i), token.spoken)] + ReadMarks(next).value)
  {
    hide ReadMarks, EscapeXml, Unescape;
    var form := EscapeXml(token.spoken) + (if blank then [' ' as int] else []);
    var after := Ascii("/>") + (form + ['<' as int] + next);
    var t := MarkAndForm(token, i, blank, next);
    var name := PartTimeline.MarkName(i);
    assert t[..11] == Ascii("mark name=\"") && t[11..] == name + ['"' as int] + after;
    WebVtt.DecimalValue(i);
    WebVtt.TakeUntilFound(name, '"' as int, after, WebVtt.IsUnit('"'));
    assert after[..2] == Ascii("/>") && after[2..] == form + ['<' as int] + next;
    EscapedHasNoAngle(token.spoken);
    WebVtt.TakeUntilFound(form, '<' as int, next, WebVtt.IsUnit('<'));
    assert WithoutBlank(form, next) == EscapeXml(token.spoken);
    UnescapeEscaped(token.spoken);
    ReadOne(t, name, after, form, next);
  }

  lemma ReadOne(t: Text, name: Text, after: Text, form: Text, next: Text)
    requires WebVtt.StartsWith(t, Ascii("mark name=\"")) && WebVtt.StartsWith(after, Ascii("/>"))
    requires WebVtt.TakeUntil(t[11..], WebVtt.IsUnit('"')) == Some((name, after))
    requires WebVtt.TakeUntil(after[2..], WebVtt.IsUnit('<')) == Some((form, next))
    requires ReadMarks(next).Some?
    ensures ReadMarks(t) == Some([Said(name, Unescape(WithoutBlank(form, next)))] + ReadMarks(next).value)
  {
    hide Unescape, WithoutBlank;
    assert t[0] == 'm' as int;
  }

  /** The marks and the forms of the tokens from `i` on. */
  function Spoken(tokens: seq<Token>, i: nat): (said: seq<Said>)
    requires i <= |tokens|
    ensures |said| == |tokens| - i
  {
    seq(|tokens| - i, k requires 0 <= k < |tokens| - i =>
      Said(PartTimeline.MarkName(i + k), tokens[i + k].spoken))
  }

  lemma {:induction false} FromIsRead(tokens: seq<Token>, i: nat)
    requires i <= |tokens|
    ensures ReadMarks(From(tokens, i)) == Some(Spoken(tokens, i))
    decreases |tokens| - i
  {
    hide ReadMarks;
    if i < |tokens| {
      FromIsRead(tokens, i + 1);
      FromStarts(tokens, i + 1);
      MarkIsRead(tokens[i], i, i + 1 < |tokens|, From(tokens, i + 1));
      assert Spoken(tokens, i) == [Said(PartTimeline.MarkName(i), tokens[i].spoken)] + Spoken(tokens, i + 1);
    } else {
      EndIsRead();
      assert Spoken(tokens, i) == [];
    }
  }

  lemma EndIsRead()
    ensures ReadMarks(Ascii("/speak>")) == Some([])
  {
  }

  lemma FromStarts(tokens: seq<Token>, i: nat)
    requires i <= |tokens|
    ensures WebVtt.StartsWith(From(tokens, i), Ascii("mark")) == (i < |tokens|)
  {
    if i < |tokens| {
      var t := From(tokens, i);
      assert t[..11] == Ascii("mark name=\"");
      assert t[..4] == t[..11][..4] == Ascii("mark");
    } else {
      assert Ascii("/speak>")[0] != Ascii("mark")[0];
    }
  }

  /** The document up to the opening angle bracket of token `i`. */
  function Until(tokens: seq<Token>, i: nat): Text
    requires i <= |tokens|
  {
    Body(tokens, i) + (if i < |tokens| then Separator(i) else [])
  }

  lemma {:induction false} BodyIsFrom(tokens: seq<Token>, i: nat)
    requires i <= |tokens|
    ensures Until(tokens, i) + ['<' as int] + From(tokens, i) == Body(tokens, |tokens|) + SPEAK_CLOSE
    decreases |tokens| - i
  {
    hide Body, SPEAK_CLOSE;
    if i < |tokens| {
      hide From;
      BodyIsFrom(tokens, i + 1);
      OneTokenMore(tokens, i);
    } else {
      Opening();
      assert From(tokens, i) == Ascii("/speak>");
    }
  }

  lemma OneTokenMore(tokens: seq<Token>, i: nat)
    requires i < |tokens|
    ensures Until(tokens, i) + ['<' as int] + From(tokens, i)
            == Until(tokens, i + 1) + ['<' as int] + From(tokens, i + 1)
  {
    hide EscapeXml, From, Body, MarkTag;
    var blank: Text := if i + 1 < |tokens| then [' ' as int] else [];
    var next := From(tokens, i + 1);
    OneFrom(tokens, i);
    OneBody(tokens, i);
    MarkIsTag(tokens[i], i, i + 1 < |tokens|, next);
    Regroup(Body(tokens, i), Separator(i), MarkTag(i), EscapeXml(tokens[i].spoken), blank, next,
            MarkAndForm(tokens[i], i, i + 1 < |tokens|, next));
  }

  lemma MarkIsTag(token: Token, i: nat, blank: bool, next: Text)
    ensures ['<' as int] + MarkAndForm(token, i, blank, next)
            == MarkTag(i) + (EscapeXml(token.spoken) + (if blank then [' ' as int] else []) + ['<' as int] + next)
  {
    hide EscapeXml, Decimal;
    assert ['<' as int] + Ascii("mark name=\"") + ['w' as int] == Ascii("<mark name=\"w");
    assert ['"' as int] + Ascii("/>") == Ascii("\"/>");
  }

  lemma Regroup(body: Text, separator: Text, tag: Text, form: Text, blank: Text, next: Text, mark: Text)
    requires ['<' as int] + mark == tag + (form + blank + ['<' as int] + next)
    ensures (body + separator) + ['<' as int] + mark
            == (body + (separator + tag) + form) + blank + ['<' as int] + next
  {
    assert (body + separator) + ['<' as int] + mark == body + separator + (['<' as int] + mark);
  }

  lemma NothingBefore(tokens: seq<Token>)
    ensures Until(tokens, 0) == []
  {
  }

  lemma Opening()
    ensures SPEAK_OPEN + ['<' as int] == Ascii("<speak><")
    ensures ['<' as int] + Ascii("/speak>") == SPEAK_CLOSE
  {
    var a, b := SPEAK_OPEN + ['<' as int], Ascii("<speak><");
    assert a[0] == b[0] && a[1] == b[1] && a[2] == b[2] && a[3] == b[3];
    assert a[4] == b[4] && a[5] == b[5] && a[6] == b[6] && a[7] == b[7];
  }

  lemma OneFrom(tokens: seq<Token>, i: nat)
    requires i < |tokens|
    ensures From(tokens, i) == MarkAndForm(tokens[i], i, i + 1 < |tokens|, From(tokens, i + 1))
  {
  }

  lemma OneBody(tokens: seq<Token>, i: nat)
    requires i < |tokens|
    ensures Body(tokens, i + 1) == Body(tokens, i) + (Separator(i) + MarkTag(i)) + EscapeXml(tokens[i].spoken)
  {
  }

  /** The SSML says the form of every word, whatever its characters, after a mark with the number of the word. */
  lemma SsmlIsRead(tokens: seq<Token>)
    requires tokens != []
    ensures ReadSsml(Ssml(tokens)) == Some(Spoken(tokens, 0))
  {
    hide ReadMarks, From, EscapeXml, Body, SPEAK_OPEN, SPEAK_CLOSE;
    BodyIsFrom(tokens, 0);
    FromIsRead(tokens, 0);
    NothingBefore(tokens);
    Opening();
    var t := Ssml(tokens);
    assert t == SPEAK_OPEN + (Body(tokens, |tokens|) + SPEAK_CLOSE);
    assert t == SPEAK_OPEN + ['<' as int] + From(tokens, 0);
    assert t[8..] == From(tokens, 0) && t[..8] == Ascii("<speak><");
  }

  // ---- the whole text ----

  /** The segment says these forms, one for each of its words, each after the mark with the number of its word. */
  predicate IsSaid(segment: Raw, forms: seq<Text>) {
    && |forms| == |segment.words|
    && ReadSsml(segment.ssml) == Some(seq(|forms|, i requires 0 <= i < |forms| =>
                                          Said(PartTimeline.MarkName(i), forms[i])))
  }

  /** Read one after the other, the segments say these forms. */
  ghost predicate AreSaid(segments: seq<Raw>, forms: seq<Text>) {
    exists parts :: |parts| == |segments| && Flatten(parts) == forms
                    && forall k :: 0 <= k < |segments| ==> IsSaid(segments[k], parts[k])
  }

  function Forms(tokens: seq<Token>): (forms: seq<Text>)
    ensures |forms| == |tokens|
  {
    seq(|tokens|, i requires 0 <= i < |tokens| => tokens[i].spoken)
  }

  function FormsOfEach(groups: seq<seq<Token>>): (parts: seq<seq<Text>>)
    ensures |parts| == |groups|
  {
    seq(|groups|, k requires 0 <= k < |groups| => Forms(groups[k]))
  }

  lemma {:induction false} FormsInOrder(groups: seq<seq<Token>>)
    ensures Flatten(FormsOfEach(groups)) == Forms(Flatten(groups))
  {
    if groups != [] {
      FormsInOrder(groups[1..]);
      assert FormsOfEach(groups)[1..] == FormsOfEach(groups[1..]);
      assert Forms(groups[0] + Flatten(groups[1..])) == Forms(groups[0]) + Forms(Flatten(groups[1..]));
    }
  }

  lemma GroupIsSaid(group: seq<Token>)
    requires group != []
    ensures IsSaid(ToSegment(group), Forms(group))
  {
    hide ReadSsml, Ssml;
    SsmlIsRead(group);
    assert Spoken(group, 0)
        == seq(|group|, i requires 0 <= i < |group| => Said(PartTimeline.MarkName(i), Forms(group)[i]));
  }

  lemma SegmentsAreSaid(segments: seq<Raw>, groups: seq<seq<Token>>)
    requires IsSegmentation(segments, groups)
    ensures AreSaid(segments, Forms(Flatten(groups)))
  {
    hide IsSaid, ToSegment;
    var parts := FormsOfEach(groups);
    FormsInOrder(groups);
    forall k | 0 <= k < |groups| ensures IsSaid(segments[k], parts[k]) {
      GroupIsSaid(groups[k]);
    }
  }

  lemma FormsAreThose(pages: seq<PageText>, pronounce: seq<Text> -> Pronunciation)
    requires OneFormPerWord(pronounce)
    ensures Forms(TokensOfPages(pages, pronounce)) == pronounce(Texts(WordsOfPages(pages, |pages|))).spoken
  {
    hide WordsOfPages;
  }

  /** Whatever the words and their readings, an engine that reads the segments says all of them, in order. */
  lemma EveryWordIsSaid(pages: seq<PageText>, pronounce: seq<Text> -> Pronunciation, anchor: Text -> bool,
                        segments: seq<Raw>)
    requires OneFormPerWord(pronounce)
    requires IsSegmentation(segments, Groups(SentencesOf(TokensOfPages(pages, pronounce)), SsmlRules(anchor)))
    ensures AreSaid(segments, pronounce(Texts(WordsOfPages(pages, |pages|))).spoken)
  {
    var tokens := TokensOfPages(pages, pronounce);
    GroupsAreSaid(tokens, anchor, segments);
    FormsAreThose(pages, pronounce);
  }

  lemma GroupsAreSaid(tokens: seq<Token>, anchor: Text -> bool, segments: seq<Raw>)
    requires IsSegmentation(segments, Groups(SentencesOf(tokens), SsmlRules(anchor)))
    ensures AreSaid(segments, Forms(tokens))
  {
    hide AreSaid, IsSegmentation, Groups, SentencesOf, Forms, SsmlRules;
    SegmentsAreSaid(segments, Groups(SentencesOf(tokens), SsmlRules(anchor)));
    GroupsPartition(SentencesOf(tokens), SsmlRules(anchor));
    SentencesKeepTokens(tokens);
  }

  lemma SentencesKeepTokens(tokens: seq<Token>)
    ensures Flatten(SentencesOf(tokens)) == tokens
  {
    hide SentencesOf;
    SentencesAreCut(tokens);
  }
}
