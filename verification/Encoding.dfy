/** UTF-8 lengths of UTF-16 text, with the XML escapes of an SSML document. */
module Encoding {
  import opened Words

  type Byte = x: int | 0 <= x < 0x100

  predicate IsHigh(u: CodeUnit) {
    0xd800 <= u < 0xdc00
  }

  predicate IsLow(u: CodeUnit) {
    0xdc00 <= u < 0xe000
  }

  predicate StartsPair(text: Text) {
    |text| >= 2 && IsHigh(text[0]) && IsLow(text[1])
  }

  /** The code points of a text, as `for … of` visits them; a surrogate without its half stands for itself. */
  function CodePoints(text: Text): seq<nat> {
    if text == [] then []
    else if StartsPair(text) then [0x1_0000 + (text[0] - 0xd800) * 0x400 + (text[1] - 0xdc00)] + CodePoints(text[2..])
    else [text[0]] + CodePoints(text[1..])
  }

  /** The UTF-8 form of a code point (section 3 of RFC 3629); a lone surrogate becomes U+FFFD. */
  function EncodePoint(c: nat): seq<Byte>
    requires c < 0x11_0000
  {
    if c < 0x80 then [c]
    else if c < 0x800 then [0xc0 + c / 0x40, 0x80 + c % 0x40]
    else if 0xd800 <= c < 0xe000 then [0xef, 0xbf, 0xbd]
    else if c < 0x1_0000 then [0xe0 + c / 0x1000, 0x80 + c / 0x40 % 0x40, 0x80 + c % 0x40]
    else [0xf0 + c / 0x4_0000, 0x80 + c / 0x1000 % 0x40, 0x80 + c / 0x40 % 0x40, 0x80 + c % 0x40]
  }

  function Encode(points: seq<nat>): seq<Byte>
    requires forall i :: 0 <= i < |points| ==> points[i] < 0x11_0000
  {
    if points == [] then [] else EncodePoint(points[0]) + Encode(points[1..])
  }

  lemma {:induction false} PointsInRange(text: Text)
    ensures forall i :: 0 <= i < |CodePoints(text)| ==> CodePoints(text)[i] < 0x11_0000
  {
    if text != [] {
      PointsInRange(if StartsPair(text) then text[2..] else text[1..]);
    }
  }

  /** What `TextEncoder` writes. */
  function Utf8(text: Text): seq<Byte> {
    PointsInRange(text);
    Encode(CodePoints(text))
  }

  /** No pair of surrogates straddles the boundary. */
  predicate Splits(a: Text, b: Text) {
    a == [] || b == [] || !(IsHigh(a[|a| - 1]) && IsLow(b[0]))
  }

  lemma {:induction false} CodePointsConcat(a: Text, b: Text)
    requires Splits(a, b)
    ensures CodePoints(a + b) == CodePoints(a) + CodePoints(b)
    decreases |a|
  {
    if a == [] {
      assert a + b == b;
    } else if StartsPair(a) {
      assert (a + b)[2..] == a[2..] + b;
      CodePointsConcat(a[2..], b);
    } else {
      assert (a + b)[1..] == a[1..] + b;
      CodePointsConcat(a[1..], b);
    }
  }

  lemma {:induction false} EncodeConcat(a: seq<nat>, b: seq<nat>)
    requires forall i :: 0 <= i < |a| ==> a[i] < 0x11_0000
    requires forall i :: 0 <= i < |b| ==> b[i] < 0x11_0000
    ensures Encode(a + b) == Encode(a) + Encode(b)
  {
    if a == [] {
      assert a + b == b;
    } else {
      assert (a + b)[1..] == a[1..] + b;
      EncodeConcat(a[1..], b);
    }
  }

  lemma Utf8Concat(a: Text, b: Text)
    requires Splits(a, b)
    ensures Utf8(a + b) == Utf8(a) + Utf8(b)
  {
    PointsInRange(a);
    PointsInRange(b);
    CodePointsConcat(a, b);
    EncodeConcat(CodePoints(a), CodePoints(b));
  }

  predicate IsAscii(text: Text) {
    forall i :: 0 <= i < |text| ==> text[i] < 0x80
  }

  lemma Utf8One(u: CodeUnit)
    ensures |Utf8([u])| == if u < 0x80 then 1 else if u < 0x800 then 2 else 3
  {
    assert CodePoints([u]) == [u] + CodePoints([u][1..]);
    assert Encode([u]) == EncodePoint(u) + Encode([u][1..]);
  }

  lemma {:induction false} AsciiLength(text: Text)
    requires IsAscii(text)
    ensures |Utf8(text)| == |text|
  {
    if text != [] {
      assert text == [text[0]] + text[1..];
      Utf8Concat([text[0]], text[1..]);
      Utf8One(text[0]);
      AsciiLength(text[1..]);
    }
  }

  // ---- XML escapes ----

  /** The five reserved characters; every other unit stands for itself. */
  function EscapeUnit(u: CodeUnit): Text {
    if u == '&' as int then Ascii("&amp;")
    else if u == '<' as int then Ascii("&lt;")
    else if u == '>' as int then Ascii("&gt;")
    else if u == '"' as int then Ascii("&quot;")
    else if u == '\'' as int then Ascii("&apos;")
    else [u]
  }

  function EscapeXml(text: Text): Text {
    if text == [] then [] else EscapeUnit(text[0]) + EscapeXml(text[1..])
  }

  lemma EscapeEdges(text: Text)
    requires text != []
    ensures EscapeXml(text) != []
    ensures IsLow(EscapeXml(text)[0]) <==> IsLow(text[0])
    ensures IsHigh(EscapeXml(text)[0]) <==> IsHigh(text[0])
  {
  }

  lemma {:induction false} EscapeTwo(text: Text)
    requires |text| >= 2
    ensures EscapeXml(text) == EscapeUnit(text[0]) + EscapeUnit(text[1]) + EscapeXml(text[2..])
  {
    assert text[1..][1..] == text[2..];
  }

  /** UTF-8 bytes of one escaped code point. */
  function PointBytes(c: nat): nat {
    if c < 0x80 then |EscapeUnit(c)|
    else if c < 0x800 then 2
    else if c < 0x1_0000 then 3
    else 4
  }

  function PointsBytes(points: seq<nat>): nat {
    if points == [] then 0 else PointBytes(points[0]) + PointsBytes(points[1..])
  }

  lemma EscapedUnitBytes(u: CodeUnit)
    ensures |Utf8(EscapeUnit(u))| == PointBytes(u)
  {
    if EscapeUnit(u) == [u] {
      Utf8One(u);
    } else {
      AsciiLength(EscapeUnit(u));
    }
  }

  lemma PairBytes(high: CodeUnit, low: CodeUnit)
    requires IsHigh(high) && IsLow(low)
    ensures |Utf8([high, low])| == 4
  {
    var c := 0x1_0000 + (high - 0xd800) * 0x400 + (low - 0xdc00);
    assert CodePoints([high, low]) == [c] + CodePoints([high, low][2..]);
    assert Encode([c]) == EncodePoint(c) + Encode([c][1..]);
  }

  /** Escaping first and encoding then weighs what the code points weigh one by one. */
  lemma {:induction false} EscapedBytes(text: Text)
    ensures |Utf8(EscapeXml(text))| == PointsBytes(CodePoints(text))
  {
    if text == [] {
    } else if StartsPair(text) {
      EscapedBytes(text[2..]);
      EscapeTwo(text);
      var pair := [text[0], text[1]];
      assert EscapeXml(text) == pair + EscapeXml(text[2..]);
      Utf8Concat(pair, EscapeXml(text[2..]));
      PairBytes(text[0], text[1]);
    } else {
      EscapedBytes(text[1..]);
      if text[1..] != [] {
        EscapeEdges(text[1..]);
      }
      UnitEdges(text[0]);
      Utf8Concat(EscapeUnit(text[0]), EscapeXml(text[1..]));
      EscapedUnitBytes(text[0]);
    }
  }

  lemma UnitEdges(u: CodeUnit)
    ensures EscapeUnit(u) != []
    ensures IsHigh(EscapeUnit(u)[|EscapeUnit(u)| - 1]) <==> IsHigh(u)
  {
  }

  /** The size of the escaped text, without building it. */
  method EscapedByteLength(text: Text) returns (bytes: nat)
    ensures bytes == |Utf8(EscapeXml(text))|
  {
    bytes := 0;
    var rest := text;
    while rest != []
      invariant bytes + PointsBytes(CodePoints(rest)) == PointsBytes(CodePoints(text))
      decreases |rest|
    {
      var code := CodePoints(rest)[0];
      if code < 0x80 {
        bytes := bytes + 1 + EscapeExtra(code);
      } else if code < 0x800 {
        bytes := bytes + 2;
      } else if code < 0x1_0000 {
        bytes := bytes + 3;
      } else {
        bytes := bytes + 4;
      }
      var next := if StartsPair(rest) then rest[2..] else rest[1..];
      assert CodePoints(rest)[1..] == CodePoints(next);
      rest := next;
    }
    EscapedBytes(text);
  }

  /** Bytes added by the escape of a reserved character. */
  function EscapeExtra(code: nat): nat {
    if code == '&' as int then 4
    else if code == '<' as int || code == '>' as int then 3
    else if code == '"' as int || code == '\'' as int then 5
    else 0
  }
}
