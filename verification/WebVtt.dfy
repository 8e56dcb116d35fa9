/**
 * The WebVTT of a part, one cue per word, and a parser of such documents that
 * recovers everything that was printed.
 */
module WebVtt {
  import opened Numbers
  import opened Wrappers
  import opened Words
  import opened PartTimeline

  const LF: CodeUnit := 0x0a
  const CR: CodeUnit := 0x0d
  const MIN_CUE_MS := 1

  const HEADER: Text := ['W' as int, 'E' as int, 'B' as int, 'V' as int, 'T' as int, 'T' as int, LF]
  const ARROW: Text := ['-' as int, '-' as int, '>' as int, ' ' as int]
  const AMP: Text := ['&' as int, 'a' as int, 'm' as int, 'p' as int, ';' as int]
  const LT: Text := ['&' as int, 'l' as int, 't' as int, ';' as int]
  const GT: Text := ['&' as int, 'g' as int, 't' as int, ';' as int]

  // ---- printing ----

  function PadStart(t: Text, width: nat): Text
    decreases width - |t|
  {
    if |t| >= width then t else PadStart(['0' as int] + t, width)
  }

  function Pad(value: nat, width: nat): Text {
    PadStart(Decimal(value), width)
  }

  function Timestamp(ms: nat): Text {
    Pad(ms / 3_600_000, 2) + [':' as int] + Pad(ms % 3_600_000 / 60_000, 2) + [':' as int]
    + Pad(ms % 60_000 / 1000, 2) + ['.' as int] + Pad(ms % 1000, 3)
  }

  /** Every `what` replaced. */
  function ReplaceAll(t: Text, what: CodeUnit, into: Text): Text {
    if t == [] then [] else (if t[0] == what then into else [t[0]]) + ReplaceAll(t[1..], what, into)
  }

  /** One character after the other: ampersands first, then the two brackets. */
  function EscapeCueText(t: Text): Text {
    ReplaceAll(ReplaceAll(ReplaceAll(t, '&' as int, AMP), '<' as int, LT), '>' as int, GT)
  }

  function CueEnd(w: TimedWord): int {
    Max(w.endMs, w.startMs + MIN_CUE_MS)
  }

  function TimingLine(start: nat, end: nat): Text {
    Timestamp(start) + [' ' as int] + ARROW + Timestamp(end)
  }

  function CueText(w: TimedWord): Text
    requires w.startMs >= 0
  {
    Decimal(w.index) + [LF]
    + TimingLine(w.startMs, CueEnd(w)) + [LF]
    + EscapeCueText(w.text) + [LF]
  }

  function CueTexts(words: seq<TimedWord>): Text
    requires forall i :: 0 <= i < |words| ==> words[i].startMs >= 0
  {
    if words == [] then [] else [LF] + CueText(words[0]) + CueTexts(words[1..])
  }

  /** The header and the cues, joined by line breaks. */
  function BuildWebVtt(words: seq<TimedWord>): Text
    requires forall i :: 0 <= i < |words| ==> words[i].startMs >= 0
  {
    HEADER + CueTexts(words)
  }

  // ---- escapes ----

  /** The escape of one unit, whatever surrounds it. */
  function EscapeCueUnit(u: CodeUnit): Text {
    if u == '&' as int then AMP
    else if u == '<' as int then LT
    else if u == '>' as int then GT
    else [u]
  }

  function EscapeEach(t: Text): Text {
    if t == [] then [] else EscapeCueUnit(t[0]) + EscapeEach(t[1..])
  }

  lemma {:induction false} ReplaceConcat(a: Text, b: Text, what: CodeUnit, into: Text)
    ensures ReplaceAll(a + b, what, into) == ReplaceAll(a, what, into) + ReplaceAll(b, what, into)
  {
    if a == [] {
      assert a + b == b;
    } else {
      assert (a + b)[1..] == a[1..] + b;
      ReplaceConcat(a[1..], b, what, into);
    }
  }

  lemma {:induction false} ReplaceAbsent(t: Text, what: CodeUnit, into: Text)
    requires what !in t
    ensures ReplaceAll(t, what, into) == t
  {
    if t != [] {
      ReplaceAbsent(t[1..], what, into);
    }
  }

  lemma ReplaceOne(u: CodeUnit, what: CodeUnit, into: Text)
    ensures ReplaceAll([u], what, into) == if u == what then into else [u]
  {
    assert ReplaceAll([u], what, into) == (if u == what then into else [u]) + ReplaceAll([u][1..], what, into);
  }

  /** The three passes on one unit. */
  lemma EscapeUnitPasses(u: CodeUnit)
    ensures EscapeCueText([u]) == EscapeCueUnit(u)
  {
    var amp, lt := ReplaceAll([u], '&' as int, AMP), LT;
    ReplaceOne(u, '&' as int, AMP);
    if u == '&' as int {
      ReplaceAbsent(AMP, '<' as int, lt);
      ReplaceAbsent(AMP, '>' as int, GT);
    } else {
      ReplaceOne(u, '<' as int, lt);
      if u == '<' as int {
        ReplaceAbsent(lt, '>' as int, GT);
      } else {
        ReplaceOne(u, '>' as int, GT);
      }
    }
  }

  lemma EscapeConcat(a: Text, b: Text)
    ensures EscapeCueText(a + b) == EscapeCueText(a) + EscapeCueText(b)
  {
    var amp, lt, gt := AMP, LT, GT;
    ReplaceConcat(a, b, '&' as int, amp);
    var a1, b1 := ReplaceAll(a, '&' as int, amp), ReplaceAll(b, '&' as int, amp);
    ReplaceConcat(a1, b1, '<' as int, lt);
    ReplaceConcat(ReplaceAll(a1, '<' as int, lt), ReplaceAll(b1, '<' as int, lt), '>' as int, gt);
  }

  /** The three passes are the same as escaping each unit once: no pass touches what another one wrote. */
  lemma {:induction false} PassesEscapeEach(t: Text)
    ensures EscapeCueText(t) == EscapeEach(t)
  {
    if t != [] {
      assert t == [t[0]] + t[1..];
      EscapeConcat([t[0]], t[1..]);
      EscapeUnitPasses(t[0]);
      PassesEscapeEach(t[1..]);
    }
  }

  lemma UnitIsSafe(u: CodeUnit, v: CodeUnit)
    requires v == '<' as int || v == '>' as int || (v == LF && u != LF) || (v == CR && u != CR)
    ensures v !in EscapeCueUnit(u)
  {
  }

  lemma {:induction false} EachIsSafe(t: Text, v: CodeUnit)
    requires v == '<' as int || v == '>' as int || ((v == LF || v == CR) && v !in t)
    ensures v !in EscapeEach(t)
  {
    if t != [] {
      EachIsSafe(t[1..], v);
      UnitIsSafe(t[0], v);
    }
  }

  /** No payload holds an arrow or opens a tag, and one line stays one line. */
  lemma PayloadIsSafe(t: Text)
    ensures '>' as int !in EscapeCueText(t) && '<' as int !in EscapeCueText(t)
    ensures OneLine(t) ==> OneLine(EscapeCueText(t))
  {
    PassesEscapeEach(t);
    EachIsSafe(t, '>' as int);
    EachIsSafe(t, '<' as int);
    if OneLine(t) {
      EachIsSafe(t, LF);
      EachIsSafe(t, CR);
    }
  }

  predicate OneLine(t: Text) {
    LF !in t && CR !in t
  }

  // ---- parsing ----

  datatype Cue = Cue(index: Option<nat>, start: nat, end: nat, text: Text)

  /** What precedes and what follows the first unit that satisfies `stop`. */
  function TakeUntil(t: Text, stop: CodeUnit -> bool): (r: Option<(Text, Text)>)
    ensures r.Some? ==> |r.value.0| + 1 + |r.value.1| == |t|
  {
    if t == [] then None
    else if stop(t[0]) then Some(([], t[1..]))
    else
      var rest := TakeUntil(t[1..], stop);
      if rest.None? then None else Some(([t[0]] + rest.value.0, rest.value.1))
  }

  lemma {:induction false} TakeUntilIs(t: Text, stop: CodeUnit -> bool)
    ensures var r := TakeUntil(t, stop);
            if r.None? then forall i :: 0 <= i < |t| ==> !stop(t[i])
            else
              var (a, b) := r.value;
              && t == a + [t[|a|]] + b && stop(t[|a|])
              && forall i :: 0 <= i < |a| ==> !stop(a[i])
  {
    if t != [] && !stop(t[0]) {
      TakeUntilIs(t[1..], stop);
    }
  }

  function IsLineEnd(u: CodeUnit): bool {
    u == LF || u == CR
  }

  function IsUnit(c: char): CodeUnit -> bool {
    (u: CodeUnit) => u == c as int
  }

  predicate IsDigits(t: Text) {
    t != [] && forall i :: 0 <= i < |t| ==> '0' as int <= t[i] <= '9' as int
  }

  function Value(t: Text): nat
    requires IsDigits(t)
  {
    (if |t| == 1 then 0 else 10 * Value(t[..|t| - 1])) + (t[|t| - 1] - '0' as int)
  }

  function ParseNumber(t: Text): Option<nat> {
    if IsDigits(t) then Some(Value(t)) else None
  }

  /** Hours of two digits or more, minutes and seconds of two, milliseconds of three. */
  function ParseTimestamp(t: Text): Option<nat> {
    var hours := TakeUntil(t, IsUnit(':'));
    if hours.None? then None
    else
      var minutes := TakeUntil(hours.value.1, IsUnit(':'));
      if minutes.None? then None
      else
        var seconds := TakeUntil(minutes.value.1, IsUnit('.'));
        if seconds.None? then None
        else Clock(ParseNumber(hours.value.0), ParseNumber(minutes.value.0), ParseNumber(seconds.value.0),
                   ParseNumber(seconds.value.1))
  }

  function Clock(h: Option<nat>, m: Option<nat>, s: Option<nat>, ms: Option<nat>): Option<nat> {
    if h.None? || m.None? || s.None? || ms.None? || m.value >= 60 || s.value >= 60 || ms.value >= 1000 then None
    else Some(h.value * 3_600_000 + m.value * 60_000 + s.value * 1000 + ms.value)
  }

  function ParseTiming(line: Text): Option<(nat, nat)> {
    var start := TakeUntil(line, IsUnit(' '));
    if start.None? || |start.value.1| < 4 || start.value.1[..4] != ARROW then None
    else
      var from, until := ParseTimestamp(start.value.0), ParseTimestamp(start.value.1[4..]);
      if from.None? || until.None? then None else Some((from.value, until.value))
  }

  predicate StartsWith(t: Text, prefix: Text) {
    |prefix| <= |t| && t[..|prefix|] == prefix
  }

  function Unescape(t: Text): Text {
    if t == [] then []
    else if StartsWith(t, AMP) then ['&' as int] + Unescape(t[5..])
    else if StartsWith(t, LT) then ['<' as int] + Unescape(t[4..])
    else if StartsWith(t, GT) then ['>' as int] + Unescape(t[4..])
    else [t[0]] + Unescape(t[1..])
  }

  /** A carriage return and the line feed after it end one line. */
  function AfterBreak(u: CodeUnit, rest: Text): (r: Text)
    ensures |r| <= |rest|
  {
    if u == CR && StartsWith(rest, [LF]) then rest[1..] else rest
  }

  function Lines(t: Text): seq<Text>
    decreases |t|
  {
    if t == [] then []
    else
      var line := TakeUntil(t, IsLineEnd);
      if line.None? then [t]
      else
        TakeUntilIs(t, IsLineEnd);
        [line.value.0] + Lines(AfterBreak(t[|line.value.0|], line.value.1))
  }

  predicate HasArrow(line: Text) {
    exists i :: 0 <= i <= |line| && StartsWith(line[i..], ARROW[..3])
  }

  /** The lines of a payload: up to a blank line, the timing line of another cue, or the end. */
  function PayloadLines(lines: seq<Text>): (n: nat)
    ensures n <= |lines|
  {
    if lines == [] || lines[0] == [] || HasArrow(lines[0]) then 0 else 1 + PayloadLines(lines[1..])
  }

  function Joined(lines: seq<Text>): Text {
    if lines == [] then [] else if |lines| == 1 then lines[0] else lines[0] + [LF] + Joined(lines[1..])
  }

  /** An identifier if the first line is not a timing line, then the timing line, then the payload. */
  function ParseCue(lines: seq<Text>): (r: Option<(Cue, seq<Text>)>)
    requires lines != []
    ensures r.Some? ==> |r.value.1| < |lines|
  {
    var k := if HasArrow(lines[0]) then 0 else 1;
    if k == |lines| || ParseTiming(lines[k]).None? then None
    else
      var index := if k == 0 then None else ParseNumber(lines[0]);
      var times, body := ParseTiming(lines[k]).value, lines[k + 1..];
      var n := PayloadLines(body);
      Some((Cue(index, times.0, times.1, Unescape(Joined(body[..n]))), body[n..]))
  }

  /** The cues, whatever number of blank lines stands between them. */
  function ParseCues(lines: seq<Text>): Option<seq<Cue>>
    decreases |lines|
  {
    if lines == [] then Some([])
    else if lines[0] == [] then ParseCues(lines[1..])
    else
      var first := ParseCue(lines);
      if first.None? then None
      else
        var rest := ParseCues(first.value.1);
        if rest.None? then None else Some([first.value.0] + rest.value)
  }

  function ParseWebVtt(t: Text): Option<seq<Cue>> {
    var lines := Lines(t);
    if lines != [] && lines[0] == HEADER[..6] then ParseCues(lines[1..]) else None
  }

  // ---- the round trip ----

  lemma {:induction false} TakeUntilFound(a: Text, u: CodeUnit, b: Text, stop: CodeUnit -> bool)
    requires stop(u) && forall i :: 0 <= i < |a| ==> !stop(a[i])
    ensures TakeUntil(a + [u] + b, stop) == Some((a, b))
  {
    var t := a + [u] + b;
    if a == [] {
      assert t[0] == u && t[1..] == b;
    } else {
      assert t[1..] == a[1..] + [u] + b;
      TakeUntilFound(a[1..], u, b, stop);
      assert [a[0]] + a[1..] == a;
    }
  }

  lemma {:induction false} DecimalValue(n: nat)
    ensures IsDigits(Decimal(n)) && Value(Decimal(n)) == n
  {
    if n >= 10 {
      DecimalValue(n / 10);
      var t := Decimal(n);
      assert t[..|t| - 1] == Decimal(n / 10);
    }
  }

  lemma {:induction false} ZeroValue(t: Text)
    requires IsDigits(t)
    ensures IsDigits(['0' as int] + t) && Value(['0' as int] + t) == Value(t)
  {
    var z := ['0' as int] + t;
    if |t| > 1 {
      assert z[..|z| - 1] == ['0' as int] + t[..|t| - 1];
      ZeroValue(t[..|t| - 1]);
    } else {
      assert z[..1] == ['0' as int];
      assert Value(['0' as int]) == 0;
    }
  }

  lemma {:induction false} PadStartValue(t: Text, width: nat)
    requires IsDigits(t)
    ensures IsDigits(PadStart(t, width)) && Value(PadStart(t, width)) == Value(t)
    decreases width - |t|
  {
    if |t| < width {
      ZeroValue(t);
      PadStartValue(['0' as int] + t, width);
    }
  }

  lemma PadParses(value: nat, width: nat)
    ensures IsDigits(Pad(value, width)) && ParseNumber(Pad(value, width)) == Some(value)
  {
    DecimalValue(value);
    PadStartValue(Decimal(value), width);
  }

  lemma Multiple(d: int, k: int)
    requires d > 0
    ensures k >= 1 ==> d * k >= d
    ensures k <= -1 ==> d * k <= -d
  {
  }

  lemma ModUnique(ms: nat, d: nat, q: nat, r: nat)
    requires d > 0 && r < d && ms == d * q + r
    ensures ms % d == r
  {
    var k := ms / d - q;
    assert d * k == r - ms % d;
    Multiple(d, k);
  }

  lemma ClockOf(ms: nat)
    ensures Clock(Some(ms / 3_600_000), Some(ms % 3_600_000 / 60_000), Some(ms % 60_000 / 1000), Some(ms % 1000))
            == Some(ms)
  {
    var h, inHour := ms / 3_600_000, ms % 3_600_000;
    var m, inMinute := inHour / 60_000, inHour % 60_000;
    ModUnique(ms, 60_000, 60 * h + m, inMinute);
    ModUnique(ms, 1000, 3600 * h + 60 * m + inMinute / 1000, inMinute % 1000);
  }

  /** Digits with the marks of a clock between them. */
  lemma ClockSplits(h: Text, m: Text, s: Text, milli: Text)
    requires IsDigits(h) && IsDigits(m) && IsDigits(s) && IsDigits(milli)
    ensures var t := h + [':' as int] + m + [':' as int] + s + ['.' as int] + milli;
            ParseTimestamp(t) == Clock(ParseNumber(h), ParseNumber(m), ParseNumber(s), ParseNumber(milli))
  {
    var t2 := s + ['.' as int] + milli;
    var t1 := m + [':' as int] + t2;
    assert h + [':' as int] + m + [':' as int] + s + ['.' as int] + milli == h + [':' as int] + t1;
    TakeUntilFound(h, ':' as int, t1, IsUnit(':'));
    TakeUntilFound(m, ':' as int, t2, IsUnit(':'));
    TakeUntilFound(s, '.' as int, milli, IsUnit('.'));
  }

  /** Neither a line break nor a space. */
  lemma ClockOneLine(h: Text, m: Text, s: Text, milli: Text)
    requires IsDigits(h) && IsDigits(m) && IsDigits(s) && IsDigits(milli)
    ensures var t := h + [':' as int] + m + [':' as int] + s + ['.' as int] + milli;
            OneLine(t) && ' ' as int !in t
  {
  }

  lemma TimestampParses(ms: nat)
    ensures ParseTimestamp(Timestamp(ms)) == Some(ms)
    ensures OneLine(Timestamp(ms)) && ' ' as int !in Timestamp(ms)
  {
    PadParses(ms / 3_600_000, 2);
    PadParses(ms % 3_600_000 / 60_000, 2);
    PadParses(ms % 60_000 / 1000, 2);
    PadParses(ms % 1000, 3);
    ClockSplits(Pad(ms / 3_600_000, 2), Pad(ms % 3_600_000 / 60_000, 2), Pad(ms % 60_000 / 1000, 2), Pad(ms % 1000, 3));
    ClockOneLine(Pad(ms / 3_600_000, 2), Pad(ms % 3_600_000 / 60_000, 2), Pad(ms % 60_000 / 1000, 2),
                 Pad(ms % 1000, 3));
    ClockOf(ms);
  }

  lemma TimingParses(start: nat, end: nat)
    ensures var line := TimingLine(start, end);
            && ParseTiming(line) == Some((start, end))
            && OneLine(line)
  {
    TimestampParses(start);
    TimestampParses(end);
    var line := Timestamp(start) + [' ' as int] + ARROW + Timestamp(end);
    assert line == Timestamp(start) + [' ' as int] + (ARROW + Timestamp(end));
    TakeUntilFound(Timestamp(start), ' ' as int, ARROW + Timestamp(end), IsUnit(' '));
    assert (ARROW + Timestamp(end))[..4] == ARROW && (ARROW + Timestamp(end))[4..] == Timestamp(end);
  }

  lemma UnescapeUnit(u: CodeUnit, rest: Text)
    ensures Unescape(EscapeCueUnit(u) + rest) == [u] + Unescape(rest)
  {
    var all := EscapeCueUnit(u) + rest;
    if u == '&' as int {
      assert all[..5] == AMP && all[5..] == rest;
    } else if u == '<' as int {
      assert all[..4] == LT && all[4..] == rest && all[1] != AMP[1];
    } else if u == '>' as int {
      assert all[..4] == GT && all[4..] == rest && all[1] != AMP[1] && all[1] != LT[1];
    } else {
      assert all[0] != '&' as int && all[1..] == rest;
      assert AMP[0] == LT[0] == GT[0] == '&' as int;
    }
  }

  lemma {:induction false} UnescapeEach(t: Text)
    ensures Unescape(EscapeEach(t)) == t
  {
    if t != [] {
      UnescapeEach(t[1..]);
      UnescapeUnit(t[0], EscapeEach(t[1..]));
    }
  }

  lemma EscapeEachConcat(a: Text, b: Text)
    ensures EscapeEach(a + b) == EscapeEach(a) + EscapeEach(b)
  {
    EscapeConcat(a, b);
    PassesEscapeEach(a);
    PassesEscapeEach(b);
    PassesEscapeEach(a + b);
  }

  lemma EscapeEachLine(line: Text, rest: Text)
    ensures EscapeEach(line + [LF] + rest) == EscapeEach(line) + [LF] + EscapeEach(rest)
  {
    EscapeEachConcat(line + [LF], rest);
    EscapeEachConcat(line, [LF]);
    assert EscapeEach([LF]) == [LF];
  }

  // ---- lines ----

  lemma LineSplits(line: Text, rest: Text)
    requires OneLine(line)
    ensures Lines(line + [LF] + rest) == [line] + Lines(rest)
  {
    TakeUntilFound(line, LF, rest, IsLineEnd);
    assert (line + [LF] + rest)[|line|] == LF;
  }

  lemma LastLine(line: Text)
    requires OneLine(line)
    ensures Lines(line + [LF]) == [line]
  {
    LineSplits(line, []);
    assert line + [LF] + [] == line + [LF];
  }

  /** The first line of a text that has several. */
  lemma FirstBreak(t: Text) returns (a: Text, b: Text)
    requires CR !in t && LF in t
    ensures t == a + [LF] + b && OneLine(a) && CR !in b
  {
    TakeUntilIs(t, IsLineEnd);
    var r := TakeUntil(t, IsLineEnd);
    a, b := r.value.0, r.value.1;
    assert t[|a|] in t;
    forall u | u in b ensures u in t {
    }
  }

  lemma {:induction false} LinesSplit(t: Text, rest: Text)
    requires CR !in t
    ensures Lines(t + [LF] + rest) == Lines(t + [LF]) + Lines(rest)
    decreases |t|
  {
    hide Lines, TakeUntil;
    if LF !in t {
      LineSplits(t, rest);
      LastLine(t);
    } else {
      var a, b := FirstBreak(t);
      LinesSplit(b, rest);
      LineSplits(a, b + [LF] + rest);
      LineSplits(a, b + [LF]);
      assert t + [LF] + rest == a + [LF] + (b + [LF] + rest);
      assert t + [LF] == a + [LF] + (b + [LF]);
    }
  }

  lemma {:induction false} LinesJoin(t: Text)
    requires CR !in t
    ensures Lines(t + [LF]) != [] && Joined(Lines(t + [LF])) == t
    decreases |t|
  {
    if LF !in t {
      LastLine(t);
    } else {
      var a, b := FirstBreak(t);
      LinesJoin(b);
      LineSplits(a, b + [LF]);
      assert t + [LF] == a + [LF] + (b + [LF]);
      assert ([a] + Lines(b + [LF]))[1..] == Lines(b + [LF]);
    }
  }

  function EscapeLines(lines: seq<Text>): (r: seq<Text>)
    ensures |r| == |lines|
  {
    if lines == [] then [] else [EscapeEach(lines[0])] + EscapeLines(lines[1..])
  }

  /** Escaping adds no line and takes none away. */
  lemma {:induction false} LinesOfEscaped(t: Text)
    requires CR !in t
    ensures Lines(EscapeEach(t) + [LF]) == EscapeLines(Lines(t + [LF]))
    decreases |t|
  {
    hide Lines, TakeUntil, EscapeEach;
    if LF !in t {
      EachIsSafe(t, LF);
      EachIsSafe(t, CR);
      LastLine(t);
      LastLine(EscapeEach(t));
    } else {
      var a, b := FirstBreak(t);
      LinesOfEscaped(b);
      EachIsSafe(a, LF);
      EachIsSafe(a, CR);
      EscapeEachLine(a, b);
      LineSplits(a, b + [LF]);
      LineSplits(EscapeEach(a), EscapeEach(b) + [LF]);
      assert t + [LF] == a + [LF] + (b + [LF]);
      assert EscapeEach(t) + [LF] == EscapeEach(a) + [LF] + (EscapeEach(b) + [LF]);
      assert ([a] + Lines(b + [LF]))[1..] == Lines(b + [LF]);
    }
  }

  lemma {:induction false} EscapeLinesAt(lines: seq<Text>, i: nat)
    requires i < |lines|
    ensures EscapeLines(lines)[i] == EscapeEach(lines[i])
    ensures EscapeLines(lines)[..i] == EscapeLines(lines[..i])
  {
    if i > 0 {
      EscapeLinesAt(lines[1..], i - 1);
      assert lines[..i][1..] == lines[1..][..i - 1];
      assert EscapeLines(lines)[..i] == [EscapeEach(lines[0])] + EscapeLines(lines[1..])[..i - 1];
    }
  }

  lemma {:induction false} EscapedJoin(lines: seq<Text>)
    ensures Joined(EscapeLines(lines)) == EscapeEach(Joined(lines))
  {
    if |lines| > 1 {
      EscapedJoin(lines[1..]);
      EscapeEachLine(lines[0], Joined(lines[1..]));
    }
  }

  /** What is read of the first lines of an escaped payload. */
  lemma ReadsBack(lines: seq<Text>, n: nat)
    requires n <= |lines|
    ensures Unescape(Joined(EscapeLines(lines)[..n])) == Joined(lines[..n])
  {
    if n < |lines| {
      EscapeLinesAt(lines, n);
    } else {
      assert lines[..n] == lines && EscapeLines(lines)[..n] == EscapeLines(lines);
    }
    EscapedJoin(lines[..n]);
    UnescapeEach(Joined(lines[..n]));
  }

  lemma {:induction false} JoinedShorter(lines: seq<Text>, n: nat)
    requires n < |lines| && Joined(lines) != []
    ensures |Joined(lines[..n])| < |Joined(lines)|
  {
    if n == 1 {
      assert lines[..1] == [lines[0]];
    } else if n > 1 {
      assert lines[..n][1..] == lines[1..][..n - 1];
      JoinedShorter(lines[1..], n - 1);
    }
  }

  lemma {:induction false} LinesAreOneLine(t: Text)
    ensures forall i :: 0 <= i < |Lines(t)| ==> OneLine(Lines(t)[i])
    decreases |t|
  {
    if t != [] {
      TakeUntilIs(t, IsLineEnd);
      var r := TakeUntil(t, IsLineEnd);
      if r.Some? {
        LinesAreOneLine(AfterBreak(t[|r.value.0|], r.value.1));
      }
    }
  }

  lemma {:induction false} JoinedHasNoReturn(lines: seq<Text>)
    requires forall i :: 0 <= i < |lines| ==> OneLine(lines[i])
    ensures CR !in Joined(lines)
  {
    if |lines| > 1 {
      JoinedHasNoReturn(lines[1..]);
    }
  }

  lemma {:induction false} UnescapeAddsNoReturn(t: Text)
    requires CR !in t
    ensures CR !in Unescape(t)
    decreases |t|
  {
    if t != [] {
      if StartsWith(t, AMP) {
        UnescapeAddsNoReturn(t[5..]);
      } else if StartsWith(t, LT) || StartsWith(t, GT) {
        UnescapeAddsNoReturn(t[4..]);
      } else {
        UnescapeAddsNoReturn(t[1..]);
      }
    }
  }

  // ---- payloads ----

  /** A text that a payload can carry: no carriage return, and no blank line unless it is empty. */
  predicate Legible(t: Text) {
    CR !in t && (t == [] || [] !in Lines(t + [LF]))
  }

  lemma OneLineIsLegible(t: Text)
    requires OneLine(t)
    ensures Legible(t)
  {
    LastLine(t);
  }

  lemma {:induction false} PayloadEnds(payload: seq<Text>, rest: seq<Text>)
    requires forall i :: 0 <= i < |payload| ==> payload[i] != [] && !HasArrow(payload[i])
    requires rest == [] || rest[0] == []
    ensures PayloadLines(payload + rest) == |payload|
  {
    if payload == [] {
      assert payload + rest == rest;
    } else {
      assert (payload + rest)[1..] == payload[1..] + rest;
      PayloadEnds(payload[1..], rest);
    }
  }

  lemma {:induction false} PayloadStops(lines: seq<Text>, i: nat)
    requires i < |lines| && lines[i] == []
    ensures PayloadLines(lines) <= i
  {
    if i > 0 {
      PayloadStops(lines[1..], i - 1);
    }
  }

  lemma NoArrow(line: Text)
    requires '>' as int !in line
    ensures !HasArrow(line)
  {
    forall i | 0 <= i <= |line| ensures !StartsWith(line[i..], ARROW[..3]) {
      if i + 3 <= |line| {
        assert line[i..][..3][2] == line[i + 2] && ARROW[..3][2] == '>' as int;
      }
    }
  }

  lemma LegibleLines(lines: seq<Text>)
    requires [] !in lines
    ensures var payload := EscapeLines(lines);
            forall i :: 0 <= i < |payload| ==> payload[i] != [] && !HasArrow(payload[i])
  {
    hide HasArrow;
    forall i | 0 <= i < |lines| ensures EscapeLines(lines)[i] != [] && !HasArrow(EscapeLines(lines)[i]) {
      EscapeLinesAt(lines, i);
      assert lines[i] in lines;
      EachIsSafe(lines[i], '>' as int);
      NoArrow(EscapeEach(lines[i]));
    }
  }

  /** The payload of a legible text ends where its text does. */
  lemma LegibleReadsBack(t: Text, rest: Text)
    requires Legible(t) && (rest == [] || rest[0] == LF)
    ensures var body := Lines(EscapeCueText(t) + [LF] + rest);
            var n := PayloadLines(body);
            && Unescape(Joined(body[..n])) == t
            && (body[n..] == Lines(rest) || body[n..] == [[]] + Lines(rest))
  {
    PassesEscapeEach(t);
    EachIsSafe(t, CR);
    LinesSplit(EscapeEach(t), rest);
    LinesOfEscaped(t);
    LinesJoin(t);
    var lines, payload := Lines(t + [LF]), Lines(EscapeEach(t) + [LF]);
    RestIsBlank(rest);
    if t == [] {
      LastLine(t);
      assert payload == [[]] && PayloadLines(payload + Lines(rest)) == 0;
    } else {
      hide Lines, Unescape, EscapeCueText, EscapeEach, Joined, HasArrow, PayloadLines;
      LegibleLines(lines);
      PayloadEnds(payload, Lines(rest));
      assert (payload + Lines(rest))[..|payload|] == payload && (payload + Lines(rest))[|payload|..] == Lines(rest);
      ReadsBack(lines, |lines|);
      assert lines[..|lines|] == lines && payload[..|payload|] == payload;
    }
  }

  lemma RestIsBlank(rest: Text)
    requires rest == [] || rest[0] == LF
    ensures Lines(rest) == [] || Lines(rest)[0] == []
  {
    if rest != [] {
      LineSplits([], rest[1..]);
      assert [] + [LF] + rest[1..] == rest;
    }
  }

  /** Of any other text something else is read. */
  lemma IllegibleIsLost(t: Text, rest: Text)
    requires !Legible(t)
    ensures var body := Lines(EscapeCueText(t) + [LF] + rest);
            Unescape(Joined(body[..PayloadLines(body)])) != t
  {
    var body := Lines(EscapeCueText(t) + [LF] + rest);
    var n := PayloadLines(body);
    if CR in t {
      LinesAreOneLine(EscapeCueText(t) + [LF] + rest);
      JoinedHasNoReturn(body[..n]);
      UnescapeAddsNoReturn(Joined(body[..n]));
    } else {
      PassesEscapeEach(t);
      EachIsSafe(t, CR);
      LinesSplit(EscapeEach(t), rest);
      LinesOfEscaped(t);
      LinesJoin(t);
      var lines := Lines(t + [LF]);
      var i :| 0 <= i < |lines| && lines[i] == [];
      EscapeLinesAt(lines, i);
      PayloadStops(body, i);
      assert body[..n] == EscapeLines(lines)[..n];
      ReadsBack(lines, n);
      JoinedShorter(lines, n);
    }
  }

  // ---- cues ----

  function CueOf(w: TimedWord): (cue: Cue)
    requires w.startMs >= 0
    ensures cue.start < cue.end
  {
    Cue(Some(w.index), w.startMs, CueEnd(w), w.text)
  }

  function CuesOf(words: seq<TimedWord>): (cues: seq<Cue>)
    requires forall i :: 0 <= i < |words| ==> words[i].startMs >= 0
    ensures |cues| == |words| && forall i :: 0 <= i < |cues| ==> cues[i].start < cues[i].end
  {
    seq(|words|, i requires 0 <= i < |words| => CueOf(words[i]))
  }

  lemma CuesCons(words: seq<TimedWord>)
    requires words != [] && forall i :: 0 <= i < |words| ==> words[i].startMs >= 0
    ensures CuesOf(words) == [CueOf(words[0])] + CuesOf(words[1..])
  {
  }

  /** The identifier is no timing line; the second line is one. */
  lemma HeadOfCue(w: TimedWord)
    requires w.startMs >= 0
    ensures var id, timing := Decimal(w.index), TimingLine(w.startMs, CueEnd(w));
            && OneLine(id) && id != [] && !HasArrow(id) && ParseNumber(id) == Some(w.index)
            && OneLine(timing) && ParseTiming(timing) == Some((w.startMs, CueEnd(w)))
  {
    DecimalValue(w.index);
    NoArrow(Decimal(w.index));
    TimingParses(w.startMs, CueEnd(w));
  }

  function LinesFrom(w: TimedWord, rest: Text): (lines: seq<Text>)
    requires w.startMs >= 0
    ensures lines != [] && lines[0] != []
  {
    HeadOfCue(w);
    [Decimal(w.index), TimingLine(w.startMs, CueEnd(w))] + Lines(EscapeCueText(w.text) + [LF] + rest)
  }

  lemma LinesAssoc(id: Text, timing: Text, payload: Text, rest: Text)
    ensures [LF] + (id + [LF] + timing + [LF] + payload + [LF]) + rest
            == [] + [LF] + (id + [LF] + (timing + [LF] + (payload + [LF] + rest)))
  {
  }

  lemma LinesOfCue(w: TimedWord, rest: Text)
    requires w.startMs >= 0
    ensures Lines([LF] + CueText(w) + rest) == [[]] + LinesFrom(w, rest)
  {
    hide TimingLine, EscapeCueText, Decimal, Lines;
    var id, timing, payload := Decimal(w.index), TimingLine(w.startMs, CueEnd(w)), EscapeCueText(w.text);
    var t2 := payload + [LF] + rest;
    var t1 := timing + [LF] + t2;
    HeadOfCue(w);
    LineSplits([], id + [LF] + t1);
    LineSplits(id, t1);
    LineSplits(timing, t2);
    LinesAssoc(id, timing, payload, rest);
  }

  /** The lines of one cue are read as the cue exactly when its text is legible; the next cues follow. */
  lemma CueParses(w: TimedWord, rest: Text)
    requires w.startMs >= 0 && (rest == [] || rest[0] == LF)
    ensures var r := ParseCue(LinesFrom(w, rest));
            if Legible(w.text) then
              && r.Some? && r.value.0 == CueOf(w)
              && (r.value.1 == Lines(rest) || r.value.1 == [[]] + Lines(rest))
            else r.Some? && r.value.0.text != w.text
  {
    hide TimingLine, EscapeCueText, Decimal, Lines, Legible, HasArrow, ParseTiming, ParseNumber, Unescape, Joined,
      PayloadLines;
    HeadOfCue(w);
    var body := Lines(EscapeCueText(w.text) + [LF] + rest);
    assert LinesFrom(w, rest)[2..] == body;
    if Legible(w.text) {
      LegibleReadsBack(w.text, rest);
    } else {
      IllegibleIsLost(w.text, rest);
    }
  }

  /** A blank line, one cue, and what follows it. */
  lemma CueThenRest(lines: seq<Text>, rest: seq<Text>)
    requires lines != [] && lines[0] != []
    ensures var r := ParseCue(lines);
            r.Some? && (r.value.1 == rest || r.value.1 == [[]] + rest) ==>
              ParseCues([[]] + lines)
              == if ParseCues(rest).None? then None else Some([r.value.0] + ParseCues(rest).value)
    ensures ParseCue(lines).Some? ==>
              var all := ParseCues([[]] + lines);
              all.None? || (all.value != [] && all.value[0] == ParseCue(lines).value.0)
  {
    hide ParseCue;
    assert ([[]] + lines)[1..] == lines;
    assert ([[]] + rest)[1..] == rest;
    assert ParseCues([[]] + lines) == ParseCues(lines);
    assert ParseCues([[]] + rest) == ParseCues(rest);
  }

  lemma ConsParses(w: TimedWord, rest: Text, cues: seq<Cue>)
    requires w.startMs >= 0 && (rest == [] || rest[0] == LF)
    ensures ParseCues(Lines([LF] + CueText(w) + rest)) == Some([CueOf(w)] + cues)
            <==> Legible(w.text) && ParseCues(Lines(rest)) == Some(cues)
  {
    hide CueText, Legible, ParseCues, ParseCue, Lines, LinesFrom;
    CueParses(w, rest);
    LinesOfCue(w, rest);
    CueThenRest(LinesFrom(w, rest), Lines(rest));
    var after := ParseCues(Lines(rest));
    if Legible(w.text) && after.Some? {
      assert ([CueOf(w)] + after.value)[1..] == after.value && ([CueOf(w)] + cues)[1..] == cues;
    } else if !Legible(w.text) {
      assert ([CueOf(w)] + cues)[0].text == w.text;
    }
  }

  predicate AllLegible(words: seq<TimedWord>) {
    forall i :: 0 <= i < |words| ==> Legible(words[i].text)
  }

  lemma AllLegibleCons(words: seq<TimedWord>)
    requires words != []
    ensures AllLegible(words) <==> Legible(words[0].text) && AllLegible(words[1..])
  {
    hide Legible;
    if AllLegible(words[1..]) && Legible(words[0].text) {
      forall i | 0 <= i < |words| ensures Legible(words[i].text) {
        assert i > 0 ==> words[i] == words[1..][i - 1];
      }
    }
  }

  lemma {:induction false} CuesParse(words: seq<TimedWord>)
    requires forall i :: 0 <= i < |words| ==> words[i].startMs >= 0
    ensures ParseCues(Lines(CueTexts(words))) == Some(CuesOf(words)) <==> AllLegible(words)
  {
    if words != [] {
      hide CueText, CuesOf, Legible, AllLegible, ParseCues, Lines;
      CuesParse(words[1..]);
      CuesCons(words);
      AllLegibleCons(words);
      ConsParses(words[0], CueTexts(words[1..]), CuesOf(words[1..]));
    }
  }

  lemma HeaderIsLine()
    ensures HEADER == HEADER[..6] + [LF] && OneLine(HEADER[..6])
  {
  }

  /**
   * Round trip: a parser gets back every word's index, start, end (raised to
   * one millisecond after the start) and text, exactly when each text is
   * legible, as every word of a page is.
   */
  lemma WebVttRoundTrip(words: seq<TimedWord>)
    requires forall i :: 0 <= i < |words| ==> words[i].startMs >= 0
    ensures ParseWebVtt(BuildWebVtt(words)) == Some(CuesOf(words)) <==> AllLegible(words)
  {
    hide Lines, CueTexts, ParseCues, AllLegible, CuesOf;
    var header, cues := HEADER[..6], CueTexts(words);
    HeaderIsLine();
    LineSplits(header, cues);
    assert ([header] + Lines(cues))[1..] == Lines(cues);
    CuesParse(words);
  }
}
