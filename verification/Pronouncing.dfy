/**
 * The spoken form of each displayed word: rules tried in order, each deciding
 * the form of one word or of a run of words. The word lists are parameters.
 */
module Pronouncing {
  import opened Wrappers
  import opened Words
  import opened Tokenizer
  import Roman

  // ---- a word and its punctuation ----

  /** The punctuation around a word: `lead + core + trail` is the word. */
  datatype Parts = Parts(lead: Text, core: Text, trail: Text)

  const DOT: CodeUnit := '.' as int
  const BAR: CodeUnit := '|' as int

  predicate IsLeading(u: CodeUnit) {
    u == 0xab || u == 0x201c || u == '"' as int || u == '(' as int || u == '[' as int
  }

  predicate IsTrailing(u: CodeUnit) {
    || u == 0xbb || u == 0x201d || u == '"' as int || u == ')' as int || u == ']' as int || u == ',' as int
    || u == ';' as int || u == ':' as int || u == '!' as int || u == '?' as int || u == 0x2026
  }

  /** All leading marks first, then all trailing ones; what lies between is bounded by neither. */
  predicate ArePartsOf(parts: Parts, word: Text) {
    && parts.lead + parts.core + parts.trail == word
    && (forall k :: 0 <= k < |parts.lead| ==> IsLeading(parts.lead[k]))
    && (forall k :: 0 <= k < |parts.trail| ==> IsTrailing(parts.trail[k]))
    && (parts.core != [] ==> !IsLeading(parts.core[0]) && !IsTrailing(parts.core[|parts.core| - 1]))
    && (parts.core == [] && parts.trail != [] ==> !IsLeading(parts.trail[0]))
  }

  lemma LeadEnds(a: Parts, word: Text)
    requires ArePartsOf(a, word)
    ensures |a.lead| < |word| ==> !IsLeading(word[|a.lead|])
    ensures |a.lead| <= |word| && forall k :: 0 <= k < |a.lead| ==> IsLeading(word[k])
  {
    assert word == a.lead + (a.core + a.trail);
    assert a.core + a.trail != [] ==> !IsLeading((a.core + a.trail)[0]);
  }

  lemma TrailEnds(core: Text, trail: Text, whole: Text)
    requires whole == core + trail
    requires core != [] ==> !IsTrailing(core[|core| - 1])
    requires forall k :: 0 <= k < |trail| ==> IsTrailing(trail[k])
    ensures |core| <= |whole| && (core != [] ==> !IsTrailing(whole[|core| - 1]))
    ensures forall k :: |core| <= k < |whole| ==> IsTrailing(whole[k])
  {
  }

  /** A word is taken apart in one way only. */
  lemma PartsAreUnique(a: Parts, b: Parts, word: Text)
    requires ArePartsOf(a, word) && ArePartsOf(b, word)
    ensures a == b
  {
    hide IsLeading, IsTrailing;
    LeadEnds(a, word);
    LeadEnds(b, word);
    assert |a.lead| == |b.lead|;
    SameSplit(a.lead, a.core + a.trail, b.lead, b.core + b.trail, word);
    SameTrail(a, b);
  }

  lemma SameSplit(a: Text, restA: Text, b: Text, restB: Text, whole: Text)
    requires a + restA == whole == b + restB && |a| == |b|
    ensures a == b && restA == restB
  {
    assert a == whole[..|a|] == b;
    assert restA == whole[|a|..] == restB;
  }

  lemma SameTrail(a: Parts, b: Parts)
    requires a.core + a.trail == b.core + b.trail
    requires a.core != [] ==> !IsTrailing(a.core[|a.core| - 1])
    requires b.core != [] ==> !IsTrailing(b.core[|b.core| - 1])
    requires forall k :: 0 <= k < |a.trail| ==> IsTrailing(a.trail[k])
    requires forall k :: 0 <= k < |b.trail| ==> IsTrailing(b.trail[k])
    ensures a.core == b.core && a.trail == b.trail
  {
    hide IsTrailing;
    var whole := a.core + a.trail;
    TrailEnds(a.core, a.trail, whole);
    TrailEnds(b.core, b.trail, whole);
    assert |a.core| == |b.core|;
    SameSplit(a.core, a.trail, b.core, b.trail, whole);
  }

  function LeadEnd(word: Text, i: nat): (end: nat)
    requires i <= |word|
    ensures i <= end <= |word| && (forall k :: i <= k < end ==> IsLeading(word[k]))
            && (end < |word| ==> !IsLeading(word[end]))
    decreases |word| - i
  {
    if i == |word| || !IsLeading(word[i]) then i else LeadEnd(word, i + 1)
  }

  function TrailStart(word: Text, start: nat, end: nat): (first: nat)
    requires start <= end <= |word|
    ensures start <= first <= end && (forall k :: first <= k < end ==> IsTrailing(word[k]))
    ensures first > start ==> !IsTrailing(word[first - 1])
  {
    if end == start || !IsTrailing(word[end - 1]) then end else TrailStart(word, start, end - 1)
  }

  function PartsFrom(word: Text): (parts: Parts)
    ensures ArePartsOf(parts, word)
  {
    var start := LeadEnd(word, 0);
    var end := TrailStart(word, start, |word|);
    assert word[..start] + word[start..end] + word[end..] == word;
    Parts(word[..start], word[start..end], word[end..])
  }

  method PartsOf(word: Text) returns (parts: Parts)
    ensures parts == PartsFrom(word)
  {
    var start := 0;
    while start < |word| && IsLeading(word[start])
      invariant start <= |word| && LeadEnd(word, start) == LeadEnd(word, 0)
    {
      start := start + 1;
    }
    var end := |word|;
    while end > start && IsTrailing(word[end - 1])
      invariant start <= end <= |word| && TrailStart(word, start, end) == TrailStart(word, start, |word|)
      decreases end
    {
      end := end - 1;
    }
    parts := Parts(word[..start], word[start..end], word[end..]);
  }

  function PartsList(words: seq<Text>): (parts: seq<Parts>)
    ensures |parts| == |words|
  {
    seq(|words|, i requires 0 <= i < |words| => PartsFrom(words[i]))
  }

  predicate EndsWithDot(core: Text) {
    core != [] && core[|core| - 1] == DOT
  }

  function WithoutFinalDot(core: Text): Text {
    if EndsWithDot(core) then core[..|core| - 1] else core
  }

  function FinalDot(core: Text): Text {
    if EndsWithDot(core) then [DOT] else []
  }

  function Shown(p: Parts): Text {
    p.lead + p.core + p.trail
  }

  // ---- readings ----

  /** The word lists, and the rules that only look words up in them. */
  datatype Lexicon = Lexicon(
    lower: Text -> Text,
    isRomanKeyword: Text -> bool,
    date: Text -> Option<Text>,
    currency: Text -> Option<Text>,
    pair: (Text, Text) -> Option<Text>,
    abbreviation: Text -> Option<Text>,
    contextual: (Text, Text) -> Option<Text>,
    acronym: Text -> Option<Text>)

  /** An abbreviation in two words has two words. */
  ghost predicate PairsAreTwo(lexicon: Lexicon) {
    forall core {:trigger lexicon.pair(core, [])} :: lexicon.pair(core, []).None?
  }

  /** The forms of a run of words; no form when the rule does not apply. */
  datatype Reading = Reading(forms: seq<Text>, abbreviation: seq<bool>)

  const NOTHING := Reading([], [])

  function One(form: Text, abbreviation: bool): Reading {
    Reading([form], [abbreviation])
  }

  function Else(a: Reading, b: Reading): Reading {
    if a.forms != [] then a else b
  }

  function Say(p: Parts, text: Text): Text {
    p.lead + text + p.trail
  }

  function SayStem(p: Parts, text: Text): Text {
    p.lead + (text + FinalDot(p.core)) + p.trail
  }

  function Absorbed(p: Parts, keepFinalDot: bool): Text {
    (if keepFinalDot then FinalDot(p.core) else []) + p.trail
  }

  function CoreAt(parts: seq<Parts>, k: int): Text {
    if 0 <= k < |parts| then parts[k].core else []
  }

  function Bare(lexicon: Lexicon, parts: seq<Parts>, k: int): Text {
    if 0 <= k < |parts| then lexicon.lower(WithoutFinalDot(parts[k].core)) else []
  }

  function Stem(lookup: Text -> Option<Text>, p: Parts): Reading {
    match lookup(WithoutFinalDot(p.core))
    case None => NOTHING
    case Some(text) => One(SayStem(p, text), false)
  }

  function Separator(parts: seq<Parts>, i: nat): Reading
    requires i < |parts|
  {
    if parts[i].core == [BAR] then One([',' as int], false) else NOTHING
  }

  // ---- Roman numerals ----

  predicate IsRomanLetter(u: CodeUnit) {
    u == 'I' as int || u == 'V' as int || u == 'X' as int || u == 'L' as int || u == 'C' as int || u == 'D' as int
      || u == 'M' as int
  }

  predicate IsRoman(t: Text) {
    t != [] && forall k :: 0 <= k < |t| ==> IsRomanLetter(t[k])
  }

  function Letters(t: Text): (s: string)
    ensures |s| == |t|
  {
    seq(|t|, i requires 0 <= i < |t| => if t[i] < 0x80 then t[i] as char else '?')
  }

  /** How many Roman letters the text begins with. */
  function RomanPrefix(t: Text, n: nat): (end: nat)
    requires n <= |t|
    ensures n <= end <= |t| && forall k :: n <= k < end ==> IsRomanLetter(t[k])
    ensures end < |t| ==> !IsRomanLetter(t[end])
    decreases |t| - n
  {
    if n == |t| || !IsRomanLetter(t[n]) then n else RomanPrefix(t, n + 1)
  }

  /** er, re, e, ème or eme. */
  predicate IsOrdinalEnding(t: Text) {
    var e, r, m := 'e' as int, 'r' as int, 'm' as int;
    t == [e, r] || t == [r, e] || t == [e] || t == [0xe8, m, e] || t == [e, m, e]
  }

  /** siècle */
  const CENTURY: Text := ['s' as int, 'i' as int, 0xe8, 'c' as int, 'l' as int, 'e' as int]

  function RomanAfterKeyword(isKeyword: Text -> bool, core: Text, previous: Text, following: Text): Option<Text> {
    if IsRoman(core) && isKeyword(previous) then
      var value := Roman.RomanValue(Letters(core));
      if value.None? then None else Some(Decimal(value.value))
    else
      var n := RomanPrefix(core, 0);
      if n > 0 && IsOrdinalEnding(core[n..]) && CENTURY <= following then
        var value := Roman.RomanValue(Letters(core[..n]));
        if value.None? then None
        else Some(if value.value == 1 then ['1' as int, 'e' as int, 'r' as int]
                  else Decimal(value.value) + ['e' as int])
      else None
  }

  function RomanNumeral(lexicon: Lexicon, parts: seq<Parts>, i: nat): Reading
    requires i < |parts|
  {
    var previous, following := Bare(lexicon, parts, i - 1), Bare(lexicon, parts, i + 1);
    Stem(core => RomanAfterKeyword(lexicon.isRomanKeyword, core, previous, following), parts[i])
  }

  // ---- grouped numbers ----

  predicate AreDigits(t: Text) {
    forall k :: 0 <= k < |t| ==> '0' as int <= t[k] <= '9' as int
  }

  predicate IsFirstGroup(t: Text) {
    1 <= |t| <= 3 && AreDigits(t)
  }

  predicate IsNextGroup(t: Text) {
    |t| == 3 && AreDigits(t)
  }

  /** The pieces between the dots. */
  function DotGroups(core: Text): (groups: seq<Text>)
    ensures groups != []
  {
    if core == [] then [[]]
    else
      var rest := DotGroups(core[1..]);
      if core[0] == DOT then [[]] + rest else [[core[0]] + rest[0]] + rest[1..]
  }

  /** 1.000.000: at least two dots; 1.000 alone is ambiguous. */
  predicate IsDottedNumber(core: Text) {
    var groups := DotGroups(core);
    |groups| >= 3 && IsFirstGroup(groups[0]) && forall k :: 1 <= k < |groups| ==> IsNextGroup(groups[k])
  }

  function Undotted(core: Text): Text {
    if core == [] then [] else (if core[0] == DOT then [] else [core[0]]) + Undotted(core[1..])
  }

  predicate Continues(p: Parts) {
    p.lead == [] && IsNextGroup(WithoutFinalDot(p.core))
  }

  /** Punctuation or a final dot ends the number. */
  predicate Stops(p: Parts) {
    p.trail != [] || EndsWithDot(p.core)
  }

  /** Where the run of groups from `j` on ends: as far as groups go on, and no further than a stop. */
  function GroupsEnd(parts: seq<Parts>, j: nat): (end: nat)
    requires j <= |parts|
    ensures j <= end <= |parts| && (forall k :: j <= k < end ==> Continues(parts[k]))
    ensures forall k :: j <= k < end - 1 ==> !Stops(parts[k])
    ensures end < |parts| && (end == j || !Stops(parts[end - 1])) ==> !Continues(parts[end])
    decreases |parts| - j
  {
    if j == |parts| || !Continues(parts[j]) then j else if Stops(parts[j]) then j + 1 else GroupsEnd(parts, j + 1)
  }

  predicate BeginsNumber(p: Parts) {
    p.trail == [] && IsFirstGroup(p.core)
  }

  /** The words of the grouped number at `i`, or 0; not after another small number. */
  function GroupedLength(parts: seq<Parts>, i: nat): (length: nat)
    requires i < |parts|
    ensures length != 1 && i + length <= |parts|
  {
    if !BeginsNumber(parts[i]) || (i > 0 && BeginsNumber(parts[i - 1])) then 0
    else
      var length := GroupsEnd(parts, i + 1) - i;
      if length > 1 then length else 0
  }

  method GroupedNumberLength(parts: seq<Parts>, i: nat) returns (length: nat)
    requires i < |parts|
    ensures length == GroupedLength(parts, i)
  {
    hide IsFirstGroup, IsNextGroup, WithoutFinalDot, EndsWithDot;
    if parts[i].trail != [] || !IsFirstGroup(parts[i].core) {
      return 0;
    }
    if i > 0 && parts[i - 1].trail == [] && IsFirstGroup(parts[i - 1].core) {
      return 0;
    }
    length := 1;
    while i + length < |parts|
      invariant 1 <= length && i + length <= |parts| && GroupsEnd(parts, i + length) == GroupsEnd(parts, i + 1)
      decreases |parts| - length
    {
      var next := parts[i + length];
      if next.lead != [] || !IsNextGroup(WithoutFinalDot(next.core)) {
        break;
      }
      if next.trail != [] || EndsWithDot(next.core) {
        return length + 1;
      }
      length := length + 1;
    }
    length := if length > 1 then length else 0;
  }

  function Digits(parts: seq<Parts>, i: nat, end: nat): Text
    requires i <= end <= |parts|
    decreases end - i
  {
    if i == end then [] else WithoutFinalDot(parts[i].core) + Digits(parts, i + 1, end)
  }

  method JoinDigits(parts: seq<Parts>, i: nat, end: nat) returns (digits: Text)
    requires i <= end <= |parts|
    ensures digits == Digits(parts, i, end)
  {
    digits := [];
    for j := i to end
      invariant digits + Digits(parts, j, end) == Digits(parts, i, end)
    {
      Assoc(digits, WithoutFinalDot(parts[j].core), Digits(parts, j + 1, end));
      digits := digits + WithoutFinalDot(parts[j].core);
    }
  }

  function AbsorbedFrom(parts: seq<Parts>, i: nat, end: nat): (forms: seq<Text>)
    requires i <= end <= |parts|
    ensures |forms| == end - i
    decreases end - i
  {
    if i == end then [] else [Absorbed(parts[i], true)] + AbsorbedFrom(parts, i + 1, end)
  }

  function DottedNumber(p: Parts): Reading {
    if IsDottedNumber(p.core) then One(Say(p, Undotted(p.core)), false) else NOTHING
  }

  function SpacedNumber(parts: seq<Parts>, i: nat): (r: Reading)
    requires i < |parts|
    ensures |r.forms| == |r.abbreviation| == GroupedLength(parts, i)
  {
    var length := GroupedLength(parts, i);
    if length == 0 then NOTHING
    else Reading([Say(parts[i], Digits(parts, i, i + length))] + AbsorbedFrom(parts, i + 1, i + length),
                 seq(length, _ => false))
  }

  function GroupedNumber(parts: seq<Parts>, i: nat): (r: Reading)
    requires i < |parts|
    ensures |r.forms| == |r.abbreviation| <= |parts| - i
  {
    Else(DottedNumber(parts[i]), SpacedNumber(parts, i))
  }

  // ---- amounts and abbreviations ----

  /** cfa */
  const CFA: Text := ['c' as int, 'f' as int, 'a' as int]

  /** francs CFA */
  const FRANCS: Text :=
    ['f' as int, 'r' as int, 'a' as int, 'n' as int, 'c' as int, 's' as int, ' ' as int, 'C' as int, 'F' as int,
     'A' as int]

  function Amount(lexicon: Lexicon, parts: seq<Parts>, i: nat): Reading
    requires i < |parts|
  {
    if i + 1 < |parts| && parts[i].core == ['F' as int] && Bare(lexicon, parts, i + 1) == CFA then
      Reading([Say(parts[i], FRANCS), Absorbed(parts[i + 1], true)], [false, false])
    else Stem(lexicon.currency, parts[i])
  }

  function SafeAbbreviation(lexicon: Lexicon, parts: seq<Parts>, i: nat): Reading
    requires i < |parts|
  {
    var pair := lexicon.pair(parts[i].core, CoreAt(parts, i + 1));
    if pair.Some? && i + 1 < |parts| then
      Reading([Say(parts[i], pair.value), Absorbed(parts[i + 1], false)], [true, true])
    else
      match lexicon.abbreviation(parts[i].core)
      case None => NOTHING
      case Some(text) => One(Say(parts[i], text), EndsWithDot(parts[i].core))
  }

  function Contextual(lexicon: Lexicon, parts: seq<Parts>, i: nat): Reading
    requires i < |parts|
  {
    match lexicon.contextual(parts[i].core, CoreAt(parts, i + 1))
    case None => NOTHING
    case Some(text) => One(Say(parts[i], text), true)
  }

  // ---- the rules in order ----

  /** The first rule that applies takes the word; without one, the word is read as it is shown. */
  function Step(lexicon: Lexicon, parts: seq<Parts>, i: nat): (r: Reading)
    requires i < |parts|
    ensures 1 <= |r.forms| == |r.abbreviation| <= |parts| - i
  {
    Else(FirstRule(lexicon, parts, i), One(Shown(parts[i]), false))
  }

  function FirstRule(lexicon: Lexicon, parts: seq<Parts>, i: nat): (r: Reading)
    requires i < |parts|
    ensures |r.forms| == |r.abbreviation| <= |parts| - i
  {
    Else(MarkRule(lexicon, parts, i), Else(NumberRule(lexicon, parts, i), AbbreviationRule(lexicon, parts, i)))
  }

  function MarkRule(lexicon: Lexicon, parts: seq<Parts>, i: nat): (r: Reading)
    requires i < |parts|
    ensures |r.forms| == |r.abbreviation| <= 1
  {
    Else(Separator(parts, i), Else(RomanNumeral(lexicon, parts, i), Stem(lexicon.date, parts[i])))
  }

  function NumberRule(lexicon: Lexicon, parts: seq<Parts>, i: nat): (r: Reading)
    requires i < |parts|
    ensures |r.forms| == |r.abbreviation| <= |parts| - i
  {
    Else(GroupedNumber(parts, i), Amount(lexicon, parts, i))
  }

  function AbbreviationRule(lexicon: Lexicon, parts: seq<Parts>, i: nat): (r: Reading)
    requires i < |parts|
    ensures |r.forms| == |r.abbreviation| <= |parts| - i
  {
    Else(SafeAbbreviation(lexicon, parts, i), Else(Contextual(lexicon, parts, i), Stem(lexicon.acronym, parts[i])))
  }

  /** The readings one after the other, from word `i` on. */
  function Walk(lexicon: Lexicon, parts: seq<Parts>, i: nat): (r: Reading)
    requires i <= |parts|
    ensures |r.forms| == |r.abbreviation| == |parts| - i
    decreases |parts| - i
  {
    if i == |parts| then NOTHING
    else
      var step := Step(lexicon, parts, i);
      var rest := Walk(lexicon, parts, i + |step.forms|);
      Reading(step.forms + rest.forms, step.abbreviation + rest.abbreviation)
  }

  lemma WalkTurn(lexicon: Lexicon, parts: seq<Parts>, i: nat, forms: seq<Text>, marks: seq<bool>)
    requires i < |parts|
    ensures var step := Step(lexicon, parts, i);
            var next := Walk(lexicon, parts, i + |step.forms|);
            && (forms + step.forms) + next.forms == forms + Walk(lexicon, parts, i).forms
            && (marks + step.abbreviation) + next.abbreviation == marks + Walk(lexicon, parts, i).abbreviation
  {
    hide Step;
    var step := Step(lexicon, parts, i);
    var next := Walk(lexicon, parts, i + |step.forms|);
    Assoc(forms, step.forms, next.forms);
    Assoc(marks, step.abbreviation, next.abbreviation);
  }

  /** What the voice says for each word. */
  function Pronounced(lexicon: Lexicon, words: seq<Text>): (said: Pronunciation)
    ensures |said.spoken| == |words| == |said.abbreviation|
  {
    var r := Walk(lexicon, PartsList(words), 0);
    Pronunciation(r.forms, r.abbreviation)
  }

  /** One spoken form per word, whatever the word lists: what the segments need. */
  lemma OneFormForEachWord(lexicon: Lexicon)
    ensures OneFormPerWord(words => Pronounced(lexicon, words))
  {
  }

  // ---- the program: forms written in place ----

  function Written<T>(s: seq<T>, at: nat, part: seq<T>): (after: seq<T>)
    requires at + |part| <= |s|
    ensures |after| == |s|
  {
    s[..at] + part + s[at + |part|..]
  }

  lemma WrittenOne<T>(s: seq<T>, i: nat, x: T)
    requires i < |s|
    ensures Written(s, i, [x]) == s[i := x]
  {
  }

  lemma WrittenTwo<T>(s: seq<T>, i: nat, x: T, y: T)
    requires i + 1 < |s|
    ensures Written(s, i, [x, y]) == s[i := x][i + 1 := y]
  {
  }

  lemma WrittenCons<T>(s: seq<T>, i: nat, x: T, rest: seq<T>)
    requires i + 1 + |rest| <= |s|
    ensures Written(s, i, [x] + rest) == Written(s[i := x], i + 1, rest)
  {
  }

  lemma WrittenSplit<T>(s: seq<T>, i: nat, part: seq<T>)
    requires i + |part| <= |s|
    ensures Written(s, i, part)[..i + |part|] == s[..i] + part
    ensures Written(s, i, part)[i + |part|..] == s[i + |part|..]
  {
  }

  lemma WrittenSame(s: seq<bool>, i: nat, part: seq<bool>)
    requires i + |part| <= |s|
    requires forall k :: i <= k < |s| ==> !s[k]
    requires forall k :: 0 <= k < |part| ==> !part[k]
    ensures Written(s, i, part) == s
  {
  }

  predicate AreShown(parts: seq<Parts>, words: seq<Text>) {
    |parts| == |words| && forall k :: 0 <= k < |words| ==> Shown(parts[k]) == words[k]
  }

  method SplitAll(words: seq<Text>) returns (parts: seq<Parts>)
    ensures parts == PartsList(words)
  {
    parts := [];
    for k := 0 to |words|
      invariant |parts| == k && forall n :: 0 <= n < k ==> parts[n] == PartsFrom(words[n])
    {
      var p := PartsOf(words[k]);
      parts := parts + [p];
    }
  }

  class Context {
    const lexicon: Lexicon
    const words: seq<Text>
    var parts: seq<Parts>
    var spoken: seq<Text>
    var abbreviation: seq<bool>

    /** One form and one mark per word. */
    ghost predicate Valid()
      reads this
    {
      |parts| == |spoken| == |abbreviation| == |words|
    }

    /** From `i` on, the words are still as they are shown. */
    ghost predicate Untouched(i: nat)
      reads this
    {
      Valid() && i <= |words| && spoken[i..] == words[i..] && forall k :: i <= k < |words| ==> !abbreviation[k]
    }

    /** The rule decided the words of `r` at `i`, and no other. */
    twostate predicate Decided(i: nat, r: Reading, taken: nat)
      reads this
    {
      && taken == |r.forms| == |r.abbreviation| && i + taken <= old(|spoken|) == old(|abbreviation|)
      && (taken == 0 ==> spoken == old(spoken) && abbreviation == old(abbreviation))
      && parts == old(parts) && spoken == Written(old(spoken), i, r.forms)
      && abbreviation == Written(old(abbreviation), i, r.abbreviation)
    }

    constructor (lexicon: Lexicon, words: seq<Text>)
      ensures this.lexicon == lexicon && this.words == words && parts == PartsList(words) && Untouched(0)
    {
      this.lexicon, this.words := lexicon, words;
      spoken, abbreviation := words, seq(|words|, _ => false);
      var all := SplitAll(words);
      parts := all;
    }

    // Forms of one word, its punctuation kept around.

    method SayAt(i: nat, text: Text)
      requires Valid() && i < |words|
      modifies `spoken
      ensures Valid() && spoken == old(spoken)[i := Say(parts[i], text)]
    {
      spoken := spoken[i := parts[i].lead + text + parts[i].trail];
    }

    method SayStemAt(i: nat, text: Text)
      requires Valid() && i < |words|
      modifies `spoken
      ensures Valid() && spoken == old(spoken)[i := SayStem(parts[i], text)]
    {
      var dot: Text := if EndsWithDot(parts[i].core) then [DOT] else [];
      SayAt(i, text + dot);
    }

    method Absorb(i: nat, keepFinalDot: bool)
      requires Valid() && i < |words|
      modifies `spoken
      ensures Valid() && spoken == old(spoken)[i := Absorbed(parts[i], keepFinalDot)]
    {
      var dot: Text := if keepFinalDot && EndsWithDot(parts[i].core) then [DOT] else [];
      spoken := spoken[i := dot + parts[i].trail];
    }

    /** A rule that looks up the word without its final dot. */
    method SayFound(i: nat, found: Option<Text>) returns (taken: nat)
      requires Untouched(i) && i < |words|
      modifies `spoken
      ensures Valid() && Decided(i, if found.None? then NOTHING else One(SayStem(parts[i], found.value), false), taken)
    {
      if found.None? {
        return 0;
      }
      WrittenOne(spoken, i, SayStem(parts[i], found.value));
      WrittenSame(abbreviation, i, [false]);
      SayStemAt(i, found.value);
      taken := 1;
    }

    method TableSeparator(i: nat) returns (taken: nat)
      requires Untouched(i) && i < |words|
      modifies `spoken
      ensures Valid() && Decided(i, Separator(parts, i), taken)
    {
      if parts[i].core != [BAR] {
        return 0;
      }
      spoken := spoken[i := [',' as int]];
      taken := 1;
    }

    method RomanNumeralAt(i: nat) returns (taken: nat)
      requires Untouched(i) && i < |words|
      modifies `spoken
      ensures Valid() && Decided(i, RomanNumeral(lexicon, parts, i), taken)
    {
      var previous, following := Bare(lexicon, parts, i - 1), Bare(lexicon, parts, i + 1);
      var found := RomanAfterKeyword(lexicon.isRomanKeyword, WithoutFinalDot(parts[i].core), previous, following);
      taken := SayFound(i, found);
    }

    method DateAt(i: nat) returns (taken: nat)
      requires Untouched(i) && i < |words|
      modifies `spoken
      ensures Valid() && Decided(i, Stem(lexicon.date, parts[i]), taken)
    {
      taken := SayFound(i, lexicon.date(WithoutFinalDot(parts[i].core)));
    }

    method GroupedNumberAt(i: nat) returns (taken: nat)
      requires Untouched(i) && i < |words|
      modifies `spoken
      ensures Valid() && Decided(i, GroupedNumber(parts, i), taken)
    {
      if IsDottedNumber(parts[i].core) {
        WrittenOne(spoken, i, Say(parts[i], Undotted(parts[i].core)));
        WrittenSame(abbreviation, i, [false]);
        SayAt(i, Undotted(parts[i].core));
        return 1;
      }
      taken := SpacedNumberAt(i);
    }

    method SpacedNumberAt(i: nat) returns (taken: nat)
      requires Untouched(i) && i < |words|
      modifies `spoken
      ensures Valid() && Decided(i, SpacedNumber(parts, i), taken)
    {
      hide GroupedLength;
      taken := GroupedNumberLength(parts, i);
      if taken == 0 {
        return;
      }
      var digits := JoinDigits(parts, i, i + taken);
      WrittenCons(spoken, i, Say(parts[i], digits), AbsorbedFrom(parts, i + 1, i + taken));
      WrittenSame(abbreviation, i, seq(taken, _ => false));
      SayAt(i, digits);
      AbsorbRun(i + 1, i + taken);
    }

    method AbsorbRun(i: nat, end: nat)
      requires Valid() && i <= end <= |words|
      modifies `spoken
      ensures Valid() && spoken == Written(old(spoken), i, AbsorbedFrom(parts, i, end))
    {
      ghost var goal := Written(spoken, i, AbsorbedFrom(parts, i, end));
      for j := i to end
        invariant Valid() && Written(spoken, j, AbsorbedFrom(parts, j, end)) == goal
      {
        WrittenCons(spoken, j, Absorbed(parts[j], true), AbsorbedFrom(parts, j + 1, end));
        Absorb(j, true);
      }
    }

    method AmountAt(i: nat) returns (taken: nat)
      requires Untouched(i) && i < |words|
      modifies `spoken
      ensures Valid() && Decided(i, Amount(lexicon, parts, i), taken)
    {
      if parts[i].core == ['F' as int] && Bare(lexicon, parts, i + 1) == CFA {
        WrittenTwo(spoken, i, Say(parts[i], FRANCS), Absorbed(parts[i + 1], true));
        WrittenSame(abbreviation, i, [false, false]);
        SayAt(i, FRANCS);
        Absorb(i + 1, true);
        return 2;
      }
      taken := SayFound(i, lexicon.currency(WithoutFinalDot(parts[i].core)));
    }

    method SafeAbbreviationAt(i: nat) returns (taken: nat)
      requires Untouched(i) && i < |words| && PairsAreTwo(lexicon)
      modifies `spoken, `abbreviation
      ensures Valid() && Decided(i, SafeAbbreviation(lexicon, parts, i), taken)
    {
      var pair := lexicon.pair(parts[i].core, CoreAt(parts, i + 1));
      if pair.Some? {
        WrittenTwo(spoken, i, Say(parts[i], pair.value), Absorbed(parts[i + 1], false));
        WrittenTwo(abbreviation, i, true, true);
        SayAt(i, pair.value);
        Absorb(i + 1, false);
        abbreviation := abbreviation[i := true];
        abbreviation := abbreviation[i + 1 := true];
        return 2;
      }
      var single := lexicon.abbreviation(parts[i].core);
      if single.None? {
        return 0;
      }
      WrittenOne(spoken, i, Say(parts[i], single.value));
      WrittenOne(abbreviation, i, EndsWithDot(parts[i].core));
      SayAt(i, single.value);
      abbreviation := abbreviation[i := EndsWithDot(parts[i].core)];
      taken := 1;
    }

    method ContextualAt(i: nat) returns (taken: nat)
      requires Untouched(i) && i < |words|
      modifies `spoken, `abbreviation
      ensures Valid() && Decided(i, Contextual(lexicon, parts, i), taken)
    {
      var found := lexicon.contextual(parts[i].core, CoreAt(parts, i + 1));
      if found.None? {
        return 0;
      }
      WrittenOne(spoken, i, Say(parts[i], found.value));
      WrittenOne(abbreviation, i, true);
      SayAt(i, found.value);
      abbreviation := abbreviation[i := true];
      taken := 1;
    }

    method AcronymAt(i: nat) returns (taken: nat)
      requires Untouched(i) && i < |words|
      modifies `spoken
      ensures Valid() && Decided(i, Stem(lexicon.acronym, parts[i]), taken)
    {
      taken := SayFound(i, lexicon.acronym(WithoutFinalDot(parts[i].core)));
    }

    // The rules in order, until one takes the word.

    method ApplyMarkRules(i: nat) returns (taken: nat)
      requires Untouched(i) && i < |words|
      modifies `spoken, `abbreviation
      ensures Valid() && Decided(i, MarkRule(lexicon, parts, i), taken)
    {
      taken := TableSeparator(i);
      if taken == 0 { taken := RomanNumeralAt(i); }
      if taken == 0 { taken := DateAt(i); }
    }

    method ApplyNumberRules(i: nat) returns (taken: nat)
      requires Untouched(i) && i < |words|
      modifies `spoken, `abbreviation
      ensures Valid() && Decided(i, NumberRule(lexicon, parts, i), taken)
    {
      taken := GroupedNumberAt(i);
      if taken == 0 { taken := AmountAt(i); }
    }

    method ApplyAbbreviationRules(i: nat) returns (taken: nat)
      requires Untouched(i) && i < |words| && PairsAreTwo(lexicon)
      modifies `spoken, `abbreviation
      ensures Valid() && Decided(i, AbbreviationRule(lexicon, parts, i), taken)
    {
      taken := SafeAbbreviationAt(i);
      if taken == 0 { taken := ContextualAt(i); }
      if taken == 0 { taken := AcronymAt(i); }
    }

    method ApplyRules(i: nat) returns (taken: nat)
      requires Untouched(i) && i < |words| && PairsAreTwo(lexicon)
      modifies `spoken, `abbreviation
      ensures Valid() && Decided(i, FirstRule(lexicon, parts, i), taken)
    {
      taken := ApplyMarkRules(i);
      if taken == 0 { taken := ApplyNumberRules(i); }
      if taken == 0 { taken := ApplyAbbreviationRules(i); }
    }

    /** One turn of the loop: the word at `i`, or the run that begins there. */
    method Advance(i: nat) returns (next: nat)
      requires Untouched(i) && i < |words| && PairsAreTwo(lexicon) && AreShown(parts, words)
      modifies `spoken, `abbreviation
      ensures next == i + |Step(lexicon, parts, i).forms| && Untouched(next)
      ensures spoken[..next] == old(spoken[..i]) + Step(lexicon, parts, i).forms
      ensures abbreviation[..next] == old(abbreviation[..i]) + Step(lexicon, parts, i).abbreviation
    {
      hide FirstRule;
      ghost var r := FirstRule(lexicon, parts, i);
      WrittenSplit(spoken, i, r.forms);
      WrittenSplit(abbreviation, i, r.abbreviation);
      assert spoken[i..][0] == words[i..][0];
      assert spoken[i..][|r.forms|..] == words[i..][|r.forms|..];
      var taken := ApplyRules(i);
      next := i + if taken > 1 then taken else 1;
    }

    method DecideAll()
      requires Untouched(0) && PairsAreTwo(lexicon) && AreShown(parts, words)
      modifies `spoken, `abbreviation
      ensures spoken == Walk(lexicon, parts, 0).forms && abbreviation == Walk(lexicon, parts, 0).abbreviation
    {
      hide Step;
      var i := 0;
      while i < |words|
        invariant Untouched(i) && parts == old(parts)
        invariant spoken[..i] + Walk(lexicon, parts, i).forms == Walk(lexicon, parts, 0).forms
        invariant abbreviation[..i] + Walk(lexicon, parts, i).abbreviation == Walk(lexicon, parts, 0).abbreviation
        decreases |words| - i
      {
        WalkTurn(lexicon, parts, i, spoken[..i], abbreviation[..i]);
        i := Advance(i);
      }
    }
  }

  /** What the program computes for the words of a document. */
  method Pronounce(lexicon: Lexicon, words: seq<Text>) returns (said: Pronunciation)
    requires PairsAreTwo(lexicon)
    ensures said == Pronounced(lexicon, words)
  {
    var context := new Context(lexicon, words);
    context.DecideAll();
    said := Pronunciation(context.spoken, context.abbreviation);
  }

  // ---- what the forms keep ----

  function ShownRun(parts: seq<Parts>, i: nat, end: nat): Text
    requires i <= end <= |parts|
    decreases end - i
  {
    if i == end then [] else Shown(parts[i]) + ShownRun(parts, i + 1, end)
  }

  lemma StemAndDot(core: Text)
    ensures WithoutFinalDot(core) + FinalDot(core) == core
  {
  }

  lemma ContinuedKeeps(p: Parts, digits: Text, forms: Text, shown: Text, isLast: bool)
    requires Continues(p) && (isLast ==> digits == forms == shown == [])
    requires !isLast ==> !Stops(p) && digits + forms == shown
    ensures (WithoutFinalDot(p.core) + digits) + (Absorbed(p, true) + forms) == Shown(p) + shown
  {
    StemAndDot(p.core);
    if isLast {
      assert WithoutFinalDot(p.core) + (FinalDot(p.core) + p.trail)
        == (WithoutFinalDot(p.core) + FinalDot(p.core)) + p.trail;
    } else {
      assert Absorbed(p, true) == [];
      assert (p.core + digits) + forms == p.core + (digits + forms);
    }
  }

  /** The groups after the first: their digits, then what absorbed words leave, are what is shown. */
  lemma {:induction false} RunKeeps(parts: seq<Parts>, j: nat, end: nat)
    requires j <= end <= |parts| && forall k :: j <= k < end ==> Continues(parts[k])
    requires forall k :: j <= k < end - 1 ==> !Stops(parts[k])
    ensures Digits(parts, j, end) + Flatten(AbsorbedFrom(parts, j, end)) == ShownRun(parts, j, end)
    decreases end - j
  {
    if j < end {
      RunKeeps(parts, j + 1, end);
      var forms := AbsorbedFrom(parts, j + 1, end);
      assert AbsorbedFrom(parts, j, end)[1..] == forms;
      ContinuedKeeps(parts[j], Digits(parts, j + 1, end), Flatten(forms), ShownRun(parts, j + 1, end), j + 1 == end);
    }
  }

  lemma GroupedIs(parts: seq<Parts>, i: nat)
    requires i < |parts| && GroupedLength(parts, i) > 0
    ensures BeginsNumber(parts[i]) && i + GroupedLength(parts, i) == GroupsEnd(parts, i + 1)
  {
  }

  /** A number written in groups is read with the same digits and punctuation as it is shown. */
  lemma SpacedNumberKeepsText(parts: seq<Parts>, i: nat)
    requires i < |parts| && GroupedLength(parts, i) > 0
    ensures Flatten(SpacedNumber(parts, i).forms) == ShownRun(parts, i, i + GroupedLength(parts, i))
  {
    hide GroupedLength, GroupsEnd, Flatten, Say, Shown, BeginsNumber, Continues, Stops;
    GroupedIs(parts, i);
    var end := i + GroupedLength(parts, i);
    RunKeeps(parts, i + 1, end);
    FirstGroupKeeps(parts[i], Digits(parts, i + 1, end), AbsorbedFrom(parts, i + 1, end), ShownRun(parts, i + 1, end));
  }

  lemma FirstGroupKeeps(p: Parts, digits: Text, forms: seq<Text>, shown: Text)
    requires BeginsNumber(p) && digits + Flatten(forms) == shown
    ensures Flatten([Say(p, WithoutFinalDot(p.core) + digits)] + forms) == Shown(p) + shown
  {
    var said := Say(p, WithoutFinalDot(p.core) + digits);
    assert ([said] + forms)[1..] == forms;
    assert said == p.lead + p.core + digits;
    Assoc(p.lead + p.core, digits, Flatten(forms));
    assert Shown(p) == p.lead + p.core;
  }

  // ---- how long a form may be ----

  const ZEROS: Text := ['0' as int, '0' as int, '0' as int]

  /** 1 000 000 …: `n` groups after the first digit. */
  function Thousands(n: nat): (words: seq<Text>)
    ensures |words| == n + 1
  {
    [['1' as int]] + seq(n, _ => ZEROS)
  }

  lemma PlainParts(word: Text)
    requires word != [] && AreDigits(word)
    ensures PartsFrom(word) == Parts([], word, [])
  {
    hide PartsFrom;
    assert !IsLeading(word[0]) && !IsTrailing(word[|word| - 1]);
    PartsAreUnique(PartsFrom(word), Parts([], word, []), word);
  }

  lemma {:induction false} GroupsGoOn(parts: seq<Parts>, j: nat)
    requires j <= |parts| && forall k :: j <= k < |parts| ==> parts[k] == Parts([], ZEROS, [])
    ensures GroupsEnd(parts, j) == |parts| && |Digits(parts, j, |parts|)| == 3 * (|parts| - j)
    decreases |parts| - j
  {
    if j < |parts| {
      GroupsGoOn(parts, j + 1);
    }
  }

  /** Neither a date nor a keyword before: the number rule is the first to apply. */
  predicate NoRuleBefore(lexicon: Lexicon, word: Text) {
    lexicon.date(word).None?
  }

  /** A run of groups is one spoken form, of any length: one displayed word may exceed any limit by itself. */
  lemma FormsAreUnbounded(lexicon: Lexicon, n: nat)
    requires n >= 1 && NoRuleBefore(lexicon, ['1' as int])
    ensures |Pronounced(lexicon, Thousands(n)).spoken[0]| == 3 * n + 1
  {
    ThousandsParts(n);
    GroupsGoOn(PartsList(Thousands(n)), 1);
    LongRun(lexicon, PartsList(Thousands(n)));
  }

  lemma LongRun(lexicon: Lexicon, parts: seq<Parts>)
    requires |parts| >= 2 && parts[0] == Parts([], ['1' as int], []) && NoRuleBefore(lexicon, ['1' as int])
    requires GroupsEnd(parts, 1) == |parts|
    ensures Walk(lexicon, parts, 0).forms[0] == ['1' as int] + Digits(parts, 1, |parts|)
  {
    hide FirstRule, Digits, AbsorbedFrom;
    OnlyTheNumber(lexicon, parts);
    WholeRun(parts);
    assert Say(parts[0], Digits(parts, 0, |parts|)) == Digits(parts, 0, |parts|);
    DigitsOnce(parts);
  }

  lemma DigitsOnce(parts: seq<Parts>)
    requires parts != [] && parts[0].core == ['1' as int]
    ensures Digits(parts, 0, |parts|) == ['1' as int] + Digits(parts, 1, |parts|)
  {
  }

  lemma WholeRun(parts: seq<Parts>)
    requires |parts| >= 2 && parts[0] == Parts([], ['1' as int], []) && GroupsEnd(parts, 1) == |parts|
    ensures GroupedLength(parts, 0) == |parts|
  {
    assert IsFirstGroup(parts[0].core);
  }

  lemma OnlyTheNumber(lexicon: Lexicon, parts: seq<Parts>)
    requires |parts| >= 2 && parts[0] == Parts([], ['1' as int], []) && NoRuleBefore(lexicon, ['1' as int])
    requires GroupsEnd(parts, 1) == |parts|
    ensures FirstRule(lexicon, parts, 0) == SpacedNumber(parts, 0)
  {
    hide RomanNumeral, GroupsEnd, IsDottedNumber, SpacedNumber, GroupedLength;
    NotDotted();
    NotRoman(lexicon, parts);
    WholeRun(parts);
  }

  lemma NotRoman(lexicon: Lexicon, parts: seq<Parts>)
    requires |parts| >= 1 && parts[0].core == ['1' as int]
    ensures RomanNumeral(lexicon, parts, 0) == NOTHING
  {
  }

  lemma NotDotted()
    ensures !IsDottedNumber(['1' as int])
  {
    assert DotGroups(['1' as int][1..]) == [[]];
  }

  lemma ThousandsParts(n: nat)
    ensures var parts := PartsList(Thousands(n));
            parts[0] == Parts([], ['1' as int], []) && forall k :: 1 <= k <= n ==> parts[k] == Parts([], ZEROS, [])
  {
    PlainParts(['1' as int]);
    PlainParts(ZEROS);
  }

  // ---- what a form depends on ----

  /** From one word before `i` and `j` on, the same words. */
  predicate SameTail(a: seq<Parts>, i: nat, b: seq<Parts>, j: nat) {
    1 <= i <= |a| && 1 <= j <= |b| && |a| - i == |b| - j && forall k :: i - 1 <= k < |a| ==> a[k] == b[k - i + j]
  }

  lemma {:induction false} SameRun(a: seq<Parts>, i: nat, b: seq<Parts>, j: nat)
    requires SameTail(a, i, b, j)
    ensures GroupsEnd(a, i) - i == GroupsEnd(b, j) - j
    decreases |a| - i
  {
    if i < |a| {
      assert a[i] == b[j];
      SameRun(a, i + 1, b, j + 1);
    }
  }

  lemma {:induction false} SameDigits(a: seq<Parts>, i: nat, b: seq<Parts>, j: nat, n: nat)
    requires SameTail(a, i, b, j) && i + n <= |a|
    ensures Digits(a, i, i + n) == Digits(b, j, j + n) && AbsorbedFrom(a, i, i + n) == AbsorbedFrom(b, j, j + n)
    decreases n
  {
    hide WithoutFinalDot, Absorbed;
    if n > 0 {
      assert a[i] == b[j];
      SameDigits(a, i + 1, b, j + 1, n - 1);
    }
  }

  lemma SameLength(a: seq<Parts>, i: nat, b: seq<Parts>, j: nat)
    requires SameTail(a, i, b, j) && i < |a|
    ensures GroupedLength(a, i) == GroupedLength(b, j)
  {
    assert a[i] == b[j] && a[i - 1] == b[j - 1];
    SameRun(a, i + 1, b, j + 1);
  }

  lemma SameSpacedNumber(a: seq<Parts>, i: nat, b: seq<Parts>, j: nat)
    requires SameTail(a, i, b, j) && i < |a|
    ensures SpacedNumber(a, i) == SpacedNumber(b, j)
  {
    hide GroupedLength, Digits, AbsorbedFrom, Say;
    assert a[i] == b[j];
    SameLength(a, i, b, j);
    var length := GroupedLength(a, i);
    if length > 0 {
      SameDigits(a, i, b, j, length);
      SameDigits(a, i + 1, b, j + 1, length - 1);
    }
  }

  lemma SameNeighbours(lexicon: Lexicon, a: seq<Parts>, i: nat, b: seq<Parts>, j: nat)
    requires SameTail(a, i, b, j) && i < |a|
    ensures a[i] == b[j] && CoreAt(a, i + 1) == CoreAt(b, j + 1)
    ensures Bare(lexicon, a, i - 1) == Bare(lexicon, b, j - 1) && Bare(lexicon, a, i + 1) == Bare(lexicon, b, j + 1)
    ensures i + 1 < |a| <==> j + 1 < |b|
    ensures i + 1 < |a| ==> a[i + 1] == b[j + 1]
  {
    assert a[i] == b[j] && a[i - 1] == b[j - 1];
    assert i + 1 < |a| ==> a[i + 1] == b[j + 1];
  }

  lemma SameStep(lexicon: Lexicon, a: seq<Parts>, i: nat, b: seq<Parts>, j: nat)
    requires SameTail(a, i, b, j) && i < |a|
    ensures Step(lexicon, a, i) == Step(lexicon, b, j)
  {
    hide RomanAfterKeyword, SpacedNumber, IsDottedNumber, Undotted, WithoutFinalDot;
    SameNeighbours(lexicon, a, i, b, j);
    SameSpacedNumber(a, i, b, j);
  }

  /** The forms from a word on depend on nothing before the word that precedes it. */
  lemma {:induction false} TailsReadAlike(lexicon: Lexicon, a: seq<Parts>, i: nat, b: seq<Parts>, j: nat)
    requires SameTail(a, i, b, j)
    ensures Walk(lexicon, a, i) == Walk(lexicon, b, j)
    decreases |a| - i
  {
    hide Step;
    if i < |a| {
      SameStep(lexicon, a, i, b, j);
      var taken := |Step(lexicon, a, i).forms|;
      TailsReadAlike(lexicon, a, i + taken, b, j + taken);
    }
  }

  // ---- Roman numerals ----

  /** After a keyword, the canonical form of a number is read as that number, and only so. */
  lemma NumeralIsRead(lexicon: Lexicon, parts: seq<Parts>, i: nat, n: nat)
    requires i < |parts| && lexicon.isRomanKeyword(Bare(lexicon, parts, i - 1))
    requires IsRoman(WithoutFinalDot(parts[i].core))
    ensures RomanNumeral(lexicon, parts, i) == One(SayStem(parts[i], Decimal(n)), false)
       <==> n >= 1 && Letters(WithoutFinalDot(parts[i].core)) == Roman.Spell(Roman.Canonical(n), Roman.Upper)
  {
    var core := WithoutFinalDot(parts[i].core);
    var value := Roman.RomanValue(Letters(core));
    Roman.AcceptsCanonical(Letters(core), n);
    if value.Some? {
      SameForm(parts[i], value.value, n);
    }
  }

  lemma SameForm(p: Parts, m: nat, n: nat)
    ensures SayStem(p, Decimal(m)) == SayStem(p, Decimal(n)) <==> m == n
  {
    if SayStem(p, Decimal(m)) == SayStem(p, Decimal(n)) {
      var dot := FinalDot(p.core);
      assert |Decimal(m)| == |Decimal(n)|;
      assert SayStem(p, Decimal(m))[|p.lead|..][..|Decimal(m)|] == Decimal(m);
      assert SayStem(p, Decimal(n))[|p.lead|..][..|Decimal(n)|] == Decimal(n);
      DecimalInjective(m, n);
    }
  }
}
