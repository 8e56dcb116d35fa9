/** The rules of reading, each said for itself, in the order in which they are tried. */
module PronouncingRules {
  import opened Wrappers
  import opened Words
  import opened Pronouncing

  datatype Rule =
    | Bar | Numeral | Date | Dotted | Spaced | Francs | Currency | ShortPair | Short | InContext | Acronym | AsShown

  const RULES: seq<Rule> :=
    [Bar, Numeral, Date, Dotted, Spaced, Francs, Currency, ShortPair, Short, InContext, Acronym, AsShown]

  /** The word without its punctuation, and without a dot at its end. */
  predicate IsStem(p: Parts, stem: Text) {
    p.core == stem + ['.' as int] || (p.core == stem && !(stem != [] && stem[|stem| - 1] == '.' as int))
  }

  /** A word said in place of its stem: its punctuation and its dot stay. */
  ghost predicate SaysStem(p: Parts, found: Text -> Option<Text>, r: Reading) {
    exists stem: Text, text: Text ::
      && IsStem(p, stem) && found(stem) == Some(text)
      && r == Reading([p.lead + text + (if stem == p.core then [] else ['.' as int]) + p.trail], [false])
  }

  predicate IsThreeDigits(t: Text) {
    |t| == 3 && forall k :: 0 <= k < 3 ==> '0' as int <= t[k] <= '9' as int
  }

  predicate IsOneToThreeDigits(t: Text) {
    1 <= |t| <= 3 && forall k :: 0 <= k < |t| ==> '0' as int <= t[k] <= '9' as int
  }

  /** Three digits with nothing before them and at most a dot and punctuation after them. */
  ghost predicate IsGroup(p: Parts) {
    p.lead == [] && exists stem: Text :: IsStem(p, stem) && IsThreeDigits(stem)
  }

  /** Nothing stands after the digits. */
  predicate IsOpen(p: Parts) {
    p.trail == [] && IsStem(p, p.core)
  }

  predicate IsBeginning(p: Parts) {
    p.trail == [] && IsOneToThreeDigits(p.core)
  }

  /** The words of one number written in groups: as many as follow, unless another small number precedes them. */
  ghost predicate IsGroupRun(parts: seq<Parts>, i: nat, end: nat) {
    && i + 1 < end <= |parts| && IsBeginning(parts[i]) && (i == 0 || !IsBeginning(parts[i - 1]))
    && (forall k :: i < k < end ==> IsGroup(parts[k])) && (forall k :: i < k < end - 1 ==> IsOpen(parts[k]))
    && (end < |parts| && IsOpen(parts[end - 1]) ==> !IsGroup(parts[end]))
  }

  function Stems(parts: seq<Parts>, i: nat, end: nat): (stems: seq<Text>)
    requires i <= end <= |parts|
    ensures |stems| == end - i
  {
    seq(end - i, k requires 0 <= k < end - i => WithoutFinalDot(parts[i + k].core))
  }

  /** All the digits in the first form; the dot and the punctuation of each other word stay where they are. */
  predicate SaysRun(parts: seq<Parts>, i: nat, end: nat, r: Reading)
    requires i < end <= |parts|
  {
    && |r.forms| == |r.abbreviation| == end - i
    && r.forms[0] == parts[i].lead + Flatten(Stems(parts, i, end)) + parts[i].trail
    && (forall k :: 0 < k < end - i ==>
          r.forms[k] == (if EndsWithDot(parts[i + k].core) then ['.' as int] else []) + parts[i + k].trail)
    && forall k :: 0 <= k < end - i ==> !r.abbreviation[k]
  }

  /** How a rule reads the words from `i` on, if it applies. */
  ghost predicate Reads(rule: Rule, lexicon: Lexicon, parts: seq<Parts>, i: nat, r: Reading)
    requires i < |parts|
  {
    var p := parts[i];
    match rule
    case Bar => p.core == ['|' as int] && r == Reading([[',' as int]], [false])
    case Numeral =>
      var previous, following := Bare(lexicon, parts, i - 1), Bare(lexicon, parts, i + 1);
      SaysStem(p, core => RomanAfterKeyword(lexicon.isRomanKeyword, core, previous, following), r)
    case Date => SaysStem(p, lexicon.date, r)
    case Dotted => IsDottedNumber(p.core) && r == Reading([p.lead + Undotted(p.core) + p.trail], [false])
    case Spaced => exists end :: IsGroupRun(parts, i, end) && SaysRun(parts, i, end, r)
    case Francs =>
      && i + 1 < |parts| && p.core == ['F' as int] && Bare(lexicon, parts, i + 1) == CFA
      && r == Reading([p.lead + FRANCS + p.trail,
                       (if EndsWithDot(parts[i + 1].core) then ['.' as int] else []) + parts[i + 1].trail],
                      [false, false])
    case Currency => SaysStem(p, lexicon.currency, r)
    case ShortPair =>
      && i + 1 < |parts| && lexicon.pair(p.core, parts[i + 1].core).Some?
      && r == Reading([p.lead + lexicon.pair(p.core, parts[i + 1].core).value + p.trail, parts[i + 1].trail],
                      [true, true])
    case Short =>
      && lexicon.abbreviation(p.core).Some?
      && r == Reading([p.lead + lexicon.abbreviation(p.core).value + p.trail],
                      [p.core != [] && p.core[|p.core| - 1] == '.' as int])
    case InContext =>
      var next := if i + 1 < |parts| then parts[i + 1].core else [];
      && lexicon.contextual(p.core, next).Some?
      && r == Reading([p.lead + lexicon.contextual(p.core, next).value + p.trail], [true])
    case Acronym => SaysStem(p, lexicon.acronym, r)
    case AsShown => r == Reading([p.lead + p.core + p.trail], [false])
  }

  ghost predicate Applies(rule: Rule, lexicon: Lexicon, parts: seq<Parts>, i: nat)
    requires i < |parts|
  {
    exists r :: Reads(rule, lexicon, parts, i, r)
  }

  /** The first rule that applies reads the words at `i`. */
  ghost predicate IsReadBy(k: nat, lexicon: Lexicon, parts: seq<Parts>, i: nat, r: Reading)
    requires i < |parts|
  {
    k < |RULES| && Reads(RULES[k], lexicon, parts, i, r)
      && forall j :: 0 <= j < k ==> !Applies(RULES[j], lexicon, parts, i)
  }

  ghost predicate IsReadFirst(lexicon: Lexicon, parts: seq<Parts>, i: nat, r: Reading)
    requires i < |parts|
  {
    1 <= |r.forms| <= |parts| - i && exists k: nat :: IsReadBy(k, lexicon, parts, i, r)
  }

  /** From word `i` on, each word or run of words is read by the first rule that applies. */
  ghost predicate AreRead(lexicon: Lexicon, parts: seq<Parts>, i: nat, runs: seq<Reading>)
    requires i <= |parts|
    decreases |runs|
  {
    if runs == [] then i == |parts|
    else
      && i < |parts| && IsReadFirst(lexicon, parts, i, runs[0])
      && AreRead(lexicon, parts, i + |runs[0].forms|, runs[1..])
  }

  /** The runs one after the other. */
  function Joined(runs: seq<Reading>): Reading {
    if runs == [] then Reading([], [])
    else
      var rest := Joined(runs[1..]);
      Reading(runs[0].forms + rest.forms, runs[0].abbreviation + rest.abbreviation)
  }

  // ---- each rule ----

  lemma StemIs(p: Parts)
    ensures forall stem: Text :: IsStem(p, stem) <==> stem == WithoutFinalDot(p.core)
    ensures IsStem(p, WithoutFinalDot(p.core))
    ensures EndsWithDot(p.core) <==> WithoutFinalDot(p.core) != p.core
  {
    var without := WithoutFinalDot(p.core);
    if EndsWithDot(p.core) {
      assert p.core == without + ['.' as int];
    }
    forall stem: Text | IsStem(p, stem) ensures stem == without {
      if p.core == stem + ['.' as int] {
        assert p.core[|p.core| - 1] == '.' as int;
        assert p.core[..|p.core| - 1] == stem;
      }
    }
  }

  lemma StemMeans(p: Parts, found: Text -> Option<Text>)
    ensures forall r :: SaysStem(p, found, r) <==> Stem(found, p).forms != [] && r == Stem(found, p)
  {
    hide IsStem;
    StemIs(p);
    var stem := WithoutFinalDot(p.core);
    if found(stem).Some? {
      var dot := FinalDot(p.core);
      var text := found(stem).value;
      assert p.lead + text + dot + p.trail == p.lead + (text + dot) + p.trail;
      assert SaysStem(p, found, Stem(found, p));
    }
  }

  lemma StemsAreDigits(parts: seq<Parts>, i: nat, end: nat)
    requires i <= end <= |parts|
    ensures Digits(parts, i, end) == Flatten(Stems(parts, i, end))
    decreases end - i
  {
    if i < end {
      StemsAreDigits(parts, i + 1, end);
      assert Stems(parts, i, end)[1..] == Stems(parts, i + 1, end);
    }
  }

  lemma {:induction false} AbsorbedAt(parts: seq<Parts>, i: nat, end: nat, k: nat)
    requires i <= end <= |parts| && k < end - i
    ensures AbsorbedFrom(parts, i, end)[k] == Absorbed(parts[i + k], true)
    decreases end - i
  {
    if k > 0 {
      AbsorbedAt(parts, i + 1, end, k - 1);
    }
  }

  lemma GroupMeans(p: Parts)
    ensures IsGroup(p) <==> Continues(p)
    ensures IsOpen(p) <==> !Stops(p)
    ensures IsBeginning(p) <==> BeginsNumber(p)
  {
    StemIs(p);
    assert IsStem(p, WithoutFinalDot(p.core));
  }

  lemma GroupsMean(parts: seq<Parts>)
    ensures forall k :: 0 <= k < |parts| ==> IsGroup(parts[k]) == Continues(parts[k])
    ensures forall k :: 0 <= k < |parts| ==> IsOpen(parts[k]) == !Stops(parts[k])
    ensures forall k :: 0 <= k < |parts| ==> IsBeginning(parts[k]) == BeginsNumber(parts[k])
  {
    forall k | 0 <= k < |parts|
      ensures IsGroup(parts[k]) == Continues(parts[k]) && IsOpen(parts[k]) == !Stops(parts[k])
              && IsBeginning(parts[k]) == BeginsNumber(parts[k])
    {
      GroupMeans(parts[k]);
    }
  }

  lemma {:induction false} GroupsEndIs(parts: seq<Parts>, j: nat, end: nat)
    requires j <= end <= |parts| && (forall k :: j <= k < end ==> Continues(parts[k]))
    requires forall k :: j <= k < end - 1 ==> !Stops(parts[k])
    requires end == |parts| || (j < end && Stops(parts[end - 1])) || !Continues(parts[end])
    ensures GroupsEnd(parts, j) == end
    decreases end - j
  {
    hide Continues, Stops;
    if j < end && !Stops(parts[j]) {
      GroupsEndIs(parts, j + 1, end);
    }
  }

  /** There is one run of groups at a word, or none. */
  lemma RunMeans(parts: seq<Parts>, i: nat)
    requires i < |parts|
    ensures forall end: nat :: IsGroupRun(parts, i, end)
                               <==> GroupedLength(parts, i) > 0 && end == i + GroupedLength(parts, i)
  {
    hide IsGroup, IsOpen, IsBeginning, Continues, Stops, BeginsNumber;
    GroupsMean(parts);
    var last := GroupsEnd(parts, i + 1);
    forall end: nat | IsGroupRun(parts, i, end) ensures end == last {
      GroupsEndIs(parts, i + 1, end);
    }
  }

  lemma SpacedMeans(parts: seq<Parts>, i: nat, r: Reading)
    requires i < |parts|
    ensures (exists end: nat :: IsGroupRun(parts, i, end) && SaysRun(parts, i, end, r))
            <==> SpacedNumber(parts, i).forms != [] && r == SpacedNumber(parts, i)
  {
    hide IsGroupRun, GroupedLength;
    RunMeans(parts, i);
    var length := GroupedLength(parts, i);
    if length > 0 {
      RunIsSaid(parts, i, i + length);
      assert SaysRun(parts, i, i + length, r) <==> r == SpacedNumber(parts, i);
    }
  }

  lemma RunIsSaid(parts: seq<Parts>, i: nat, end: nat)
    requires i < end <= |parts|
    ensures var said := Reading([Say(parts[i], Digits(parts, i, end))] + AbsorbedFrom(parts, i + 1, end),
                                seq(end - i, _ => false));
            forall r :: SaysRun(parts, i, end, r) <==> r == said
  {
    hide Stems, Flatten, EndsWithDot;
    var said := Reading([Say(parts[i], Digits(parts, i, end))] + AbsorbedFrom(parts, i + 1, end),
                        seq(end - i, _ => false));
    StemsAreDigits(parts, i, end);
    forall k | 0 < k < end - i ensures said.forms[k] == Absorbed(parts[i + k], true) {
      AbsorbedAt(parts, i + 1, end, k - 1);
    }
    forall r | SaysRun(parts, i, end, r) ensures r == said {
      assert r.forms == said.forms;
      assert r.abbreviation == said.abbreviation;
    }
  }

  // ---- the rules in order ----

  /** What the rule contributes; no form when it does not apply. */
  function Contribution(rule: Rule, lexicon: Lexicon, parts: seq<Parts>, i: nat): Reading
    requires i < |parts|
  {
    var p := parts[i];
    match rule
    case Bar => Separator(parts, i)
    case Numeral => RomanNumeral(lexicon, parts, i)
    case Date => Stem(lexicon.date, p)
    case Dotted => DottedNumber(p)
    case Spaced => SpacedNumber(parts, i)
    case Francs =>
      if i + 1 < |parts| && p.core == ['F' as int] && Bare(lexicon, parts, i + 1) == CFA
      then Amount(lexicon, parts, i) else NOTHING
    case Currency => Stem(lexicon.currency, p)
    case ShortPair =>
      if i + 1 < |parts| && lexicon.pair(p.core, parts[i + 1].core).Some?
      then SafeAbbreviation(lexicon, parts, i) else NOTHING
    case Short =>
      if lexicon.abbreviation(p.core).None? then NOTHING
      else One(Say(p, lexicon.abbreviation(p.core).value), EndsWithDot(p.core))
    case InContext => Contextual(lexicon, parts, i)
    case Acronym => Stem(lexicon.acronym, p)
    case AsShown => One(Shown(p), false)
  }

  lemma RuleMeans(rule: Rule, lexicon: Lexicon, parts: seq<Parts>, i: nat, r: Reading)
    requires i < |parts|
    ensures Reads(rule, lexicon, parts, i, r)
            <==> Contribution(rule, lexicon, parts, i).forms != [] && r == Contribution(rule, lexicon, parts, i)
  {
    hide SaysStem, IsGroupRun, SaysRun, SpacedNumber, Stem, IsDottedNumber, Undotted, RomanAfterKeyword, Bare;
    match rule
    case Numeral =>
      var previous, following := Bare(lexicon, parts, i - 1), Bare(lexicon, parts, i + 1);
      StemMeans(parts[i], core => RomanAfterKeyword(lexicon.isRomanKeyword, core, previous, following));
    case Date => StemMeans(parts[i], lexicon.date);
    case Spaced => SpacedMeans(parts, i, r);
    case Currency => StemMeans(parts[i], lexicon.currency);
    case Acronym => StemMeans(parts[i], lexicon.acronym);
    case Bar =>
    case Dotted =>
    case Francs =>
    case ShortPair => assert i + 1 < |parts| ==> Absorbed(parts[i + 1], false) == parts[i + 1].trail;
    case Short =>
    case InContext =>
    case AsShown =>
  }

  lemma AppliesMeans(rule: Rule, lexicon: Lexicon, parts: seq<Parts>, i: nat)
    requires i < |parts|
    ensures Applies(rule, lexicon, parts, i) <==> Contribution(rule, lexicon, parts, i).forms != []
    ensures Applies(rule, lexicon, parts, i) ==>
              Reads(rule, lexicon, parts, i, Contribution(rule, lexicon, parts, i))
  {
    hide Reads, Contribution;
    forall r ensures Reads(rule, lexicon, parts, i, r) <==>
                       Contribution(rule, lexicon, parts, i).forms != [] && r == Contribution(rule, lexicon, parts, i)
    {
      RuleMeans(rule, lexicon, parts, i, r);
    }
    RuleMeans(rule, lexicon, parts, i, Contribution(rule, lexicon, parts, i));
  }

  /** The first contribution from rule `k` on. */
  function FirstFrom(k: nat, lexicon: Lexicon, parts: seq<Parts>, i: nat): Reading
    requires i < |parts| && k < |RULES|
    decreases |RULES| - k
  {
    if k == |RULES| - 1 then Contribution(RULES[k], lexicon, parts, i)
    else Else(Contribution(RULES[k], lexicon, parts, i), FirstFrom(k + 1, lexicon, parts, i))
  }

  lemma FromNext(k: nat, lexicon: Lexicon, parts: seq<Parts>, i: nat)
    requires i < |parts| && k + 1 < |RULES|
    ensures FirstFrom(k, lexicon, parts, i)
            == Else(Contribution(RULES[k], lexicon, parts, i), FirstFrom(k + 1, lexicon, parts, i))
  {
  }

  lemma PairOrShort(lexicon: Lexicon, parts: seq<Parts>, i: nat)
    requires i < |parts|
    ensures SafeAbbreviation(lexicon, parts, i)
            == Else(Contribution(ShortPair, lexicon, parts, i), Contribution(Short, lexicon, parts, i))
  {
  }

  lemma FrancsOrCurrency(lexicon: Lexicon, parts: seq<Parts>, i: nat)
    requires i < |parts|
    ensures Amount(lexicon, parts, i)
            == Else(Contribution(Francs, lexicon, parts, i), Contribution(Currency, lexicon, parts, i))
  {
  }

  lemma OthersAre(lexicon: Lexicon, parts: seq<Parts>, i: nat)
    requires i < |parts|
    ensures MarkRule(lexicon, parts, i)
            == Else(Contribution(Bar, lexicon, parts, i),
                    Else(Contribution(Numeral, lexicon, parts, i), Contribution(Date, lexicon, parts, i)))
    ensures GroupedNumber(parts, i)
            == Else(Contribution(Dotted, lexicon, parts, i), Contribution(Spaced, lexicon, parts, i))
    ensures AbbreviationRule(lexicon, parts, i)
            == Else(SafeAbbreviation(lexicon, parts, i),
                    Else(Contribution(InContext, lexicon, parts, i), Contribution(Acronym, lexicon, parts, i)))
    ensures Step(lexicon, parts, i)
            == Else(Else(MarkRule(lexicon, parts, i),
                         Else(Else(GroupedNumber(parts, i), Amount(lexicon, parts, i)),
                              AbbreviationRule(lexicon, parts, i))),
                    Contribution(AsShown, lexicon, parts, i))
  {
    hide MarkRule, GroupedNumber, Amount, AbbreviationRule, SafeAbbreviation, SpacedNumber, Stem, Contextual,
      DottedNumber,
      Separator, RomanNumeral, Shown;
    OthersOpen(lexicon, parts, i);
  }

  lemma OthersOpen(lexicon: Lexicon, parts: seq<Parts>, i: nat)
    requires i < |parts|
    ensures MarkRule(lexicon, parts, i)
            == Else(Separator(parts, i), Else(RomanNumeral(lexicon, parts, i), Stem(lexicon.date, parts[i])))
    ensures GroupedNumber(parts, i) == Else(DottedNumber(parts[i]), SpacedNumber(parts, i))
    ensures AbbreviationRule(lexicon, parts, i)
            == Else(SafeAbbreviation(lexicon, parts, i),
                    Else(Contextual(lexicon, parts, i), Stem(lexicon.acronym, parts[i])))
  {
  }

  lemma FromFirst(lexicon: Lexicon, parts: seq<Parts>, i: nat, r: seq<Reading>)
    requires i < |parts| && |r| == |RULES|
    requires forall k :: 0 <= k < |RULES| ==> r[k] == Contribution(RULES[k], lexicon, parts, i)
    ensures FirstFrom(0, lexicon, parts, i)
            == Else(Else(Else(r[0], Else(r[1], r[2])),
                         Else(Else(Else(r[3], r[4]), Else(r[5], r[6])),
                              Else(Else(r[7], r[8]), Else(r[9], r[10])))),
                    r[11])
  {
    hide Contribution, FirstFrom;
    FromNext(0, lexicon, parts, i);
    FromNext(1, lexicon, parts, i);
    FromNext(2, lexicon, parts, i);
    FromNext(3, lexicon, parts, i);
    FromNext(4, lexicon, parts, i);
    FromNext(5, lexicon, parts, i);
    FromNext(6, lexicon, parts, i);
    FromNext(7, lexicon, parts, i);
    FromNext(8, lexicon, parts, i);
    FromNext(9, lexicon, parts, i);
    FromNext(10, lexicon, parts, i);
    FromLast(lexicon, parts, i);
  }

  lemma FromLast(lexicon: Lexicon, parts: seq<Parts>, i: nat)
    requires i < |parts|
    ensures FirstFrom(11, lexicon, parts, i) == Contribution(RULES[11], lexicon, parts, i)
  {
  }

  lemma StepIsFirst(lexicon: Lexicon, parts: seq<Parts>, i: nat)
    requires i < |parts|
    ensures Step(lexicon, parts, i) == FirstFrom(0, lexicon, parts, i)
  {
    hide Contribution, FirstFrom, Step, MarkRule, GroupedNumber, Amount, AbbreviationRule, SafeAbbreviation;
    OthersAre(lexicon, parts, i);
    PairOrShort(lexicon, parts, i);
    FrancsOrCurrency(lexicon, parts, i);
    var r := seq(|RULES|, k requires 0 <= k < |RULES| => Contribution(RULES[k], lexicon, parts, i));
    FromFirst(lexicon, parts, i, r);
  }

  lemma {:induction false} FirstApplies(k: nat, lexicon: Lexicon, parts: seq<Parts>, i: nat) returns (first: nat)
    requires i < |parts| && k < |RULES|
    requires forall j :: 0 <= j < k ==> !Applies(RULES[j], lexicon, parts, i)
    ensures IsReadBy(first, lexicon, parts, i, FirstFrom(k, lexicon, parts, i))
    decreases |RULES| - k
  {
    hide Reads, Applies, Contribution;
    AppliesMeans(RULES[k], lexicon, parts, i);
    if Applies(RULES[k], lexicon, parts, i) {
      first := k;
    } else {
      ShownAlways(lexicon, parts, i);
      first := FirstApplies(k + 1, lexicon, parts, i);
    }
  }

  lemma ShownAlways(lexicon: Lexicon, parts: seq<Parts>, i: nat)
    requires i < |parts|
    ensures Applies(RULES[|RULES| - 1], lexicon, parts, i)
  {
    AppliesMeans(AsShown, lexicon, parts, i);
  }

  /** Each word of a document, or run of words, is read by the first rule that applies to it. */
  lemma {:induction false} EveryWordIsRead(lexicon: Lexicon, parts: seq<Parts>, i: nat) returns (runs: seq<Reading>)
    requires i <= |parts|
    ensures AreRead(lexicon, parts, i, runs) && Joined(runs) == Walk(lexicon, parts, i)
    decreases |parts| - i
  {
    hide *;
    if i == |parts| {
      runs := [];
      NothingRead(lexicon, parts);
    } else {
      var step := Step(lexicon, parts, i);
      var more := EveryWordIsRead(lexicon, parts, i + |step.forms|);
      StepIsFirst(lexicon, parts, i);
      FirstRead(lexicon, parts, i, step);
      OneRunMore(lexicon, parts, i, more);
      runs := [step] + more;
    }
  }

  lemma NothingRead(lexicon: Lexicon, parts: seq<Parts>)
    ensures AreRead(lexicon, parts, |parts|, []) && Joined([]) == Walk(lexicon, parts, |parts|)
  {
  }

  lemma FirstRead(lexicon: Lexicon, parts: seq<Parts>, i: nat, step: Reading)
    requires i < |parts| && step == Step(lexicon, parts, i) == FirstFrom(0, lexicon, parts, i)
    ensures IsReadFirst(lexicon, parts, i, step)
  {
    hide IsReadBy, Step, FirstFrom, Applies, IsReadFirst;
    var k := FirstApplies(0, lexicon, parts, i);
    IsReadFirstBy(k, lexicon, parts, i, step);
  }

  lemma IsReadFirstBy(k: nat, lexicon: Lexicon, parts: seq<Parts>, i: nat, r: Reading)
    requires i < |parts| && 1 <= |r.forms| <= |parts| - i && IsReadBy(k, lexicon, parts, i, r)
    ensures IsReadFirst(lexicon, parts, i, r)
  {
    hide IsReadBy;
  }

  lemma OneRunMore(lexicon: Lexicon, parts: seq<Parts>, i: nat, more: seq<Reading>)
    requires i < |parts| && IsReadFirst(lexicon, parts, i, Step(lexicon, parts, i))
    requires var next := i + |Step(lexicon, parts, i).forms|;
             AreRead(lexicon, parts, next, more) && Joined(more) == Walk(lexicon, parts, next)
    ensures var runs := [Step(lexicon, parts, i)] + more;
            AreRead(lexicon, parts, i, runs) && Joined(runs) == Walk(lexicon, parts, i)
  {
    hide Step, IsReadFirst;
    assert ([Step(lexicon, parts, i)] + more)[1..] == more;
  }

  /** What the voice says for the words of a document. */
  lemma PronouncedIsRead(lexicon: Lexicon, words: seq<Text>)
    ensures var said := Pronounced(lexicon, words);
            exists runs :: AreRead(lexicon, PartsList(words), 0, runs)
                           && Joined(runs) == Reading(said.spoken, said.abbreviation)
  {
    hide Walk, AreRead, Joined, PartsList;
    var runs := EveryWordIsRead(lexicon, PartsList(words), 0);
  }
}
