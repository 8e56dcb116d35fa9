/**
 * Roman numerals: the reading of a spoken text, the greedy writing, and the
 * greedy prefix parser of the cleaning, on one theory of letter values.
 */
module Roman {
  import opened Words
  import opened Wrappers

  /** A numeral by the values of its letters: CM is [100, 1000]. */
  type Numeral = seq<nat>

  const SYMBOLS := 13

  /** The symbols from the largest to the smallest: M, CM, D, CD, C, XC, L, XL, X, IX, V, IV, I. */
  function Letters(k: nat): Numeral
    requires k < SYMBOLS
  {
    if k == 0 then [1000] else if k == 1 then [100, 1000] else if k == 2 then [500] else if k == 3 then [100, 500]
    else if k == 4 then [100] else if k == 5 then [10, 100] else if k == 6 then [50] else if k == 7 then [10, 50]
    else if k == 8 then [10] else if k == 9 then [1, 10] else if k == 10 then [5] else if k == 11 then [1, 5] else [1]
  }

  function Amount(k: nat): nat
    requires k < SYMBOLS
  {
    if k == 0 then 1000 else if k == 1 then 900 else if k == 2 then 500 else if k == 3 then 400
    else if k == 4 then 100 else if k == 5 then 90 else if k == 6 then 50 else if k == 7 then 40
    else if k == 8 then 10 else if k == 9 then 9 else if k == 10 then 5 else if k == 11 then 4 else 1
  }

  predicate IsLetter(v: nat) {
    v == 1 || v == 5 || v == 10 || v == 50 || v == 100 || v == 500 || v == 1000
  }

  /** One letter, or a smaller one before a larger one from which it is taken. */
  predicate IsSymbol(letters: Numeral, amount: nat) {
    || (|letters| == 1 && letters[0] == amount)
    || (|letters| == 2 && letters[0] < letters[1] && amount == letters[1] - letters[0] && letters[0] <= amount)
  }

  lemma SymbolIs(k: nat)
    requires k < SYMBOLS
    ensures IsSymbol(Letters(k), Amount(k)) && AllLetters(Letters(k)) && Amount(k) >= 1
  {
  }

  /** The largest symbol that `n` holds. */
  function Pick(n: nat): (k: nat)
    requires n >= 1
    ensures k < SYMBOLS && Amount(k) <= n && (k > 0 ==> n < Amount(k - 1))
  {
    if n >= 1000 then 0 else if n >= 900 then 1 else if n >= 500 then 2 else if n >= 400 then 3
    else if n >= 100 then 4 else if n >= 90 then 5 else if n >= 50 then 6 else if n >= 40 then 7
    else if n >= 10 then 8 else if n >= 9 then 9 else if n >= 5 then 10 else if n >= 4 then 11 else 12
  }

  lemma PickIs(n: nat, k: nat)
    requires k < SYMBOLS && Amount(k) <= n && (k > 0 ==> n < Amount(k - 1))
    ensures n >= 1 && Pick(n) == k
  {
  }

  /** The symbol that comes first in the form of a number. */
  type Choice = nat -> (Numeral, nat)

  /** Greedy writing, whatever the symbols. */
  function Greedy(first: Choice, n: nat): Numeral {
    if n == 0 || first(n).1 == 0 || first(n).1 > n then [] else first(n).0 + Greedy(first, n - first(n).1)
  }

  function FirstOf(n: nat): (Numeral, nat) {
    if n == 0 then ([], 0) else
      SymbolIs(Pick(n));
      (Letters(Pick(n)), Amount(Pick(n)))
  }

  lemma FirstIsSymbol(n: nat)
    requires n >= 1
    ensures IsSymbol(FirstOf(n).0, FirstOf(n).1) && AllLetters(FirstOf(n).0) && 1 <= FirstOf(n).1 <= n
  {
    SymbolIs(Pick(n));
  }

  /** The canonical form: the largest symbol first. */
  function Canonical(n: nat): Numeral {
    Greedy(FirstOf, n)
  }

  /** Each letter counted, negatively before a larger one. */
  function Signed(s: Numeral): int {
    if s == [] then 0 else (if |s| > 1 && s[0] < s[1] then -(s[0] as int) else s[0]) + Signed(s[1..])
  }

  // ---- letters ----

  datatype Case = Upper | Lower

  function Letter(v: nat, c: Case): char {
    if c.Upper? then
      if v == 1 then 'I' else if v == 5 then 'V' else if v == 10 then 'X' else if v == 50 then 'L'
      else if v == 100 then 'C' else if v == 500 then 'D' else 'M'
    else
      if v == 1 then 'i' else if v == 5 then 'v' else if v == 10 then 'x' else if v == 50 then 'l'
      else if v == 100 then 'c' else if v == 500 then 'd' else 'm'
  }

  /** 0 for a character that is not a Roman letter of that case. */
  function LetterValue(ch: char, c: Case): nat {
    if ch == Letter(1, c) then 1 else if ch == Letter(5, c) then 5 else if ch == Letter(10, c) then 10
    else if ch == Letter(50, c) then 50 else if ch == Letter(100, c) then 100 else if ch == Letter(500, c) then 500
    else if ch == Letter(1000, c) then 1000 else 0
  }

  function Spell(s: Numeral, c: Case): (t: string)
    ensures |t| == |s|
  {
    seq(|s|, i requires 0 <= i < |s| => Letter(s[i], c))
  }

  function Read(t: string, c: Case): (s: Numeral)
    ensures |s| == |t|
  {
    seq(|t|, i requires 0 <= i < |t| => LetterValue(t[i], c))
  }

  predicate AllLetters(s: Numeral) {
    forall i :: 0 <= i < |s| ==> IsLetter(s[i])
  }

  lemma ReadSpelled(s: Numeral, c: Case)
    requires AllLetters(s)
    ensures Read(Spell(s, c), c) == s
  {
    forall i | 0 <= i < |s| ensures LetterValue(Letter(s[i], c), c) == s[i] {
      assert IsLetter(s[i]);
    }
  }

  function Last(letters: Numeral): nat
    requires letters != []
  {
    letters[|letters| - 1]
  }

  /** In numbers: what is left after a symbol starts with nothing larger than the symbol's last letter. */
  lemma NextSymbolIsSmaller(k: nat, m: nat)
    requires k < SYMBOLS && m >= 1 && (k > 0 ==> Amount(k) + m < Amount(k - 1))
    ensures |Letters(k)| > 0 && |Letters(Pick(m))| > 0 && Letters(Pick(m))[0] <= Last(Letters(k))
  {
  }

  lemma WithSymbol(n: nat, k: nat)
    requires k < SYMBOLS && Amount(k) <= n && (k > 0 ==> n < Amount(k - 1))
    ensures Canonical(n) == Letters(k) + Canonical(n - Amount(k))
  {
    PickIs(n, k);
    SymbolIs(k);
    assert FirstOf(n) == (Letters(k), Amount(k));
  }

  lemma FirstLetter(n: nat)
    requires n >= 1
    ensures |Letters(Pick(n))| > 0 && Canonical(n) != [] && Canonical(n)[0] == Letters(Pick(n))[0]
  {
    SymbolIs(Pick(n));
    WithSymbol(n, Pick(n));
  }

  lemma NextIsSmaller(n: nat, k: nat)
    requires n >= 1 && k == Pick(n)
    ensures |Letters(k)| > 0
    ensures Canonical(n - Amount(k)) == [] || Canonical(n - Amount(k))[0] <= Last(Letters(k))
  {
    SymbolIs(k);
    var m := n - Amount(k);
    if m >= 1 {
      FirstLetter(m);
      NextSymbolIsSmaller(k, m);
    }
  }

  /** The canonical form of `n` by its first symbol. */
  lemma FirstSymbol(n: nat) returns (letters: Numeral, amount: nat, rest: Numeral)
    requires n >= 1
    ensures (letters, amount) == FirstOf(n) && IsSymbol(letters, amount) && AllLetters(letters) && 1 <= amount <= n
    ensures rest == Canonical(n - amount) && Canonical(n) == letters + rest
    ensures rest == [] || rest[0] <= Last(letters)
  {
    var k := Pick(n);
    SymbolIs(k);
    WithSymbol(n, k);
    NextIsSmaller(n, k);
    letters, amount := Letters(k), Amount(k);
    rest := Canonical(n - amount);
  }

  lemma {:induction false} GreedyLetters(first: Choice, n: nat)
    requires forall m {:trigger first(m)} :: m >= 1 ==> AllLetters(first(m).0)
    ensures AllLetters(Greedy(first, n))
  {
    if n > 0 && 1 <= first(n).1 <= n {
      GreedyLetters(first, n - first(n).1);
      LettersConcat(first(n).0, Greedy(first, n - first(n).1));
    }
  }

  lemma CanonicalLetters(n: nat)
    ensures AllLetters(Canonical(n))
  {
    forall m: nat | m >= 1 ensures AllLetters(FirstOf(m).0) {
      FirstIsSymbol(m);
    }
    GreedyLetters(FirstOf, n);
  }

  lemma LettersConcat(a: Numeral, b: Numeral)
    requires AllLetters(a) && AllLetters(b)
    ensures AllLetters(a + b)
  {
  }

  // ---- the value of a canonical form ----

  /** A symbol counts its amount when nothing larger follows. */
  lemma SymbolCounts(letters: Numeral, amount: nat, rest: Numeral)
    requires IsSymbol(letters, amount) && (rest == [] || rest[0] <= Last(letters))
    ensures Signed(letters + rest) == amount + Signed(rest)
  {
    var s := letters + rest;
    if |letters| == 1 {
      assert s[1..] == rest;
    } else {
      assert s[1..] == [letters[1]] + rest;
      assert s[1..][1..] == rest;
    }
  }

  /** The first symbol of a greedy form counts its amount. */
  predicate FirstCounts(first: Choice, n: nat) {
    && 1 <= first(n).1 <= n
    && Signed(first(n).0 + Greedy(first, n - first(n).1)) == first(n).1 + Signed(Greedy(first, n - first(n).1))
  }

  lemma {:induction false} GreedyCounts(first: Choice, n: nat)
    requires forall m {:trigger FirstCounts(first, m)} :: m >= 1 ==> FirstCounts(first, m)
    ensures Signed(Greedy(first, n)) == n
  {
    if n > 0 {
      assert FirstCounts(first, n);
      GreedyCounts(first, n - first(n).1);
    }
  }

  lemma CanonicalFirstCounts(n: nat)
    requires n >= 1
    ensures FirstCounts(FirstOf, n)
  {
    var letters, amount, rest := FirstSymbol(n);
    SymbolCounts(letters, amount, rest);
  }

  lemma CanonicalCounts(n: nat)
    ensures Signed(Canonical(n)) == n
  {
    forall m: nat | m >= 1 ensures FirstCounts(FirstOf, m) {
      CanonicalFirstCounts(m);
    }
    GreedyCounts(FirstOf, n);
  }

  // ---- the three loops ----

  /** What is written, with the canonical form of what is left, is the canonical form of the whole. */
  predicate Writing(out: string, rest: nat, value: nat, c: Case) {
    Spell(Canonical(value), c) == out + Spell(Canonical(rest), c)
  }

  /** Greedy: each symbol as often as it goes. */
  method ToRoman(value: nat, c: Case) returns (out: string)
    ensures out == Spell(Canonical(value), c)
  {
    out := "";
    var rest: nat := value;
    for k := 0 to SYMBOLS
      invariant Writing(out, rest, value, c)
      invariant k > 0 ==> rest < Amount(k - 1)
    {
      out, rest := WriteSymbol(out, rest, k, c, value);
    }
  }

  method WriteSymbol(before: string, from: nat, k: nat, c: Case, ghost value: nat) returns (out: string, rest: nat)
    requires k < SYMBOLS && Writing(before, from, value, c) && (k > 0 ==> from < Amount(k - 1))
    ensures Writing(out, rest, value, c) && rest < Amount(k)
  {
    out, rest := before, from;
    SymbolIs(k);
    while rest >= Amount(k)
      invariant Writing(out, rest, value, c)
      invariant rest <= from
      decreases rest
    {
      WritesOne(out, rest, value, k, c);
      out := out + Spell(Letters(k), c);
      rest := rest - Amount(k);
    }
  }

  lemma SpellConcat(a: Numeral, b: Numeral, c: Case)
    ensures Spell(a + b, c) == Spell(a, c) + Spell(b, c)
  {
  }

  lemma WritesOne(out: string, rest: nat, value: nat, k: nat, c: Case)
    requires k < SYMBOLS && Amount(k) <= rest && (k > 0 ==> rest < Amount(k - 1)) && Writing(out, rest, value, c)
    ensures Writing(out + Spell(Letters(k), c), rest - Amount(k), value, c)
  {
    WithSymbol(rest, k);
    SpellConcat(Letters(k), Canonical(rest - Amount(k)), c);
    Assoc(out, Spell(Letters(k), c), Spell(Canonical(rest - Amount(k)), c));
  }

  function RomanValue(roman: string): Option<nat> {
    var total := Signed(Read(roman, Upper));
    if total > 0 && Spell(Canonical(total), Upper) == roman then Some(total) else None
  }

  method ReadRoman(roman: string) returns (value: Option<nat>)
    ensures value == RomanValue(roman)
  {
    var total: int := 0;
    ghost var values := Read(roman, Upper);
    for i := 0 to |roman|
      invariant total + Signed(values[i..]) == Signed(values)
    {
      var v := LetterValue(roman[i], Upper);
      var next := if i + 1 < |roman| then LetterValue(roman[i + 1], Upper) else 0;
      assert values[i..][1..] == values[i + 1..];
      assert i + 1 < |roman| ==> values[i..][1] == next;
      total := total + (if v < next then -(v as int) else v);
    }
    if total <= 0 {
      return None;
    }
    var canonical := ToRoman(total, Upper);
    value := if canonical == roman then Some(total) else None;
  }

  /** Every number is read back from its canonical form. */
  lemma RomanRoundTrip(n: nat)
    requires n >= 1
    ensures RomanValue(Spell(Canonical(n), Upper)) == Some(n)
  {
    CanonicalLetters(n);
    ReadSpelled(Canonical(n), Upper);
    CanonicalCounts(n);
  }

  /** A text is accepted exactly when it is the canonical form of its value. */
  lemma AcceptsCanonical(roman: string, n: nat)
    ensures RomanValue(roman) == Some(n) <==> n >= 1 && roman == Spell(Canonical(n), Upper)
  {
    if n >= 1 {
      RomanRoundTrip(n);
    }
  }

  // ---- the parser of the cleaning ----

  predicate StartsWith(s: Numeral, prefix: Numeral) {
    |prefix| <= |s| && s[..|prefix|] == prefix
  }

  predicate StringStartsWith(s: string, prefix: string) {
    |prefix| <= |s| && s[..|prefix|] == prefix
  }

  lemma SpelledPrefix(rest: Numeral, symbol: Numeral, c: Case)
    requires AllLetters(rest) && AllLetters(symbol)
    ensures StringStartsWith(Spell(rest, c), Spell(symbol, c)) <==> StartsWith(rest, symbol)
  {
    if StringStartsWith(Spell(rest, c), Spell(symbol, c)) {
      forall i | 0 <= i < |symbol| ensures rest[i] == symbol[i] {
        assert Spell(rest, c)[..|symbol|][i] == Spell(symbol, c)[i];
        assert IsLetter(rest[i]) && IsLetter(symbol[i]);
      }
    }
  }

  /** Two symbols at the same place: the one that is read is not larger than the one that was written. */
  lemma SamePlace(letters: Numeral, amount: nat, picked: Numeral, pickedAmount: nat, rest: Numeral)
    requires IsSymbol(letters, amount) && IsSymbol(picked, pickedAmount)
    requires rest == [] || rest[0] <= Last(picked)
    requires StartsWith(picked + rest, letters)
    ensures amount <= pickedAmount
  {
    var s := picked + rest;
    assert forall i :: 0 <= i < |letters| ==> s[i] == s[..|letters|][i] == letters[i];
  }

  lemma PrefixOfConcat(a: Numeral, b: Numeral)
    ensures StartsWith(a + b, a)
  {
  }

  /** A canonical form starts with a symbol exactly when it holds its amount, the larger symbols being gone. */
  lemma PrefixMeansAmount(n: nat, k: nat)
    requires k < SYMBOLS && (k > 0 ==> n < Amount(k - 1))
    ensures StartsWith(Canonical(n), Letters(k)) <==> n >= Amount(k)
  {
    SymbolIs(k);
    if n >= 1 {
      if StartsWith(Canonical(n), Letters(k)) {
        var letters, amount, rest := FirstSymbol(n);
        SamePlace(Letters(k), Amount(k), letters, amount, rest);
      }
      if n >= Amount(k) {
        WithSymbol(n, k);
        PrefixOfConcat(Letters(k), Canonical(n - Amount(k)));
      }
    }
  }

  predicate InFilter(word: string) {
    2 <= |word| <= 8 && forall i :: 0 <= i < |word| ==> word[i] in "ivxlc"
  }

  /** Greedy prefixes, then the canonical form compared. */
  method IsRomanNumber(word: string) returns (accepted: bool)
    ensures accepted <==> InFilter(word) && exists n: nat :: n >= 1 && IsCanonical(word, n)
  {
    if |word| < 2 || |word| > 8 || exists i :: 0 <= i < |word| && word[i] !in "ivxlc" {
      return false;
    }
    var value, rest := ParsePrefixes(word);
    if rest != "" || value == 0 {
      return false;
    }
    var canonical := ToRoman(value, Lower);
    accepted := canonical == word;
    assert accepted ==> IsCanonical(word, value);
  }

  predicate IsCanonical(word: string, n: nat) {
    word == Spell(Canonical(n), Lower)
  }

  /** On a canonical form the greedy parser consumes everything and finds the value. */
  method ParsePrefixes(word: string) returns (value: nat, rest: string)
    ensures forall n: nat {:trigger IsCanonical(word, n)} :: IsCanonical(word, n) ==> value == n && rest == ""
  {
    value, rest := 0, word;
    for k := 0 to SYMBOLS
      invariant forall n: nat {:trigger IsCanonical(word, n)} :: IsCanonical(word, n) ==> Parsing(rest, value, n, k)
    {
      var symbol := Spell(Letters(k), Lower);
      SymbolIs(k);
      while StringStartsWith(rest, symbol)
        invariant forall n: nat {:trigger IsCanonical(word, n)} :: IsCanonical(word, n) ==> Parsing(rest, value, n, k)
        decreases |rest|
      {
        forall n: nat | IsCanonical(word, n) ensures Parsing(rest[|symbol|..], value + Amount(k), n, k) {
          Consume(rest, value, n, k);
        }
        value := value + Amount(k);
        rest := rest[|symbol|..];
      }
      forall n: nat | IsCanonical(word, n) ensures Parsing(rest, value, n, k + 1) {
        NextSymbol(rest, value, n, k);
      }
    }
  }

  /** What is left is the canonical form of what is missing, and the symbols before `k` are done. */
  predicate Parsing(rest: string, value: nat, n: nat, k: nat) {
    value <= n && rest == Spell(Canonical(n - value), Lower) && (0 < k <= SYMBOLS ==> n - value < Amount(k - 1))
  }

  /** The prefix test on the text is the test of the amount. */
  lemma TestIsAmount(m: nat, k: nat)
    requires k < SYMBOLS && (k > 0 ==> m < Amount(k - 1))
    ensures StringStartsWith(Spell(Canonical(m), Lower), Spell(Letters(k), Lower)) <==> m >= Amount(k)
  {
    CanonicalLetters(m);
    SymbolIs(k);
    SpelledPrefix(Canonical(m), Letters(k), Lower);
    PrefixMeansAmount(m, k);
  }

  lemma DropPrefix(a: string, b: string)
    ensures (a + b)[|a|..] == b
  {
  }

  lemma Consume(rest: string, value: nat, n: nat, k: nat)
    requires k < SYMBOLS && Parsing(rest, value, n, k) && StringStartsWith(rest, Spell(Letters(k), Lower))
    ensures Parsing(rest[|Letters(k)|..], value + Amount(k), n, k)
  {
    var m := n - value;
    TestIsAmount(m, k);
    WithSymbol(m, k);
    SpellConcat(Letters(k), Canonical(m - Amount(k)), Lower);
    DropPrefix(Spell(Letters(k), Lower), Spell(Canonical(m - Amount(k)), Lower));
    assert n - (value + Amount(k)) == m - Amount(k);
  }

  lemma NextSymbol(rest: string, value: nat, n: nat, k: nat)
    requires k < SYMBOLS && Parsing(rest, value, n, k) && !StringStartsWith(rest, Spell(Letters(k), Lower))
    ensures Parsing(rest, value, n, k + 1)
  {
    TestIsAmount(n - value, k);
  }

  function LowerOf(roman: string): (t: string)
    ensures |t| == |roman|
  {
    seq(|roman|, i requires 0 <= i < |roman| => if 'A' <= roman[i] <= 'Z' then roman[i] - 'A' + 'a' else roman[i])
  }

  /**
   * The two modules agree: the cleaning accepts the lower-case forms of what
   * the reading accepts, within its filter.
   */
  lemma ParsersAgree(roman: string)
    requires forall i :: 0 <= i < |roman| ==> 'A' <= roman[i] <= 'Z'
    ensures RomanValue(roman).Some? <==> exists n: nat :: n >= 1 && IsCanonical(LowerOf(roman), n)
  {
    if RomanValue(roman).Some? {
      var n := RomanValue(roman).value;
      AcceptsCanonical(roman, n);
      SameSpelling(roman, n);
      assert IsCanonical(LowerOf(roman), n);
    }
    if exists n: nat :: n >= 1 && IsCanonical(LowerOf(roman), n) {
      var n: nat :| n >= 1 && IsCanonical(LowerOf(roman), n);
      SameSpelling(roman, n);
      AcceptsCanonical(roman, n);
    }
  }

  lemma SameSpelling(roman: string, n: nat)
    requires forall i :: 0 <= i < |roman| ==> 'A' <= roman[i] <= 'Z'
    ensures roman == Spell(Canonical(n), Upper) <==> LowerOf(roman) == Spell(Canonical(n), Lower)
  {
    var s := Canonical(n);
    CanonicalLetters(n);
    if roman == Spell(s, Upper) {
      forall i | 0 <= i < |s| ensures LowerOf(roman)[i] == Spell(s, Lower)[i] {
        assert IsLetter(s[i]);
      }
    }
    if LowerOf(roman) == Spell(s, Lower) {
      forall i | 0 <= i < |s| ensures roman[i] == Spell(s, Upper)[i] {
        assert IsLetter(s[i]) && LowerOf(roman)[i] == Spell(s, Lower)[i];
      }
    }
  }
}
