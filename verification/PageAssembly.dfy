/** From the kept lines of a page to its text: one line each, words cut at a line end joined again. */
module PageAssembly {
  import opened Words
  import opened Tokenizer

  const HYPHEN: CodeUnit := '-' as int
  const NEWLINE: CodeUnit := '\n' as int
  const BLANK: CodeUnit := ' ' as int

  /** The letter classes of the regular expressions. */
  datatype Alphabet = Alphabet(isLetter: CodeUnit -> bool, isLower: CodeUnit -> bool)

  ghost predicate HyphenIsNoLetter(alphabet: Alphabet) {
    !alphabet.isLower(HYPHEN)
  }

  /** A line by its words: what is left between white space. */
  type Row = seq<Text>

  predicate IsRow(row: Row) {
    row != [] && forall k :: 0 <= k < |row| ==> row[k] != [] && NoSpace(row[k])
  }

  predicate AreRows(rows: seq<Row>) {
    forall k :: 0 <= k < |rows| ==> IsRow(rows[k])
  }

  function NonEmpty(pieces: seq<Text>, n: nat): Row
    requires n <= |pieces|
  {
    if n == 0 then [] else NonEmpty(pieces, n - 1) + (if pieces[n - 1] == [] then [] else [pieces[n - 1]])
  }

  function RowOf(line: Text): Row {
    var pieces := Pieces(line, 0);
    NonEmpty(pieces, |pieces|)
  }

  /** The lines that are not blank. */
  function RowsOf(lines: seq<Text>, n: nat): seq<Row>
    requires n <= |lines|
  {
    if n == 0 then [] else RowsOf(lines, n - 1) + (if RowOf(lines[n - 1]) == [] then [] else [RowOf(lines[n - 1])])
  }

  /** A word cut at the end of its line: a letter, then a hyphen. */
  predicate IsCutWord(alphabet: Alphabet, word: Text) {
    |word| >= 2 && word[|word| - 1] == HYPHEN && alphabet.isLetter(word[|word| - 2])
  }

  predicate Joins(alphabet: Alphabet, last: Text, first: Text) {
    IsCutWord(alphabet, last) && first != [] && alphabet.isLower(first[0])
  }

  function LastWord(row: Row): Text
    requires row != []
  {
    row[|row| - 1]
  }

  function WithJoined(row: Row, first: Text): (joined: Row)
    requires row != [] && LastWord(row) != []
    ensures |joined| == |row|
  {
    row[..|row| - 1] + [LastWord(row)[..|LastWord(row)| - 1] + first]
  }

  /** The end of a cut word goes up to its line; the rest of the line follows. */
  function AddRow(alphabet: Alphabet, out: seq<Row>, row: Row): seq<Row>
    requires AreRows(out) && IsRow(row)
  {
    if out != [] && Joins(alphabet, LastWord(out[|out| - 1]), row[0]) then
      out[..|out| - 1] + [WithJoined(out[|out| - 1], row[0])] + (if |row| > 1 then [row[1..]] else [])
    else out + [row]
  }

  lemma AddRowIsRows(alphabet: Alphabet, out: seq<Row>, row: Row)
    requires AreRows(out) && IsRow(row)
    ensures AreRows(AddRow(alphabet, out, row)) && AddRow(alphabet, out, row) != []
  {
  }

  function Assembled(alphabet: Alphabet, rows: seq<Row>, n: nat): (out: seq<Row>)
    requires n <= |rows| && AreRows(rows)
    ensures AreRows(out) && (n > 0 ==> out != [])
  {
    if n == 0 then []
    else
      AddRowIsRows(alphabet, Assembled(alphabet, rows, n - 1), rows[n - 1]);
      AddRow(alphabet, Assembled(alphabet, rows, n - 1), rows[n - 1])
  }

  function Joined(words: seq<Text>, between: CodeUnit): Text {
    if words == [] then [] else if |words| == 1 then words[0]
    else Joined(words[..|words| - 1], between) + [between] + words[|words| - 1]
  }

  function JoinRows(rows: seq<Row>): (lines: seq<Text>)
    ensures |lines| == |rows|
  {
    seq(|rows|, k requires 0 <= k < |rows| => Joined(rows[k], BLANK))
  }

  lemma {:induction false} NonEmptyWords(pieces: seq<Text>, n: nat)
    requires n <= |pieces| && forall k :: 0 <= k < |pieces| ==> NoSpace(pieces[k])
    ensures forall k :: 0 <= k < |NonEmpty(pieces, n)| ==>
              NonEmpty(pieces, n)[k] != [] && NoSpace(NonEmpty(pieces, n)[k])
  {
    if n > 0 {
      NonEmptyWords(pieces, n - 1);
    }
  }

  lemma {:induction false} RowsAreRows(lines: seq<Text>, n: nat)
    requires n <= |lines|
    ensures AreRows(RowsOf(lines, n))
  {
    if n > 0 {
      RowsAreRows(lines, n - 1);
      PiecesKeep(lines[n - 1], 0);
      NonEmptyWords(Pieces(lines[n - 1], 0), |Pieces(lines[n - 1], 0)|);
    }
  }

  lemma {:induction false} NonEmptyKeep(pieces: seq<Text>, n: nat)
    requires n <= |pieces|
    ensures Flatten(NonEmpty(pieces, n)) == Flatten(pieces[..n])
  {
    if n > 0 {
      NonEmptyKeep(pieces, n - 1);
      assert pieces[..n] == pieces[..n - 1] + [pieces[n - 1]];
      FlattenSnoc(pieces[..n - 1], pieces[n - 1]);
      if pieces[n - 1] == [] {
        assert NonEmpty(pieces, n - 1) + [] == NonEmpty(pieces, n - 1);
      } else {
        FlattenSnoc(NonEmpty(pieces, n - 1), pieces[n - 1]);
      }
    }
  }

  /** Normalising the spaces of a line loses nothing else. */
  lemma RowIsVisible(line: Text)
    ensures Flatten(RowOf(line)) == Visible(line)
  {
    var pieces := Pieces(line, 0);
    PiecesKeep(line, 0);
    NonEmptyKeep(pieces, |pieces|);
    assert pieces[..|pieces|] == pieces && line[0..] == line;
  }

  function TextOfRows(alphabet: Alphabet, rows: seq<Row>): Text
    requires AreRows(rows)
  {
    Joined(JoinRows(Assembled(alphabet, rows, |rows|)), NEWLINE)
  }

  /** The text of the lines of a page. */
  function PageTextOf(alphabet: Alphabet, lines: seq<Text>): Text {
    RowsAreRows(lines, |lines|);
    TextOfRows(alphabet, RowsOf(lines, |lines|))
  }

  method AssemblePageText(alphabet: Alphabet, lines: seq<Text>) returns (text: Text)
    ensures text == PageTextOf(alphabet, lines)
  {
    RowsAreRows(lines, |lines|);
    var cleaned := RowsOf(lines, |lines|);
    var out: seq<Row> := [];
    for n := 0 to |cleaned|
      invariant out == Assembled(alphabet, cleaned, n)
    {
      var row := cleaned[n];
      if |out| > 0 && Joins(alphabet, LastWord(out[|out| - 1]), row[0]) {
        out := out[..|out| - 1] + [WithJoined(out[|out| - 1], row[0])];
        if |row| > 1 {
          out := out + [row[1..]];
        }
        continue;
      }
      out := out + [row];
    }
    text := Joined(JoinRows(out), NEWLINE);
  }

  // ---- what the text keeps ----

  /** All that is read of some lines. */
  function Letters(rows: seq<Row>): Text {
    Flatten(Flatten(rows))
  }

  /** Lines `k - 1` and `k` share a word, whatever happened before them. */
  predicate SharesWord(alphabet: Alphabet, rows: seq<Row>, k: nat)
    requires 0 < k < |rows| && AreRows(rows)
  {
    Joins(alphabet, LastWord(rows[k - 1]), rows[k][0])
  }

  /** The letters of the lines, without the hyphen where two lines share a word. */
  function Kept(alphabet: Alphabet, rows: seq<Row>, n: nat): Text
    requires n <= |rows| && AreRows(rows)
  {
    if n == 0 then []
    else
      var before := Kept(alphabet, rows, n - 1);
      (if n > 1 && before != [] && SharesWord(alphabet, rows, n - 1) then before[..|before| - 1] else before)
        + Flatten(rows[n - 1])
  }

  lemma LettersSnoc(out: seq<Row>, row: Row)
    ensures Letters(out + [row]) == Letters(out) + Flatten(row)
  {
    FlattenSnoc(out, row);
    FlattenConcat(Flatten(out), row);
  }

  lemma RowEnds(row: Row)
    requires IsRow(row)
    ensures Flatten(row) == Flatten(row[..|row| - 1]) + LastWord(row)
    ensures Flatten(row) == row[0] + Flatten(row[1..])
    ensures Flatten(row) != [] && Flatten(row)[|Flatten(row)| - 1] == LastWord(row)[|LastWord(row)| - 1]
  {
    assert row == row[..|row| - 1] + [LastWord(row)];
    FlattenSnoc(row[..|row| - 1], LastWord(row));
  }

  lemma LettersEnd(front: seq<Row>, last: Row)
    requires IsRow(last)
    ensures Letters(front + [last]) == Letters(front) + (Flatten(last[..|last| - 1]) + LastWord(last))
    ensures var before := Letters(front + [last]);
            before != [] && before[|before| - 1] == LastWord(last)[|LastWord(last)| - 1]
  {
    hide Letters, Flatten, NoSpace;
    LettersSnoc(front, last);
    RowEnds(last);
  }

  /** Joining drops one unit, the last one so far, and loses nothing of the new line. */
  lemma JoinLetters(front: seq<Row>, last: Row, row: Row)
    requires IsRow(last) && IsRow(row)
    ensures var before := Letters(front + [last]);
            && before != []
            && Letters(front + [WithJoined(last, row[0])] + (if |row| > 1 then [row[1..]] else []))
              == before[..|before| - 1] + Flatten(row)
  {
    hide Letters, Flatten, WithJoined, NoSpace;
    LettersEnd(front, last);
    RowEnds(row);
    JoinedRow(last, row[0]);
    RestLetters(front + [WithJoined(last, row[0])], row);
    LettersSnoc(front, WithJoined(last, row[0]));
    JoinTexts(Letters(front), Flatten(last[..|last| - 1]), LastWord(last), row[0], Flatten(row[1..]));
  }

  lemma RestLetters(rows: seq<Row>, row: Row)
    requires row != []
    ensures Letters(rows + (if |row| > 1 then [row[1..]] else [])) == Letters(rows) + Flatten(row[1..])
  {
    if |row| > 1 {
      LettersSnoc(rows, row[1..]);
    } else {
      assert rows + [] == rows;
    }
  }

  lemma JoinedRow(last: Row, first: Text)
    requires IsRow(last)
    ensures Flatten(WithJoined(last, first))
            == Flatten(last[..|last| - 1]) + (LastWord(last)[..|LastWord(last)| - 1] + first)
  {
    FlattenSnoc(last[..|last| - 1], LastWord(last)[..|LastWord(last)| - 1] + first);
  }

  lemma JoinTexts(a: Text, top: Text, cut: Text, first: Text, rest: Text)
    requires cut != []
    ensures var before := a + (top + cut);
            (a + (top + (cut[..|cut| - 1] + first))) + rest == before[..|before| - 1] + (first + rest)
  {
  }

  /** Whether a line is joined depends on the two lines only: a merged word ends as the line that ends it. */
  lemma {:induction false} LastWordEnds(alphabet: Alphabet, rows: seq<Row>, n: nat)
    requires 0 < n <= |rows| && AreRows(rows) && HyphenIsNoLetter(alphabet)
    ensures var out := Assembled(alphabet, rows, n);
            IsCutWord(alphabet, LastWord(out[|out| - 1])) <==> IsCutWord(alphabet, LastWord(rows[n - 1]))
  {
    var before, row := Assembled(alphabet, rows, n - 1), rows[n - 1];
    if before != [] && |row| == 1 && Joins(alphabet, LastWord(before[|before| - 1]), row[0]) {
      SameEnding(alphabet, LastWord(before[|before| - 1]), row[0]);
    }
  }

  lemma SameEnding(alphabet: Alphabet, last: Text, first: Text)
    requires HyphenIsNoLetter(alphabet) && Joins(alphabet, last, first)
    ensures IsCutWord(alphabet, last[..|last| - 1] + first) <==> IsCutWord(alphabet, first)
  {
  }

  lemma AddRowLetters(alphabet: Alphabet, before: seq<Row>, row: Row)
    requires AreRows(before) && IsRow(row)
    ensures var letters := Letters(before);
            var joins := before != [] && Joins(alphabet, LastWord(before[|before| - 1]), row[0]);
            && (joins ==> letters != [] && letters[|letters| - 1] == HYPHEN)
            && Letters(AddRow(alphabet, before, row))
              == (if joins then letters[..|letters| - 1] else letters) + Flatten(row)
  {
    hide Letters, Flatten, WithJoined, NoSpace;
    LettersSnoc(before, row);
    if before != [] {
      var front, last := before[..|before| - 1], before[|before| - 1];
      assert before == front + [last];
      LettersEnd(front, last);
      JoinLetters(front, last, row);
    }
  }

  lemma SameJoin(alphabet: Alphabet, rows: seq<Row>, n: nat)
    requires 1 < n <= |rows| && AreRows(rows) && HyphenIsNoLetter(alphabet)
    ensures var before := Assembled(alphabet, rows, n - 1);
            Joins(alphabet, LastWord(before[|before| - 1]), rows[n - 1][0]) <==> SharesWord(alphabet, rows, n - 1)
  {
    LastWordEnds(alphabet, rows, n - 1);
  }

  /** Page text keeps every letter of its lines, in order, but one hyphen for each word that two lines share. */
  lemma {:induction false} AssemblyKeepsLetters(alphabet: Alphabet, rows: seq<Row>, n: nat)
    requires n <= |rows| && AreRows(rows) && HyphenIsNoLetter(alphabet)
    ensures Letters(Assembled(alphabet, rows, n)) == Kept(alphabet, rows, n)
    ensures n > 1 && SharesWord(alphabet, rows, n - 1) ==>
              Kept(alphabet, rows, n - 1) != []
                && Kept(alphabet, rows, n - 1)[|Kept(alphabet, rows, n - 1)| - 1] == HYPHEN
  {
    if n > 0 {
      hide Letters, AddRow, Joins, LastWord, SharesWord, Flatten, NoSpace;
      AssemblyKeepsLetters(alphabet, rows, n - 1);
      AddRowLetters(alphabet, Assembled(alphabet, rows, n - 1), rows[n - 1]);
      if n > 1 {
        SameJoin(alphabet, rows, n);
      }
    }
  }

  lemma {:induction false} JoinedVisible(words: seq<Text>, between: CodeUnit)
    requires IsSpace(between)
    ensures Visible(Joined(words, between)) == VisibleAll(words, |words|)
  {
    if |words| > 1 {
      var front, last := words[..|words| - 1], words[|words| - 1];
      JoinedVisible(front, between);
      VisibleConcat(Joined(front, between) + [between], last);
      VisibleConcat(Joined(front, between), [between]);
      VisiblePrefix(front, words, |front|);
    }
  }

  function VisibleAll(words: seq<Text>, n: nat): Text
    requires n <= |words|
  {
    if n == 0 then [] else VisibleAll(words, n - 1) + Visible(words[n - 1])
  }

  lemma {:induction false} VisiblePrefix(a: seq<Text>, b: seq<Text>, n: nat)
    requires n <= |a| <= |b| && a == b[..|a|]
    ensures VisibleAll(a, n) == VisibleAll(b, n)
  {
    if n > 0 {
      VisiblePrefix(a, b, n - 1);
    }
  }

  lemma {:induction false} RowVisible(row: Row, n: nat)
    requires n <= |row| && forall k :: 0 <= k < |row| ==> NoSpace(row[k])
    ensures VisibleAll(row, n) == Flatten(row[..n])
  {
    if n > 0 {
      RowVisible(row, n - 1);
      VisibleOfWord(row[n - 1]);
      assert row[..n] == row[..n - 1] + [row[n - 1]];
      FlattenSnoc(row[..n - 1], row[n - 1]);
    }
  }

  lemma OneRowVisible(row: Row)
    requires IsRow(row)
    ensures Visible(Joined(row, BLANK)) == Flatten(row)
  {
    JoinedVisible(row, BLANK);
    RowVisible(row, |row|);
    assert row[..|row|] == row;
  }

  lemma {:induction false} RowsVisible(rows: seq<Row>, n: nat)
    requires n <= |rows| && AreRows(rows)
    ensures VisibleAll(JoinRows(rows), n) == Letters(rows[..n])
  {
    if n > 0 {
      hide Letters, Flatten, Visible, Joined, NoSpace;
      RowsVisible(rows, n - 1);
      OneRowVisible(rows[n - 1]);
      assert rows[..n] == rows[..n - 1] + [rows[n - 1]];
      LettersSnoc(rows[..n - 1], rows[n - 1]);
    }
  }

  lemma TextIsItsRows(alphabet: Alphabet, rows: seq<Row>)
    requires AreRows(rows) && HyphenIsNoLetter(alphabet)
    ensures Visible(TextOfRows(alphabet, rows)) == Kept(alphabet, rows, |rows|)
  {
    var out := Assembled(alphabet, rows, |rows|);
    JoinedVisible(JoinRows(out), NEWLINE);
    RowsVisible(out, |out|);
    assert out[..|out|] == out;
    AssemblyKeepsLetters(alphabet, rows, |rows|);
  }

  /** The last line above that is not blank shares a word with this one. */
  predicate Continues(alphabet: Alphabet, above: seq<Text>, line: Text) {
    RowsAreRows(above, |above|);
    var rows := RowsOf(above, |above|);
    rows != [] && RowOf(line) != [] && Joins(alphabet, LastWord(rows[|rows| - 1]), RowOf(line)[0])
  }

  function WithoutLast(t: Text): Text {
    if t == [] then [] else t[..|t| - 1]
  }

  /** What the first `n` lines show, without the hyphen before a line that shares a word with the one above. */
  function ShownLines(alphabet: Alphabet, lines: seq<Text>, n: nat): Text
    requires n <= |lines|
  {
    if n == 0 then []
    else
      var above := ShownLines(alphabet, lines, n - 1);
      (if Continues(alphabet, lines[..n - 1], lines[n - 1]) then WithoutLast(above) else above) + Visible(lines[n - 1])
  }

  lemma {:induction false} KeptPrefix(alphabet: Alphabet, a: seq<Row>, b: seq<Row>, n: nat)
    requires n <= |a| && AreRows(a) && AreRows(b) && a <= b
    ensures Kept(alphabet, a, n) == Kept(alphabet, b, n)
  {
    if n > 0 {
      KeptPrefix(alphabet, a, b, n - 1);
    }
  }

  lemma {:induction false} RowsOfPrefix(a: seq<Text>, b: seq<Text>, n: nat)
    requires n <= |a| && a <= b
    ensures RowsOf(a, n) == RowsOf(b, n)
  {
    hide RowOf;
    if n > 0 {
      RowsOfPrefix(a, b, n - 1);
    }
  }

  lemma KeptSnoc(alphabet: Alphabet, rows: seq<Row>, row: Row)
    requires AreRows(rows) && IsRow(row)
    ensures var all := rows + [row];
            AreRows(all) && Kept(alphabet, all, |all|)
            == (if rows != [] && Joins(alphabet, LastWord(rows[|rows| - 1]), row[0])
                then WithoutLast(Kept(alphabet, rows, |rows|))
                else Kept(alphabet, rows, |rows|))
               + Flatten(row)
  {
    hide Flatten, Joins, LastWord;
    KeptPrefix(alphabet, rows, rows + [row], |rows|);
  }

  lemma {:induction false} LinesAreRows(alphabet: Alphabet, lines: seq<Text>, n: nat)
    requires n <= |lines|
    ensures AreRows(RowsOf(lines, n))
            && ShownLines(alphabet, lines, n) == Kept(alphabet, RowsOf(lines, n), |RowsOf(lines, n)|)
  {
    hide Kept, Visible, Flatten, Joins, RowOf, LastWord;
    RowsAreRows(lines, n);
    if n == 0 {
      NoRows(alphabet);
    } else {
      LinesAreRows(alphabet, lines, n - 1);
      RowsOfPrefix(lines[..n - 1], lines, n - 1);
      RowIsVisible(lines[n - 1]);
      LineIsRow(lines[n - 1]);
      if RowOf(lines[n - 1]) == [] {
        BlankLine(lines[n - 1]);
        assert RowsOf(lines, n) == RowsOf(lines, n - 1);
        assert ShownLines(alphabet, lines, n) == ShownLines(alphabet, lines, n - 1);
      } else {
        KeptSnoc(alphabet, RowsOf(lines, n - 1), RowOf(lines[n - 1]));
      }
    }
  }

  lemma NoRows(alphabet: Alphabet)
    ensures Kept(alphabet, [], 0) == []
  {
  }

  lemma LineIsRow(line: Text)
    ensures RowOf(line) == [] || IsRow(RowOf(line))
  {
    PiecesKeep(line, 0);
    NonEmptyWords(Pieces(line, 0), |Pieces(line, 0)|);
  }

  lemma BlankLine(line: Text)
    requires RowOf(line) == []
    ensures Visible(line) == []
  {
    RowIsVisible(line);
  }

  /** What the voice reads of a page is what its lines show, words cut at line ends joined again. */
  lemma PageTextIsItsLines(alphabet: Alphabet, lines: seq<Text>)
    requires HyphenIsNoLetter(alphabet)
    ensures Visible(PageTextOf(alphabet, lines)) == ShownLines(alphabet, lines, |lines|)
  {
    hide Kept, Visible, TextOfRows, ShownLines, RowsOf;
    LinesAreRows(alphabet, lines, |lines|);
    TextIsItsRows(alphabet, RowsOf(lines, |lines|));
  }

  // ---- the text, word by word ----

  /** A word of a page, and whether its line ends after it. */
  datatype Placed = Placed(word: Text, ends: bool)

  function PlacedRow(row: Row): (placed: seq<Placed>)
    ensures |placed| == |row|
  {
    seq(|row|, k requires 0 <= k < |row| => Placed(row[k], k == |row| - 1))
  }

  function PlacedRows(rows: seq<Row>): seq<Placed> {
    if rows == [] then [] else PlacedRows(rows[..|rows| - 1]) + PlacedRow(rows[|rows| - 1])
  }

  /** The two halves of a cut word made one, after which the line ends. */
  function Mend(cut: Text, rest: Text): Placed {
    Placed(WithoutLast(cut) + rest, true)
  }

  /** The words with each one that was cut at the end of a line made whole, from the first to the last. */
  function Mended(alphabet: Alphabet, placed: seq<Placed>): seq<Placed>
    decreases |placed|
  {
    if |placed| < 2 then placed
    else if !placed[0].ends || !Joins(alphabet, placed[0].word, placed[1].word) then
      [placed[0]] + Mended(alphabet, placed[1..])
    else if placed[1].ends then
      Mended(alphabet, [Mend(placed[0].word, placed[1].word)] + placed[2..])
    else [Mend(placed[0].word, placed[1].word)] + Mended(alphabet, placed[2..])
  }

  /** No line ends before the last word. */
  predicate EndsLast(placed: seq<Placed>) {
    forall k :: 0 <= k < |placed| ==> placed[k].ends == (k == |placed| - 1)
  }

  lemma {:induction false} OneLineStays(alphabet: Alphabet, placed: seq<Placed>)
    requires EndsLast(placed)
    ensures Mended(alphabet, placed) == placed
  {
    if |placed| >= 2 {
      OneLineStays(alphabet, placed[1..]);
    }
  }

  /** A line after mended ones: its first word goes up to a cut word, and what is left of it follows. */
  function Topped(before: seq<Placed>, joins: bool, line: seq<Placed>): seq<Placed>
    requires before != [] && line != []
  {
    if joins then before[..|before| - 1] + [Mend(before[|before| - 1].word, line[0].word)] + line[1..]
    else before + line
  }

  /** What was mended before does not depend on the line that follows, but for its last word. */
  lemma {:induction false} MendedSnoc(alphabet: Alphabet, placed: seq<Placed>, line: seq<Placed>)
    requires HyphenIsNoLetter(alphabet) && placed != [] && placed[|placed| - 1].ends
    requires line != [] && EndsLast(line)
    ensures var before, last := Mended(alphabet, placed), placed[|placed| - 1].word;
            && before != []
            && IsCutWord(alphabet, before[|before| - 1].word) == IsCutWord(alphabet, last)
            && Mended(alphabet, placed + line) == Topped(before, Joins(alphabet, last, line[0].word), line)
    decreases |placed|
  {
    hide IsCutWord, Mend, EndsLast, Joins, Mended, Topped;
    var joins := Joins(alphabet, placed[|placed| - 1].word, line[0].word);
    if |placed| == 1 {
      LineAfterWord(alphabet, placed[0], line);
      assert placed == [placed[0]];
    } else {
      MendedFirst(alphabet, placed, line);
      if !placed[0].ends || !Joins(alphabet, placed[0].word, placed[1].word) {
        MendedSnoc(alphabet, placed[1..], line);
        ToppedCons(placed[0], Mended(alphabet, placed[1..]), joins, line);
      } else {
        var mended := Mend(placed[0].word, placed[1].word);
        if placed[1].ends {
          MendedEnding(alphabet, placed[0].word, placed[1].word);
          JoinsByCut(alphabet, mended.word, placed[1].word, line[0].word);
          MendedSnoc(alphabet, [mended] + placed[2..], line);
        } else {
          MendedSnoc(alphabet, placed[2..], line);
          ToppedCons(mended, Mended(alphabet, placed[2..]), joins, line);
        }
      }
    }
  }

  /** The first step, with and without a line that follows. */
  lemma MendedFirst(alphabet: Alphabet, placed: seq<Placed>, line: seq<Placed>)
    requires |placed| >= 2
    ensures var (first, second, all) := (placed[0], placed[1], placed + line);
            var mended := Mend(first.word, second.word);
            if !first.ends || !Joins(alphabet, first.word, second.word) then
              && Mended(alphabet, placed) == [first] + Mended(alphabet, placed[1..])
              && Mended(alphabet, all) == [first] + Mended(alphabet, placed[1..] + line)
            else if second.ends then
              && Mended(alphabet, placed) == Mended(alphabet, [mended] + placed[2..])
              && Mended(alphabet, all) == Mended(alphabet, [mended] + placed[2..] + line)
            else
              && Mended(alphabet, placed) == [mended] + Mended(alphabet, placed[2..])
              && Mended(alphabet, all) == [mended] + Mended(alphabet, placed[2..] + line)
  {
    hide Joins, Mend;
    var all := placed + line;
    assert all[1..] == placed[1..] + line && all[2..] == placed[2..] + line;
    var mended := Mend(placed[0].word, placed[1].word);
    assert [mended] + all[2..] == [mended] + placed[2..] + line;
  }

  lemma ToppedCons(first: Placed, before: seq<Placed>, joins: bool, line: seq<Placed>)
    requires before != [] && line != []
    ensures Topped([first] + before, joins, line) == [first] + Topped(before, joins, line)
    ensures ([first] + before)[|before|] == before[|before| - 1]
  {
    hide Mend;
    assert ([first] + before)[..|before|] == [first] + before[..|before| - 1];
  }

  lemma JoinsByCut(alphabet: Alphabet, a: Text, b: Text, first: Text)
    requires IsCutWord(alphabet, a) == IsCutWord(alphabet, b)
    ensures Joins(alphabet, a, first) == Joins(alphabet, b, first)
  {
  }

  lemma MendedEnding(alphabet: Alphabet, cut: Text, rest: Text)
    requires HyphenIsNoLetter(alphabet) && Joins(alphabet, cut, rest)
    ensures Mend(cut, rest).ends && IsCutWord(alphabet, Mend(cut, rest).word) == IsCutWord(alphabet, rest)
  {
    SameEnding(alphabet, cut, rest);
  }

  lemma LineAfterWord(alphabet: Alphabet, word: Placed, line: seq<Placed>)
    requires word.ends && line != [] && EndsLast(line)
    ensures Mended(alphabet, [word]) == [word]
    ensures Mended(alphabet, [word] + line) == Topped([word], Joins(alphabet, word.word, line[0].word), line)
  {
    hide Joins;
    var all := [word] + line;
    OneLineStays(alphabet, line);
    assert all[1..] == line && all[2..] == line[1..];
    if Joins(alphabet, word.word, line[0].word) {
      var mended := Mend(word.word, line[0].word);
      if line[0].ends {
        assert [mended] + all[2..] == [mended];
      } else {
        OneLineStays(alphabet, line[1..]);
      }
    }
  }

  lemma PlacedSnoc(rows: seq<Row>, row: Row)
    ensures PlacedRows(rows + [row]) == PlacedRows(rows) + PlacedRow(row)
  {
    assert (rows + [row])[..|rows|] == rows;
  }

  lemma PlacedEnd(rows: seq<Row>)
    requires AreRows(rows) && rows != []
    ensures var placed := PlacedRows(rows);
            placed != [] && placed[|placed| - 1] == Placed(LastWord(rows[|rows| - 1]), true)
  {
  }

  lemma RestPlaces(rows: seq<Row>, row: Row)
    requires row != []
    ensures PlacedRows(rows + (if |row| > 1 then [row[1..]] else [])) == PlacedRows(rows) + PlacedRow(row)[1..]
  {
    hide PlacedRows;
    if |row| > 1 {
      PlacedSnoc(rows, row[1..]);
      assert PlacedRow(row[1..]) == PlacedRow(row)[1..];
    } else {
      assert rows + [] == rows && PlacedRow(row)[1..] == [];
    }
  }

  lemma JoinedTops(front: seq<Row>, last: Row, row: Row)
    requires IsRow(last) && IsRow(row)
    ensures PlacedRows(front + [last]) != []
    ensures PlacedRows(front + [WithJoined(last, row[0])] + (if |row| > 1 then [row[1..]] else []))
            == Topped(PlacedRows(front + [last]), true, PlacedRow(row))
  {
    hide PlacedRows, WithJoined, NoSpace, Topped;
    PlacedSnoc(front, last);
    PlacedSnoc(front, WithJoined(last, row[0]));
    JoinedPlaces(last, row[0]);
    RestPlaces(front + [WithJoined(last, row[0])], row);
    TopsFront(PlacedRows(front), PlacedRow(last), PlacedRow(row));
  }

  /** Adding a line to the lines so far does to their words what `Topped` says. */
  lemma AddRowTops(alphabet: Alphabet, out: seq<Row>, row: Row)
    requires AreRows(out) && IsRow(row) && out != []
    ensures PlacedRows(out) != []
    ensures PlacedRows(AddRow(alphabet, out, row))
            == Topped(PlacedRows(out), Joins(alphabet, LastWord(out[|out| - 1]), row[0]), PlacedRow(row))
  {
    hide Joins, PlacedRows, WithJoined, NoSpace, PlacedRow;
    PlacedEnd(out);
    var front, last := out[..|out| - 1], out[|out| - 1];
    assert out == front + [last];
    JoinedTops(front, last, row);
    PlacedSnoc(out, row);
  }

  lemma JoinedPlaces(last: Row, first: Text)
    requires IsRow(last)
    ensures PlacedRow(WithJoined(last, first))
            == PlacedRow(last)[..|last| - 1] + [Mend(PlacedRow(last)[|last| - 1].word, first)]
  {
  }

  lemma TopsFront(front: seq<Placed>, last: seq<Placed>, line: seq<Placed>)
    requires last != [] && line != []
    ensures Topped(front + last, true, line)
            == front + (last[..|last| - 1] + [Mend(last[|last| - 1].word, line[0].word)]) + line[1..]
  {
  }

  lemma OneLineMended(alphabet: Alphabet, rows: seq<Row>, n: nat)
    requires 1 < n <= |rows| && AreRows(rows) && HyphenIsNoLetter(alphabet)
    requires PlacedRows(Assembled(alphabet, rows, n - 1)) == Mended(alphabet, PlacedRows(rows[..n - 1]))
    ensures PlacedRows(AddRow(alphabet, Assembled(alphabet, rows, n - 1), rows[n - 1]))
            == Mended(alphabet, PlacedRows(rows[..n]))
  {
    hide Joins, Mended, PlacedRows, PlacedRow, AddRow, HyphenIsNoLetter, Topped, Assembled, NoSpace, LastWord;
    var before, row := rows[..n - 1], rows[n - 1];
    assert rows[..n] == before + [row];
    PlacedSnoc(before, row);
    AddRowTops(alphabet, Assembled(alphabet, rows, n - 1), row);
    SameJoin(alphabet, rows, n);
    PlacedEnd(before);
    RowEndsLast(row);
    MendedSnoc(alphabet, PlacedRows(before), PlacedRow(row));
  }

  /** The lines that are put together are the words of the given ones, in order, each cut word made whole. */
  lemma {:induction false} AssembledIsMended(alphabet: Alphabet, rows: seq<Row>, n: nat)
    requires n <= |rows| && AreRows(rows) && HyphenIsNoLetter(alphabet)
    ensures PlacedRows(Assembled(alphabet, rows, n)) == Mended(alphabet, PlacedRows(rows[..n]))
  {
    hide *;
    NothingAssembled(alphabet, rows);
    if n > 0 {
      AssembledIsMended(alphabet, rows, n - 1);
      AssembledStep(alphabet, rows, n);
      if n == 1 {
        FirstIsMended(alphabet, rows[0]);
        assert rows[..1] == [] + [rows[0]];
        PlacedSnoc([], rows[0]);
      } else {
        OneLineMended(alphabet, rows, n);
      }
    }
  }

  lemma AssembledStep(alphabet: Alphabet, rows: seq<Row>, n: nat)
    requires 0 < n <= |rows| && AreRows(rows)
    ensures IsRow(rows[n - 1])
    ensures Assembled(alphabet, rows, n) == AddRow(alphabet, Assembled(alphabet, rows, n - 1), rows[n - 1])
  {
  }

  lemma NothingAssembled(alphabet: Alphabet, rows: seq<Row>)
    requires AreRows(rows)
    ensures Assembled(alphabet, rows, 0) == []
    ensures PlacedRows(Assembled(alphabet, rows, 0)) == Mended(alphabet, PlacedRows(rows[..0]))
  {
    assert rows[..0] == [];
  }

  lemma FirstIsMended(alphabet: Alphabet, row: Row)
    requires IsRow(row)
    ensures PlacedRows(AddRow(alphabet, [], row)) == Mended(alphabet, PlacedRows([]) + PlacedRow(row))
  {
    OneLineStays(alphabet, PlacedRow(row));
    PlacedSnoc([], row);
    assert [] + [row] == [row];
    assert PlacedRows([]) + PlacedRow(row) == PlacedRow(row);
  }

  lemma RowEndsLast(row: Row)
    requires row != []
    ensures PlacedRow(row) != [] && EndsLast(PlacedRow(row)) && PlacedRow(row)[0].word == row[0]
  {
  }

  // ---- the text, read back ----

  /** The pieces of a text between the occurrences of a unit. */
  function Split(t: Text, at: CodeUnit): (pieces: seq<Text>)
    ensures pieces != []
  {
    if t == [] then [[]]
    else
      var rest := Split(t[1..], at);
      if t[0] == at then [[]] + rest else [[t[0]] + rest[0]] + rest[1..]
  }

  lemma {:induction false} SplitAtUnit(a: Text, at: CodeUnit, b: Text)
    requires at !in a
    ensures Split(a, at) == [a] && Split(a + [at] + b, at) == [a] + Split(b, at)
  {
    var t := a + [at] + b;
    if a == [] {
      assert t[1..] == b;
    } else {
      SplitAtUnit(a[1..], at, b);
      assert t[1..] == a[1..] + [at] + b && [a[0]] + a[1..] == a;
    }
  }

  lemma {:induction false} JoinedCons(first: Text, rest: seq<Text>, between: CodeUnit)
    requires rest != []
    ensures Joined([first] + rest, between) == first + [between] + Joined(rest, between)
    decreases |rest|
  {
    var all := [first] + rest;
    var front := rest[..|rest| - 1];
    assert all[..|all| - 1] == [first] + front;
    if front != [] {
      JoinedCons(first, front, between);
    } else {
      assert Joined([first] + front, between) == first;
    }
  }

  /** Splitting undoes joining. */
  lemma {:induction false} SplitJoined(words: seq<Text>, between: CodeUnit)
    requires words != [] && forall k :: 0 <= k < |words| ==> between !in words[k]
    ensures Split(Joined(words, between), between) == words
  {
    if |words| == 1 {
      SplitAtUnit(words[0], between, []);
    } else {
      SplitJoined(words[1..], between);
      assert words == [words[0]] + words[1..];
      JoinedCons(words[0], words[1..], between);
      SplitAtUnit(words[0], between, Joined(words[1..], between));
    }
  }

  /** The lines of a text and the words of each, as line feeds and blanks separate them. */
  function ReadRows(text: Text): seq<Row> {
    var lines := Split(text, NEWLINE);
    seq(|lines|, k requires 0 <= k < |lines| => Split(lines[k], BLANK))
  }

  lemma {:induction false} NotInJoined(words: seq<Text>, between: CodeUnit, u: CodeUnit)
    requires u != between && forall k :: 0 <= k < |words| ==> u !in words[k]
    ensures u !in Joined(words, between)
  {
    if |words| > 1 {
      NotInJoined(words[..|words| - 1], between, u);
    }
  }

  lemma NotInRow(row: Row)
    requires IsRow(row)
    ensures forall k :: 0 <= k < |row| ==> BLANK !in row[k] && NEWLINE !in row[k]
    ensures NEWLINE !in Joined(row, BLANK) && Split(Joined(row, BLANK), BLANK) == row
  {
    assert IsSpace(BLANK) && IsSpace(NEWLINE);
    forall k | 0 <= k < |row| ensures BLANK !in row[k] && NEWLINE !in row[k] {
      assert NoSpace(row[k]);
    }
    NotInJoined(row, BLANK, NEWLINE);
    SplitJoined(row, BLANK);
  }

  lemma RowsAreRead(rows: seq<Row>)
    requires AreRows(rows) && rows != []
    ensures ReadRows(Joined(JoinRows(rows), NEWLINE)) == rows
  {
    hide Joined, Split, NoSpace, IsRow;
    forall k | 0 <= k < |rows|
      ensures NEWLINE !in JoinRows(rows)[k] && Split(JoinRows(rows)[k], BLANK) == rows[k]
    {
      NotInRow(rows[k]);
    }
    SplitJoined(JoinRows(rows), NEWLINE);
  }

  /** The words of the text, line by line, are those of the lines that are not blank, each cut word made whole. */
  predicate IsMendedText(alphabet: Alphabet, lines: seq<Text>, text: Text) {
    var rows := RowsOf(lines, |lines|);
    if rows == [] then text == [] else PlacedRows(ReadRows(text)) == Mended(alphabet, PlacedRows(rows))
  }

  lemma PageTextIsMended(alphabet: Alphabet, lines: seq<Text>)
    requires HyphenIsNoLetter(alphabet)
    ensures IsMendedText(alphabet, lines, PageTextOf(alphabet, lines))
  {
    hide Joined, ReadRows, Mended, RowsOf, PlacedRows, HyphenIsNoLetter;
    RowsAreRows(lines, |lines|);
    var rows := RowsOf(lines, |lines|);
    AssembledIsMended(alphabet, rows, |rows|);
    assert rows[..|rows|] == rows;
    if rows == [] {
      NothingJoined();
      assert JoinRows(Assembled(alphabet, rows, 0)) == [];
    } else {
      RowsAreRead(Assembled(alphabet, rows, |rows|));
    }
  }

  lemma NothingJoined()
    ensures Joined([], NEWLINE) == []
  {
  }

  // ---- the spaces of a line ----

  /** Something that is not white space precedes position `n`. */
  predicate ShownBefore(t: Text, n: nat)
    requires n <= |t|
  {
    exists j :: 0 <= j < n && !IsSpace(t[j])
  }

  /** A unit that is shown stays; white space between two of them is one blank, at its last unit. */
  function SqueezedUnit(t: Text, i: nat): Text
    requires i < |t|
  {
    if !IsSpace(t[i]) then [t[i]]
    else if i + 1 < |t| && !IsSpace(t[i + 1]) && ShownBefore(t, i) then [BLANK]
    else []
  }

  /** The first `n` units with every run of white space as one blank, and none at either end. */
  function Squeezed(t: Text, n: nat): Text
    requires n <= |t|
  {
    if n == 0 then [] else Squeezed(t, n - 1) + SqueezedUnit(t, n - 1)
  }

  lemma {:induction false} WordIsKept(t: Text, from: nat, end: nat)
    requires from <= end <= |t| && forall k :: from <= k < end ==> !IsSpace(t[k])
    ensures Squeezed(t, end) == Squeezed(t, from) + t[from..end]
    ensures ShownBefore(t, end) == (ShownBefore(t, from) || from < end)
  {
    if from < end {
      assert t[from..end] == t[from..end - 1] + [t[end - 1]];
      WordIsKept(t, from, end - 1);
    }
  }

  lemma {:induction false} SpacesAreDropped(t: Text, end: nat, next: nat)
    requires end <= next < |t| && forall k :: end <= k <= next ==> IsSpace(t[k])
    ensures Squeezed(t, next) == Squeezed(t, end) && ShownBefore(t, next) == ShownBefore(t, end)
  {
    if end < next {
      SpacesAreDropped(t, end, next - 1);
    }
  }

  lemma SpacesAreOneBlank(t: Text, end: nat, next: nat)
    requires end < next <= |t| && forall k :: end <= k < next ==> IsSpace(t[k])
    requires next < |t| ==> !IsSpace(t[next])
    ensures Squeezed(t, next) == Squeezed(t, end) + (if next < |t| && ShownBefore(t, end) then [BLANK] else [])
    ensures ShownBefore(t, next) == ShownBefore(t, end)
  {
    SpacesAreDropped(t, end, next - 1);
  }

  lemma {:induction false} NonEmptyCons(first: Text, rest: seq<Text>, n: nat)
    requires n <= |rest|
    ensures NonEmpty([first] + rest, n + 1) == (if first == [] then [] else [first]) + NonEmpty(rest, n)
  {
    if n > 0 {
      NonEmptyCons(first, rest, n - 1);
    }
  }

  lemma PiecesCons(t: Text, from: nat)
    requires from <= |t|
    ensures var end, pieces := WordEnd(t, from), Pieces(t, from);
            var first := if from == end then [] else [t[from..end]];
            && NonEmpty(pieces, |pieces|)
              == first + if end == |t| then []
                         else NonEmpty(Pieces(t, SpaceEnd(t, end)), |Pieces(t, SpaceEnd(t, end))|)
  {
    var end := WordEnd(t, from);
    if end == |t| {
      assert t[from..] == t[from..end];
      NonEmptyCons(t[from..end], [], 0);
      assert Pieces(t, from) == [t[from..end]] + [];
    } else {
      var rest := Pieces(t, SpaceEnd(t, end));
      NonEmptyCons(t[from..end], rest, |rest|);
    }
  }

  /** The words before `from` are `row`, and a blank follows them if another word does. */
  predicate SqueezedSoFar(t: Text, from: nat, row: Row)
    requires from <= |t|
  {
    && Squeezed(t, from) == Joined(row, BLANK) + (if row != [] && from < |t| then [BLANK] else [])
    && (row != [] <==> ShownBefore(t, from))
    && (row != [] && from < |t| ==> !IsSpace(t[from]))
  }

  lemma JoinedSnoc(row: Row, word: Text)
    ensures Joined(row + [word], BLANK) == Joined(row, BLANK) + (if row == [] then [] else [BLANK]) + word
  {
    assert (row + [word])[..|row|] == row;
  }

  lemma {:induction false} SqueezedFrom(t: Text, from: nat, row: Row)
    requires from <= |t| && SqueezedSoFar(t, from, row)
    ensures Squeezed(t, |t|) == Joined(row + NonEmpty(Pieces(t, from), |Pieces(t, from)|), BLANK)
    decreases |t| - from
  {
    hide Squeezed, Joined, Pieces, NonEmpty;
    var end := WordEnd(t, from);
    var more: Row := if from == end then [] else [t[from..end]];
    forall k | from <= k < end ensures !IsSpace(t[k]) {
      assert t[k] == t[from..end][k - from];
    }
    WordIsKept(t, from, end);
    PiecesCons(t, from);
    if from < end {
      JoinedSnoc(row, t[from..end]);
    } else {
      assert row + more == row && t[from..end] == [];
    }
    assert Squeezed(t, end) == Joined(row + more, BLANK);
    if end < |t| {
      var next := SpaceEnd(t, end);
      SpacesAreOneBlank(t, end, next);
      SqueezedFrom(t, next, row + more);
      var rest := NonEmpty(Pieces(t, next), |Pieces(t, next)|);
      assert row + (more + rest) == (row + more) + rest;
    } else {
      assert row + (more + []) == row + more;
    }
  }

  /** The words of a line with a blank between two of them are the line with its spaces squeezed. */
  lemma RowIsSqueezed(t: Text)
    ensures Joined(RowOf(t), BLANK) == Squeezed(t, |t|)
  {
    NoWordYet(t);
    SqueezedFrom(t, 0, []);
    assert [] + RowOf(t) == RowOf(t);
  }

  lemma NoWordYet(t: Text)
    ensures SqueezedSoFar(t, 0, [])
  {
  }
}
