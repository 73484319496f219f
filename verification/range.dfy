/** A1 addressing (src/utils/range.ts): column numbers to letters in
    bijective base 26, cell addresses back to (row, column), and range
    strings of the form `Sheet!A1:E10`. */
module Range {
  import opened Types
  import opened Text

  /** The letters of a 1-based column: 1 is "A", 26 is "Z", 27 is "AA".
      There is no digit for zero, hence the decrement before each
      division; a column below 1 has no letters. */
  function ColumnLetters(column: int): (r: string)
    ensures |r| >= 1 <==> column >= 1
    ensures forall i :: 0 <= i < |r| ==> 'A' <= r[i] <= 'Z'
    decreases column
  {
    if column <= 0 then ""
    else ColumnLetters((column - 1) / 26) + [(65 + (column - 1) % 26) as char]
  }

  /** `columnToLetter`: the loop that peels one letter off per round. */
  method ColumnToLetter(column: int) returns (result: string)
    ensures result == ColumnLetters(column)
  {
    result := "";
    var n := column;
    while n > 0
      invariant ColumnLetters(n) + result == ColumnLetters(column)
      decreases n
    {
      ColumnLettersPeel(n, result);
      n := n - 1;
      result := [(65 + n % 26) as char] + result;
      n := n / 26;
    }
  }

  lemma {:induction false} ColumnLettersPeel(n: int, result: string)
    requires n > 0
    ensures ColumnLetters(n) + result
         == ColumnLetters((n - 1) / 26) + ([(65 + (n - 1) % 26) as char] + result)
  {
  }

  /** The column number that `parseCell` accumulates from upper-case
      letters: each letter is worth its position in the alphabet. */
  function LettersValue(s: string): int {
    if s == [] then 0 else LettersValue(s[..|s| - 1]) * 26 + (s[|s| - 1] as int - 64)
  }

  predicate IsColumnName(s: string) {
    |s| >= 1 && forall i :: 0 <= i < |s| ==> 'A' <= s[i] <= 'Z'
  }

  /** Reading the letters of a column back gives the column. */
  lemma {:induction false} ColumnLettersRoundTrip(column: nat)
    ensures LettersValue(ColumnLetters(column)) == column
    decreases column
  {
    if column > 0 {
      var q, d := (column - 1) / 26, (column - 1) % 26;
      ColumnLettersRoundTrip(q);
      var s := ColumnLetters(column);
      assert s[..|s| - 1] == ColumnLetters(q);
      assert s[|s| - 1] as int == 65 + d;
    }
  }

  /** Distinct columns have distinct letters. */
  lemma {:induction false} ColumnLettersInjective(a: nat, b: nat)
    requires ColumnLetters(a) == ColumnLetters(b)
    ensures a == b
  {
    ColumnLettersRoundTrip(a);
    ColumnLettersRoundTrip(b);
  }

  /** Every non-empty string of upper-case letters is the name of exactly
      one column: together with the round trip, the encoding is a
      bijection between columns >= 1 and such strings. */
  lemma {:induction false} ColumnLettersOnto(s: string)
    requires IsColumnName(s)
    ensures LettersValue(s) >= 1
    ensures ColumnLetters(LettersValue(s)) == s
  {
    var init, last := s[..|s| - 1], s[|s| - 1];
    assert s == init + [last];
    assert 'A' <= last <= 'Z';
    if init != [] {
      assert IsColumnName(init) by {
        forall i | 0 <= i < |init| ensures 'A' <= init[i] <= 'Z' {
          assert init[i] == s[i];
        }
      }
      ColumnLettersOnto(init);
    }
    ColumnLettersOntoStep(init, last);
  }

  /** The inductive step: a letter appended to a column name. */
  lemma {:induction false} ColumnLettersOntoStep(init: string, last: char)
    requires init == [] || (LettersValue(init) >= 1 && ColumnLetters(LettersValue(init)) == init)
    requires 'A' <= last <= 'Z'
    ensures LettersValue(init + [last]) >= 1
    ensures ColumnLetters(LettersValue(init + [last])) == init + [last]
  {
    var d := last as int - 64;
    var v := LettersValue(init);
    assert LettersValue(init + [last]) == v * 26 + d by {
      var s := init + [last];
      assert s[..|s| - 1] == init && s[|s| - 1] == last;
    }
    assert ColumnLetters(v * 26 + d) == init + [last] by {
      ColumnLettersSnoc(v, d);
      assert (64 + d) as char == last;
      if init == [] {
        assert ColumnLetters(v) == [];
      }
    }
  }

  /** Appending the letter worth `d` to a column's letters. */
  lemma {:induction false} ColumnLettersSnoc(v: nat, d: int)
    requires 1 <= d <= 26
    ensures ColumnLetters(v * 26 + d) == ColumnLetters(v) + [(64 + d) as char]
  {
    var n := v * 26 + d;
    assert n - 1 == v * 26 + (d - 1);
    assert (n - 1) / 26 == v && (n - 1) % 26 == d - 1;
  }

  lemma {:induction false} ColumnLetterExamples()
    ensures ColumnLetters(1) == "A" && ColumnLetters(26) == "Z"
    ensures ColumnLetters(27) == "AA" && ColumnLetters(28) == "AB" && ColumnLetters(52) == "AZ"
    ensures ColumnLetters(702) == "ZZ" && ColumnLetters(703) == "AAA"
    ensures ColumnLetters(0) == "" && ColumnLetters(-5) == ""
  {
  }

  /** A parsed cell reference. */
  datatype Cell = Cell(row: int, col: int)

  /** The number of ASCII letters at the start of `s`. */
  function LeadingLetters(s: string): (k: nat)
    ensures k <= |s|
    ensures forall i :: 0 <= i < k ==> IsAsciiLetter(s[i])
    ensures k < |s| ==> !IsAsciiLetter(s[k])
  {
    if s != [] && IsAsciiLetter(s[0]) then 1 + LeadingLetters(s[1..]) else 0
  }

  /** The pattern `/^[A-Z]+\d+$/i`: one or more ASCII letters followed by
      one or more decimal digits and nothing else. */
  predicate IsCellAddress(s: string) {
    var k := LeadingLetters(s);
    1 <= k < |s| && AllDigits(s[k..])
  }

  /** What `parseCell` returns for `s`: the row is the decimal value of the
      digits, the column the value of the letters read as upper case. */
  function CellOf(s: string): (r: Result<Cell, Error>)
    ensures r.Ok? <==> IsCellAddress(s)
    ensures r.Err? ==> r.error == PlainError("Invalid cell reference: \"" + s + "\"")
  {
    if IsCellAddress(s) then
      var k := LeadingLetters(s);
      Ok(Cell(DigitsValue(s[k..]), LettersValue(Upper(s[..k]))))
    else
      Err(PlainError("Invalid cell reference: \"" + s + "\""))
  }

  /** `parseCell`: match the pattern, upper-case the letters, read the row
      and fold the letters into a column number. */
  method ParseCell(cell: string) returns (r: Result<Cell, Error>)
    ensures r == CellOf(cell)
  {
    if !IsCellAddress(cell) {
      return Err(PlainError("Invalid cell reference: \"" + cell + "\""));
    }
    var k := LeadingLetters(cell);
    var letters := Upper(cell[..k]);
    var row := DigitsValue(cell[k..]);
    var col := 0;
    for i := 0 to |letters|
      invariant col == LettersValue(letters[..i])
    {
      assert letters[..i + 1][..i] == letters[..i];
      col := col * 26 + (letters[i] as int - 64);
    }
    assert letters[..|letters|] == letters;
    r := Ok(Cell(row, col));
  }

  /** The pattern as the regular expression states it: some split of `s`
      into a non-empty run of letters and a non-empty run of digits. */
  lemma {:induction false} CellAddressPattern(s: string)
    ensures IsCellAddress(s) <==>
      exists k :: 1 <= k < |s| && (forall i :: 0 <= i < k ==> IsAsciiLetter(s[i])) && AllDigits(s[k..])
  {
    if exists k :: 1 <= k < |s| && (forall i :: 0 <= i < k ==> IsAsciiLetter(s[i])) && AllDigits(s[k..]) {
      var k :| 1 <= k < |s| && (forall i :: 0 <= i < k ==> IsAsciiLetter(s[i])) && AllDigits(s[k..]);
      assert IsDigit(s[k]) by { assert s[k] == s[k..][0]; }
      LeadingLettersExactly(s, k);
    }
  }

  /** The address of a cell: column letters then the row number. */
  function CellAddress(row: nat, col: int): string {
    ColumnLetters(col) + NatToString(row)
  }

  /** Parsing the address of a cell gives the cell back. */
  lemma {:induction false} CellAddressRoundTrip(row: nat, col: int)
    requires col >= 1
    ensures CellOf(CellAddress(row, col)) == Ok(Cell(row, col))
  {
    var letters, digits := ColumnLetters(col), NatToString(row);
    var s := letters + digits;
    NatToStringRoundTrip(row);
    assert forall i :: 0 <= i < |letters| ==> IsAsciiLetter(s[i]);
    assert !IsAsciiLetter(s[|letters|]) by { assert s[|letters|] == digits[0]; }
    LeadingLettersExactly(s, |letters|);
    assert s[..|letters|] == letters && s[|letters|..] == digits;
    assert Upper(letters) == letters;
    ColumnLettersRoundTrip(col);
  }

  lemma {:induction false} LeadingLettersExactly(s: string, k: nat)
    requires k < |s|
    requires forall i :: 0 <= i < k ==> IsAsciiLetter(s[i])
    requires !IsAsciiLetter(s[k])
    ensures LeadingLetters(s) == k
  {
  }

  /** `parseCell` ignores case: a reference and its upper-case form are
      accepted together and name the same cell. */
  lemma {:induction false} CellOfIgnoresCase(s: string)
    ensures IsCellAddress(Upper(s)) <==> IsCellAddress(s)
    ensures IsCellAddress(s) ==> CellOf(Upper(s)) == CellOf(s)
  {
    var u := Upper(s);
    UpperKeepsLeadingLetters(s);
    var k := LeadingLetters(s);
    UpperKeepsDigits(s, k);
    if IsCellAddress(s) {
      UpperIdempotent(s[..k]);
      assert u[..k] == Upper(s[..k]);
    }
  }

  /** Upper-casing leaves digits alone: the tail from `k` is all digits in
      `s` exactly when it is in `Upper(s)`, and then the two tails agree. */
  lemma {:induction false} UpperKeepsDigits(s: string, k: nat)
    requires k <= |s|
    ensures AllDigits(Upper(s)[k..]) <==> AllDigits(s[k..])
    ensures AllDigits(s[k..]) ==> Upper(s)[k..] == s[k..]
  {
    var u := Upper(s);
    forall i | 0 <= i < |s| - k
      ensures u[k..][i] == UpperChar(s[k..][i])
    {
    }
  }

  lemma {:induction false} UpperIdempotent(s: string)
    ensures Upper(Upper(s)) == Upper(s)
  {
  }

  lemma {:induction false} UpperKeepsLeadingLetters(s: string)
    ensures LeadingLetters(Upper(s)) == LeadingLetters(s)
  {
    var u, k := Upper(s), LeadingLetters(s);
    assert forall i :: 0 <= i < |s| ==> (IsAsciiLetter(u[i]) <==> IsAsciiLetter(s[i]));
    if k < |s| {
      LeadingLettersExactly(u, k);
    }
  }

  /** Single-letter references of the unit tests. */
  lemma {:induction false} CellOfExamples()
    ensures CellOf("A1") == Ok(Cell(1, 1)) && CellOf("B3") == Ok(Cell(3, 2))
  {
    CellFromPieces(1, 1, "A", "1");
    assert "A" + "1" == "A1";
    CellFromPieces(3, 2, "B", "3");
    assert "B" + "3" == "B3";
  }

  /** The last single-letter column with a three-digit row. */
  lemma {:induction false} CellOfLastLetterExample()
    ensures CellOf("Z100") == Ok(Cell(100, 26))
  {
    assert NatToString(100) == "100";
    CellFromPieces(100, 26, "Z", "100");
    assert "Z" + "100" == "Z100";
  }

  /** Multi-letter references of the unit tests. */
  lemma {:induction false} CellOfMultiLetterExamples()
    ensures CellOf("AA1") == Ok(Cell(1, 27)) && CellOf("AB5") == Ok(Cell(5, 28))
  {
    CellFromPieces(1, 27, "AA", "1");
    assert "AA" + "1" == "AA1";
    CellFromPieces(5, 28, "AB", "5");
    assert "AB" + "5" == "AB5";
  }

  /** Lower case is accepted; a reference without letters, without
      digits, or empty is refused. */
  lemma {:induction false} CellOfCaseAndRejections()
    ensures CellOf("a1") == Ok(Cell(1, 1))
    ensures CellOf("123").Err? && CellOf("").Err? && CellOf("A").Err?
  {
    CellFromPieces(1, 1, "A", "1");
    assert "A" + "1" == "A1";
    CellOfIgnoresCase("a1");
    assert Upper("a1") == "A1";
    assert LeadingLetters("123") == 0;
    assert LeadingLetters("A") == 1;
  }

  lemma {:induction false} CellFromPieces(row: nat, col: int, letters: string, digits: string)
    requires col >= 1 && ColumnLetters(col) == letters && NatToString(row) == digits
    ensures CellOf(letters + digits) == Ok(Cell(row, col))
  {
    CellAddressRoundTrip(row, col);
  }

  /** The sheet part of a range: single-quoted exactly when the name
      contains a space. */
  function SheetPrefix(sheet: string): string {
    if ' ' in sheet then "'" + sheet + "'" else sheet
  }

  /** `buildRange`: the rectangle from (startRow, startCol) to
      (endRow, endCol), both corners inclusive and 1-based. */
  function BuildRange(sheet: string, startRow: nat, startCol: int, endRow: nat, endCol: int): string {
    SheetPrefix(sheet) + "!" + CellAddress(startRow, startCol) + ":" + CellAddress(endRow, endCol)
  }

  /** A range split at its last '!' into the sheet part and two corners
      joined by ':'. */
  datatype RangeParts = RangeParts(sheetPart: string, start: Result<Cell, Error>, end: Result<Cell, Error>)

  /** Reading a range back: the text after its last '!' must be two
      addresses joined by ':', and the text before it is the sheet part. */
  function ReadRange(range: string): Option<RangeParts> {
    var parts := SplitOn(range, '!');
    if |parts| < 2 then None
    else
      var corners := SplitOn(parts[|parts| - 1], ':');
      if |corners| != 2 then None
      else Some(RangeParts(Join(parts[..|parts| - 1], '!'), CellOf(corners[0]), CellOf(corners[1])))
  }

  /** A range reads back to its sheet part and its two corners; the sheet
      part is the name, quoted exactly when it contains a space. */
  lemma {:induction false} BuildRangeReadsBack(sheet: string, startRow: nat, startCol: int, endRow: nat, endCol: int)
    requires startCol >= 1 && endCol >= 1
    ensures ReadRange(BuildRange(sheet, startRow, startCol, endRow, endCol))
         == Some(RangeParts(if ' ' in sheet then "'" + sheet + "'" else sheet,
                            Ok(Cell(startRow, startCol)), Ok(Cell(endRow, endCol))))
  {
    var a, b := CellAddress(startRow, startCol), CellAddress(endRow, endCol);
    var tail := a + ":" + b;
    var name := SheetPrefix(sheet);
    var range := BuildRange(sheet, startRow, startCol, endRow, endCol);
    assert SplitOn(tail, ':') == [a, b] by {
      AddressHasNoSeparators(startRow, startCol);
      AddressHasNoSeparators(endRow, endCol);
      assert tail == a + [':'] + b;
      SplitOnAtSep(a, b, ':');
      SplitOnNoSep(b, ':');
    }
    assert SplitOn(range, '!') == SplitOn(name, '!') + [tail] by {
      AddressHasNoSeparators(startRow, startCol);
      AddressHasNoSeparators(endRow, endCol);
      assert '!' !in tail;
      assert range == name + ['!'] + tail;
      SplitOnSuffix(name, tail, '!');
    }
    var parts := SplitOn(range, '!');
    assert parts[..|parts| - 1] == SplitOn(name, '!');
    assert Join(SplitOn(name, '!'), '!') == name by { SplitOnJoin(name, '!'); }
    CellAddressRoundTrip(startRow, startCol);
    CellAddressRoundTrip(endRow, endCol);
  }

  lemma {:induction false} AddressHasNoSeparators(row: nat, col: int)
    ensures '!' !in CellAddress(row, col) && ':' !in CellAddress(row, col)
  {
    NatToStringRoundTrip(row);
    var s := CellAddress(row, col);
    var letters := ColumnLetters(col);
    forall i | 0 <= i < |s| ensures s[i] != '!' && s[i] != ':' {
      if i >= |letters| { assert s[i] == NatToString(row)[i - |letters|]; }
    }
  }

  /** A separator followed by a separator-free tail ends the last piece. */
  lemma {:induction false} SplitOnSuffix(a: string, b: string, sep: char)
    requires sep !in b
    ensures SplitOn(a + [sep] + b, sep) == SplitOn(a, sep) + [b]
  {
    if a == [] {
      assert a + [sep] + b == [sep] + b;
      assert ([sep] + b)[1..] == b;
      SplitOnNoSep(b, sep);
    } else {
      SplitOnSuffix(a[1..], b, sep);
      assert (a + [sep] + b)[0] == a[0];
      assert (a + [sep] + b)[1..] == a[1..] + [sep] + b;
    }
  }

  lemma {:induction false} BuildRangeExample()
    ensures BuildRange("Sheet1", 1, 1, 10, 5) == "Sheet1!A1:E10"
  {
    assert SheetPrefix("Sheet1") == "Sheet1" by { assert ' ' !in "Sheet1"; }
    assert CellAddress(1, 1) == "A1" by { assert NatToString(1) == "1"; }
    assert CellAddress(10, 5) == "E10" by { assert NatToString(10) == "10"; }
    assert "Sheet1" + "!" + "A1" + ":" + "E10" == "Sheet1!A1:E10";
  }

  /** A name with a space is quoted. */
  lemma {:induction false} QuotedRangeExample()
    ensures BuildRange("My Sheet", 1, 1, 5, 3) == "'My Sheet'!A1:C5"
  {
    assert SheetPrefix("My Sheet") == "'My Sheet'" by { assert "My Sheet"[2] == ' '; }
    assert CellAddress(1, 1) == "A1" by { assert NatToString(1) == "1"; }
    assert CellAddress(5, 3) == "C5" by { assert NatToString(5) == "5"; }
    assert "'My Sheet'" + "!" + "A1" + ":" + "C5" == "'My Sheet'!A1:C5";
  }

  /** Column 30 is "AD". */
  lemma {:induction false} ColumnThirtyExample()
    ensures ColumnLetters(30) == "AD"
  {
    ColumnLettersSnoc(1, 4);
    assert ColumnLetters(1) == "A";
    assert "A" + ['D'] == "AD";
  }

  lemma {:induction false} WideRangeExample()
    ensures BuildRange("Data", 1, 1, 100, 30) == "Data!A1:AD100"
  {
    ColumnThirtyExample();
    assert SheetPrefix("Data") == "Data" by { assert ' ' !in "Data"; }
    assert CellAddress(1, 1) == "A1" by { assert NatToString(1) == "1"; }
    assert CellAddress(100, 30) == "AD100" by {
      assert NatToString(100) == "100";
      assert "AD" + "100" == "AD100";
    }
    assert "Data" + "!" + "A1" + ":" + "AD100" == "Data!A1:AD100";
  }
}
