/** The delimited-text parser of src/parsers/csv.ts: the two-state
    (quoted / unquoted) character machine of `parseCSVString` and the
    per-field coercion `coerceValue`. Reading the file is not modelled. */
module Csv {
  import opened Types
  import opened Text

  // ---------------------------------------------------------------------
  // coerceValue

  predicate IsDecimalDigits(s: string) {
    |s| >= 1 && AllDigits(s)
  }

  /** An optionally signed run of decimal digits (an exponent's value). */
  predicate IsSignedInteger(s: string) {
    IsDecimalDigits(s) || (|s| >= 1 && (s[0] == '+' || s[0] == '-') && IsDecimalDigits(s[1..]))
  }

  /** Digits with at most one '.', and at least one digit overall:
      "12", "12.", "12.5", ".5". */
  predicate IsMantissa(s: string) {
    var k := PositionOf(s, '.');
    if k == |s| then IsDecimalDigits(s)
    else |s| >= 2 && AllDigits(s[..k]) && AllDigits(s[k + 1..])
  }

  /** The index of the first `c` in `s`, or |s| when there is none. */
  function PositionOf(s: string, c: char): (k: nat)
    ensures k <= |s| && c !in s[..k]
    ensures k < |s| ==> s[k] == c
  {
    if s == [] || s[0] == c then 0 else 1 + PositionOf(s[1..], c)
  }

  predicate IsExponentMark(c: char) {
    c == 'e' || c == 'E'
  }

  /** The index of the first exponent mark, or |s| when there is none. */
  function ExponentAt(s: string): (k: nat)
    ensures k <= |s|
    ensures k < |s| ==> IsExponentMark(s[k])
    ensures forall j :: 0 <= j < k ==> !IsExponentMark(s[j])
  {
    if s == [] || IsExponentMark(s[0]) then 0 else 1 + ExponentAt(s[1..])
  }

  /** StrUnsignedDecimalLiteral of ECMAScript's StringNumericLiteral. */
  predicate IsUnsignedDecimal(s: string) {
    s == "Infinity" ||
    (var k := ExponentAt(s);
     IsMantissa(s[..k]) && (k == |s| || IsSignedInteger(s[k + 1..])))
  }

  predicate IsDecimalLiteral(s: string) {
    IsUnsignedDecimal(s) || (|s| >= 1 && (s[0] == '+' || s[0] == '-') && IsUnsignedDecimal(s[1..]))
  }

  predicate IsHexDigit(c: char) {
    IsDigit(c) || 'a' <= c <= 'f' || 'A' <= c <= 'F'
  }

  /** NonDecimalIntegerLiteral: 0x / 0o / 0b and at least one digit of
      that base, no sign. */
  predicate IsNonDecimalInteger(s: string) {
    |s| >= 3 && s[0] == '0' &&
    ((s[1] in "xX" && forall i :: 2 <= i < |s| ==> IsHexDigit(s[i]))
     || (s[1] in "oO" && forall i :: 2 <= i < |s| ==> '0' <= s[i] <= '7')
     || (s[1] in "bB" && forall i :: 2 <= i < |s| ==> s[i] == '0' || s[i] == '1'))
  }

  /** `!isNaN(Number(t))` for a non-empty text without surrounding
      whitespace: `t` is a StringNumericLiteral. */
  predicate IsNumericLiteral(t: string) {
    IsDecimalLiteral(t) || IsNonDecimalInteger(t)
  }

  /** `coerceValue(raw)`. */
  function Coerce(raw: string): Value {
    var t := Trim(raw);
    if t == "" then Null
    else if Lower(t) == "true" then Bool(true)
    else if Lower(t) == "false" then Bool(false)
    else if IsNumericLiteral(t) then Num(t)
    else Str(raw)
  }

  lemma {:induction false} TrimStartStops(s: string)
    requires s == [] || !IsWhitespace(s[0])
    ensures TrimStart(s) == s
  {
  }

  lemma {:induction false} TrimEndStops(s: string)
    requires s == [] || !IsWhitespace(s[|s| - 1])
    ensures TrimEnd(s) == s
  {
  }

  lemma {:induction false} TrimStartSkips(s: string)
    requires s != [] && IsWhitespace(s[0])
    ensures TrimStart(s) == TrimStart(s[1..])
  {
  }

  lemma {:induction false} TrimEndSkips(s: string)
    requires s != [] && IsWhitespace(s[|s| - 1])
    ensures TrimEnd(s) == TrimEnd(s[..|s| - 1])
  {
  }

  /** A text that neither starts nor ends with whitespace is its own
      trim. */
  lemma {:induction false} TrimUnspaced(t: string)
    requires |t| >= 1 && !IsWhitespace(t[0]) && !IsWhitespace(t[|t| - 1])
    ensures Trim(t) == t
  {
    TrimStartStops(t);
    TrimEndStops(t);
  }

  /** Trimming a text with one space on each side. */
  lemma {:induction false} TrimSpaced(s: string, t: string)
    requires |t| >= 1 && !IsWhitespace(t[0]) && !IsWhitespace(t[|t| - 1])
    requires s == [' '] + t + [' ']
    ensures Trim(s) == t
  {
    assert TrimStart(s) == t + [' '] by {
      TrimStartSkips(s);
      assert s[1..] == t + [' '];
      TrimStartStops(t + [' ']);
    }
    TrimEndSpaced(t);
  }

  lemma {:induction false} TrimEndSpaced(t: string)
    requires |t| >= 1 && !IsWhitespace(t[|t| - 1])
    ensures TrimEnd(t + [' ']) == t
  {
    TrimEndSkips(t + [' ']);
    assert (t + [' '])[..|t|] == t;
    TrimEndStops(t);
  }

  /** Trimming twice is trimming once. */
  lemma {:induction false} TrimIdempotent(s: string)
    ensures Trim(Trim(s)) == Trim(s)
  {
    var u := TrimStart(s);
    var t := TrimEnd(u);
    if t != [] {
      assert t[0] == u[0];
    }
    TrimStartStops(t);
    TrimEndStops(t);
  }

  /** Only the trimmed text decides a typed result: coercing the trimmed
      text gives the same null, boolean or number, and the text case is
      kept in both. The text case returns the field untrimmed. */
  lemma {:induction false} CoerceDependsOnTrimmed(raw: string)
    ensures Coerce(raw).Str? <==> Coerce(Trim(raw)).Str?
    ensures !Coerce(raw).Str? ==> Coerce(raw) == Coerce(Trim(raw))
    ensures Coerce(raw).Str? ==> Coerce(raw).s == raw && Trim(raw) != ""
  {
    TrimIdempotent(raw);
  }

  /** Coercion never yields an array or an object. */
  lemma {:induction false} CoerceIsCell(raw: string)
    ensures IsCell(Coerce(raw))
  {
  }

  /** Blank fields are null. */
  lemma {:induction false} CoerceBlankExample()
    ensures Coerce("  \t") == Null && Coerce("") == Null
  {
    assert TrimStart("  \t") == "";
  }

  /** A trimmed text that is neither blank nor a boolean decides between
      a number and the untrimmed text. */
  lemma {:induction false} CoerceNotBlankNorBoolean(raw: string, t: string)
    requires Trim(raw) == t && t != ""
    requires Lower(t) != "true" && Lower(t) != "false"
    ensures Coerce(raw) == if IsNumericLiteral(t) then Num(t) else Str(raw)
  {
  }

  /** A trimmed text that is "true" or "false" in some case is that
      boolean. */
  lemma {:induction false} CoerceBoolean(raw: string, t: string, b: bool)
    requires Trim(raw) == t && Lower(t) == (if b then "true" else "false")
    ensures Coerce(raw) == Bool(b)
  {
  }

  /** A text whose first character is no 't' or 'f' in any case is no
      boolean word. */
  lemma {:induction false} NotABoolean(t: string)
    requires |t| >= 1 && LowerChar(t[0]) != 't' && LowerChar(t[0]) != 'f'
    ensures Lower(t) != "true" && Lower(t) != "false"
  {
    assert Lower(t)[0] == LowerChar(t[0]);
  }

  lemma {:induction false} LowerTrue()
    ensures Lower("TRUE") == "true"
  {
  }

  lemma {:induction false} TrueFacts()
    ensures Trim("TRUE") == "TRUE" && Lower("TRUE") == "true"
  {
    LowerTrue();
    TrimUnspaced("TRUE");
  }

  /** "true" and "false" in any case, around which whitespace is ignored. */
  lemma {:induction false} CoerceTrueExample()
    ensures Coerce("TRUE") == Bool(true)
  {
    TrueFacts();
    CoerceBoolean("TRUE", "TRUE", true);
  }

  lemma {:induction false} FalseFacts()
    ensures Trim(" False ") == "False" && Lower("False") == "false"
  {
    LowerFalse();
    TrimSpaced(" False ", "False");
  }

  lemma {:induction false} LowerFalse()
    ensures Lower("False") == "false"
  {
  }

  lemma {:induction false} CoerceFalseExample()
    ensures Coerce(" False ") == Bool(false)
  {
    FalseFacts();
    CoerceBoolean(" False ", "False", false);
  }

  lemma {:induction false} IntegerFacts()
    ensures Trim(" 42 ") == "42"
    ensures Lower("42") != "true" && Lower("42") != "false"
    ensures IsNumericLiteral("42")
  {
    NotABoolean("42");
    TrimSpaced(" 42 ", "42");
    assert ExponentAt("42") == 2;
    assert PositionOf("42", '.') == 2;
  }

  /** A number is kept as its trimmed literal. */
  lemma {:induction false} CoerceIntegerExample()
    ensures Coerce(" 42 ") == Num("42")
  {
    IntegerFacts();
    CoerceNotBlankNorBoolean(" 42 ", "42");
  }

  lemma {:induction false} MantissaExample()
    ensures IsMantissa("1.5")
  {
    assert PositionOf("1.5", '.') == 1;
    assert "1.5"[..1] == "1" && "1.5"[2..] == "5";
  }

  lemma {:induction false} UnsignedExample()
    ensures IsUnsignedDecimal("1.5e3")
  {
    assert ExponentAt("1.5e3") == 3;
    assert "1.5e3"[..3] == "1.5" && "1.5e3"[4..] == "3";
    MantissaExample();
    assert IsSignedInteger("3");
  }

  lemma {:induction false} ExponentIsNumeric()
    ensures IsNumericLiteral("-1.5e3")
  {
    UnsignedExample();
    assert "-1.5e3"[1..] == "1.5e3";
  }

  lemma {:induction false} ExponentFacts()
    ensures Trim("-1.5e3") == "-1.5e3"
    ensures Lower("-1.5e3") != "true" && Lower("-1.5e3") != "false"
    ensures IsNumericLiteral("-1.5e3")
  {
    NotABoolean("-1.5e3");
    TrimUnspaced("-1.5e3");
    ExponentIsNumeric();
  }

  lemma {:induction false} CoerceExponentExample()
    ensures Coerce("-1.5e3") == Num("-1.5e3")
  {
    ExponentFacts();
    CoerceNotBlankNorBoolean("-1.5e3", "-1.5e3");
  }

  lemma {:induction false} HexLiteralIsNumeric()
    ensures IsNumericLiteral("0x1F")
  {
    assert "0x1F"[1] in "xX";
    assert IsNonDecimalInteger("0x1F");
  }

  lemma {:induction false} HexLiteralFacts()
    ensures Trim("0x1F") == "0x1F"
    ensures Lower("0x1F") != "true" && Lower("0x1F") != "false"
    ensures IsNumericLiteral("0x1F")
  {
    NotABoolean("0x1F");
    TrimUnspaced("0x1F");
    HexLiteralIsNumeric();
  }

  lemma {:induction false} CoerceHexExample()
    ensures Coerce("0x1F") == Num("0x1F")
  {
    HexLiteralFacts();
    CoerceNotBlankNorBoolean("0x1F", "0x1F");
  }

  lemma {:induction false} UnsignedPartIsNotDecimal()
    ensures !IsUnsignedDecimal("0x1")
  {
    assert ExponentAt("0x1") == 3;
    assert PositionOf("0x1", '.') == 3;
    assert !IsDigit('x');
    assert !IsMantissa("0x1");
  }

  lemma {:induction false} SignedHexIsNotNumeric()
    ensures !IsNumericLiteral("-0x1")
  {
    UnsignedPartIsNotDecimal();
    assert "-0x1"[1..] == "0x1";
    assert ExponentAt("-0x1") == 4;
    assert PositionOf("-0x1", '.') == 4;
    assert !IsUnsignedDecimal("-0x1");
    assert !IsNonDecimalInteger("-0x1");
  }

  lemma {:induction false} SignedHexFacts()
    ensures Trim("-0x1") == "-0x1"
    ensures Lower("-0x1") != "true" && Lower("-0x1") != "false"
    ensures !IsNumericLiteral("-0x1")
  {
    NotABoolean("-0x1");
    TrimUnspaced("-0x1");
    SignedHexIsNotNumeric();
  }

  /** A signed hexadecimal literal is not a number. */
  lemma {:induction false} CoerceSignedHexExample()
    ensures Coerce("-0x1") == Str("-0x1")
  {
    SignedHexFacts();
    CoerceNotBlankNorBoolean("-0x1", "-0x1");
  }

  lemma {:induction false} HelloIsNotNumeric()
    ensures !IsNumericLiteral("hello")
  {
    assert ExponentAt("hello") == 1;
    assert !IsDigit('h');
    assert !IsMantissa("h");
    assert !IsUnsignedDecimal("hello");
  }

  lemma {:induction false} TextFacts()
    ensures Trim(" hello ") == "hello"
    ensures Lower("hello") != "true" && Lower("hello") != "false"
    ensures !IsNumericLiteral("hello")
  {
    NotABoolean("hello");
    TrimSpaced(" hello ", "hello");
    HelloIsNotNumeric();
  }

  /** Other text is returned untrimmed. */
  lemma {:induction false} CoerceTextExample()
    ensures Coerce(" hello ") == Str(" hello ")
  {
    TextFacts();
    CoerceNotBlankNorBoolean(" hello ", "hello");
  }

  // ---------------------------------------------------------------------
  // parseCSVString

  /** The loop's variables, with every finished cell kept as the text it
      was coerced from: finished rows, the row being built, the field being
      built, and whether a quoted section is open. */
  datatype Scanner = Scanner(rows: seq<seq<string>>, row: seq<string>, field: string, inQuotes: bool)

  const Start := Scanner([], [], "", false)

  /** A newline outside quotes: the field ends the row, the row is done. */
  function EndRow(st: Scanner): Scanner {
    Scanner(st.rows + [st.row + [st.field]], [], "", st.inQuotes)
  }

  /** One iteration of the loop on the remaining input `s`: the next state
      and how many characters it consumes. */
  function Step(s: string, st: Scanner): (r: (Scanner, nat))
    requires s != []
    ensures r.1 == 1 || r.1 == 2
    ensures r.1 <= |s|
  {
    var c := s[0];
    if st.inQuotes then
      if c == '"' then
        if |s| >= 2 && s[1] == '"' then (st.(field := st.field + "\""), 2)
        else (st.(inQuotes := false), 1)
      else (st.(field := st.field + [c]), 1)
    else if c == '"' then (st.(inQuotes := true), 1)
    else if c == ',' then (st.(row := st.row + [st.field], field := ""), 1)
    else if c == '\r' && |s| >= 2 && s[1] == '\n' then (EndRow(st), 2)
    else if c == '\n' then (EndRow(st), 1)
    else (st.(field := st.field + [c]), 1)
  }

  /** The state after the loop has consumed all of `s`. */
  function Scan(s: string, st: Scanner): Scanner
    decreases |s|
  {
    if s == [] then st
    else
      var (next, n) := Step(s, st);
      Scan(s[n..], next)
  }

  /** After the loop: the pending field and row are kept only when one of
      them is non-empty. */
  function Finish(st: Scanner): seq<seq<string>> {
    if st.field != "" || st.row != [] then st.rows + [st.row + [st.field]] else st.rows
  }

  /** One unfolding of the loop. */
  lemma {:induction false} ScanUnfold(s: string, st: Scanner)
    requires s != []
    ensures Scan(s, st) == Scan(s[Step(s, st).1..], Step(s, st).0)
  {
  }

  /** The field texts of every row, before coercion. */
  function Fields(content: string): seq<seq<string>> {
    Finish(Scan(content, Start))
  }

  /** The cells a list of field texts becomes. */
  function Cells(fields: seq<string>): (r: Row)
    ensures |r| == |fields|
  {
    seq(|fields|, i requires 0 <= i < |fields| => Coerce(fields[i]))
  }

  function CellsGrid(table: seq<seq<string>>): (g: Grid)
    ensures |g| == |table|
  {
    if table == [] then [] else [Cells(table[0])] + CellsGrid(table[1..])
  }

  /** What `parseCSVString(content)` returns. */
  function Parse(content: string): Grid {
    CellsGrid(Fields(content))
  }

  lemma {:induction false} CellsSnoc(fields: seq<string>, f: string)
    ensures Cells(fields + [f]) == Cells(fields) + [Coerce(f)]
  {
  }

  lemma {:induction false} CellsGridSnoc(table: seq<seq<string>>, row: seq<string>)
    ensures CellsGrid(table + [row]) == CellsGrid(table) + [Cells(row)]
  {
    if table != [] {
      assert (table + [row])[1..] == table[1..] + [row];
      CellsGridSnoc(table[1..], row);
    }
  }

  /** `currentRow.push(coerceValue(currentField))`, with the texts the row
      was coerced from. */
  method PushCell(row: Row, ghost texts: seq<string>, field: string) returns (pushed: Row)
    requires row == Cells(texts)
    ensures pushed == Cells(texts + [field])
  {
    CellsSnoc(texts, field);
    pushed := row + [Coerce(field)];
  }

  /** `parseCSVString(content)`. Cells are coerced as they are pushed; the
      texts they came from are tracked alongside. */
  method ParseCsvString(content: string) returns (rows: Grid)
    ensures rows == Parse(content)
  {
    rows := [];
    var currentRow: Row := [];
    var currentField := "";
    var inQuotes := false;
    var i := 0;
    ghost var textRows: seq<seq<string>> := [];
    ghost var textRow: seq<string> := [];
    while i < |content|
      invariant 0 <= i <= |content|
      invariant rows == CellsGrid(textRows) && currentRow == Cells(textRow)
      invariant Scan(content[i..], Scanner(textRows, textRow, currentField, inQuotes)) == Scan(content, Start)
      decreases |content| - i
    {
      ghost var before := Scanner(textRows, textRow, currentField, inQuotes);
      var c := content[i];
      var step := 1;
      if inQuotes {
        if c == '"' {
          if i + 1 < |content| && content[i + 1] == '"' {
            currentField := currentField + "\"";
            step := 2;
          } else {
            inQuotes := false;
          }
        } else {
          currentField := currentField + [c];
        }
      } else {
        if c == '"' {
          inQuotes := true;
        } else if c == ',' {
          currentRow := PushCell(currentRow, textRow, currentField);
          textRow := textRow + [currentField];
          currentField := "";
        } else if c == '\r' && i + 1 < |content| && content[i + 1] == '\n' {
          currentRow := PushCell(currentRow, textRow, currentField);
          textRow := textRow + [currentField];
          currentField := "";
          CellsGridSnoc(textRows, textRow);
          rows := rows + [currentRow];
          textRows := textRows + [textRow];
          currentRow := [];
          textRow := [];
          step := 2;
        } else if c == '\n' {
          currentRow := PushCell(currentRow, textRow, currentField);
          textRow := textRow + [currentField];
          currentField := "";
          CellsGridSnoc(textRows, textRow);
          rows := rows + [currentRow];
          textRows := textRows + [textRow];
          currentRow := [];
          textRow := [];
        } else {
          currentField := currentField + [c];
        }
      }
      assert Step(content[i..], before) == (Scanner(textRows, textRow, currentField, inQuotes), step);
      assert content[i..][step..] == content[i + step..];
      i := i + step;
    }
    if currentField != "" || |currentRow| > 0 {
      currentRow := PushCell(currentRow, textRow, currentField);
      textRow := textRow + [currentField];
      CellsGridSnoc(textRows, textRow);
      rows := rows + [currentRow];
      textRows := textRows + [textRow];
    }
  }

  // ---------------------------------------------------------------------
  // Quoting: a quoted, quote-doubled field reads back as its text

  /** The text with every '"' doubled. */
  function Escape(s: string): string {
    if s == [] then [] else (if s[0] == '"' then "\"\"" else [s[0]]) + Escape(s[1..])
  }

  /** The field as section 2 of RFC 4180 quotes it. */
  function Quote(s: string): string {
    "\"" + Escape(s) + "\""
  }

  /** A row of quoted fields separated by commas. */
  function EncodeRow(fields: seq<string>): string
    requires |fields| >= 1
  {
    if |fields| == 1 then Quote(fields[0]) else Quote(fields[0]) + "," + EncodeRow(fields[1..])
  }

  /** Every row followed by a newline. */
  function Encode(table: seq<seq<string>>): string
    requires forall i :: 0 <= i < |table| ==> |table[i]| >= 1
  {
    if table == [] then "" else EncodeRow(table[0]) + "\n" + Encode(table[1..])
  }

  /** Inside quotes, an escaped text and its closing quote add the text to
      the field and close the quotes. */
  lemma {:induction false} ScanEscaped(s: string, rest: string, st: Scanner)
    requires st.inQuotes
    requires rest == [] || rest[0] != '"'
    ensures Scan(Escape(s) + "\"" + rest, st) == Scan(rest, st.(field := st.field + s, inQuotes := false))
    decreases |s|
  {
    if s == [] {
      ScanClosingQuote(rest, st);
    } else {
      ScanEscapedHead(s, rest, st);
      ScanEscaped(s[1..], rest, st.(field := st.field + [s[0]]));
      assert st.field + [s[0]] + s[1..] == st.field + s;
    }
  }

  /** Inside quotes, a '"' that is not doubled closes the quotes. */
  lemma {:induction false} ScanClosingQuote(rest: string, st: Scanner)
    requires st.inQuotes
    requires rest == [] || rest[0] != '"'
    ensures Scan(Escape([]) + "\"" + rest, st) == Scan(rest, st.(field := st.field + [], inQuotes := false))
  {
    var x := Escape([]) + "\"" + rest;
    assert x == "\"" + rest;
    assert x[1..] == rest;
    assert Step(x, st) == (st.(inQuotes := false), 1);
    assert st.field + [] == st.field;
    ScanUnfold(x, st);
  }

  /** Inside quotes, the escape of the first character adds that
      character to the field. */
  lemma {:induction false} ScanEscapedHead(s: string, rest: string, st: Scanner)
    requires st.inQuotes && s != []
    ensures Scan(Escape(s) + "\"" + rest, st)
         == Scan(Escape(s[1..]) + "\"" + rest, st.(field := st.field + [s[0]]))
  {
    var x := Escape(s) + "\"" + rest;
    var y := Escape(s[1..]) + "\"" + rest;
    if s[0] == '"' {
      assert x == "\"\"" + y;
      assert x[2..] == y;
      assert Step(x, st) == (st.(field := st.field + [s[0]]), 2);
    } else {
      assert x == [s[0]] + y;
      assert x[1..] == y;
      assert Step(x, st) == (st.(field := st.field + [s[0]]), 1);
    }
    ScanUnfold(x, st);
  }

  /** Outside quotes, a '"' opens quotes. */
  lemma {:induction false} ScanOpensQuote(s: string, rest: string, st: Scanner)
    requires !st.inQuotes
    ensures Scan(Quote(s) + rest, st) == Scan(Escape(s) + "\"" + rest, st.(inQuotes := true))
  {
    var x := Quote(s) + rest;
    var y := Escape(s) + "\"" + rest;
    assert x[0] == '"' && x[1..] == y by {
      assert x == "\"" + y;
    }
    ScanUnfold(x, st);
  }

  /** Outside quotes, a quoted field adds its text to the pending field. */
  lemma {:induction false} ScanQuoted(s: string, rest: string, st: Scanner)
    requires !st.inQuotes
    requires rest == [] || rest[0] != '"'
    ensures Scan(Quote(s) + rest, st) == Scan(rest, st.(field := st.field + s))
  {
    ScanOpensQuote(s, rest, st);
    ScanEscaped(s, rest, st.(inQuotes := true));
  }

  /** An encoded row and its newline complete the row being built. */
  lemma {:induction false} ScanEncodedRow(fields: seq<string>, rest: string, rows: seq<seq<string>>, row: seq<string>)
    requires |fields| >= 1
    ensures Scan(EncodeRow(fields) + "\n" + rest, Scanner(rows, row, "", false))
         == Scan(rest, Scanner(rows + [row + fields], [], "", false))
  {
    var f := fields[0];
    if |fields| == 1 {
      assert EncodeRow(fields) + "\n" + rest == Quote(f) + ("\n" + rest);
      ScanLastField(f, rest, rows, row);
      assert fields == [f];
    } else {
      var tail := EncodeRow(fields[1..]) + "\n" + rest;
      assert EncodeRow(fields) + "\n" + rest == Quote(f) + ("," + tail);
      ScanFieldThenComma(f, tail, rows, row);
      ScanEncodedRow(fields[1..], rest, rows, row + [f]);
      assert row + [f] + fields[1..] == row + fields;
    }
  }

  /** A quoted field and a newline end the row with that field. */
  lemma {:induction false} ScanLastField(f: string, rest: string, rows: seq<seq<string>>, row: seq<string>)
    ensures Scan(Quote(f) + ("\n" + rest), Scanner(rows, row, "", false))
         == Scan(rest, Scanner(rows + [row + [f]], [], "", false))
  {
    var st := Scanner(rows, row, "", false);
    var y := "\n" + rest;
    ScanQuoted(f, y, st);
    assert "" + f == f;
    ScanNewline(rest, st.(field := f));
  }

  /** A quoted field and a comma add the field to the row. */
  lemma {:induction false} ScanFieldThenComma(f: string, tail: string, rows: seq<seq<string>>, row: seq<string>)
    ensures Scan(Quote(f) + ("," + tail), Scanner(rows, row, "", false))
         == Scan(tail, Scanner(rows, row + [f], "", false))
  {
    var st := Scanner(rows, row, "", false);
    ScanQuoted(f, "," + tail, st);
    assert "" + f == f;
    assert "," + tail == [','] + tail;
    ScanComma(tail, st.(field := f));
  }

  lemma {:induction false} ScanEncoded(table: seq<seq<string>>, rows: seq<seq<string>>)
    requires forall i :: 0 <= i < |table| ==> |table[i]| >= 1
    ensures Scan(Encode(table), Scanner(rows, [], "", false)) == Scanner(rows + table, [], "", false)
  {
    if table == [] {
      assert rows + [] == rows;
    } else {
      ScanEncodedRow(table[0], Encode(table[1..]), rows, []);
      assert [] + table[0] == table[0];
      ScanEncoded(table[1..], rows + [table[0]]);
      assert rows + [table[0]] + table[1..] == rows + table;
    }
  }

  /** Quoting round trip: writing every field quoted (with its quotes
      doubled) and every row followed by a newline, then parsing, gives
      back every field text in its row and position, so commas, quotes and
      newlines inside a field survive; the cells are those texts coerced. */
  lemma {:induction false} EncodeParseRoundTrip(table: seq<seq<string>>)
    requires forall i :: 0 <= i < |table| ==> |table[i]| >= 1
    ensures Fields(Encode(table)) == table
    ensures Parse(Encode(table)) == CellsGrid(table)
  {
    ScanEncoded(table, []);
    assert [] + table == table;
  }

  /** A doubled quote inside quotes is one literal quote. */
  lemma {:induction false} DoubledQuoteExample()
    ensures Fields("\"a\"\"b\"") == [["a\"b"]]
  {
    assert Quote("a\"b") == "\"a\"\"b\"";
    assert Quote("a\"b") + "" == Quote("a\"b");
    ScanQuoted("a\"b", "", Start);
    assert "" + "a\"b" == "a\"b";
    assert Scan("\"a\"\"b\"", Start) == Scanner([], [], "a\"b", false);
    assert [] + ["a\"b"] == ["a\"b"];
  }

  // ---------------------------------------------------------------------
  // Quote-free input: rows are lines, cells are comma-separated pieces

  /** Every line a row of its comma-separated pieces, except that a final
      empty line (the text after a trailing newline, or the empty input)
      is no row. */
  function RowsOfLines(lines: seq<string>): seq<seq<string>>
    requires |lines| >= 1
  {
    if |lines| == 1 then (if lines[0] != "" then [SplitOn(lines[0], ',')] else [])
    else [SplitOn(lines[0], ',')] + RowsOfLines(lines[1..])
  }

  /** The reference reading of input without quotes or carriage returns:
      split into lines at '\n', each line into fields at ','. */
  function SplitReading(content: string): seq<seq<string>> {
    RowsOfLines(SplitOn(content, '\n'))
  }

  predicate Plain(s: string) {
    '"' !in s && '\r' !in s
  }

  /** Outside quotes, scanning a quote-free, carriage-return-free prefix
      never looks past it and never opens quotes. */
  lemma {:induction false} ScanAppendPlain(a: string, b: string, st: Scanner)
    requires Plain(a) && !st.inQuotes
    ensures !Scan(a, st).inQuotes
    ensures Scan(a + b, st) == Scan(b, Scan(a, st))
  {
    if a == [] {
      assert a + b == b;
    } else {
      assert (a + b)[0] == a[0];
      assert Plain(a[1..]);
      var next := Step(a, st).0;
      assert Step(a, st) == (next, 1);
      assert Step(a + b, st) == (next, 1);
      assert (a + b)[1..] == a[1..] + b;
      ScanAppendPlain(a[1..], b, next);
    }
  }

  /** Outside quotes, an ordinary character extends the field. */
  lemma {:induction false} ScanOrdinary(c: char, rest: string, st: Scanner)
    requires !st.inQuotes && c != '"' && c != ',' && c != '\n' && c != '\r'
    ensures Scan([c] + rest, st) == Scan(rest, st.(field := st.field + [c]))
  {
    var x := [c] + rest;
    assert x[1..] == rest;
    ScanUnfold(x, st);
  }

  /** Outside quotes, a comma ends the field. */
  lemma {:induction false} ScanComma(rest: string, st: Scanner)
    requires !st.inQuotes
    ensures Scan([','] + rest, st) == Scan(rest, st.(row := st.row + [st.field], field := ""))
  {
    var x := [','] + rest;
    assert x[1..] == rest;
    ScanUnfold(x, st);
  }

  /** Outside quotes, a newline ends the row. */
  lemma {:induction false} ScanNewline(rest: string, st: Scanner)
    requires !st.inQuotes
    ensures Scan("\n" + rest, st) == Scan(rest, EndRow(st))
  {
    var x := "\n" + rest;
    assert x[1..] == rest;
    ScanUnfold(x, st);
  }

  /** The pieces of `f,tail` are `f` followed by the pieces of `tail`. */
  lemma {:induction false} PiecesAfterComma(f: string, tail: string)
    requires ',' !in f
    ensures var parts := SplitOn(f + [','] + tail, ',');
      var rest := SplitOn(tail, ',');
      parts[..|parts| - 1] == [f] + rest[..|rest| - 1] && parts[|parts| - 1] == rest[|rest| - 1]
  {
    SplitOnAtSep(f, tail, ',');
  }

  /** Scanning `line` from `st` leaves every comma-separated piece of the
      pending field followed by the line in the row, but the last, which
      is the pending field. */
  predicate LineScanned(line: string, st: Scanner) {
    var parts := SplitOn(st.field + line, ',');
    Scan(line, st) == Scanner(st.rows, st.row + parts[..|parts| - 1], parts[|parts| - 1], false)
  }

  /** Scanning a quote-free line from unquoted state: the row gets every
      comma-separated piece but the last, and the last piece is the pending
      field. */
  lemma {:induction false} ScanLine(line: string, st: Scanner)
    requires Plain(line) && '\n' !in line
    requires !st.inQuotes && ',' !in st.field
    ensures var parts := SplitOn(st.field + line, ',');
      Scan(line, st) == Scanner(st.rows, st.row + parts[..|parts| - 1], parts[|parts| - 1], false)
  {
    if line == [] {
      EmptyLineScanned(st);
    } else {
      var tail := line[1..];
      assert Plain(tail) && '\n' !in tail;
      if line[0] == ',' {
        ScanLine(tail, st.(row := st.row + [st.field], field := ""));
        CommaScanned(line, st);
      } else {
        ScanLine(tail, st.(field := st.field + [line[0]]));
        OrdinaryScanned(line, st);
      }
    }
  }

  lemma {:induction false} EmptyLineScanned(st: Scanner)
    requires !st.inQuotes && ',' !in st.field
    ensures LineScanned([], st)
  {
    assert st.field + [] == st.field;
    SplitOnNoSep(st.field, ',');
    assert st.row + [] == st.row;
  }

  lemma {:induction false} CommaScanned(line: string, st: Scanner)
    requires line != [] && line[0] == ','
    requires !st.inQuotes && ',' !in st.field
    requires LineScanned(line[1..], st.(row := st.row + [st.field], field := ""))
    ensures LineScanned(line, st)
  {
    var f := st.field;
    var tail := line[1..];
    assert line == [','] + tail;
    ScanComma(tail, st);
    assert "" + tail == tail;
    assert f + line == f + [','] + tail;
    PiecesAfterComma(f, tail);
    var rest := SplitOn(tail, ',');
    assert st.row + [f] + rest[..|rest| - 1] == st.row + ([f] + rest[..|rest| - 1]);
  }

  lemma {:induction false} OrdinaryScanned(line: string, st: Scanner)
    requires line != [] && line[0] != ',' && line[0] != '"' && line[0] != '\n' && line[0] != '\r'
    requires !st.inQuotes
    requires LineScanned(line[1..], st.(field := st.field + [line[0]]))
    ensures LineScanned(line, st)
  {
    var c := line[0];
    var tail := line[1..];
    assert line == [c] + tail;
    ScanOrdinary(c, tail, st);
    assert st.field + [c] + tail == st.field + line;
  }

  /** A quote-free line followed by a newline adds its pieces as a row. */
  lemma {:induction false} ScanLineBreak(line: string, rest: string, rows: seq<seq<string>>)
    requires Plain(line) && '\n' !in line
    ensures Scan(line + "\n" + rest, Scanner(rows, [], "", false))
         == Scan(rest, Scanner(rows + [SplitOn(line, ',')], [], "", false))
  {
    var st := Scanner(rows, [], "", false);
    var parts := SplitOn(line, ',');
    var mid := Scanner(rows, parts[..|parts| - 1], parts[|parts| - 1], false);
    assert Scan(line, st) == mid by {
      ScanLine(line, st);
      assert "" + line == line;
      assert [] + parts[..|parts| - 1] == parts[..|parts| - 1];
    }
    assert Scan(line + "\n" + rest, st) == Scan("\n" + rest, mid) by {
      assert line + "\n" + rest == line + ("\n" + rest);
      ScanAppendPlain(line, "\n" + rest, st);
    }
    ScanNewline(rest, mid);
    assert parts[..|parts| - 1] + [parts[|parts| - 1]] == parts;
  }

  lemma {:induction false} ScanLines(content: string, rows: seq<seq<string>>)
    requires Plain(content)
    ensures Finish(Scan(content, Scanner(rows, [], "", false))) == rows + SplitReading(content)
    decreases |content|
  {
    var k := PositionOf(content, '\n');
    if k == |content| {
      LastLineScanned(content, rows);
    } else {
      var rest := content[k + 1..];
      assert Plain(rest);
      ScanLines(rest, rows + [SplitOn(content[..k], ',')]);
      LineThenLines(content, k, rows);
    }
  }

  /** A last line without a newline is a row unless it is empty. */
  lemma {:induction false} LastLineScanned(content: string, rows: seq<seq<string>>)
    requires Plain(content) && '\n' !in content
    ensures Finish(Scan(content, Scanner(rows, [], "", false))) == rows + SplitReading(content)
  {
    SplitOnNoSep(content, '\n');
    ScanLine(content, Scanner(rows, [], "", false));
    assert "" + content == content;
    var parts := SplitOn(content, ',');
    assert [] + parts[..|parts| - 1] + [parts[|parts| - 1]] == parts;
    SplitOnJoin(content, ',');
    if |parts| == 1 {
      assert Join(parts, ',') == parts[0];
    }
    if content == "" {
      assert rows + [] == rows;
    }
  }

  /** A line and its newline, then the lines after it. */
  lemma {:induction false} LineThenLines(content: string, k: nat, rows: seq<seq<string>>)
    requires Plain(content) && k < |content| && content[k] == '\n' && '\n' !in content[..k]
    requires var line := SplitOn(content[..k], ',');
      Finish(Scan(content[k + 1..], Scanner(rows + [line], [], "", false)))
        == rows + [line] + SplitReading(content[k + 1..])
    ensures Finish(Scan(content, Scanner(rows, [], "", false))) == rows + SplitReading(content)
  {
    var line := content[..k];
    var rest := content[k + 1..];
    assert content == line + "\n" + rest;
    assert Scan(content, Scanner(rows, [], "", false))
        == Scan(rest, Scanner(rows + [SplitOn(line, ',')], [], "", false)) by {
      assert Plain(line);
      ScanLineBreak(line, rest, rows);
    }
    assert SplitReading(content) == [SplitOn(line, ',')] + SplitReading(rest) by {
      SplitOnAtSep(line, rest, '\n');
      assert line + "\n" + rest == line + ['\n'] + rest;
      var lines := SplitOn(content, '\n');
      assert lines == [line] + SplitOn(rest, '\n');
      assert lines[1..] == SplitOn(rest, '\n');
    }
  }

  /** Without quotes and carriage returns the machine is plain splitting:
      one row per line, one field per comma-separated piece, and no row for
      what follows a trailing newline. */
  lemma {:induction false} ParseMatchesSplitting(content: string)
    requires Plain(content)
    ensures Fields(content) == SplitReading(content)
  {
    ScanLines(content, []);
    assert [] + SplitReading(content) == SplitReading(content);
  }

  /** Each quote-free line has one field more than it has commas, so a
      blank line is one null cell. */
  lemma {:induction false} LineFieldCount(line: string)
    ensures |SplitOn(line, ',')| == Count(line, ',') + 1
    ensures line == "" ==> Cells(SplitOn(line, ',')) == [Null]
  {
    SplitOnJoin(line, ',');
  }

  /** The empty input has no rows, and a trailing newline adds none. */
  lemma {:induction false} TrailingNewlineAddsNoRow(line: string)
    requires Plain(line) && '\n' !in line && line != ""
    ensures Fields("") == []
    ensures Fields(line) == [SplitOn(line, ',')]
    ensures Fields(line + "\n") == [SplitOn(line, ',')]
  {
    ParseMatchesSplitting(line);
    ParseMatchesSplitting(line + "\n");
    SplitOnNoSep(line, '\n');
    SplitOnAtSep(line, "", '\n');
    assert line + "\n" == line + ['\n'] + "";
    SplitOnNoSep("", '\n');
    assert SplitOn(line + "\n", '\n') == [line, ""];
    assert [line, ""][1..] == [""];
    assert RowsOfLines([line, ""]) == [SplitOn(line, ',')] + RowsOfLines([""]);
  }

  /** A plain field, a comma, a quoted field and a newline make one row. */
  lemma {:induction false} ScanPlainThenQuoted(a: string, b: string, rest: string)
    requires Plain(a) && ',' !in a && '\n' !in a
    ensures Scan(a + "," + Quote(b) + "\n" + rest, Start) == Scan(rest, Scanner([[a, b]], [], "", false))
  {
    assert a + "," + Quote(b) + "\n" + rest == (a + ",") + (Quote(b) + ("\n" + rest));
    assert Plain(a + ",");
    ScanAppendPlain(a + ",", Quote(b) + ("\n" + rest), Start);
    ScanLine(a + ",", Start);
    assert "" + (a + ",") == a + [','] + "";
    PiecesAfterComma(a, "");
    SplitOnNoSep("", ',');
    var st1 := Scanner([], [a], "", false);
    assert Scan(a + ",", Start) == st1;
    ScanQuoted(b, "\n" + rest, st1);
    assert "" + b == b;
    ScanNewline(rest, st1.(field := b));
    assert [a] + [b] == [a, b];
    assert [] + [[a, b]] == [[a, b]];
  }

  /** A last line of two plain fields. */
  lemma {:induction false} FinishTwoFields(rows: seq<seq<string>>, d: string, e: string)
    requires Plain(d) && Plain(e)
    requires ',' !in d && ',' !in e && '\n' !in d && '\n' !in e
    ensures Finish(Scan(d + "," + e, Scanner(rows, [], "", false))) == rows + [[d, e]]
  {
    var line := d + "," + e;
    assert Plain(line) && '\n' !in line;
    ScanLine(line, Scanner(rows, [], "", false));
    assert "" + line == d + [','] + e;
    SplitOnAtSep(d, e, ',');
    SplitOnNoSep(e, ',');
    var parts := SplitOn(line, ',');
    assert parts == [d, e];
    assert [] + parts[..1] == [d];
    var st := Scan(line, Scanner(rows, [], "", false));
    assert st == Scanner(rows, [d], e, false);
    assert [d] + [e] == [d, e];
    assert Finish(st) == rows + [[d, e]];
  }

  /** Two lines, the first holding a quoted field: the quoted text keeps
      its commas and the newline after it ends the row. */
  lemma {:induction false} QuotedFieldThenLine(a: string, b: string, d: string, e: string)
    requires Plain(a) && Plain(d) && Plain(e)
    requires ',' !in a && ',' !in d && ',' !in e && '\n' !in a && '\n' !in d && '\n' !in e
    ensures Fields(a + "," + Quote(b) + "\n" + d + "," + e) == [[a, b], [d, e]]
  {
    assert a + "," + Quote(b) + "\n" + d + "," + e == a + "," + Quote(b) + "\n" + (d + "," + e);
    ScanPlainThenQuoted(a, b, d + "," + e);
    FinishTwoFields([[a, b]], d, e);
  }

  /** A comma inside quotes is field text, and a newline ends the row. */
  lemma {:induction false} QuotedCommaExample()
    ensures Fields("a,\"b,c\"\nd,e") == [["a", "b,c"], ["d", "e"]]
  {
    QuotedFieldThenLine("a", "b,c", "d", "e");
    assert Quote("b,c") == "\"b,c\"";
    assert "a" + "," + Quote("b,c") + "\n" + "d" + "," + "e" == "a,\"b,c\"\nd,e";
  }

  // ---------------------------------------------------------------------
  // Line ends

  /** Every '\n' written as "\r\n". */
  function WindowsLineEnds(s: string): string {
    if s == [] then [] else (if s[0] == '\n' then "\r\n" else [s[0]]) + WindowsLineEnds(s[1..])
  }

  lemma {:induction false} ScanWindowsLineEnds(s: string, st: Scanner)
    requires Plain(s) && !st.inQuotes
    ensures Scan(WindowsLineEnds(s), st) == Scan(s, st)
  {
    if s != [] {
      var w := WindowsLineEnds(s);
      assert Plain(s[1..]);
      var next := Step(s, st).0;
      assert Step(s, st) == (next, 1);
      if s[0] == '\n' {
        assert w == "\r\n" + WindowsLineEnds(s[1..]);
        assert w[2..] == WindowsLineEnds(s[1..]);
        assert Step(w, st) == (next, 2);
      } else {
        assert w == [s[0]] + WindowsLineEnds(s[1..]);
        assert w[1..] == WindowsLineEnds(s[1..]);
        assert Step(w, st) == (next, 1);
      }
      ScanWindowsLineEnds(s[1..], next);
      assert !next.inQuotes;
    }
  }

  /** "\r\n" and "\n" end rows alike: writing every line end of a
      quote-free text as "\r\n" parses to the same rows. */
  lemma {:induction false} CrLfEndsRowsLikeLf(content: string)
    requires Plain(content)
    ensures Fields(WindowsLineEnds(content)) == Fields(content)
  {
    ScanWindowsLineEnds(content, Start);
  }

  /** A lone carriage return outside quotes is field text. */
  lemma {:induction false} LoneCarriageReturnIsText(rest: string, st: Scanner)
    requires !st.inQuotes
    requires rest == [] || rest[0] != '\n'
    ensures Scan("\r" + rest, st) == Scan(rest, st.(field := st.field + "\r"))
  {
    var x := "\r" + rest;
    assert x[1..] == rest;
  }

  /** Inside quotes, every character but '"' is field text, commas and
      newlines included. */
  lemma {:induction false} QuotedSeparatorsAreText(c: char, rest: string, st: Scanner)
    requires st.inQuotes && c != '"'
    ensures Scan([c] + rest, st) == Scan(rest, st.(field := st.field + [c]))
  {
    var x := [c] + rest;
    assert x[1..] == rest;
  }
}
