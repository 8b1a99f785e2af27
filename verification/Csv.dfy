/** The CSV printer (lib/csv.ts) and the parser that reads the downloads back
    (E2E/fixtures/csv.ts), with the exact relation between the two. */
module Csv {

  const QUOTE: char := '"'
  const BOM: char := '\U{FEFF}'
  const CRLF: string := "\r\n"

  /** A cell as the exporter receives it. A number arrives with the decimal text
      `String(value)` gives it, so that nothing is assumed about that text. */
  datatype Cell = Text(value: string) | Number(digits: string) | Flag(value': bool) | Absent

  // ---------------------------------------------------------------------------
  // Printer
  // ---------------------------------------------------------------------------

  /** A spreadsheet evaluates a cell starting with one of these. */
  predicate IsFormulaTrigger(c: char) {
    c in {'=', '+', '-', '@', '\t', '\r'}
  }

  predicate IsSpecial(c: char) {
    c in {QUOTE, ',', '\r', '\n'}
  }

  function NeutralizeSpreadsheetCell(value: string): (r: string)
    ensures r != "" ==> r[0] !in {'=', '+', '-', '@', '\t', '\r'}
    ensures r == value || (r == ['\''] + value && value != "" && value[0] in {'=', '+', '-', '@', '\t', '\r'})
  {
    if value != "" && IsFormulaTrigger(value[0]) then ['\''] + value else value
  }

  /** The text a cell stands for once printed and read back. */
  function CellText(cell: Cell): string {
    match cell
    case Absent => ""
    case Text(value) => NeutralizeSpreadsheetCell(value)
    case Number(digits) => digits
    case Flag(b) => if b then "true" else "false"
  }

  /** Doubles every quote. */
  function DoubleQuotes(text: string): string {
    if text == "" then ""
    else (if text[0] == QUOTE then [QUOTE, QUOTE] else [text[0]]) + DoubleQuotes(text[1..])
  }

  /** Text that needs no quoting. */
  predicate Plain(text: string) {
    forall i :: 0 <= i < |text| ==> !IsSpecial(text[i])
  }

  function FormatText(text: string): string {
    if Plain(text) then text else [QUOTE] + QuotedBody(text)
  }

  function QuotedBody(text: string): string {
    DoubleQuotes(text) + [QUOTE]
  }

  function FormatCell(cell: Cell): string {
    FormatText(CellText(cell))
  }

  function Join(parts: seq<string>, separator: string): string {
    if |parts| == 0 then ""
    else if |parts| == 1 then parts[0]
    else parts[0] + separator + Join(parts[1..], separator)
  }

  function FormatRow(row: seq<Cell>): string {
    Join(seq(|row|, i requires 0 <= i < |row| => FormatCell(row[i])), ",")
  }

  function ToCsv(rows: seq<seq<Cell>>): string {
    Join(seq(|rows|, i requires 0 <= i < |rows| => FormatRow(rows[i])), CRLF) + CRLF
  }

  // ---------------------------------------------------------------------------
  // Parser
  // ---------------------------------------------------------------------------

  /** The four variables of the parser's loop. */
  datatype Scanner = Scanner(records: seq<seq<string>>, record: seq<string>, field: string, quoted: bool)

  const START := Scanner([], [], "", false)

  /** What the loop makes of the rest of the text. */
  function Scan(s: Scanner, rest: string): Scanner
    decreases |rest|
  {
    if rest == "" then s
    else
      var c := rest[0];
      var doubled := |rest| > 1 && rest[1] == QUOTE;
      if s.quoted then
        if c == QUOTE && doubled then Scan(s.(field := s.field + [QUOTE]), rest[2..])
        else if c == QUOTE then Scan(s.(quoted := false), rest[1..])
        else Scan(s.(field := s.field + [c]), rest[1..])
      else if c == QUOTE then Scan(s.(quoted := true), rest[1..])
      else if c == ',' then Scan(s.(record := s.record + [s.field], field := ""), rest[1..])
      else if c == '\n' || c == '\r' then
        Scan(EndRecord(s), if c == '\r' && |rest| > 1 && rest[1] == '\n' then rest[2..] else rest[1..])
      else Scan(s.(field := s.field + [c]), rest[1..])
  }

  function EndRecord(s: Scanner): Scanner {
    s.(records := s.records + [s.record + [s.field]], record := [], field := "")
  }

  /** The records once the text has ended: an unfinished one is kept. */
  function Finish(s: Scanner): seq<seq<string>> {
    if s.field != "" || s.record != [] then EndRecord(s).records else s.records
  }

  function StripBom(input: string): string {
    if input != "" && input[0] == BOM then input[1..] else input
  }

  /** Every record of the input, the header record first. */
  function Records(input: string): seq<seq<string>> {
    Finish(Scan(START, StripBom(input)))
  }

  /** The parser as written: one loop over an index, with a character of lookahead. */
  method ParseCsv(input: string) returns (header: seq<string>, rows: seq<seq<string>>)
    ensures Records(input) == [] ==> header == [] && rows == []
    ensures Records(input) != [] ==> [header] + rows == Records(input)
  {
    var text := if input != "" && input[0] == BOM then input[1..] else input;
    var records, record, field, quoted := [], [], "", false;
    var i := 0;
    while i < |text|
      invariant 0 <= i <= |text|
      invariant Scan(Scanner(records, record, field, quoted), text[i..]) == Scan(START, text)
    {
      var c := text[i];
      ghost var rest := text[i..];
      assert rest[1..] == text[i + 1..];
      assert |rest| > 1 ==> rest[1] == text[i + 1] && rest[2..] == text[i + 2..];
      if quoted {
        if c == QUOTE && i + 1 < |text| && text[i + 1] == QUOTE {
          field := field + [QUOTE];
          i := i + 1;
        } else if c == QUOTE {
          quoted := false;
        } else {
          field := field + [c];
        }
      } else if c == QUOTE {
        quoted := true;
      } else if c == ',' {
        record := record + [field];
        field := "";
      } else if c == '\n' || c == '\r' {
        if c == '\r' && i + 1 < |text| && text[i + 1] == '\n' {
          i := i + 1;
        }
        record := record + [field];
        records := records + [record];
        record := [];
        field := "";
      } else {
        field := field + [c];
      }
      i := i + 1;
    }
    if field != "" || record != [] {
      record := record + [field];
      records := records + [record];
    }
    if records == [] {
      header, rows := [], [];
    } else {
      header, rows := records[0], records[1..];
    }
  }

  // ---------------------------------------------------------------------------
  // One cell
  // ---------------------------------------------------------------------------

  lemma {:induction false} ScanPlain(s: Scanner, text: string, rest: string)
    requires Plain(text) && !s.quoted
    ensures Scan(s, text + rest) == Scan(s.(field := s.field + text), rest)
    decreases |text|
  {
    if text == "" {
      assert text + rest == rest && s.(field := s.field + text) == s;
    } else {
      assert (text + rest)[1..] == text[1..] + rest;
      assert !IsSpecial(text[0]);
      var s' := s.(field := s.field + [text[0]]);
      ScanPlain(s', text[1..], rest);
      assert s'.field + text[1..] == s.field + text;
    }
  }

  /** A quoted body is read back whole, whatever it contains, and the closing
      quote is recognised because no quote follows it. */
  lemma {:induction false} ScanQuoted(s: Scanner, text: string, rest: string)
    requires s.quoted && rest != "" && rest[0] != QUOTE
    ensures Scan(s, QuotedBody(text) + rest) == Scan(s.(field := s.field + text, quoted := false), rest)
    decreases |text|
  {
    if text == "" {
      assert QuotedBody(text) + rest == [QUOTE] + rest;
      assert s.(field := s.field + text, quoted := false) == s.(quoted := false);
    } else {
      var s' := s.(field := s.field + [text[0]]);
      ScanQuoted(s', text[1..], rest);
      assert s'.field + text[1..] == s.field + text;
      ScanDoubled(s, text, QuotedBody(text[1..]) + rest);
      QuotedBodyCons(text, rest);
    }
  }

  lemma QuotedBodyCons(text: string, rest: string)
    requires text != ""
    ensures QuotedBody(text) + rest
         == (if text[0] == QUOTE then [QUOTE, QUOTE] else [text[0]]) + (QuotedBody(text[1..]) + rest)
  {
  }

  lemma ScanDoubled(s: Scanner, text: string, rest: string)
    requires s.quoted && text != ""
    ensures Scan(s, (if text[0] == QUOTE then [QUOTE, QUOTE] else [text[0]]) + rest)
         == Scan(s.(field := s.field + [text[0]]), rest)
  {
    var input := (if text[0] == QUOTE then [QUOTE, QUOTE] else [text[0]]) + rest;
    assert input[(if text[0] == QUOTE then 2 else 1)..] == rest;
  }

  lemma ScanQuotedField(s: Scanner, text: string, rest: string)
    requires !s.quoted && rest != "" && rest[0] != QUOTE
    ensures Scan(s, [QUOTE] + QuotedBody(text) + rest) == Scan(s.(field := s.field + text), rest)
  {
    ScanQuoted(s.(quoted := true), text, rest);
    assert [QUOTE] + QuotedBody(text) + rest == [QUOTE] + (QuotedBody(text) + rest);
  }

  lemma ScanField(s: Scanner, text: string, rest: string)
    requires !s.quoted && rest != "" && rest[0] != QUOTE
    ensures Scan(s, FormatText(text) + rest) == Scan(s.(field := s.field + text), rest)
  {
    if Plain(text) {
      ScanPlain(s, text, rest);
    } else {
      ScanQuotedField(s, text, rest);
    }
  }

  // ---------------------------------------------------------------------------
  // Rows and files
  // ---------------------------------------------------------------------------

  /** The parser cannot tell an empty row from a row holding one empty cell. */
  function RowTexts(row: seq<Cell>): seq<string> {
    if row == [] then [""] else seq(|row|, i requires 0 <= i < |row| => CellText(row[i]))
  }

  /** Nor an empty file from a file of one such row. */
  function FileTexts(rows: seq<seq<Cell>>): seq<seq<string>> {
    if rows == [] then [[""]] else seq(|rows|, i requires 0 <= i < |rows| => RowTexts(rows[i]))
  }

  /** The texts the exporter was asked to write. */
  function Texts(rows: seq<seq<Cell>>): seq<seq<string>> {
    seq(|rows|, i requires 0 <= i < |rows| => seq(|rows[i]|, j requires 0 <= j < |rows[i]| => CellText(rows[i][j])))
  }

  lemma FormatRowCons(row: seq<Cell>)
    requires |row| > 1
    ensures FormatRow(row) == FormatCell(row[0]) + "," + FormatRow(row[1..])
    ensures RowTexts(row) == [CellText(row[0])] + RowTexts(row[1..])
  {
    var parts := seq(|row|, i requires 0 <= i < |row| => FormatCell(row[i]));
    var tail := row[1..];
    assert parts[1..] == seq(|tail|, i requires 0 <= i < |tail| => FormatCell(tail[i]));
  }

  lemma FormatRowShort(row: seq<Cell>)
    requires |row| <= 1
    ensures var text := if row == [] then "" else CellText(row[0]);
            FormatRow(row) == FormatText(text) && RowTexts(row) == [text]
  {
  }

  lemma ScanCell(s: Scanner, text: string, separator: string, rest: string)
    requires !s.quoted && s.field == "" && (separator == "," || separator == CRLF)
    ensures Scan(s, FormatText(text) + (separator + rest))
         == Scan(if separator == "," then s.(record := s.record + [text]) else EndRecord(s.(field := text)), rest)
  {
    ScanField(s, text, separator + rest);
    assert s.field + text == text;
  }

  /** The printed row, split after its first cell, and what reading it adds. */
  lemma SplitRow(row: seq<Cell>, record: seq<string>, rest: string)
    requires |row| > 1
    ensures FormatRow(row) + (CRLF + rest)
         == FormatText(CellText(row[0])) + ("," + (FormatRow(row[1..]) + (CRLF + rest)))
    ensures (record + [CellText(row[0])]) + RowTexts(row[1..]) == record + RowTexts(row)
  {
    FormatRowCons(row);
  }

  lemma {:induction false} ScanRow(s: Scanner, row: seq<Cell>, rest: string)
    requires !s.quoted && s.field == ""
    ensures Scan(s, FormatRow(row) + (CRLF + rest))
         == Scan(s.(records := s.records + [s.record + RowTexts(row)], record := []), rest)
    decreases |row|
  {
    if |row| <= 1 {
      FormatRowShort(row);
      ScanCell(s, if row == [] then "" else CellText(row[0]), CRLF, rest);
    } else {
      SplitRow(row, s.record, rest);
      ScanCell(s, CellText(row[0]), ",", FormatRow(row[1..]) + (CRLF + rest));
      ScanRow(s.(record := s.record + [CellText(row[0])]), row[1..], rest);
    }
  }

  lemma ToCsvCons(rows: seq<seq<Cell>>)
    requires |rows| > 1
    ensures ToCsv(rows) == FormatRow(rows[0]) + CRLF + ToCsv(rows[1..])
    ensures FileTexts(rows) == [RowTexts(rows[0])] + FileTexts(rows[1..])
  {
    var parts := seq(|rows|, i requires 0 <= i < |rows| => FormatRow(rows[i]));
    var tail := rows[1..];
    assert parts[1..] == seq(|tail|, i requires 0 <= i < |tail| => FormatRow(tail[i]));
  }

  lemma ToCsvShort(rows: seq<seq<Cell>>)
    requires |rows| <= 1
    ensures var row := if rows == [] then [] else rows[0];
            ToCsv(rows) == FormatRow(row) + (CRLF + "") && FileTexts(rows) == [RowTexts(row)]
  {
    assert CRLF + "" == CRLF;
  }

  lemma Regroup<T>(a: seq<T>, b: seq<T>, c: seq<T>)
    ensures a + b + c == a + (b + c)
  {
  }

  lemma SplitFile(rows: seq<seq<Cell>>, records: seq<seq<string>>)
    requires |rows| > 1
    ensures ToCsv(rows) == FormatRow(rows[0]) + (CRLF + ToCsv(rows[1..]))
    ensures (records + [[] + RowTexts(rows[0])]) + FileTexts(rows[1..]) == records + FileTexts(rows)
  {
    ToCsvCons(rows);
    Regroup(FormatRow(rows[0]), CRLF, ToCsv(rows[1..]));
    Regroup(records, [RowTexts(rows[0])], FileTexts(rows[1..]));
    assert [] + RowTexts(rows[0]) == RowTexts(rows[0]);
  }

  lemma {:induction false} ScanFile(s: Scanner, rows: seq<seq<Cell>>)
    requires !s.quoted && s.field == "" && s.record == []
    ensures Scan(s, ToCsv(rows)) == s.(records := s.records + FileTexts(rows))
    decreases |rows|
  {
    if |rows| <= 1 {
      ToCsvShort(rows);
      var row := if rows == [] then [] else rows[0];
      ScanRow(s, row, "");
      assert s.record + RowTexts(row) == RowTexts(row);
    } else {
      SplitFile(rows, s.records);
      ScanRow(s, rows[0], ToCsv(rows[1..]));
      ScanFile(s.(records := s.records + [[] + RowTexts(rows[0])]), rows[1..]);
    }
  }

  // ---------------------------------------------------------------------------
  // Main results
  // ---------------------------------------------------------------------------

  /** Without a leading U+FEFF the parser returns every printed row, cell by
      cell, whatever characters the cells hold. */
  lemma ParsePrinted(rows: seq<seq<Cell>>)
    requires ToCsv(rows)[0] != BOM
    ensures Records(ToCsv(rows)) == FileTexts(rows)
  {
    ScanFile(START, rows);
    assert START.records + FileTexts(rows) == FileTexts(rows);
  }

  /** The file with the first character of its first cell taken away. */
  function Beheaded(rows: seq<seq<Cell>>): seq<seq<Cell>>
    requires rows != [] && rows[0] != [] && CellText(rows[0][0]) != ""
  {
    [[Number(CellText(rows[0][0])[1..])] + rows[0][1..]] + rows[1..]
  }

  /** The printed file starts with U+FEFF exactly when its first cell is printed
      bare and starts with it; the parser then takes that character away, and
      nothing else. */
  lemma ParsePrintedBom(rows: seq<seq<Cell>>)
    requires ToCsv(rows)[0] == BOM
    ensures rows != [] && rows[0] != [] && CellText(rows[0][0]) != "" && CellText(rows[0][0])[0] == BOM
    ensures Records(ToCsv(rows)) == FileTexts(Beheaded(rows))
  {
    FirstCharacter(rows);
    PrintBeheaded(rows);
    ScanFile(START, Beheaded(rows));
    assert START.records + FileTexts(Beheaded(rows)) == FileTexts(Beheaded(rows));
  }

  lemma FirstCharacter(rows: seq<seq<Cell>>)
    requires ToCsv(rows)[0] == BOM
    ensures rows != [] && rows[0] != []
    ensures Plain(CellText(rows[0][0])) && CellText(rows[0][0]) != "" && CellText(rows[0][0])[0] == BOM
  {
    if |rows| > 1 { ToCsvCons(rows); } else { ToCsvShort(rows); }
    var row := if rows == [] then [] else rows[0];
    if |row| > 1 { FormatRowCons(row); } else { FormatRowShort(row); }
  }

  lemma FormatRowHead(cell: Cell, tail: seq<Cell>)
    ensures FormatRow([cell] + tail) == FormatCell(cell) + (if tail == [] then "" else "," + FormatRow(tail))
  {
    var row := [cell] + tail;
    assert row[1..] == tail;
    if tail == [] { FormatRowShort(row); } else { FormatRowCons(row); }
  }

  lemma ToCsvHead(row: seq<Cell>, tail: seq<seq<Cell>>)
    ensures ToCsv([row] + tail) == FormatRow(row) + (CRLF + (if tail == [] then "" else ToCsv(tail)))
  {
    var rows := [row] + tail;
    assert rows[1..] == tail;
    if tail == [] { ToCsvShort(rows); } else { ToCsvCons(rows); }
  }

  lemma PrintBeheadedRow(cell: Cell, tail: seq<Cell>)
    requires Plain(CellText(cell)) && CellText(cell) != ""
    ensures FormatRow([Number(CellText(cell)[1..])] + tail) == FormatRow([cell] + tail)[1..]
  {
    var cell' := Number(CellText(cell)[1..]);
    assert Plain(CellText(cell'));
    assert FormatCell(cell') == FormatCell(cell)[1..];
    FormatRowHead(cell, tail);
    FormatRowHead(cell', tail);
  }

  lemma PrintBeheadedFile(row: seq<Cell>, row': seq<Cell>, tail: seq<seq<Cell>>)
    requires FormatRow(row) != "" && FormatRow(row') == FormatRow(row)[1..]
    ensures ToCsv([row'] + tail) == ToCsv([row] + tail)[1..]
  {
    ToCsvHead(row, tail);
    ToCsvHead(row', tail);
  }

  lemma PrintBeheaded(rows: seq<seq<Cell>>)
    requires rows != [] && rows[0] != [] && Plain(CellText(rows[0][0])) && CellText(rows[0][0]) != ""
    ensures ToCsv(Beheaded(rows)) == ToCsv(rows)[1..]
  {
    var cell, tail := rows[0][0], rows[0][1..];
    assert [cell] + tail == rows[0] && [rows[0]] + rows[1..] == rows;
    FormatRowHead(cell, tail);
    PrintBeheadedRow(cell, tail);
    PrintBeheadedFile([cell] + tail, [Number(CellText(cell)[1..])] + tail, rows[1..]);
  }

  /** Exactly which files survive the trip: those with at least one row, no
      empty row, and no leading U+FEFF. */
  lemma RoundTrip(rows: seq<seq<Cell>>)
    ensures Records(ToCsv(rows)) == Texts(rows)
       <==> rows != [] && (forall i :: 0 <= i < |rows| ==> rows[i] != []) && ToCsv(rows)[0] != BOM
  {
    if ToCsv(rows)[0] == BOM {
      ParsePrintedBom(rows);
      assert FileTexts(Beheaded(rows))[0][0] == CellText(rows[0][0])[1..];
      assert Texts(rows)[0][0] == CellText(rows[0][0]);
    } else {
      ParsePrinted(rows);
      if rows == [] {
        assert |FileTexts(rows)| != |Texts(rows)|;
      } else if i :| 0 <= i < |rows| && rows[i] == [] {
        assert FileTexts(rows)[i] != Texts(rows)[i];
      } else {
        assert forall i :: 0 <= i < |rows| ==> FileTexts(rows)[i] == Texts(rows)[i];
      }
    }
  }

  lemma BareHeadComesFirst(rows: seq<seq<Cell>>)
    requires rows != [] && rows[0] != [] && Plain(CellText(rows[0][0])) && CellText(rows[0][0]) != ""
    ensures ToCsv(rows)[0] == CellText(rows[0][0])[0]
  {
    assert [rows[0][0]] + rows[0][1..] == rows[0] && [rows[0]] + rows[1..] == rows;
    FormatRowHead(rows[0][0], rows[0][1..]);
    ToCsvHead(rows[0], rows[1..]);
  }

  /** What the reader gets for a cell, unless the parser took a U+FEFF off its front. */
  ghost predicate ReadBackAs(cell: Cell, parsed: string) {
    match cell
    case Absent => parsed == ""
    case Flag(b) => parsed == if b then "true" else "false"
    case Number(digits) => parsed == digits
    case Text(value) =>
      if value == "" then parsed == ""
      else match value[0]
           case '=' => parsed == "'" + value
           case '+' => parsed == "'" + value
           case '-' => parsed == "'" + value
           case '@' => parsed == "'" + value
           case '\t' => parsed == "'" + value
           case '\r' => parsed == "'" + value
           case _ => parsed == value
  }

  lemma PrintedText(cell: Cell)
    ensures ReadBackAs(cell, CellText(cell))
  {
    assert ['\''] == "'";
  }

  lemma FileTextAt(rows: seq<seq<Cell>>, i: nat, j: nat)
    requires i < |rows| && j < |rows[i]|
    ensures i < |FileTexts(rows)| && j < |FileTexts(rows)[i]| && FileTexts(rows)[i][j] == CellText(rows[i][j])
  {
    assert FileTexts(rows)[i] == RowTexts(rows[i]);
  }

  lemma BeheadedAt(rows: seq<seq<Cell>>, i: nat, j: nat)
    requires i < |rows| && j < |rows[i]| && rows[0] != [] && CellText(rows[0][0]) != ""
    ensures var rows' := Beheaded(rows);
            i < |rows'| && j < |rows'[i]|
            && CellText(rows'[i][j]) == if i == 0 && j == 0 then CellText(rows[0][0])[1..] else CellText(rows[i][j])
  {
  }

  /** The text of one cell, as parsed. */
  lemma ParsedText(rows: seq<seq<Cell>>, i: nat, j: nat)
    requires i < |rows| && j < |rows[i]|
    ensures i < |Records(ToCsv(rows))| && j < |Records(ToCsv(rows))[i]|
    ensures var parsed := Records(ToCsv(rows))[i][j];
            CellText(rows[i][j]) == if i == 0 && j == 0 && ToCsv(rows)[0] == BOM then [BOM] + parsed else parsed
  {
    if ToCsv(rows)[0] == BOM {
      ParsePrintedBom(rows);
      BeheadedAt(rows, i, j);
      FileTextAt(Beheaded(rows), i, j);
    } else {
      ParsePrinted(rows);
      FileTextAt(rows, i, j);
    }
  }

  /** Through printing and parsing every cell arrives as itself, free text that starts
      with one of the six triggers behind exactly one apostrophe, and no other text
      behind any. Only a U+FEFF at the very front of the file is lost. */
  lemma CellsAreReadBack(rows: seq<seq<Cell>>, i: nat, j: nat)
    requires i < |rows| && j < |rows[i]|
    ensures i < |Records(ToCsv(rows))| && j < |Records(ToCsv(rows))[i]|
    ensures var parsed := Records(ToCsv(rows))[i][j];
            ReadBackAs(rows[i][j], if i == 0 && j == 0 && ToCsv(rows)[0] == '\U{FEFF}' then "\U{FEFF}" + parsed else parsed)
  {
    ParsedText(rows, i, j);
    PrintedText(rows[i][j]);
    assert [BOM] == "\U{FEFF}";
  }

  predicate StartsFormula(text: string) {
    text != "" && text[0] in {'=', '+', '-', '@', '\t', '\r'}
  }

  predicate HidesFormula(text: string) {
    text != "" && text[0] == '\U{FEFF}' && StartsFormula(text[1..])
    && forall k :: 0 <= k < |text| ==> text[k] !in {'"', ',', '\r', '\n'}
  }

  /** Exactly which parsed cells that came from free text can run as a formula: none but
      the first, and that one only if its text is U+FEFF in front of a formula and is
      printed bare, holding no quote, comma or line end. */
  lemma NoFormulaReachesTheReader(rows: seq<seq<Cell>>, i: nat, j: nat)
    requires i < |rows| && j < |rows[i]| && rows[i][j].Text?
    ensures i < |Records(ToCsv(rows))| && j < |Records(ToCsv(rows))[i]|
    ensures StartsFormula(Records(ToCsv(rows))[i][j]) <==> i == 0 && j == 0 && HidesFormula(rows[0][0].value)
  {
    CellsAreReadBack(rows, i, j);
    if ToCsv(rows)[0] == BOM { FirstCharacter(rows); }
    var text := rows[i][j].value;
    if i == 0 && j == 0 && text != "" && text[0] == BOM && Plain(text) { BareHeadComesFirst(rows); }
  }

  lemma OneCellFile(cell: Cell)
    ensures [[cell] + []] + [] == [[cell]] && FileTexts([[cell]]) == [[CellText(cell)]]
  {
    assert [cell] + [] == [cell] && RowTexts([cell]) == [CellText(cell)];
  }

  /** Such a file. */
  lemma FormulaBehindMark()
    ensures Records(ToCsv([[Text([BOM] + "=1")]])) == [["=1"]]
  {
    var text := [BOM] + "=1";
    var rows := [[Text(text)]];
    assert Plain(text) && NeutralizeSpreadsheetCell(text) == text;
    BareHeadComesFirst(rows);
    ParsePrintedBom(rows);
    assert rows[0][1..] == [] && rows[1..] == [] && text[1..] == "=1";
    OneCellFile(Number("=1"));
  }
}
