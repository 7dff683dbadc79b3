/** The user-import file reader (`UserImportParser`): the extension picks
    the CSV or the Excel reader; both produce one row per data line with a
    non-blank e-mail, in file order. The CSV reader sees the file as UTF-8
    text; the Excel reader sees the first sheet as rows of optional cell
    texts. */
module ImportParser {
  import opened Wrappers
  import opened JavaString
  import CrlfLines

  /** `UserImportRow`; a missing column is `None`. */
  datatype ImportRow = ImportRow(
    email: string, firstName: Option<string>, lastName: Option<string>, phone: Option<string>,
    telegram: Option<string>, department: Option<string>, role: Option<string>)

  const DefaultRole := "EMPLOYEE"

  /** What every row either reader produces satisfies: a trimmed,
      non-empty e-mail and a non-empty role. */
  predicate WellFormed(row: ImportRow) {
    row.email != [] && IsTrimmed(row.email) && row.role.Some? && row.role.value != []
  }

  // ------------------------------------------------------------ lines

  predicate IsBreak(c: char) {
    c == '\n' || c == '\r'
  }

  predicate NoBreaks(s: string) {
    forall k :: 0 <= k < |s| ==> !IsBreak(s[k])
  }

  predicate AllNoBreaks(lines: seq<string>) {
    forall k :: 0 <= k < |lines| ==> NoBreaks(lines[k])
  }

  /** The position of the first line break, or the length. */
  function LineEnd(s: string): (i: nat)
    ensures i <= |s|
    ensures forall k :: 0 <= k < i ==> !IsBreak(s[k])
    ensures i < |s| ==> IsBreak(s[i])
  {
    if s == [] || IsBreak(s[0]) then 0 else 1 + LineEnd(s[1..])
  }

  /** `BufferedReader.readLine` until it returns null: lines end at "\n",
      "\r" or "\r\n", and a last line without a break still counts. */
  function ReadLines(s: string): (r: seq<string>)
    ensures forall k :: 0 <= k < |r| ==> NoBreaks(r[k])
    ensures s == [] <==> r == []
    decreases |s|
  {
    if s == [] then []
    else
      var i := LineEnd(s);
      if i == |s| then [s]
      else if s[i] == '\r' && i + 1 < |s| && s[i + 1] == '\n' then [s[..i]] + ReadLines(s[i + 2..])
      else [s[..i]] + ReadLines(s[i + 1..])
  }

  /** A line ended by "\n" or "\r\n" is read as it was written. */
  lemma {:induction false} ReadLineThenRest(line: string, brk: string, rest: string)
    requires NoBreaks(line)
    requires brk == "\n" || brk == "\r\n"
    ensures ReadLines(line + brk + rest) == [line] + ReadLines(rest)
  {
    var s := line + brk + rest;
    assert LineEnd(s) == |line| by {
      assert forall k :: 0 <= k < |line| ==> s[k] == line[k];
      assert s[|line|] == brk[0];
      LineEndAt(s, |line|);
    }
    assert s[..|line|] == line;
    if brk == "\r\n" {
      assert s[|line| + 2..] == rest;
    } else {
      assert s[|line| + 1..] == rest;
    }
  }

  lemma {:induction false} LineEndAt(s: string, i: nat)
    requires i < |s| && IsBreak(s[i])
    requires forall k :: 0 <= k < i ==> !IsBreak(s[k])
    ensures LineEnd(s) == i
  {
  }

  /** A text block of break-free lines is read back line by line. */
  lemma {:induction false} ReadTextBlock(lines: seq<string>)
    requires AllNoBreaks(lines)
    ensures ReadLines(TextBlock(lines)) == lines
    decreases |lines|
  {
    if lines != [] {
      ReadTextBlock(lines[1..]);
      ReadLineThenRest(lines[0], "\n", TextBlock(lines[1..]));
    }
  }

  /** So is a file of CRLF-terminated lines. */
  lemma {:induction false} ReadCrlfLines(lines: seq<string>)
    requires forall k :: 0 <= k < |lines| ==> NoBreaks(lines[k])
    ensures ReadLines(CrlfLines.Terminate(lines)) == lines
    decreases |lines|
  {
    if lines != [] {
      ReadCrlfLines(lines[1..]);
      ReadLineThenRest(lines[0], "\r\n", CrlfLines.Terminate(lines[1..]));
    }
  }

  // ------------------------------------------------------------ CSV fields

  /** The fields of `parseCsvLine` before trimming: a double quote toggles
      quoting and is dropped, an unquoted comma ends the field, every other
      character is kept. `current` is the field being read. */
  function RawFields(line: string, inQuotes: bool, current: string): (r: seq<string>)
    ensures |r| >= 1
    decreases |line|
  {
    if line == [] then [current]
    else if line[0] == '"' then RawFields(line[1..], !inQuotes, current)
    else if line[0] == ',' && !inQuotes then [current] + RawFields(line[1..], inQuotes, [])
    else RawFields(line[1..], inQuotes, current + [line[0]])
  }

  function TrimAll(fields: seq<string>): (r: seq<string>)
    ensures |r| == |fields|
    ensures forall k :: 0 <= k < |r| ==> r[k] == Trim(fields[k])
  {
    if fields == [] then [] else [Trim(fields[0])] + TrimAll(fields[1..])
  }

  /** `parseCsvLine`. */
  function ParseCsvLine(line: string): (r: seq<string>)
    ensures |r| >= 1
    ensures forall k :: 0 <= k < |r| ==> IsTrimmed(r[k])
  {
    TrimAll(RawFields(line, false, []))
  }

  /** The commas outside double quotes. */
  function UnquotedCommas(line: string, inQuotes: bool): nat
    decreases |line|
  {
    if line == [] then 0
    else if line[0] == '"' then UnquotedCommas(line[1..], !inQuotes)
    else if line[0] == ',' && !inQuotes then 1 + UnquotedCommas(line[1..], inQuotes)
    else UnquotedCommas(line[1..], inQuotes)
  }

  function DropQuotes(s: string): (r: string)
    ensures '"' !in r
  {
    if s == [] then [] else (if s[0] == '"' then [] else [s[0]]) + DropQuotes(s[1..])
  }

  /** One field per unquoted comma, plus one. */
  lemma {:induction false} FieldCount(line: string, inQuotes: bool, current: string)
    ensures |RawFields(line, inQuotes, current)| == UnquotedCommas(line, inQuotes) + 1
    decreases |line|
  {
    if line != [] {
      if line[0] == '"' {
        FieldCount(line[1..], !inQuotes, current);
      } else if line[0] == ',' && !inQuotes {
        FieldCount(line[1..], inQuotes, []);
      } else {
        FieldCount(line[1..], inQuotes, current + [line[0]]);
      }
    }
  }

  /** Joining the raw fields with commas gives the line without its
      quotes: nothing but the quotes is lost. */
  lemma {:induction false} FieldsRejoin(line: string, inQuotes: bool, current: string)
    ensures Join(RawFields(line, inQuotes, current), ",") == current + DropQuotes(line)
    decreases |line|
  {
    if line == [] {
    } else if line[0] == '"' {
      FieldsRejoin(line[1..], !inQuotes, current);
      assert RawFields(line, inQuotes, current) == RawFields(line[1..], !inQuotes, current);
      assert DropQuotes(line) == DropQuotes(line[1..]);
    } else if line[0] == ',' && !inQuotes {
      FieldsRejoinAtComma(line, inQuotes, current);
    } else {
      var c, tail := line[0], DropQuotes(line[1..]);
      var fields := RawFields(line[1..], inQuotes, current + [c]);
      FieldsRejoin(line[1..], inQuotes, current + [c]);
      assert RawFields(line, inQuotes, current) == fields;
      assert DropQuotes(line) == [c] + tail;
      AppendAssoc(current, [c], tail);
    }
  }

  lemma {:induction false} AppendAssoc(a: string, b: string, c: string)
    ensures a + b + c == a + (b + c)
  {
  }

  lemma {:induction false} FieldsRejoinAtComma(line: string, inQuotes: bool, current: string)
    requires line != [] && line[0] == ',' && !inQuotes
    ensures Join(RawFields(line, inQuotes, current), ",") == current + DropQuotes(line)
    decreases |line|, 0
  {
    var rest := RawFields(line[1..], inQuotes, []);
    FieldsRejoin(line[1..], inQuotes, []);
    assert RawFields(line, inQuotes, current) == [current] + rest;
    JoinCons(current, rest, ",");
    assert DropQuotes(line) == "," + DropQuotes(line[1..]);
    assert [] + DropQuotes(line[1..]) == DropQuotes(line[1..]);
  }

  /** Text that needs no quoting: no double quote and no comma. */
  predicate IsPlainField(s: string) {
    forall k :: 0 <= k < |s| ==> s[k] != '"' && s[k] != ','
  }

  lemma {:induction false} RawFieldsOfPlain(w: string, current: string)
    requires IsPlainField(w)
    ensures RawFields(w, false, current) == [current + w]
    decreases |w|
  {
    if w == [] {
      assert current + w == current;
    } else {
      assert w[0] != '"' && w[0] != ',';
      assert IsPlainField(w[1..]) by {
        forall k | 0 <= k < |w[1..]| ensures w[1..][k] != '"' && w[1..][k] != ',' {
          assert w[1..][k] == w[k + 1];
        }
      }
      assert RawFields(w, false, current) == RawFields(w[1..], false, current + [w[0]]);
      RawFieldsOfPlain(w[1..], current + [w[0]]);
      assert current + [w[0]] + w[1..] == current + w;
    }
  }

  lemma {:induction false} RawFieldsOfPlainThenComma(w: string, rest: string, current: string)
    requires IsPlainField(w)
    ensures RawFields(w + "," + rest, false, current) == [current + w] + RawFields(rest, false, [])
    decreases |w|
  {
    var s := w + "," + rest;
    if w == [] {
      assert s[0] == ',' && s[1..] == rest;
      assert current + w == current;
    } else {
      assert s[0] == w[0] && s[1..] == w[1..] + "," + rest;
      assert w[0] != '"' && w[0] != ',';
      assert IsPlainField(w[1..]) by {
        forall k | 0 <= k < |w[1..]| ensures w[1..][k] != '"' && w[1..][k] != ',' {
          assert w[1..][k] == w[k + 1];
        }
      }
      RawFieldsOfPlainThenComma(w[1..], rest, current + [w[0]]);
      assert current + [w[0]] + w[1..] == current + w;
    }
  }

  /** Trimmed fields without quotes or commas, joined with commas, are
      read back as they were. */
  lemma {:induction false} ParseJoinedFields(fields: seq<string>)
    requires fields != []
    requires forall k :: 0 <= k < |fields| ==> IsPlainField(fields[k]) && IsTrimmed(fields[k])
    ensures ParseCsvLine(Join(fields, ",")) == fields
    decreases |fields|
  {
    RawFieldsJoined(fields);
    forall k | 0 <= k < |fields| ensures Trim(fields[k]) == fields[k] {
      TrimOfTrimmed(fields[k]);
    }
  }

  lemma {:induction false} RawFieldsJoined(fields: seq<string>)
    requires fields != []
    requires forall k :: 0 <= k < |fields| ==> IsPlainField(fields[k])
    ensures RawFields(Join(fields, ","), false, []) == fields
    decreases |fields|
  {
    if |fields| == 1 {
      RawFieldsOfPlain(fields[0], []);
      assert [] + fields[0] == fields[0];
    } else {
      RawFieldsJoined(fields[1..]);
      RawFieldsOfPlainThenComma(fields[0], Join(fields[1..], ","), []);
      assert [] + fields[0] == fields[0];
      assert fields == [fields[0]] + fields[1..];
    }
  }

  /** `getValue`: the trimmed field when it exists and is not blank. */
  function GetValue(values: seq<string>, index: nat, default: Option<string>): (r: Option<string>)
    ensures index < |values| && !IsBlank(values[index]) ==> r == Some(Trim(values[index]))
    ensures index >= |values| || IsBlank(values[index]) ==> r == default
    ensures r != default ==> r.Some? && r.value != [] && IsTrimmed(r.value)
  {
    if index < |values| && !IsBlank(values[index]) then Some(Trim(values[index])) else default
  }

  // ------------------------------------------------------------ CSV rows

  /** The row built from one line's fields. */
  function CsvRow(values: seq<string>): ImportRow {
    ImportRow(GetValue(values, 0, Some([])).GetOr([]), GetValue(values, 1, None), GetValue(values, 2, None),
              GetValue(values, 3, None), GetValue(values, 4, None), GetValue(values, 5, None),
              GetValue(values, 6, Some(DefaultRole)))
  }

  /** The rows of one data line: none when the line or its first field is
      blank. */
  function CsvLineRows(line: string): (r: seq<ImportRow>)
    ensures |r| <= 1
    ensures r == [] <==> IsBlank(line) || IsBlank(ParseCsvLine(line)[0])
    ensures forall k :: 0 <= k < |r| ==> WellFormed(r[k]) && r[k].email == Trim(ParseCsvLine(line)[0])
  {
    if IsBlank(line) then []
    else
      var values := ParseCsvLine(line);
      if IsBlank(values[0]) then [] else [CsvRow(values)]
  }

  /** The data lines' rows, in order. */
  function CsvRows(lines: seq<string>): (r: seq<ImportRow>)
    ensures |r| <= |lines|
    ensures forall k :: 0 <= k < |r| ==> WellFormed(r[k])
  {
    if lines == [] then [] else CsvLineRows(lines[0]) + CsvRows(lines[1..])
  }

  /** Rows keep the order of their lines. */
  lemma {:induction false} CsvRowsConcat(a: seq<string>, b: seq<string>)
    ensures CsvRows(a + b) == CsvRows(a) + CsvRows(b)
    decreases |a|
  {
    if a == [] {
      assert a + b == b;
    } else {
      assert (a + b)[0] == a[0] && (a + b)[1..] == a[1..] + b;
      CsvRowsConcat(a[1..], b);
      assert CsvRows(a + b) == CsvLineRows(a[0]) + CsvRows(a[1..] + b);
    }
  }

  /** A blank line has a blank first field, so skipping blank lines only
      saves work. */
  lemma {:induction false} BlankLineBlankField(line: string)
    requires IsBlank(line)
    ensures IsBlank(ParseCsvLine(line)[0])
  {
    BlankIffAllSpace(line);
    assert IsPlainField(line);
    RawFieldsOfPlain(line, []);
    assert [] + line == line;
  }

  const EmptyFile := "Файл пуст"

  /** `parseCsv`: an empty file is refused, the first line is a header and
      is skipped whatever it holds. */
  function ParseCsv(text: string): (r: Result<seq<ImportRow>, string>)
    ensures r.Err? <==> text == []
    ensures r.Err? ==> r.error == EmptyFile
    ensures r.Ok? ==> r.value == CsvRows(ReadLines(text)[1..])
  {
    var lines := ReadLines(text);
    if lines == [] then Err(EmptyFile) else Ok(CsvRows(lines[1..]))
  }

  // ------------------------------------------------------------ CSV round trip

  /** The text written for an optional column: empty when missing. */
  function FieldText(v: Option<string>): string {
    if v.Some? then v.value else []
  }

  /** A row as a CSV line in the column order both readers use. */
  function RowLine(row: ImportRow): string {
    Join([row.email, FieldText(row.firstName), FieldText(row.lastName), FieldText(row.phone),
          FieldText(row.telegram), FieldText(row.department), FieldText(row.role)], ",")
  }

  /** A value that can be written as a CSV field without quoting and read
      back unchanged. */
  predicate IsCsvValue(s: string) {
    s != [] && IsTrimmed(s) && IsPlainField(s) && NoBreaks(s)
  }

  predicate IsCsvOption(v: Option<string>) {
    v.None? || IsCsvValue(v.value)
  }

  /** Rows that survive a trip through a CSV file. */
  predicate Exportable(row: ImportRow) {
    && IsCsvValue(row.email) && IsCsvOption(row.firstName) && IsCsvOption(row.lastName)
    && IsCsvOption(row.phone) && IsCsvOption(row.telegram) && IsCsvOption(row.department)
    && row.role.Some? && IsCsvValue(row.role.value)
  }

  lemma {:induction false} GetValueOfField(values: seq<string>, index: nat, v: Option<string>, default: Option<string>)
    requires index < |values| && values[index] == FieldText(v) && IsCsvOption(v)
    requires v.None? ==> default == None
    ensures GetValue(values, index, default) == v
  {
    if v.Some? {
      TrimOfTrimmed(v.value);
    }
  }

  /** A data line written from an exportable row is read back as that row. */
  lemma {:induction false} RowLineReadBack(row: ImportRow)
    requires Exportable(row)
    ensures CsvLineRows(RowLine(row)) == [row]
  {
    var fields := [row.email, FieldText(row.firstName), FieldText(row.lastName), FieldText(row.phone),
                   FieldText(row.telegram), FieldText(row.department), FieldText(row.role)];
    var line := RowLine(row);
    ParseJoinedFields(fields);
    TrimOfTrimmed(row.email);
    if IsBlank(line) {
      BlankLineBlankField(line);
      assert false;
    }
    GetValueOfField(fields, 1, row.firstName, None);
    GetValueOfField(fields, 2, row.lastName, None);
    GetValueOfField(fields, 3, row.phone, None);
    GetValueOfField(fields, 4, row.telegram, None);
    GetValueOfField(fields, 5, row.department, None);
    GetValueOfField(fields, 6, row.role, Some(DefaultRole));
  }

  /** The data lines written for some rows. */
  function RowLines(rows: seq<ImportRow>): (r: seq<string>)
    ensures |r| == |rows|
    ensures forall k :: 0 <= k < |r| ==> r[k] == RowLine(rows[k])
  {
    if rows == [] then [] else [RowLine(rows[0])] + RowLines(rows[1..])
  }

  lemma {:induction false} RowLinesReadBack(rows: seq<ImportRow>)
    requires forall k :: 0 <= k < |rows| ==> Exportable(rows[k])
    ensures CsvRows(RowLines(rows)) == rows
    decreases |rows|
  {
    if rows != [] {
      RowLineReadBack(rows[0]);
      RowLinesReadBack(rows[1..]);
      CsvRowsCons(RowLine(rows[0]), RowLines(rows[1..]));
      HeadAndTail(rows);
    }
  }

  lemma {:induction false} HeadAndTail(rows: seq<ImportRow>)
    requires rows != []
    ensures rows == [rows[0]] + rows[1..]
  {
  }

  lemma {:induction false} CsvRowsCons(line: string, lines: seq<string>)
    ensures CsvRows([line] + lines) == CsvLineRows(line) + CsvRows(lines)
  {
    assert ([line] + lines)[0] == line && ([line] + lines)[1..] == lines;
  }

  lemma {:induction false} RowLineHasNoBreaks(row: ImportRow)
    requires Exportable(row)
    ensures NoBreaks(RowLine(row))
  {
    var fields := [row.email, FieldText(row.firstName), FieldText(row.lastName), FieldText(row.phone),
                   FieldText(row.telegram), FieldText(row.department), FieldText(row.role)];
    JoinNoBreaks(fields);
  }

  lemma {:induction false} JoinNoBreaks(fields: seq<string>)
    requires forall k :: 0 <= k < |fields| ==> NoBreaks(fields[k])
    ensures NoBreaks(Join(fields, ","))
    decreases |fields|
  {
    if |fields| > 1 {
      JoinNoBreaks(fields[1..]);
      var a, b := fields[0] + ",", Join(fields[1..], ",");
      assert forall k :: 0 <= k < |a + b| ==> (a + b)[k] == (if k < |a| then a[k] else b[k - |a|]);
    }
  }

  /** A CSV file of a header line and the rows' lines is read back as the
      rows, whatever the header says. */
  lemma {:induction false} CsvFileReadBack(header: string, rows: seq<ImportRow>)
    requires NoBreaks(header)
    requires forall k :: 0 <= k < |rows| ==> Exportable(rows[k])
    ensures ParseCsv(TextBlock([header] + RowLines(rows))) == Ok(rows)
  {
    var lines := [header] + RowLines(rows);
    FileLinesHaveNoBreaks(header, rows);
    ReadTextBlock(lines);
    ParseCsvOfLines(TextBlock(lines), lines);
    assert lines[1..] == RowLines(rows);
    RowLinesReadBack(rows);
  }

  /** A text read as at least one line is parsed as the rows of every line
      after the first. */
  lemma {:induction false} ParseCsvOfLines(text: string, lines: seq<string>)
    requires ReadLines(text) == lines && lines != []
    ensures ParseCsv(text) == Ok(CsvRows(lines[1..]))
  {
  }

  lemma {:induction false} FileLinesHaveNoBreaks(header: string, rows: seq<ImportRow>)
    requires NoBreaks(header)
    requires forall k :: 0 <= k < |rows| ==> Exportable(rows[k])
    ensures AllNoBreaks([header] + RowLines(rows))
  {
    var tail := RowLines(rows);
    forall k | 0 <= k < |tail| ensures NoBreaks(tail[k]) {
      RowLineHasNoBreaks(rows[k]);
    }
    AllNoBreaksCons(header, tail);
  }

  lemma {:induction false} AllNoBreaksCons(line: string, lines: seq<string>)
    requires NoBreaks(line) && AllNoBreaks(lines)
    ensures AllNoBreaks([line] + lines)
  {
    assert forall k :: 1 <= k < |lines| + 1 ==> ([line] + lines)[k] == lines[k - 1];
  }

  // ------------------------------------------------------------ Excel rows

  /** A sheet row: the text of each cell as `getCellValue` gives it (a
      string cell trimmed, a number without its fraction, ...), or `None`
      for a missing or blank cell. */
  type SheetRow = seq<Option<string>>

  /** The first sheet: row `i` of the sheet, or `None` for a row that does
      not exist. */
  datatype Sheet = Sheet(rows: seq<Option<SheetRow>>)

  /** `getPhysicalNumberOfRows`. */
  function PhysicalRows(rows: seq<Option<SheetRow>>): (n: nat)
    ensures n <= |rows|
  {
    if rows == [] then 0 else (if rows[0].Some? then 1 else 0) + PhysicalRows(rows[1..])
  }

  function CellValue(row: SheetRow, index: nat): Option<string> {
    if index < |row| then row[index] else None
  }

  /** `getCellValueOrDefault`: the cell text unless missing or empty. */
  function CellValueOr(row: SheetRow, index: nat, default: string): (r: string)
    ensures r == default || (CellValue(row, index) == Some(r) && r != [])
  {
    var v := CellValue(row, index);
    if v.Some? && v.value != [] then v.value else default
  }

  /** The rows of one sheet row: none for a missing row or a blank e-mail
      cell. */
  function ExcelRowRows(row: Option<SheetRow>): (r: seq<ImportRow>)
    ensures |r| <= 1
    ensures r == [] <==> row.None? || CellValue(row.value, 0).None? || IsBlank(CellValue(row.value, 0).value)
    ensures forall k :: 0 <= k < |r| ==> WellFormed(r[k]) && r[k].email == Trim(CellValue(row.value, 0).value)
  {
    if row.None? then []
    else
      var cells := row.value;
      var email := CellValue(cells, 0);
      if email.None? || IsBlank(email.value) then []
      else [ImportRow(Trim(email.value), CellValue(cells, 1), CellValue(cells, 2), CellValue(cells, 3),
                      CellValue(cells, 4), CellValue(cells, 5), Some(CellValueOr(cells, 6, DefaultRole)))]
  }

  function ExcelRows(rows: seq<Option<SheetRow>>): (r: seq<ImportRow>)
    ensures |r| <= |rows|
    ensures forall k :: 0 <= k < |r| ==> WellFormed(r[k])
  {
    if rows == [] then [] else ExcelRowRows(rows[0]) + ExcelRows(rows[1..])
  }

  lemma {:induction false} ExcelRowsConcat(a: seq<Option<SheetRow>>, b: seq<Option<SheetRow>>)
    ensures ExcelRows(a + b) == ExcelRows(a) + ExcelRows(b)
    decreases |a|
  {
    if a == [] {
      assert a + b == b;
    } else {
      assert (a + b)[0] == a[0] && (a + b)[1..] == a[1..] + b;
      ExcelRowsConcat(a[1..], b);
      assert ExcelRows(a + b) == ExcelRowRows(a[0]) + ExcelRows(a[1..] + b);
    }
  }

  /** A row as a sheet row: the e-mail cell, the optional cells as they
      are, the role cell. */
  function CellsOf(row: ImportRow): SheetRow {
    [Some(row.email), row.firstName, row.lastName, row.phone, row.telegram, row.department, row.role]
  }

  /** A sheet row written from a well-formed row is read back as that row. */
  lemma {:induction false} CellsReadBack(row: ImportRow)
    requires WellFormed(row)
    ensures ExcelRowRows(Some(CellsOf(row))) == [row]
  {
    TrimOfTrimmed(row.email);
  }

  function SheetRowsOf(rows: seq<ImportRow>): (r: seq<Option<SheetRow>>)
    ensures |r| == |rows|
    ensures forall k :: 0 <= k < |r| ==> r[k] == Some(CellsOf(rows[k]))
  {
    if rows == [] then [] else [Some(CellsOf(rows[0]))] + SheetRowsOf(rows[1..])
  }

  lemma {:induction false} SheetRowsReadBack(rows: seq<ImportRow>)
    requires forall k :: 0 <= k < |rows| ==> WellFormed(rows[k])
    ensures ExcelRows(SheetRowsOf(rows)) == rows
    ensures PhysicalRows(SheetRowsOf(rows)) == |rows|
    decreases |rows|
  {
    if rows != [] {
      var sheetRows := SheetRowsOf(rows);
      CellsReadBack(rows[0]);
      SheetRowsReadBack(rows[1..]);
      assert sheetRows[1..] == SheetRowsOf(rows[1..]);
      assert rows == [rows[0]] + rows[1..];
    }
  }

  const TooFewRows := "Файл должен содержать хотя бы одну строку данных (кроме заголовка)"

  /** `parseExcel`: a sheet of fewer than two existing rows is refused;
      otherwise row 0 is the header and the rest are read. */
  function ParseExcel(sheet: Sheet): (r: Result<seq<ImportRow>, string>)
    ensures r.Err? <==> PhysicalRows(sheet.rows) < 2
    ensures r.Err? ==> r.error == TooFewRows
    ensures r.Ok? ==> |sheet.rows| >= 2 && r.value == ExcelRows(sheet.rows[1..])
  {
    if PhysicalRows(sheet.rows) < 2 then Err(TooFewRows) else Ok(ExcelRows(sheet.rows[1..]))
  }

  /** A sheet of a header row and the rows' cells is read back as the rows;
      with no data row it is refused. */
  lemma {:induction false} SheetReadBack(header: SheetRow, rows: seq<ImportRow>)
    requires forall k :: 0 <= k < |rows| ==> WellFormed(rows[k])
    ensures ParseExcel(Sheet([Some(header)] + SheetRowsOf(rows))) ==
      if rows == [] then Err(TooFewRows) else Ok(rows)
  {
    var all := [Some(header)] + SheetRowsOf(rows);
    SheetRowsReadBack(rows);
    assert all[1..] == SheetRowsOf(rows);
    assert PhysicalRows(all) == 1 + |rows|;
  }

  // ------------------------------------------------------------ dispatch

  /** The text after the last dot (the whole name when there is none),
      lower-cased. */
  function Extension(fileName: string): (r: string)
    ensures '.' !in r
    ensures '.' !in fileName ==> r == ToLower(fileName)
  {
    var dot := LastIndexOfChar(fileName, '.');
    var tail := fileName[dot + 1..];
    assert forall k :: 0 <= k < |tail| ==> tail[k] == fileName[dot + 1 + k];
    assert forall k :: 0 <= k < |tail| ==> LowerChar(tail[k]) != '.';
    assert dot == -1 ==> tail == fileName;
    ToLower(tail)
  }

  /** The extension of "<base>.<ext>" is the lower-cased `ext`. */
  lemma {:induction false} ExtensionAfterDot(base: string, ext: string)
    requires '.' !in ext
    ensures Extension(base + "." + ext) == ToLower(ext)
  {
    var name := base + "." + ext;
    var dot := LastIndexOfChar(name, '.');
    assert name[|base|] == '.';
    assert forall k :: |base| < k < |name| ==> name[k] == ext[k - |base| - 1];
    assert dot == |base|;
    assert name[dot + 1..] == ext;
  }

  /** The uploaded file: its name and its content read as UTF-8 text and
      as a workbook (which may fail to open). */
  datatype Upload = Upload(fileName: Option<string>, text: string, workbook: Result<Sheet, string>)

  const NoFileName := "Имя файла не может быть пустым"

  const UnsupportedFormat := "Неподдерживаемый формат файла: "

  function Unsupported(extension: string): string {
    UnsupportedFormat + extension
  }

  predicate IsCsv(fileName: string) {
    Extension(fileName) == "csv"
  }

  predicate IsExcel(fileName: string) {
    Extension(fileName) == "xlsx" || Extension(fileName) == "xls"
  }

  /** `parseFile`. */
  function ParseFile(file: Upload): (r: Result<seq<ImportRow>, string>)
    ensures file.fileName.None? ==> r == Err(NoFileName)
    ensures file.fileName.Some? && !IsCsv(file.fileName.value) && !IsExcel(file.fileName.value) ==>
      r == Err(Unsupported(Extension(file.fileName.value)))
    ensures r.Ok? ==> forall k :: 0 <= k < |r.value| ==> WellFormed(r.value[k])
  {
    if file.fileName.None? then Err(NoFileName)
    else
      var ext := Extension(file.fileName.value);
      if ext == "csv" then ParseCsv(file.text)
      else if ext == "xlsx" || ext == "xls" then
        match file.workbook
        case Err(e) => Err(e)
        case Ok(sheet) => ParseExcel(sheet)
      else Err(Unsupported(ext))
  }

  /** A name ending in ".csv" names a CSV file. */
  lemma {:induction false} CsvName(base: string)
    ensures IsCsv(base + ".csv")
  {
    assert base + ".csv" == base + "." + "csv";
    ExtensionAfterDot(base, "csv");
    assert ToLower("csv")[0] == 'c';
  }

  /** A name ending in ".xlsx" names an Excel file. */
  lemma {:induction false} XlsxName(base: string)
    ensures IsExcel(base + ".xlsx")
  {
    assert base + ".xlsx" == base + "." + "xlsx";
    ExtensionAfterDot(base, "xlsx");
    assert ToLower("xlsx")[0] == 'x';
  }

  /** A CSV upload of a header and the rows' lines yields the rows. */
  lemma {:induction false} CsvUploadReadBack(fileName: string, header: string, rows: seq<ImportRow>, workbook: Result<Sheet, string>)
    requires IsCsv(fileName) && NoBreaks(header)
    requires forall k :: 0 <= k < |rows| ==> Exportable(rows[k])
    ensures ParseFile(Upload(Some(fileName), TextBlock([header] + RowLines(rows)), workbook)) == Ok(rows)
  {
    CsvFileReadBack(header, rows);
    CsvReadAsText(Upload(Some(fileName), TextBlock([header] + RowLines(rows)), workbook));
  }

  /** A CSV file is parsed from its text. */
  lemma {:induction false} CsvReadAsText(file: Upload)
    requires file.fileName.Some? && IsCsv(file.fileName.value)
    ensures ParseFile(file) == ParseCsv(file.text)
  {
  }

  /** An Excel upload of a header row and the rows' cells yields the rows;
      a workbook that does not open fails with its own message. */
  lemma {:induction false} ExcelUploadReadBack(fileName: string, text: string, header: SheetRow, rows: seq<ImportRow>)
    requires IsExcel(fileName)
    requires forall k :: 0 <= k < |rows| ==> WellFormed(rows[k])
    ensures ParseFile(Upload(Some(fileName), text, Ok(Sheet([Some(header)] + SheetRowsOf(rows))))) ==
      if rows == [] then Err(TooFewRows) else Ok(rows)
    ensures forall e :: ParseFile(Upload(Some(fileName), text, Err(e))) == Err(e)
  {
    SheetReadBack(header, rows);
  }
}
