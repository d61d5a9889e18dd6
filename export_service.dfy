/** The row building of `src/services/exportService.js`: the CSV text of
    `exportToCSV`, the table of `exportToPDF`, the rows of `exportToExcel`
    and the image format read from an avatar's data URI. */
module ExportService {

  import opened Wrappers
  import opened Text
  import opened Js

  /** One entry of the `columns` option: the item key it shows and its
      heading. */
  datatype Column = Column(key: string, header: string)

  /** An exported item: a key it lacks reads as `undefined`. */
  type Item = map<string, JsValue>

  // ---------------------------------------------------------------------
  // CSV

  /** `(item[key] || '').toString()`. */
  function CellText(item: Item, key: string): (r: string)
    ensures key !in item || !Truthy(item[key]) ==> r == ""
    ensures key in item && Truthy(item[key]) ==> r == ToText(item[key])
  {
    if key in item && Truthy(item[key]) then ToText(item[key]) else ""
  }

  /** `s.replace(/"/g, '""')`. */
  function Escape(s: string): (r: string)
  {
    if s == [] then []
    else if s[0] == '"' then "\"\"" + Escape(s[1..])
    else [s[0]] + Escape(s[1..])
  }

  /** Escaping leaves a text without double quotes as it is, and otherwise
      adds one character per double quote. */
  lemma {:induction false} EscapeCounts(s: string)
    ensures |Escape(s)| == |s| + multiset(s)['"']
    ensures '"' !in s ==> Escape(s) == s
  {
    if s != [] {
      EscapeCounts(s[1..]);
      assert s == [s[0]] + s[1..];
      assert multiset(s) == multiset{s[0]} + multiset(s[1..]);
    }
  }

  /** A CSV cell: the escaped text between double quotes. */
  function QuoteCell(s: string): string
  {
    "\"" + Escape(s) + "\""
  }

  /** The header cells: each heading between double quotes, not escaped. */
  function HeaderCells(columns: seq<Column>): (r: seq<string>)
    ensures |r| == |columns|
    ensures forall i :: 0 <= i < |columns| ==> r[i] == "\"" + columns[i].header + "\""
  {
    if columns == [] then [] else ["\"" + columns[0].header + "\""] + HeaderCells(columns[1..])
  }

  /** The texts a data row carries, one per column, in column order. */
  function RowValues(item: Item, columns: seq<Column>): (r: seq<string>)
    ensures |r| == |columns|
    ensures forall i :: 0 <= i < |columns| ==> r[i] == CellText(item, columns[i].key)
  {
    if columns == [] then [] else [CellText(item, columns[0].key)] + RowValues(item, columns[1..])
  }

  function QuoteAll(cells: seq<string>): (r: seq<string>)
    ensures |r| == |cells|
    ensures forall i :: 0 <= i < |cells| ==> r[i] == QuoteCell(cells[i])
  {
    if cells == [] then [] else [QuoteCell(cells[0])] + QuoteAll(cells[1..])
  }

  /** One data line of the CSV text. */
  function CsvRow(item: Item, columns: seq<Column>): string
  {
    Join(",", QuoteAll(RowValues(item, columns)))
  }

  function CsvRows(data: seq<Item>, columns: seq<Column>): (r: seq<string>)
    ensures |r| == |data|
    ensures forall i :: 0 <= i < |data| ==> r[i] == CsvRow(data[i], columns)
  {
    if data == [] then [] else [CsvRow(data[0], columns)] + CsvRows(data[1..], columns)
  }

  /** The `csvContent` of `exportToCSV`: the header line, a line break, and
      the data lines separated by line breaks. */
  function ExportCsv(data: seq<Item>, columns: seq<Column>): string
  {
    Join(",", HeaderCells(columns)) + "\n" + Join("\n", CsvRows(data, columns))
  }

  // A reader for quoted CSV fields (fields between double quotes, a doubled
  // quote standing for one, fields separated by commas and records by line
  // breaks, a last line break optional), used to state what the text means.

  /** The body of a quoted field after its opening quote: its text and what
      follows the closing quote. */
  function ReadQuoted(s: string): (r: Option<(string, string)>)
    ensures r.Some? ==> |r.value.1| < |s|
    decreases |s|
  {
    if s == [] then None
    else if s[0] == '"' then
      if |s| > 1 && s[1] == '"' then
        match ReadQuoted(s[2..])
        case None => None
        case Some((text, rest)) => Some(("\"" + text, rest))
      else Some(("", s[1..]))
    else
      match ReadQuoted(s[1..])
      case None => None
      case Some((text, rest)) => Some(([s[0]] + text, rest))
  }

  /** The fields of one record, and the text after it (empty, or starting
      with the line break that ends the record). */
  function ReadFields(s: string): (r: Option<(seq<string>, string)>)
    ensures r.Some? ==> |r.value.1| < |s|
    decreases |s|
  {
    if s == [] || s[0] != '"' then None
    else
      match ReadQuoted(s[1..])
      case None => None
      case Some((text, rest)) =>
        if rest == [] then Some(([text], rest))
        else if rest[0] == '\n' then Some(([text], rest))
        else if rest[0] == ',' then
          match ReadFields(rest[1..])
          case None => None
          case Some((more, after)) => Some(([text] + more, after))
        else None
  }

  /** The records of a CSV text. */
  function ReadRecords(s: string): Option<seq<seq<string>>>
    decreases |s|
  {
    match ReadFields(s)
    case None => None
    case Some((fields, rest)) =>
      if rest == [] || rest == "\n" then Some([fields])
      else match ReadRecords(rest[1..])
        case None => None
        case Some(more) => Some([fields] + more)
  }

  lemma ReadQuotedClose(rest: string)
    requires rest == [] || rest[0] != '"'
    ensures ReadQuoted("\"" + rest) == Some(("", rest))
  {
    assert ("\"" + rest)[1..] == rest;
  }

  lemma ReadQuotedDoubled(t: string, text: string, rest: string)
    requires ReadQuoted(t) == Some((text, rest))
    ensures ReadQuoted("\"\"" + t) == Some(("\"" + text, rest))
  {
    assert ("\"\"" + t)[2..] == t;
  }

  lemma ReadQuotedPlain(c: char, t: string, text: string, rest: string)
    requires c != '"' && ReadQuoted(t) == Some((text, rest))
    ensures ReadQuoted([c] + t) == Some(([c] + text, rest))
  {
    assert ([c] + t)[1..] == t;
  }

  /** A double quote more in front of an escaped text that reads back. */
  lemma ReadEscapedQuote(text: string, rest: string)
    requires text != [] && text[0] == '"'
    requires ReadQuoted(Escape(text[1..]) + "\"" + rest) == Some((text[1..], rest))
    ensures ReadQuoted(Escape(text) + "\"" + rest) == Some((text, rest))
  {
    var t := Escape(text[1..]) + "\"" + rest;
    assert Escape(text) + "\"" + rest == "\"\"" + t by {
      assert Escape(text) == "\"\"" + Escape(text[1..]);
    }
    ReadQuotedDoubled(t, text[1..], rest);
    assert "\"" + text[1..] == text;
  }

  /** Another character more in front of an escaped text that reads back. */
  lemma ReadEscapedPlain(text: string, rest: string)
    requires text != [] && text[0] != '"'
    requires ReadQuoted(Escape(text[1..]) + "\"" + rest) == Some((text[1..], rest))
    ensures ReadQuoted(Escape(text) + "\"" + rest) == Some((text, rest))
  {
    var t := Escape(text[1..]) + "\"" + rest;
    assert Escape(text) + "\"" + rest == [text[0]] + t by {
      assert Escape(text) == [text[0]] + Escape(text[1..]);
    }
    ReadQuotedPlain(text[0], t, text[1..], rest);
    assert [text[0]] + text[1..] == text;
  }

  /** Reading an escaped cell back stops at its closing quote and gives
      the original text. */
  lemma {:induction false} ReadEscaped(text: string, rest: string)
    requires rest == [] || rest[0] != '"'
    ensures ReadQuoted(Escape(text) + "\"" + rest) == Some((text, rest))
  {
    if text == [] {
      assert Escape(text) + "\"" + rest == "\"" + rest;
      ReadQuotedClose(rest);
    } else {
      ReadEscaped(text[1..], rest);
      if text[0] == '"' {
        ReadEscapedQuote(text, rest);
      } else {
        ReadEscapedPlain(text, rest);
      }
    }
  }

  /** Stripping a cell's outer quotes and collapsing doubled quotes gives
      back the value. */
  lemma CellRoundTrip(text: string)
    ensures ReadQuoted(QuoteCell(text)[1..]) == Some((text, ""))
  {
    ReadEscaped(text, "");
    assert QuoteCell(text)[1..] == Escape(text) + "\"" + "";
  }

  lemma JoinCons(sep: string, first: string, rest: seq<string>)
    requires rest != []
    ensures Join(sep, [first] + rest) == first + sep + Join(sep, rest)
  {
    assert ([first] + rest)[1..] == rest;
  }

  /** A quoted cell at the end of a record reads back as that cell. */
  lemma ReadLastCell(cell: string, tail: string)
    requires tail == [] || tail[0] == '\n'
    ensures ReadFields(QuoteCell(cell) + tail) == Some(([cell], tail))
  {
    var body := Escape(cell) + "\"" + tail;
    ReadEscaped(cell, tail);
    assert QuoteCell(cell) + tail == "\"" + body;
    ReadFieldsLast(body, cell, tail);
  }

  lemma ReadFieldsLast(body: string, text: string, tail: string)
    requires ReadQuoted(body) == Some((text, tail)) && (tail == [] || tail[0] == '\n')
    ensures ReadFields("\"" + body) == Some(([text], tail))
  {
    assert ("\"" + body)[1..] == body;
  }

  /** A quoted cell followed by a comma reads back as that cell in front of
      the fields after the comma. */
  lemma ReadCellThenComma(cell: string, more: string, cells: seq<string>, after: string)
    requires ReadFields(more) == Some((cells, after))
    ensures ReadFields(QuoteCell(cell) + "," + more) == Some(([cell] + cells, after))
  {
    var body := Escape(cell) + "\"" + ("," + more);
    ReadEscaped(cell, "," + more);
    assert QuoteCell(cell) + "," + more == "\"" + body;
    ReadFieldsComma(body, cell, more, cells, after);
  }

  lemma ReadFieldsComma(body: string, text: string, more: string, cells: seq<string>, after: string)
    requires ReadQuoted(body) == Some((text, "," + more)) && ReadFields(more) == Some((cells, after))
    ensures ReadFields("\"" + body) == Some(([text] + cells, after))
  {
    assert ("\"" + body)[1..] == body;
    assert ("," + more)[1..] == more;
  }

  /** The joined cells of a line with more than one cell: the first cell,
      a comma, and the joined rest. */
  lemma QuotedLineCons(cells: seq<string>)
    requires |cells| > 1
    ensures Join(",", QuoteAll(cells)) == QuoteCell(cells[0]) + "," + Join(",", QuoteAll(cells[1..]))
  {
    assert QuoteAll(cells) == [QuoteCell(cells[0])] + QuoteAll(cells[1..]);
    JoinCons(",", QuoteCell(cells[0]), QuoteAll(cells[1..]));
  }

  /** A line of quoted cells reads back as its cells. */
  lemma {:induction false} ReadQuotedLine(cells: seq<string>, tail: string)
    requires cells != []
    requires tail == [] || tail[0] == '\n'
    ensures ReadFields(Join(",", QuoteAll(cells)) + tail) == Some((cells, tail))
  {
    if |cells| == 1 {
      assert Join(",", QuoteAll(cells)) == QuoteCell(cells[0]) by {
        assert QuoteAll(cells) == [QuoteCell(cells[0])];
      }
      ReadLastCell(cells[0], tail);
      assert cells == [cells[0]];
    } else {
      var more := Join(",", QuoteAll(cells[1..])) + tail;
      assert Join(",", QuoteAll(cells)) + tail == QuoteCell(cells[0]) + "," + more by {
        QuotedLineCons(cells);
      }
      ReadQuotedLine(cells[1..], tail);
      ReadCellThenComma(cells[0], more, cells[1..], tail);
      assert [cells[0]] + cells[1..] == cells;
    }
  }

  function QuotedLines(rows: seq<seq<string>>): (r: seq<string>)
    ensures |r| == |rows|
    ensures forall i :: 0 <= i < |rows| ==> r[i] == Join(",", QuoteAll(rows[i]))
  {
    if rows == [] then [] else [Join(",", QuoteAll(rows[0]))] + QuotedLines(rows[1..])
  }

  lemma QuotedLineStartsWithQuote(cells: seq<string>)
    requires cells != []
    ensures |Join(",", QuoteAll(cells))| > 0 && Join(",", QuoteAll(cells))[0] == '"'
  {
    if |cells| > 1 {
      QuotedLineCons(cells);
    } else {
      assert QuoteAll(cells) == [QuoteCell(cells[0])];
    }
  }

  /** A record followed by a line break and more text reads as that record
      in front of the records of the text after the break. */
  lemma ReadRecordThenBreak(s: string, fields: seq<string>, rest: string, more: seq<seq<string>>)
    requires ReadFields(s) == Some((fields, "\n" + rest))
    requires rest != [] && ReadRecords(rest) == Some(more)
    ensures ReadRecords(s) == Some([fields] + more)
  {
    assert ("\n" + rest)[1..] == rest;
    assert "\n" + rest != "\n";
  }

  /** A joined text starts with its first part. */
  lemma {:induction false} JoinStartsWithFirst(sep: string, parts: seq<string>)
    requires parts != []
    ensures parts[0] <= Join(sep, parts)
  {
    if |parts| > 1 {
      JoinCons(sep, parts[0], parts[1..]);
      assert [parts[0]] + parts[1..] == parts;
    }
  }

  /** The joined lines of more than one row: the first line, a line break,
      and the joined rest. */
  lemma QuotedLinesCons(rows: seq<seq<string>>)
    requires |rows| > 1
    ensures Join("\n", QuotedLines(rows))
         == Join(",", QuoteAll(rows[0])) + "\n" + Join("\n", QuotedLines(rows[1..]))
  {
    assert QuotedLines(rows) == [Join(",", QuoteAll(rows[0]))] + QuotedLines(rows[1..]);
    JoinCons("\n", Join(",", QuoteAll(rows[0])), QuotedLines(rows[1..]));
  }

  /** The lines after the first are not empty. */
  lemma LaterLinesNotEmpty(rows: seq<seq<string>>, tail: string)
    requires |rows| > 1 && rows[1] != []
    ensures Join("\n", QuotedLines(rows[1..])) + tail != []
  {
    QuotedLineStartsWithQuote(rows[1]);
    JoinStartsWithFirst("\n", QuotedLines(rows[1..]));
  }

  /** The first line reads as the first record, up to the break before
      the other lines. */
  lemma FirstLineReads(rows: seq<seq<string>>, tail: string)
    requires |rows| > 1 && rows[0] != []
    ensures ReadFields(Join("\n", QuotedLines(rows)) + tail)
         == Some((rows[0], "\n" + (Join("\n", QuotedLines(rows[1..])) + tail)))
  {
    var rest := Join("\n", QuotedLines(rows[1..])) + tail;
    assert Join("\n", QuotedLines(rows)) + tail == Join(",", QuoteAll(rows[0])) + ("\n" + rest) by {
      QuotedLinesCons(rows);
    }
    ReadQuotedLine(rows[0], "\n" + rest);
  }

  /** One more line in front of lines that read back as their records. */
  lemma ReadQuotedLinesStep(rows: seq<seq<string>>, tail: string)
    requires |rows| > 1 && rows[0] != [] && rows[1] != []
    requires ReadRecords(Join("\n", QuotedLines(rows[1..])) + tail) == Some(rows[1..])
    ensures ReadRecords(Join("\n", QuotedLines(rows)) + tail) == Some(rows)
  {
    LaterLinesNotEmpty(rows, tail);
    FirstLineReads(rows, tail);
    ReadRecordThenBreak(Join("\n", QuotedLines(rows)) + tail, rows[0],
                        Join("\n", QuotedLines(rows[1..])) + tail, rows[1..]);
    assert [rows[0]] + rows[1..] == rows;
  }

  /** Lines of quoted cells separated by line breaks read back as the
      records, with or without a line break at the end. */
  lemma {:induction false} ReadQuotedLines(rows: seq<seq<string>>, tail: string)
    requires rows != [] && forall i :: 0 <= i < |rows| ==> rows[i] != []
    requires tail == [] || tail == "\n"
    ensures ReadRecords(Join("\n", QuotedLines(rows)) + tail) == Some(rows)
  {
    if |rows| == 1 {
      var first := Join(",", QuoteAll(rows[0]));
      assert Join("\n", QuotedLines(rows)) == first by {
        assert QuotedLines(rows) == [first];
      }
      ReadQuotedLine(rows[0], tail);
      assert rows == [rows[0]];
    } else {
      ReadQuotedLines(rows[1..], tail);
      ReadQuotedLinesStep(rows, tail);
    }
  }

  /** The values each data line carries. */
  function DataValues(data: seq<Item>, columns: seq<Column>): (r: seq<seq<string>>)
    ensures |r| == |data|
    ensures forall i :: 0 <= i < |data| ==> r[i] == RowValues(data[i], columns)
  {
    if data == [] then [] else [RowValues(data[0], columns)] + DataValues(data[1..], columns)
  }

  /** Reading the exported text back gives the headings, then one record
      per item holding its values in column order. Headings are written
      without escaping, so this holds for headings without a double quote. */
  lemma CsvRoundTrip(data: seq<Item>, columns: seq<Column>)
    requires columns != []
    requires forall i :: 0 <= i < |columns| ==> '"' !in columns[i].header
    ensures ReadRecords(ExportCsv(data, columns))
         == Some([Headers(columns)] + DataValues(data, columns))
  {
    var heads := Headers(columns);
    var values := DataValues(data, columns);
    var rows := [heads] + values;
    assert Join(",", HeaderCells(columns)) == Join(",", QuoteAll(heads)) by {
      forall i | 0 <= i < |columns| ensures Escape(heads[i]) == heads[i] {
        EscapeCounts(heads[i]);
      }
      assert HeaderCells(columns) == QuoteAll(heads);
    }
    assert QuotedLines(rows) == [Join(",", QuoteAll(heads))] + CsvRows(data, columns) by {
      assert QuotedLines(values) == CsvRows(data, columns);
      assert QuotedLines(rows)[1..] == QuotedLines(values);
    }
    if data == [] {
      assert ExportCsv(data, columns) == Join("\n", QuotedLines(rows)) + "\n";
      ReadQuotedLines(rows, "\n");
    } else {
      assert ExportCsv(data, columns) == Join("\n", QuotedLines(rows)) + "" by {
        JoinCons("\n", Join(",", QuoteAll(heads)), CsvRows(data, columns));
      }
      ReadQuotedLines(rows, "");
    }
  }

  function Headers(columns: seq<Column>): (r: seq<string>)
    ensures |r| == |columns|
    ensures forall i :: 0 <= i < |columns| ==> r[i] == columns[i].header
  {
    if columns == [] then [] else [columns[0].header] + Headers(columns[1..])
  }

  // ---------------------------------------------------------------------
  // PDF

  const Dash: string := "—"

  /** `['No.', 'Photo', ...columns.map(col => col.header)]`. */
  function TableColumn(columns: seq<Column>): (r: seq<string>)
    ensures |r| == |columns| + 2 && r[0] == "No." && r[1] == "Photo"
    ensures forall i :: 0 <= i < |columns| ==> r[i + 2] == columns[i].header
  {
    ["No.", "Photo"] + Headers(columns)
  }

  /** `item[col.key] || '—'`. */
  function PdfCell(item: Item, key: string): (r: JsValue)
    ensures Truthy(r)
    ensures key in item && Truthy(item[key]) ==> r == item[key]
    ensures !(key in item && Truthy(item[key])) ==> r == Str(Dash)
  {
    if key in item && Truthy(item[key]) then item[key] else Str(Dash)
  }

  function PdfCells(item: Item, columns: seq<Column>): (r: seq<JsValue>)
    ensures |r| == |columns|
    ensures forall i :: 0 <= i < |columns| ==> r[i] == PdfCell(item, columns[i].key)
  {
    if columns == [] then [] else [PdfCell(item, columns[0].key)] + PdfCells(item, columns[1..])
  }

  /** `tableRows`: row `i` is its 1-based number, an empty photo cell and
      the item's values, so every row is as wide as the header row. */
  function TableRows(items: seq<Item>, columns: seq<Column>): (r: seq<seq<JsValue>>)
    ensures |r| == |items|
    ensures forall i :: 0 <= i < |items| ==>
              && |r[i]| == |TableColumn(columns)|
              && r[i][0] == Num(i + 1) && r[i][1] == Str("")
              && forall j :: 0 <= j < |columns| ==> r[i][j + 2] == PdfCell(items[i], columns[j].key)
  {
    seq(|items|, i requires 0 <= i < |items| => [Num(i + 1), Str("")] + PdfCells(items[i], columns))
  }

  // ---------------------------------------------------------------------
  // Excel

  /** `item[col.key] || ''`. */
  function ExcelValue(item: Item, key: string): (r: JsValue)
    ensures key in item && Truthy(item[key]) ==> r == item[key]
    ensures !(key in item && Truthy(item[key])) ==> r == Str("")
  {
    if key in item && Truthy(item[key]) then item[key] else Str("")
  }

  /** Column `i` is the last one with its heading, so its value is the one
      that stays in the row. */
  predicate LastWithHeader(columns: seq<Column>, i: int)
    requires 0 <= i < |columns|
  {
    forall j :: i < j < |columns| ==> columns[j].header != columns[i].header
  }

  /** Some column carries heading `h`. */
  ghost predicate HasHeading(columns: seq<Column>, h: string)
  {
    exists i :: 0 <= i < |columns| && columns[i].header == h
  }

  /** The row's keys are exactly the headings. */
  ghost predicate KeysAreHeadings(row: map<string, JsValue>, columns: seq<Column>)
  {
    forall h :: h in row <==> HasHeading(columns, h)
  }

  /** Each heading holds the value of the last column with that heading. */
  ghost predicate KeepsLastValues(row: map<string, JsValue>, item: Item, columns: seq<Column>)
  {
    forall i :: 0 <= i < |columns| && LastWithHeader(columns, i) ==>
      columns[i].header in row && row[columns[i].header] == ExcelValue(item, columns[i].key)
  }

  /** A row of the sheet for `item`: one key per heading, holding the value
      of the last column with that heading. */
  ghost predicate IsExcelRow(row: map<string, JsValue>, item: Item, columns: seq<Column>)
  {
    KeysAreHeadings(row, columns) && KeepsLastValues(row, item, columns)
  }

  /** The row the `forEach` over the columns leaves: each column in turn
      sets its heading to its value, so a later column overwrites an
      earlier one with the same heading. */
  function RowOf(item: Item, columns: seq<Column>): map<string, JsValue>
  {
    if columns == [] then map[]
    else
      var last := columns[|columns| - 1];
      RowOf(item, columns[..|columns| - 1])[last.header := ExcelValue(item, last.key)]
  }

  /** Setting one more column's heading adds exactly that heading. */
  lemma KeysStep(row: map<string, JsValue>, columns: seq<Column>, col: Column, v: JsValue, cols: seq<Column>)
    requires KeysAreHeadings(row, columns) && cols == columns + [col]
    ensures KeysAreHeadings(row[col.header := v], cols)
  {
    forall h
      ensures h in row[col.header := v] <==> HasHeading(cols, h)
    {
      if h in row && h != col.header {
        var i :| 0 <= i < |columns| && columns[i].header == h;
        assert cols[i].header == h;
      }
      if h == col.header {
        assert cols[|columns|].header == h;
      }
      if HasHeading(cols, h) {
        var i :| 0 <= i < |cols| && cols[i].header == h;
        if i < |columns| {
          assert columns[i].header == h;
        }
      }
    }
  }

  /** Setting one more column's heading keeps the last value per heading. */
  lemma ValuesStep(row: map<string, JsValue>, item: Item, columns: seq<Column>, col: Column, cols: seq<Column>)
    requires KeepsLastValues(row, item, columns) && cols == columns + [col]
    ensures KeepsLastValues(row[col.header := ExcelValue(item, col.key)], item, cols)
  {
    forall i | 0 <= i < |cols| && LastWithHeader(cols, i)
      ensures cols[i].header in row[col.header := ExcelValue(item, col.key)]
      ensures row[col.header := ExcelValue(item, col.key)][cols[i].header] == ExcelValue(item, cols[i].key)
    {
      if i < |columns| {
        assert cols[|columns|].header != cols[i].header;
        assert LastWithHeader(columns, i) by {
          forall j | i < j < |columns| ensures columns[j].header != columns[i].header {
            assert cols[j] == columns[j];
          }
        }
      }
    }
  }

  /** The row has one key per heading, and the value of the last column
      with that heading. */
  lemma {:induction false} RowOfIsExcelRow(item: Item, columns: seq<Column>)
    ensures IsExcelRow(RowOf(item, columns), item, columns)
  {
    if columns != [] {
      var init, last := columns[..|columns| - 1], columns[|columns| - 1];
      var prev := RowOf(item, init);
      RowOfIsExcelRow(item, init);
      assert init + [last] == columns;
      KeysStep(prev, init, last, ExcelValue(item, last.key), columns);
      ValuesStep(prev, item, init, last, columns);
    }
  }

  /** The `forEach` that fills one Excel row. */
  method ExcelRow(item: Item, columns: seq<Column>) returns (row: map<string, JsValue>)
    ensures row == RowOf(item, columns)
  {
    row := map[];
    for n := 0 to |columns|
      invariant row == RowOf(item, columns[..n])
    {
      assert columns[..n + 1][..n] == columns[..n];
      row := row[columns[n].header := ExcelValue(item, columns[n].key)];
    }
    assert columns[..|columns|] == columns;
  }

  /** `formattedData` of `exportToExcel`: one row per item, in order. */
  method ExcelRows(data: seq<Item>, columns: seq<Column>) returns (rows: seq<map<string, JsValue>>)
    ensures |rows| == |data|
    ensures forall i :: 0 <= i < |data| ==> rows[i] == RowOf(data[i], columns)
  {
    rows := [];
    for n := 0 to |data|
      invariant |rows| == n
      invariant forall i :: 0 <= i < n ==> rows[i] == RowOf(data[i], columns)
    {
      var row := ExcelRow(data[n], columns);
      rows := rows + [row];
    }
  }

  // ---------------------------------------------------------------------
  // Photo format

  const ImagePrefix: string := "data:image/"
  const Base64Marker: string := ";base64,"

  /** A character of `[a-zA-Z+]`. */
  predicate IsFormatChar(c: char)
  {
    IsUpper(c) || IsLower(c) || c == '+'
  }

  predicate AllFormatChars(s: string)
  {
    forall i :: 0 <= i < |s| ==> IsFormatChar(s[i])
  }

  /** The longest prefix of format characters. */
  function FormatRun(s: string): (r: string)
    ensures r <= s && AllFormatChars(r)
    ensures |r| < |s| ==> !IsFormatChar(s[|r|])
  {
    if s == [] || !IsFormatChar(s[0]) then [] else [s[0]] + FormatRun(s[1..])
  }

  /** The text of `avatar` from `from` up to `to` is a run of format
      characters followed by the base64 marker. */
  predicate GroupEndsAt(avatar: string, n: int)
  {
    && 0 < n && |ImagePrefix| + n + |Base64Marker| <= |avatar|
    && AllFormatChars(avatar[|ImagePrefix|..|ImagePrefix| + n])
    && avatar[|ImagePrefix| + n..|ImagePrefix| + n + |Base64Marker|] == Base64Marker
  }

  /** The capture group of `/^data:image\/([a-zA-Z+]+);base64,/`, if the
      avatar matches. */
  function FormatGroup(avatar: string): (r: Option<string>)
    ensures r.Some? ==> ImagePrefix <= avatar && GroupEndsAt(avatar, |r.value|)
                        && r.value == avatar[|ImagePrefix|..|ImagePrefix| + |r.value|]
    ensures r.None? ==> !(ImagePrefix <= avatar) || forall n :: !GroupEndsAt(avatar, n)
  {
    if !(ImagePrefix <= avatar) then None
    else
      var rest := avatar[|ImagePrefix|..];
      var run := FormatRun(rest);
      if |run| > 0 && Base64Marker <= rest[|run|..] then
        SliceOfSuffix(avatar, |ImagePrefix|, 0, |run|);
        SliceOfSuffix(avatar, |ImagePrefix|, |run|, |Base64Marker|);
        Some(run)
      else
        assert forall n :: !GroupEndsAt(avatar, n) by {
          forall n | GroupEndsAt(avatar, n) ensures false {
            GroupIsRun(avatar, rest, run, n);
          }
        }
        None
  }

  /** A slice of a suffix is a slice of the whole. */
  lemma SliceOfSuffix(s: string, from: nat, i: nat, n: nat)
    requires from + i + n <= |s|
    ensures s[from..][i..i + n] == s[from + i..from + i + n]
    ensures s[from..][i..][..n] == s[from + i..from + i + n]
  {
  }

  /** A run of `n` format characters followed by another character is
      exactly what `FormatRun` takes. */
  lemma {:induction false} FormatRunLength(s: string, n: nat)
    requires n < |s| && AllFormatChars(s[..n]) && !IsFormatChar(s[n])
    ensures |FormatRun(s)| == n
  {
    if n > 0 {
      assert s[0] == s[..n][0];
      assert s[1..][..n - 1] == s[..n][1..];
      FormatRunLength(s[1..], n - 1);
    }
  }

  lemma GroupIsRun(avatar: string, rest: string, run: string, n: int)
    requires ImagePrefix <= avatar && rest == avatar[|ImagePrefix|..] && run == FormatRun(rest)
    requires GroupEndsAt(avatar, n)
    ensures n == |run| && |run| > 0 && Base64Marker <= rest[|run|..]
  {
    assert rest[..n] == avatar[|ImagePrefix|..|ImagePrefix| + n];
    assert avatar[|ImagePrefix| + n] == avatar[|ImagePrefix| + n..|ImagePrefix| + n + |Base64Marker|][0];
    assert rest[n] == ';';
    FormatRunLength(rest, n);
    assert rest[n..n + |Base64Marker|] == Base64Marker;
  }

  /** `imageFormat`: the upper-cased format of a base64 image data URI,
      `'JPEG'` otherwise. */
  function ImageFormat(avatar: string): (r: string)
    ensures FormatGroup(avatar).Some? ==> r == Upper(FormatGroup(avatar).value)
    ensures FormatGroup(avatar).None? ==> r == "JPEG"
  {
    match FormatGroup(avatar)
    case Some(g) => Upper(g)
    case None => "JPEG"
  }

  /** Every `data:image/<fmt>;base64,` URI yields its format upper-cased. */
  lemma ImageFormatOfDataUri(fmt: string, payload: string)
    requires fmt != [] && AllFormatChars(fmt)
    ensures ImageFormat(ImagePrefix + fmt + Base64Marker + payload) == Upper(fmt)
  {
    var avatar := ImagePrefix + fmt + Base64Marker + payload;
    var p := |ImagePrefix|;
    assert ImagePrefix <= avatar;
    assert avatar[p..p + |fmt|] == fmt;
    assert GroupEndsAt(avatar, |fmt|) by {
      assert avatar[p + |fmt|..p + |fmt| + |Base64Marker|] == Base64Marker;
    }
    var r := FormatGroup(avatar);
    var rest := avatar[p..];
    assert r.Some? && |r.value| == |fmt| by {
      GroupIsRun(avatar, rest, FormatRun(rest), |fmt|);
      if r.Some? {
        GroupIsRun(avatar, rest, FormatRun(rest), |r.value|);
      }
    }
  }

  /** The format drawn for a photo cell: nothing unless the avatar is a
      non-empty string starting with `data:image`. */
  function PhotoFormat(avatar: Option<string>): (r: Option<string>)
    ensures r.Some? <==> Present(avatar) && "data:image" <= avatar.value
    ensures r.Some? ==> r.value == ImageFormat(avatar.value)
  {
    if Present(avatar) && "data:image" <= avatar.value then Some(ImageFormat(avatar.value)) else None
  }

  /** A photo cell holding a base64 image data URI is drawn, in the URI's
      format upper-cased. */
  lemma PhotoFormatOfDataUri(fmt: string, payload: string)
    requires fmt != [] && AllFormatChars(fmt)
    ensures PhotoFormat(Some(ImagePrefix + fmt + Base64Marker + payload)) == Some(Upper(fmt))
  {
    var avatar := ImagePrefix + fmt + Base64Marker + payload;
    assert "data:image" <= avatar by {
      assert avatar[..|"data:image"|] == ImagePrefix[..|"data:image"|];
    }
    ImageFormatOfDataUri(fmt, payload);
  }
}
