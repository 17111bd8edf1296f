/**
 * The result-table helpers of the query console: the CSV export behind the
 * "copy CSV" button and the colour class of the size/latency badge.
 *
 * The CSV follows the field-quoting rules of section 2 of RFC 4180 (a field
 * holding a comma, a double quote or a line feed is enclosed in double
 * quotes, and each inner double quote is doubled), with two deliberate
 * differences: records are separated by a bare line feed rather than CRLF,
 * and a carriage return alone does not cause quoting.
 */
module ResultTable {
  import opened Strings

  /** A result cell: `null`/`undefined`, or the text that `String(value)` gives. */
  datatype Cell = Missing | Text(text: string)

  datatype DataSchema = DataSchema(columnDataTypes: seq<string>, columnNames: seq<string>)

  datatype ResultTable = ResultTable(dataSchema: DataSchema, rows: seq<seq<Cell>>)

  /** The characters that cause a field to be quoted. */
  predicate NeedsQuoting(s: string) {
    ',' in s || '"' in s || '\n' in s
  }

  /** `s.replace(/"/g, '""')`. */
  function DoubleQuotes(s: string): string
    decreases |s|
  {
    if s == [] then ""
    else (if s[0] == '"' then "\"\"" else [s[0]]) + DoubleQuotes(s[1..])
  }

  /** The text a cell stands for once read back: empty for a missing value. */
  function CellText(c: Cell): string {
    match c
    case Missing => ""
    case Text(s) => s
  }

  /** `escapeCSV(value)`: the field is empty exactly for a missing or empty cell. */
  function EscapeCsv(c: Cell): (r: string)
    ensures r == "" <==> CellText(c) == ""
  {
    match c
    case Missing => ""
    case Text(s) => if NeedsQuoting(s) then "\"" + DoubleQuotes(s) + "\"" else s
  }

  /** Collapses every `""` pair back to one `"` (the inverse of `DoubleQuotes`). */
  function CollapseQuotes(t: string): string
    decreases |t|
  {
    if |t| >= 2 && t[0] == '"' && t[1] == '"' then "\"" + CollapseQuotes(t[2..])
    else if t == [] then ""
    else [t[0]] + CollapseQuotes(t[1..])
  }

  /** How a CSV reader recovers a field: strip the enclosing quotes and collapse `""`. */
  function UnescapeField(f: string): string {
    if |f| >= 2 && f[0] == '"' && f[|f| - 1] == '"' then CollapseQuotes(f[1..|f| - 1]) else f
  }

  lemma {:induction false} CollapseDoubled(s: string)
    ensures CollapseQuotes(DoubleQuotes(s)) == s
    decreases |s|
  {
    if s != [] {
      CollapseDoubled(s[1..]);
      var d := DoubleQuotes(s[1..]);
      if s[0] == '"' {
        assert ("\"\"" + d)[2..] == d;
      } else {
        assert ([s[0]] + d)[1..] == d;
      }
      assert [s[0]] + s[1..] == s;
    }
  }

  /** Escaping is undone by the reader, whichever branch was taken. */
  lemma UnescapeEscape(c: Cell)
    ensures UnescapeField(EscapeCsv(c)) == CellText(c)
  {
    if c.Text? && NeedsQuoting(c.text) {
      var f := EscapeCsv(c);
      assert f[1..|f| - 1] == DoubleQuotes(c.text);
      CollapseDoubled(c.text);
    } else if c.Text? && |c.text| >= 2 {
      assert c.text[0] != '"';
    }
  }

  /** Two strings that escape to the same field are the same string. */
  lemma EscapeInjective(s: string, t: string)
    requires EscapeCsv(Text(s)) == EscapeCsv(Text(t))
    ensures s == t
  {
    UnescapeEscape(Text(s));
    UnescapeEscape(Text(t));
  }

  /** A carriage return alone is not a reason to quote. */
  lemma CarriageReturnNotQuoted()
    ensures EscapeCsv(Text("a\rb")) == "a\rb"
  {
  }

  /** `row.map(escapeCSV).join(",")`. */
  function CsvRow(cells: seq<Cell>): string {
    Join(seq(|cells|, i requires 0 <= i < |cells| => EscapeCsv(cells[i])), ",")
  }

  /** The header row: the column names, escaped like any other field. */
  function HeaderCells(table: ResultTable): seq<Cell> {
    var names := table.dataSchema.columnNames;
    seq(|names|, i requires 0 <= i < |names| => Text(names[i]))
  }

  /** The records of the export: the header row, then the data rows in order. */
  function CsvRecords(table: ResultTable): (records: seq<string>)
    ensures |records| == |table.rows| + 1
  {
    [CsvRow(HeaderCells(table))]
      + seq(|table.rows|, i requires 0 <= i < |table.rows| => CsvRow(table.rows[i]))
  }

  /** `convertToCSV()`: the records joined by a line feed, with no trailing line feed added. */
  function ConvertToCsv(table: ResultTable): string {
    Join(CsvRecords(table), "\n")
  }

  // ---------------------------------------------------------------------
  // Reading the export back, as an RFC 4180 reader does: a separator ends a
  // field or a record only outside double quotes.
  // ---------------------------------------------------------------------

  /** Whether the scan is inside quotes after `s`, starting in state `q`. */
  function InQuotesAfter(s: string, q: bool): bool
    decreases |s|
  {
    if s == [] then q else InQuotesAfter(s[1..], if s[0] == '"' then !q else q)
  }

  /** How many `sep` characters of `s` stand outside quotes, starting in state `q`. */
  function SepsOutside(s: string, sep: char, q: bool): nat
    decreases |s|
  {
    if s == [] then 0
    else (if s[0] == sep && !q then 1 else 0) + SepsOutside(s[1..], sep, if s[0] == '"' then !q else q)
  }

  /** `s` splits at every `sep` outside quotes, starting in state `q`. */
  function SplitOutside(s: string, sep: char, q: bool): (r: seq<string>)
    ensures |r| >= 1
    decreases |s|
  {
    if s == [] then [""]
    else if s[0] == sep && !q then [""] + SplitOutside(s[1..], sep, q)
    else
      var rest := SplitOutside(s[1..], sep, if s[0] == '"' then !q else q);
      [[s[0]] + rest[0]] + rest[1..]
  }

  /** A field that leaves the quote state closed and has no `sep` outside quotes. */
  predicate Sealed(f: string, sep: char) {
    !InQuotesAfter(f, false) && SepsOutside(f, sep, false) == 0
  }

  lemma {:induction false} ScanAppend(a: string, b: string, sep: char, q: bool)
    ensures InQuotesAfter(a + b, q) == InQuotesAfter(b, InQuotesAfter(a, q))
    ensures SepsOutside(a + b, sep, q) == SepsOutside(a, sep, q) + SepsOutside(b, sep, InQuotesAfter(a, q))
    decreases |a|
  {
    if a == [] {
      assert a + b == b;
    } else {
      assert (a + b)[1..] == a[1..] + b;
      ScanAppend(a[1..], b, sep, if a[0] == '"' then !q else q);
    }
  }

  /** Inside quotes, doubled text never leaves the quotes and shows no separator. */
  lemma {:induction false} ScanDoubled(s: string, sep: char)
    requires sep != '"'
    ensures InQuotesAfter(DoubleQuotes(s), true)
    ensures SepsOutside(DoubleQuotes(s), sep, true) == 0
    decreases |s|
  {
    if s != [] {
      var head := if s[0] == '"' then "\"\"" else [s[0]];
      ScanDoubled(s[1..], sep);
      ScanAppend(head, DoubleQuotes(s[1..]), sep, true);
      assert InQuotesAfter(head, true) by {
        if s[0] == '"' { assert head[1..] == "\""; assert head[1..][1..] == ""; }
        else { assert head[1..] == ""; }
      }
      assert SepsOutside(head, sep, true) == 0 by {
        if s[0] == '"' { assert head[1..] == "\""; assert head[1..][1..] == ""; }
        else { assert head[1..] == ""; }
      }
    }
  }

  /** Text without quotes or separators stays outside quotes and shows no separator. */
  lemma {:induction false} ScanPlain(s: string, sep: char)
    requires '"' !in s && sep !in s
    ensures !InQuotesAfter(s, false) && SepsOutside(s, sep, false) == 0
    decreases |s|
  {
    if s != [] {
      assert s[0] in s;
      assert forall c :: c in s[1..] ==> c in s;
      ScanPlain(s[1..], sep);
    }
  }

  /** Every escaped field is sealed for both separators the export uses. */
  lemma EscapedFieldSealed(c: Cell, sep: char)
    requires sep == ',' || sep == '\n'
    ensures Sealed(EscapeCsv(c), sep)
  {
    match c
    case Missing =>
    case Text(s) =>
      if NeedsQuoting(s) {
        var open := "\"" + DoubleQuotes(s);
        ScanAppend("\"", DoubleQuotes(s), sep, false);
        ScanDoubled(s, sep);
        ScanAppend(open, "\"", sep, false);
      } else {
        ScanPlain(s, sep);
      }
  }

  /** Joining sealed parts with a separator `d` other than `sep` stays sealed for `sep`. */
  lemma {:induction false} JoinSealed(parts: seq<string>, d: char, sep: char)
    requires d != '"' && d != sep
    requires forall i :: 0 <= i < |parts| ==> Sealed(parts[i], sep)
    ensures Sealed(Join(parts, [d]), sep)
    decreases |parts|
  {
    if |parts| > 1 {
      JoinSealed(parts[1..], d, sep);
      var tail := Join(parts[1..], [d]);
      ScanAppend(parts[0] + [d], tail, sep, false);
      ScanAppend(parts[0], [d], sep, false);
    }
  }

  /** Joining sealed parts with `sep` itself puts exactly |parts| - 1 separators outside quotes. */
  lemma {:induction false} JoinCountsSeparators(parts: seq<string>, sep: char)
    requires sep != '"' && |parts| >= 1
    requires forall i :: 0 <= i < |parts| ==> Sealed(parts[i], sep)
    ensures !InQuotesAfter(Join(parts, [sep]), false)
    ensures SepsOutside(Join(parts, [sep]), sep, false) == |parts| - 1
    decreases |parts|
  {
    if |parts| > 1 {
      JoinCountsSeparators(parts[1..], sep);
      var tail := Join(parts[1..], [sep]);
      ScanAppend(parts[0] + [sep], tail, sep, false);
      ScanAppend(parts[0], [sep], sep, false);
    }
  }

  /** The escaped fields of a row, in order. */
  function EscapedFields(cells: seq<Cell>): seq<string> {
    seq(|cells|, i requires 0 <= i < |cells| => EscapeCsv(cells[i]))
  }

  /** A row of n >= 1 cells holds exactly n - 1 commas outside quoted fields. */
  lemma RowCommas(cells: seq<Cell>)
    requires |cells| >= 1
    ensures SepsOutside(CsvRow(cells), ',', false) == |cells| - 1
  {
    var fields := EscapedFields(cells);
    forall i | 0 <= i < |fields| ensures Sealed(fields[i], ',') {
      EscapedFieldSealed(cells[i], ',');
    }
    JoinCountsSeparators(fields, ',');
  }

  /** A row holds no line feed outside quoted fields. */
  lemma RowSealedForLineFeed(cells: seq<Cell>)
    ensures Sealed(CsvRow(cells), '\n')
  {
    var fields := EscapedFields(cells);
    forall i | 0 <= i < |fields| ensures Sealed(fields[i], '\n') {
      EscapedFieldSealed(cells[i], '\n');
    }
    JoinSealed(fields, ',', '\n');
  }

  lemma RecordsSealed(table: ResultTable)
    ensures forall i :: 0 <= i < |CsvRecords(table)| ==> Sealed(CsvRecords(table)[i], '\n')
  {
    var records := CsvRecords(table);
    forall i | 0 <= i < |records| ensures Sealed(records[i], '\n') {
      if i == 0 {
        RowSealedForLineFeed(HeaderCells(table));
      } else {
        RowSealedForLineFeed(table.rows[i - 1]);
      }
    }
  }

  /** The export has exactly |rows| line feeds outside quoted fields: one per data row. */
  lemma RecordSeparators(table: ResultTable)
    ensures SepsOutside(ConvertToCsv(table), '\n', false) == |table.rows|
  {
    RecordsSealed(table);
    JoinCountsSeparators(CsvRecords(table), '\n');
  }

  /** A sealed field cannot end with its separator: that separator would stand outside quotes. */
  lemma SealedNoTrailingSeparator(f: string, sep: char)
    requires sep != '"' && Sealed(f, sep) && f != []
    ensures f[|f| - 1] != sep
  {
    var n := |f| - 1;
    assert f == f[..n] + [f[n]];
    ScanAppend(f[..n], [f[n]], sep, false);
    assert [f[n]][1..] == [];
  }

  /**
   * No line feed is added after the last record: the export ends with a line
   * feed only when its last record is empty (a row of zero cells or of one
   * empty cell), as `join` gives.
   */
  lemma NoTrailingLineFeed(table: ResultTable)
    requires CsvRecords(table)[|table.rows|] != ""
    ensures var csv := ConvertToCsv(table); csv != [] && csv[|csv| - 1] != '\n'
  {
    var records := CsvRecords(table);
    var last := records[|records| - 1];
    RecordsSealed(table);
    SealedNoTrailingSeparator(last, '\n');
    JoinEndsWithLast(records, "\n");
  }

  /** One unfolding of `SplitOutside` at a character that does not cut. */
  lemma SplitOutsideStep(s: string, sep: char, q: bool)
    requires s != [] && !(s[0] == sep && !q)
    ensures var rest := SplitOutside(s[1..], sep, if s[0] == '"' then !q else q);
      SplitOutside(s, sep, q) == [[s[0]] + rest[0]] + rest[1..]
  {
  }

  /** Putting a character in front of the first piece of a split. */
  lemma PrependToFirst(c: char, x: string, tail: seq<string>, r: seq<string>)
    requires |tail| >= 1 && r == if x == [] then tail else [x + tail[0]] + tail[1..]
    ensures [[c] + r[0]] + r[1..] == [[c] + x + tail[0]] + tail[1..]
  {
    if x == [] {
      assert [c] + x == [c];
    } else {
      assert [c] + (x + tail[0]) == [c] + x + tail[0];
    }
  }

  /** A sealed prefix is not cut, whatever the state it is read in ends with. */
  lemma {:induction false} SplitOutsidePrefix(x: string, rest: string, sep: char, q: bool)
    requires sep != '"' && SepsOutside(x, sep, q) == 0
    ensures var tail := SplitOutside(rest, sep, InQuotesAfter(x, q));
      SplitOutside(x + rest, sep, q) == if x == [] then tail else [x + tail[0]] + tail[1..]
    decreases |x|
  {
    if x == [] {
      assert x + rest == rest;
    } else {
      var s := x + rest;
      var x' := x[1..];
      var q' := if x[0] == '"' then !q else q;
      assert s[0] == x[0] && s[1..] == x' + rest;
      assert [x[0]] + x' == x;
      SplitOutsideStep(s, sep, q);
      SplitOutsidePrefix(x', rest, sep, q');
      PrependToFirst(x[0], x', SplitOutside(rest, sep, InQuotesAfter(x, q)), SplitOutside(x' + rest, sep, q'));
    }
  }

  /** Splitting outside quotes undoes joining sealed parts. */
  lemma {:induction false} SplitOutsideJoin(parts: seq<string>, sep: char)
    requires sep != '"' && |parts| >= 1
    requires forall i :: 0 <= i < |parts| ==> Sealed(parts[i], sep)
    ensures SplitOutside(Join(parts, [sep]), sep, false) == parts
    decreases |parts|
  {
    var p := parts[0];
    assert Sealed(p, sep);
    if |parts| == 1 {
      SplitOutsidePrefix(p, "", sep, false);
      assert p + "" == p;
    } else {
      SplitOutsideJoin(parts[1..], sep);
      var tail := Join(parts[1..], [sep]);
      var s := [sep] + tail;
      assert s[1..] == tail;
      var r := SplitOutside(s, sep, false);
      assert r == [""] + parts[1..];
      SplitOutsidePrefix(p, s, sep, false);
      assert p + [sep] + tail == p + s;
      if p == [] {
        assert [""] + parts[1..] == parts;
      } else {
        assert p + r[0] == p;
        assert [p] + parts[1..] == parts;
      }
    }
  }

  /** Reads one record: its fields, cut at commas outside quotes, each unescaped. */
  function ParseRecord(record: string): seq<string> {
    var fields := SplitOutside(record, ',', false);
    seq(|fields|, j requires 0 <= j < |fields| => UnescapeField(fields[j]))
  }

  /** An RFC 4180 reader for the export: records at line feeds, fields at commas, then unescape. */
  function ParseCsv(csv: string): seq<seq<string>> {
    var records := SplitOutside(csv, '\n', false);
    seq(|records|, i requires 0 <= i < |records| => ParseRecord(records[i]))
  }

  /** The texts of a row's cells, in order. */
  function CellTexts(cells: seq<Cell>): seq<string> {
    seq(|cells|, j requires 0 <= j < |cells| => CellText(cells[j]))
  }

  /** The texts a table stands for: the column names, then each row's cell texts. */
  function TableTexts(table: ResultTable): seq<seq<string>> {
    [table.dataSchema.columnNames]
      + seq(|table.rows|, i requires 0 <= i < |table.rows| => CellTexts(table.rows[i]))
  }

  /** A row's fields are read back as its cell texts. */
  lemma RowRoundTrip(cells: seq<Cell>)
    requires |cells| >= 1
    ensures ParseRecord(CsvRow(cells)) == CellTexts(cells)
  {
    var fields := EscapedFields(cells);
    forall i | 0 <= i < |fields| ensures Sealed(fields[i], ',') {
      EscapedFieldSealed(cells[i], ',');
    }
    SplitOutsideJoin(fields, ',');
    forall j | 0 <= j < |cells| ensures UnescapeField(fields[j]) == CellText(cells[j]) {
      UnescapeEscape(cells[j]);
    }
  }

  /**
   * Reading the export back yields the column names and every cell's text,
   * provided each record has at least one field (a record of zero fields is
   * the empty line, which reads back as one empty field).
   */
  lemma CsvRoundTrip(table: ResultTable)
    requires |table.dataSchema.columnNames| >= 1
    requires forall i :: 0 <= i < |table.rows| ==> |table.rows[i]| >= 1
    ensures ParseCsv(ConvertToCsv(table)) == TableTexts(table)
  {
    var records := CsvRecords(table);
    RecordsSealed(table);
    SplitOutsideJoin(records, '\n');
    var parsed := ParseCsv(ConvertToCsv(table));
    var texts := TableTexts(table);
    assert |parsed| == |texts|;
    forall i | 0 <= i < |parsed| ensures parsed[i] == texts[i] {
      if i == 0 {
        var cells := HeaderCells(table);
        assert records[0] == CsvRow(cells);
        RowRoundTrip(cells);
        assert CellTexts(cells) == table.dataSchema.columnNames;
      } else {
        var cells := table.rows[i - 1];
        assert records[i] == CsvRow(cells);
        RowRoundTrip(cells);
      }
    }
  }

  /** With no line feed in any name or cell, the export has exactly |rows| + 1 lines. */
  lemma LineCount(table: ResultTable)
    requires forall name :: name in table.dataSchema.columnNames ==> '\n' !in name
    requires forall i, j :: 0 <= i < |table.rows| && 0 <= j < |table.rows[i]| ==> '\n' !in CellText(table.rows[i][j])
    ensures |Split(ConvertToCsv(table), "\n")| == |table.rows| + 1
  {
    var records := CsvRecords(table);
    forall r, k | r in records && 0 <= k < |r| ensures r[k] != '\n' {
      var i :| 0 <= i < |records| && records[i] == r;
      var cells := if i == 0 then HeaderCells(table) else table.rows[i - 1];
      assert r == CsvRow(cells);
      forall j | 0 <= j < |cells| ensures '\n' !in EscapeCsv(cells[j]) {
        assert '\n' !in CellText(cells[j]) by {
          if i == 0 { assert CellText(cells[j]) == table.dataSchema.columnNames[j]; }
        }
        NoLineFeedEscaped(cells[j]);
      }
      NoCharInJoin(EscapedFields(cells), ",", '\n');
    }
    SplitJoin(records, "\n");
  }

  lemma {:induction false} NoCharDoubled(s: string, ch: char)
    requires ch != '"' && ch !in s
    ensures ch !in DoubleQuotes(s)
    decreases |s|
  {
    if s != [] {
      assert forall c :: c in s[1..] ==> c in s;
      NoCharDoubled(s[1..], ch);
    }
  }

  lemma NoLineFeedEscaped(c: Cell)
    requires '\n' !in CellText(c)
    ensures '\n' !in EscapeCsv(c)
  {
    if c.Text? && NeedsQuoting(c.text) {
      NoCharDoubled(c.text, '\n');
    }
  }

  lemma {:induction false} NoCharInJoin(parts: seq<string>, sep: string, ch: char)
    requires ch !in sep
    requires forall i :: 0 <= i < |parts| ==> ch !in parts[i]
    ensures ch !in Join(parts, sep)
    decreases |parts|
  {
    if |parts| > 1 {
      NoCharInJoin(parts[1..], sep, ch);
    }
  }

  // ---------------------------------------------------------------------
  // The size/latency badge.
  // ---------------------------------------------------------------------

  const OneMiB: int := 1024 * 1024
  const ThirtyTwoMiB: int := 32 * 1024 * 1024
  const OneSecondMs: int := 1000
  const TenSecondsMs: int := 10000

  datatype StatusColor = Green | Yellow | Red

  /** `getStatusColor(sizeBytes, latencyMs)`, as the colour it picks. */
  function StatusColorFor(sizeBytes: int, latencyMs: int): (c: StatusColor)
    ensures c == Green <==> sizeBytes < OneMiB && latencyMs < OneSecondMs
    ensures c == Yellow <==>
      !(sizeBytes < OneMiB && latencyMs < OneSecondMs) && sizeBytes < ThirtyTwoMiB && latencyMs < TenSecondsMs
    ensures c == Red <==> sizeBytes >= ThirtyTwoMiB || latencyMs >= TenSecondsMs
  {
    if sizeBytes < OneMiB && latencyMs < OneSecondMs then Green
    else if sizeBytes < ThirtyTwoMiB && latencyMs < TenSecondsMs then Yellow
    else Red
  }

  /** The Tailwind classes `getStatusColor` returns for each colour. */
  function ClassName(c: StatusColor): string {
    match c
    case Green => "text-green-600 dark:text-green-400"
    case Yellow => "text-yellow-600 dark:text-yellow-400"
    case Red => "text-red-600 dark:text-red-400"
  }

  function Severity(c: StatusColor): nat {
    match c
    case Green => 0
    case Yellow => 1
    case Red => 2
  }

  /** A bigger or slower response never gets a better colour. */
  lemma StatusColorMonotonic(size1: int, latency1: int, size2: int, latency2: int)
    requires size1 <= size2 && latency1 <= latency2
    ensures Severity(StatusColorFor(size1, latency1)) <= Severity(StatusColorFor(size2, latency2))
  {
  }

  /** The three class strings are distinct, so the colour can be read back from the class. */
  lemma ClassNameInjective(c1: StatusColor, c2: StatusColor)
    requires ClassName(c1) == ClassName(c2)
    ensures c1 == c2
  {
  }
}
