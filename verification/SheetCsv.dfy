/**
 Layered sheets and their CSV text: a cell of four layers is one bundle with backslash
 escapes, and bundles are fields of a CSV text with doubled quotes.
 */
module SheetCsv {
  import opened Basics

  const DELIMITER: char := '␟'
  const BACKSLASH: char := '\\'
  const QUOTE: char := '"'

  datatype Cell = Cell(value: string, procedure: string, period: string, source: string)

  const EMPTY_CELL: Cell := Cell("", "", "", "")

  type Rows = seq<seq<Cell>>

  // ---------- text helpers ----------

  /** `text.replaceAll(c, put)`. */
  function ReplaceAll(text: string, c: char, put: string): string {
    if text == "" then "" else (if text[0] == c then put else text[..1]) + ReplaceAll(text[1..], c, put)
  }

  function Map<A, B>(f: A -> B, items: seq<A>): (r: seq<B>)
    ensures |r| == |items| && forall i :: 0 <= i < |items| ==> r[i] == f(items[i])
  {
    seq(|items|, i requires 0 <= i < |items| => f(items[i]))
  }

  // ---------- layer bundles ----------

  function EscapeLayer(text: string): string {
    ReplaceAll(ReplaceAll(text, BACKSLASH, [BACKSLASH, BACKSLASH]), DELIMITER, [BACKSLASH, DELIMITER])
  }

  function EncodeBundle(cell: Cell): string {
    Join([EscapeLayer(cell.value), EscapeLayer(cell.procedure), EscapeLayer(cell.period), EscapeLayer(cell.source)],
      [DELIMITER])
  }

  /** The parts of a bundle, given the part read so far and whether a backslash is pending. */
  function Parts(text: string, field: string, escaped: bool): (parts: seq<string>)
    ensures parts != []
  {
    if text == "" then [if escaped then field + [BACKSLASH] else field]
    else
      var c, rest := text[0], text[1..];
      if escaped then Parts(rest, field + (if c == BACKSLASH || c == DELIMITER then [c] else [BACKSLASH, c]), false)
      else if c == BACKSLASH then Parts(rest, field, true)
      else if c == DELIMITER then [field] + Parts(rest, "", false)
      else Parts(rest, field + [c], false)
  }

  method SplitEscapedBundle(value: string) returns (parts: seq<string>)
    ensures parts == Parts(value, "", false)
  {
    parts := [];
    var field := "";
    var escaped := false;
    for i := 0 to |value|
      invariant parts + Parts(value[i..], field, escaped) == Parts(value, "", false)
    {
      var ch := value[i];
      assert value[i..][1..] == value[i + 1..];
      if escaped {
        field := field + if ch == BACKSLASH || ch == DELIMITER then [ch] else [BACKSLASH, ch];
        escaped := false;
        continue;
      }
      if ch == BACKSLASH {
        escaped := true;
      } else if ch == DELIMITER {
        parts := parts + [field];
        field := "";
      } else {
        field := field + [ch];
      }
    }
    if escaped {
      field := field + [BACKSLASH];
    }
    parts := parts + [field];
  }

  function PartOr(parts: seq<string>, i: nat): string { if i < |parts| then parts[i] else "" }

  /** What a bundle means: plain text is a value; surplus parts belong to the source layer. */
  function DecodeBundle(value: string): Cell {
    if DELIMITER !in value then Cell(value, "", "", "")
    else
      var parts := Parts(value, "", false);
      Cell(PartOr(parts, 0), PartOr(parts, 1), PartOr(parts, 2),
           if |parts| > 4 then Join(parts[3..], [DELIMITER]) else PartOr(parts, 3))
  }

  /** Escaping, one character at a time. */
  function EscapedChars(text: string): string {
    if text == "" then ""
    else (if text[0] == BACKSLASH || text[0] == DELIMITER then [BACKSLASH, text[0]] else text[..1])
          + EscapedChars(text[1..])
  }

  lemma ReplaceStep(text: string, c: char, put: string)
    ensures ReplaceAll(text, c, put) ==
            if text == "" then "" else (if text[0] == c then put else text[..1]) + ReplaceAll(text[1..], c, put)
  {}

  lemma {:induction false} ReplaceAppend(a: string, b: string, c: char, put: string)
    ensures ReplaceAll(a + b, c, put) == ReplaceAll(a, c, put) + ReplaceAll(b, c, put)
  {
    hide ReplaceAll;
    ReplaceStep(a, c, put);
    ReplaceStep(a + b, c, put);
    if a == "" {
      assert a + b == b;
    } else {
      ReplaceAppend(a[1..], b, c, put);
      Regrouped(if a[0] == c then put else a[..1], ReplaceAll(a[1..], c, put), ReplaceAll(b, c, put));
      assert (a + b)[1..] == a[1..] + b && (a + b)[..1] == a[..1];
    }
  }

  lemma {:induction false} EscapeLayerChars(text: string)
    ensures EscapeLayer(text) == EscapedChars(text)
  {
    if text != "" {
      var head := if text[0] == BACKSLASH then [BACKSLASH, BACKSLASH] else text[..1];
      EscapeLayerChars(text[1..]);
      ReplaceAppend(head, ReplaceAll(text[1..], BACKSLASH, [BACKSLASH, BACKSLASH]), DELIMITER, [BACKSLASH, DELIMITER]);
      assert head[1..] == (if text[0] == BACKSLASH then [BACKSLASH] else "");
      assert [BACKSLASH][1..] == "" && [BACKSLASH][..1] == [BACKSLASH];
    }
  }

  /** Reading an escaped layer adds exactly its text to the field. */
  lemma {:induction false} ReadEscaped(text: string, rest: string, field: string)
    ensures Parts(EscapedChars(text) + rest, field, false) == Parts(rest, field + text, false)
  {
    hide Parts;
    if text == "" {
      assert EscapedChars(text) + rest == rest && field + text == field;
    } else {
      var c, tail := text[0], EscapedChars(text[1..]) + rest;
      ReadEscaped(text[1..], rest, field + [c]);
      assert field + [c] + text[1..] == field + text;
      if c == BACKSLASH || c == DELIMITER {
        assert EscapedChars(text) + rest == [BACKSLASH, c] + tail;
      } else {
        assert EscapedChars(text) + rest == [c] + tail;
      }
      ReadOneEscaped(c, tail, field);
    }
  }

  lemma ReadOneEscaped(c: char, tail: string, field: string)
    ensures c == BACKSLASH || c == DELIMITER ==>
            Parts([BACKSLASH, c] + tail, field, false) == Parts(tail, field + [c], false)
    ensures c != BACKSLASH && c != DELIMITER ==> Parts([c] + tail, field, false) == Parts(tail, field + [c], false)
  {
    assert ([BACKSLASH, c] + tail)[1..] == [c] + tail && ([c] + tail)[1..] == tail;
  }

  lemma ReadLayer(text: string, rest: string)
    ensures Parts(EscapeLayer(text) + [DELIMITER] + rest, "", false) == [text] + Parts(rest, "", false)
    ensures Parts(EscapeLayer(text), "", false) == [text]
  {
    EscapeLayerChars(text);
    ReadEscaped(text, [DELIMITER] + rest, "");
    ReadEscaped(text, "", "");
    assert EscapedChars(text) + "" == EscapedChars(text) && "" + text == text;
    assert EscapedChars(text) + ([DELIMITER] + rest) == EscapeLayer(text) + [DELIMITER] + rest;
    assert ([DELIMITER] + rest)[1..] == rest;
  }

  /** A cell survives its bundle, whatever its layers hold. */
  lemma BundleRoundTrip(cell: Cell)
    ensures DecodeBundle(EncodeBundle(cell)) == cell
    ensures EncodeBundle(cell) != ""
  {
    var p, s := EscapeLayer(cell.period), EscapeLayer(cell.source);
    var last := p + [DELIMITER] + s;
    var middle := EscapeLayer(cell.procedure) + [DELIMITER] + last;
    var all := EscapeLayer(cell.value) + [DELIMITER] + middle;
    JoinTwo(p, s);
    JoinMore(EscapeLayer(cell.procedure), [p, s]);
    JoinMore(EscapeLayer(cell.value), [EscapeLayer(cell.procedure), p, s]);
    assert EncodeBundle(cell) == all;
    assert all[|EscapeLayer(cell.value)|] == DELIMITER;
    ReadLayer(cell.value, middle);
    ReadLayer(cell.procedure, last);
    ReadLayer(cell.period, s);
    ReadLayer(cell.source, "");
    assert Parts(all, "", false) == [cell.value, cell.procedure, cell.period, cell.source];
  }

  lemma JoinTwo(a: string, b: string)
    ensures Join([a, b], [DELIMITER]) == a + [DELIMITER] + b
  {
    assert [a, b][1..] == [b];
  }

  lemma JoinMore(a: string, rest: seq<string>)
    requires rest != []
    ensures Join([a] + rest, [DELIMITER]) == a + [DELIMITER] + Join(rest, [DELIMITER])
  {
    assert ([a] + rest)[1..] == rest;
  }

  // ---------- CSV ----------

  predicate NeedsQuotes(text: string) {
    exists i :: 0 <= i < |text| && text[i] in "\",\n\r"
  }

  function EscapeField(text: string): string {
    if NeedsQuotes(text) then [QUOTE] + ReplaceAll(text, QUOTE, [QUOTE, QUOTE]) + [QUOTE] else text
  }

  function RowText(row: seq<string>): string { Join(Map(EscapeField, row), ",") }

  function StringifyCsv(rows: seq<seq<string>>): string { Join(Map(RowText, rows), "\n") }

  /** The parser's state: finished rows, the open row, the open field, and whether inside quotes. */
  datatype Reading = Reading(rows: seq<seq<string>>, row: seq<string>, field: string, insideQuotes: bool)
  {
    function Put(c: char): Reading { this.(field := field + [c]) }

    function EndField(): Reading { this.(row := row + [field], field := "") }

    function EndRow(): Reading { this.(rows := rows + [row + [field]], row := [], field := "") }
  }

  function Read(text: string, s: Reading): Reading
    decreases |text|
  {
    if text == "" then s
    else
      var c := text[0];
      var next := if |text| > 1 then Some(text[1]) else None;
      if s.insideQuotes then
        if c == QUOTE && next == Some(QUOTE) then Read(text[2..], s.Put(QUOTE))
        else if c == QUOTE then Read(text[1..], s.(insideQuotes := false))
        else Read(text[1..], s.Put(c))
      else if c == QUOTE then Read(text[1..], s.(insideQuotes := true))
      else if c == ',' then Read(text[1..], s.EndField())
      else if c == '\n' then Read(text[1..], s.EndRow())
      else if c == '\r' then Read(text[1..], if next == Some('\n') then s else s.EndRow())
      else Read(text[1..], s.Put(c))
  }

  const START: Reading := Reading([], [], "", false)

  function ParseCsv(text: string): seq<seq<string>> {
    var rows := Read(text, START).EndRow().rows;
    if text == "" || rows == [[""]] then [] else rows
  }

  method ParseCsvText(source: string) returns (result: seq<seq<string>>)
    ensures result == ParseCsv(source)
  {
    if |source| == 0 { return []; }
    var rows: seq<seq<string>> := [];
    var row: seq<string> := [];
    var field := "";
    var insideQuotes := false;
    var index := 0;
    assert source[0..] == source;
    while index < |source|
      invariant index <= |source|
      invariant Read(source[index..], Reading(rows, row, field, insideQuotes)) == Read(source, START)
    {
      var rest := source[index..];
      assert rest[1..] == source[index + 1..];
      var ch := source[index];
      var next := if index + 1 < |source| then Some(source[index + 1]) else None;
      index := index + 1;
      if insideQuotes {
        if ch == QUOTE && next == Some(QUOTE) {
          assert rest[2..] == source[index + 1..];
          field := field + [QUOTE];
          index := index + 1;
        } else if ch == QUOTE {
          insideQuotes := false;
        } else {
          field := field + [ch];
        }
        continue;
      }
      if ch == QUOTE {
        insideQuotes := true;
      } else if ch == ',' {
        row := row + [field];
        field := "";
      } else if ch == '\n' {
        rows, row, field := rows + [row + [field]], [], "";
      } else if ch == '\r' {
        if next == Some('\n') { continue; }
        rows, row, field := rows + [row + [field]], [], "";
      } else {
        field := field + [ch];
      }
    }
    rows := rows + [row + [field]];
    result := if rows == [[""]] then [] else rows;
  }

  /** A text that starts a new field, a new row, or is over. */
  predicate AtBreak(rest: string) { rest == "" || rest[0] == ',' || rest[0] == '\n' || rest[0] == '\r' }

  lemma {:induction false} ReadPlain(text: string, rest: string, s: Reading)
    requires !s.insideQuotes && forall i :: 0 <= i < |text| ==> text[i] !in "\",\n\r"
    ensures Read(text + rest, s) == Read(rest, s.(field := s.field + text))
  {
    if text == "" {
      assert text + rest == rest && s.field + text == s.field;
    } else {
      assert text[0] !in "\",\n\r";
      assert (text + rest)[1..] == text[1..] + rest;
      ReadPlain(text[1..], rest, s.Put(text[0]));
      assert s.field + [text[0]] + text[1..] == s.field + text;
    }
  }

  lemma {:induction false} ReadQuoted(text: string, rest: string, s: Reading)
    requires s.insideQuotes && (rest == "" || rest[0] != QUOTE)
    ensures Read(ReplaceAll(text, QUOTE, [QUOTE, QUOTE]) + [QUOTE] + rest, s)
            == Read(rest, s.(field := s.field + text, insideQuotes := false))
  {
    var all := ReplaceAll(text, QUOTE, [QUOTE, QUOTE]) + [QUOTE] + rest;
    if text == "" {
      assert all == [QUOTE] + rest && all[1..] == rest && s.field + text == s.field;
    } else {
      var tail := ReplaceAll(text[1..], QUOTE, [QUOTE, QUOTE]) + [QUOTE] + rest;
      ReadQuoted(text[1..], rest, s.Put(text[0]));
      assert s.field + [text[0]] + text[1..] == s.field + text;
      if text[0] == QUOTE {
        assert all[..2] == [QUOTE, QUOTE] && all[2..] == tail;
      } else {
        assert all[0] == text[0] && all[1..] == tail;
      }
    }
  }

  /** A printed field is read back as the field. */
  lemma ReadField(text: string, rest: string, s: Reading)
    requires !s.insideQuotes && s.field == "" && AtBreak(rest)
    ensures Read(EscapeField(text) + rest, s) == Read(rest, s.(field := text))
  {
    if NeedsQuotes(text) {
      var body := ReplaceAll(text, QUOTE, [QUOTE, QUOTE]) + [QUOTE] + rest;
      assert EscapeField(text) + rest == [QUOTE] + body && ([QUOTE] + body)[1..] == body;
      ReadQuoted(text, rest, s.(insideQuotes := true));
    } else {
      ReadPlain(text, rest, s);
    }
    assert "" + text == text;
  }

  lemma {:induction false} ReadRow(row: seq<string>, rest: string, s: Reading)
    requires row != [] && !s.insideQuotes && s.field == "" && (rest == "" || rest[0] == '\n' || rest[0] == '\r')
    ensures Read(RowText(row) + rest, s) == Read(rest, s.(row := s.row + row[..|row| - 1], field := row[|row| - 1]))
  {
    hide Read, RowText, EscapeField;
    if |row| == 1 {
      OneFieldText(row[0]);
      assert row == [row[0]];
      ReadField(row[0], rest, s);
      assert s.row + row[..0] == s.row;
    } else {
      var tail := RowText(row[1..]) + rest;
      ManyFieldsText(row, rest);
      ReadField(row[0], "," + tail, s);
      ReadComma(tail, s.(field := row[0]));
      ReadRow(row[1..], rest, s.(field := row[0]).EndField());
      assert s.row + [row[0]] + row[1..][..|row| - 2] == s.row + row[..|row| - 1];
    }
  }

  lemma OneFieldText(text: string)
    ensures RowText([text]) == EscapeField(text)
  {
    hide EscapeField;
  }

  lemma ManyFieldsText(row: seq<string>, rest: string)
    requires |row| > 1
    ensures RowText(row) + rest == EscapeField(row[0]) + ("," + (RowText(row[1..]) + rest))
  {
    hide EscapeField;
    assert Map(EscapeField, row)[1..] == Map(EscapeField, row[1..]);
  }

  lemma ReadComma(tail: string, s: Reading)
    requires !s.insideQuotes
    ensures Read("," + tail, s) == Read(tail, s.EndField())
  {
    assert ("," + tail)[1..] == tail;
  }

  lemma {:induction false} ReadRows(rows: seq<seq<string>>, s: Reading)
    requires rows != [] && (forall i :: 0 <= i < |rows| ==> rows[i] != [])
    requires !s.insideQuotes && s.field == "" && s.row == []
    ensures Read(StringifyCsv(rows), s).EndRow().rows == s.rows + rows
  {
    hide Read, RowText, StringifyCsv;
    var row := rows[0];
    var t := s.(row := [] + row[..|row| - 1], field := row[|row| - 1]);
    RowEnds(row, s, t);
    if |rows| == 1 {
      OneRowText(row);
      assert rows == [row];
      ReadRow(row, "", s);
      ReadNothing(t);
    } else {
      var tail := StringifyCsv(rows[1..]);
      ManyRowsText(rows);
      ReadRow(row, "\n" + tail, s);
      ReadLineBreak(tail, t);
      ReadRows(rows[1..], t.EndRow());
      assert s.rows + [row] + rows[1..] == s.rows + rows;
    }
  }

  lemma RowEnds(row: seq<string>, s: Reading, t: Reading)
    requires row != [] && t == s.(row := [] + row[..|row| - 1], field := row[|row| - 1])
    ensures t.EndRow() == s.(rows := s.rows + [row], row := [], field := "")
  {
    assert [] + row[..|row| - 1] + [row[|row| - 1]] == row;
  }

  lemma OneRowText(row: seq<string>)
    ensures StringifyCsv([row]) == RowText(row) + ""
  {
    assert RowText(row) + "" == RowText(row);
  }

  lemma ManyRowsText(rows: seq<seq<string>>)
    requires |rows| > 1
    ensures StringifyCsv(rows) == RowText(rows[0]) + ("\n" + StringifyCsv(rows[1..]))
  {
    hide RowText;
    assert Map(RowText, rows)[1..] == Map(RowText, rows[1..]);
  }

  lemma ReadNothing(s: Reading)
    ensures Read("", s) == s
  {}

  lemma ReadLineBreak(tail: string, s: Reading)
    requires !s.insideQuotes
    ensures Read("\n" + tail, s) == Read(tail, s.EndRow())
  {
    assert ("\n" + tail)[1..] == tail;
  }

  ghost predicate AllFilled(rows: seq<seq<string>>) { forall i :: 0 <= i < |rows| ==> rows[i] != [] }

  /** Every parsed row has a field. */
  lemma {:induction false} ReadRowsFilled(text: string, s: Reading)
    requires AllFilled(s.rows)
    ensures AllFilled(Read(text, s).rows) && AllFilled(Read(text, s).EndRow().rows)
    decreases |text|
  {
    if text != "" {
      var c := text[0];
      var next := if |text| > 1 then Some(text[1]) else None;
      if s.insideQuotes {
        if c == QUOTE && next == Some(QUOTE) { ReadRowsFilled(text[2..], s.Put(QUOTE)); }
        else if c == QUOTE { ReadRowsFilled(text[1..], s.(insideQuotes := false)); }
        else { ReadRowsFilled(text[1..], s.Put(c)); }
      } else if c == QUOTE { ReadRowsFilled(text[1..], s.(insideQuotes := true)); }
      else if c == ',' { ReadRowsFilled(text[1..], s.EndField()); }
      else if c == '\n' { ReadRowsFilled(text[1..], s.EndRow()); }
      else if c == '\r' { ReadRowsFilled(text[1..], if next == Some('\n') then s else s.EndRow()); }
      else { ReadRowsFilled(text[1..], s.Put(c)); }
    }
  }

  /** Printing and parsing give the rows back exactly when no row is empty and they are not one empty field. */
  lemma CsvRoundTrip(rows: seq<seq<string>>)
    ensures ParseCsv(StringifyCsv(rows)) == rows <==> [] !in rows && rows != [[""]]
  {
    if [] !in rows {
      if rows != [] {
        ReadRows(rows, START);
        assert START.rows + rows == rows;
        if StringifyCsv(rows) == "" { EmptyText(rows); }
      }
    } else {
      ReadRowsFilled(StringifyCsv(rows), START);
      assert AllFilled(ParseCsv(StringifyCsv(rows)));
    }
  }

  lemma EmptyText(rows: seq<seq<string>>)
    requires StringifyCsv(rows) == "" && rows != [] && [] !in rows
    ensures rows == [[""]]
  {
    ReadRows(rows, START);
    var none: seq<string> := [];
    assert none + [""] == [""] && Read("", START) == START;
    assert START.rows + rows == rows && START.rows + [[""]] == [[""]];
  }

  // ---------- whole sheets ----------

  function MaxLength(rows: Rows): nat {
    if rows == [] then 0
    else
      var before := MaxLength(rows[..|rows| - 1]);
      if |rows[|rows| - 1]| > before then |rows[|rows| - 1]| else before
  }

  function Padded(row: seq<Cell>, width: nat): (r: seq<Cell>)
    ensures |r| == if |row| > width then |row| else width
    ensures forall i :: 0 <= i < |r| ==> r[i] == if i < |row| then row[i] else EMPTY_CELL
  {
    row + if |row| < width then seq(width - |row|, _ => EMPTY_CELL) else []
  }

  /** At least one row and one column, every row as long as the longest. */
  function EnsureRectangular(rows: Rows): Rows {
    var width := MaxLength(rows);
    PaddedRows(if rows == [] then [[]] else rows, if width == 0 then 1 else width)
  }

  function PaddedRows(rows: Rows, width: nat): (r: Rows)
    ensures |r| == |rows| && forall i :: 0 <= i < |rows| ==> r[i] == Padded(rows[i], width)
  {
    Map(row => Padded(row, width), rows)
  }

  function Encoded(rows: Rows): (r: seq<seq<string>>)
    ensures |r| == |rows| && forall i :: 0 <= i < |rows| ==> r[i] == Map(EncodeBundle, rows[i])
  {
    Map(row => Map(EncodeBundle, row), rows)
  }

  function Decoded(fields: seq<seq<string>>): (r: Rows)
    ensures |r| == |fields| && forall i :: 0 <= i < |fields| ==> r[i] == Map(DecodeBundle, fields[i])
  {
    Map(row => Map(DecodeBundle, row), fields)
  }

  function ExportSheet(rows: Rows): string { StringifyCsv(Encoded(PaddedRows(rows, MaxLength(rows)))) }

  function ImportSheet(text: string): Rows {
    var parsed := ParseCsv(text);
    EnsureRectangular(if parsed == [] then [[EMPTY_CELL]] else Decoded(parsed))
  }

  method ImportCsvToSheet(text: string) returns (rows: Rows)
    ensures rows == ImportSheet(text)
  {
    var parsed := ParseCsvText(text);
    rows := EnsureRectangular(if parsed == [] then [[EMPTY_CELL]] else Decoded(parsed));
  }

  lemma {:induction false} MaxLengthBounds(rows: Rows)
    ensures forall i :: 0 <= i < |rows| ==> |rows[i]| <= MaxLength(rows)
  {
    if rows != [] {
      MaxLengthBounds(rows[..|rows| - 1]);
      assert rows == rows[..|rows| - 1] + [rows[|rows| - 1]];
    }
  }

  lemma {:induction false} MaxLengthOfEqual(rows: Rows, width: nat)
    requires rows != [] && forall i :: 0 <= i < |rows| ==> |rows[i]| == width
    ensures MaxLength(rows) == width
  {
    if |rows| > 1 { MaxLengthOfEqual(rows[..|rows| - 1], width); }
  }

  lemma AlreadyRectangular(rows: Rows, width: nat)
    requires rows != [] && width >= 1 && forall i :: 0 <= i < |rows| ==> |rows[i]| == width
    ensures EnsureRectangular(rows) == rows
  {
    MaxLengthOfEqual(rows, width);
    assert forall i :: 0 <= i < |rows| ==> Padded(rows[i], width) == rows[i];
  }

  /** What the parser reads from an exported sheet with columns is the fields that were printed. */
  lemma ExportedFields(rows: Rows)
    requires MaxLength(rows) >= 1
    ensures var padded := PaddedRows(rows, MaxLength(rows));
            ParseCsv(ExportSheet(rows)) == Encoded(padded) && Decoded(Encoded(padded)) == padded
  {
    var padded := PaddedRows(rows, MaxLength(rows));
    var fields := Encoded(padded);
    MaxLengthBounds(rows);
    forall i | 0 <= i < |rows|
      ensures fields[i] != [] && fields[i] != [""] && Map(DecodeBundle, fields[i]) == padded[i]
    {
      BundledRow(padded[i]);
    }
    CsvRoundTrip(fields);
  }

  function BlankFields(n: nat): (fields: seq<seq<string>>)
    ensures |fields| == n && forall i :: 0 <= i < n ==> fields[i] == [""]
  {
    seq(n, _ => [""])
  }

  /** Without columns it is one blank line per row; a single blank line reads as nothing. */
  lemma ExportedBlanks(rows: Rows)
    requires rows != [] && MaxLength(rows) == 0
    ensures ParseCsv(ExportSheet(rows)) == if |rows| == 1 then [] else BlankFields(|rows|)
  {
    MaxLengthBounds(rows);
    BlankRows(Encoded(PaddedRows(rows, 0)));
  }

  lemma BlankCells(rows: Rows)
    requires MaxLength(rows) == 0
    ensures Decoded(BlankFields(|rows|)) == PaddedRows(rows, 1)
    ensures forall i :: 0 <= i < |rows| ==> Padded(rows[i], 1) == [EMPTY_CELL]
  {
    MaxLengthBounds(rows);
    assert Map(DecodeBundle, [""]) == [EMPTY_CELL] && Padded([], 1) == [EMPTY_CELL];
    forall i | 0 <= i < |rows| ensures Padded(rows[i], 1) == [EMPTY_CELL] { assert rows[i] == []; }
  }

  /** A row of bundles is never one empty field, and decodes to its cells. */
  lemma BundledRow(row: seq<Cell>)
    requires row != []
    ensures Map(EncodeBundle, row) != [""] && Map(DecodeBundle, Map(EncodeBundle, row)) == row
  {
    forall j | 0 <= j < |row| ensures DecodeBundle(EncodeBundle(row[j])) == row[j] && EncodeBundle(row[j]) != "" {
      BundleRoundTrip(row[j]);
    }
    assert Map(EncodeBundle, row)[0] != "";
  }

  /**
   Rows without fields print as blank lines, which are read as rows of one empty field; one of them
   reads as nothing.
   */
  lemma BlankRows(fields: seq<seq<string>>)
    requires fields != [] && forall i :: 0 <= i < |fields| ==> fields[i] == []
    ensures ParseCsv(StringifyCsv(fields)) == if |fields| == 1 then [] else BlankFields(|fields|)
  {
    var blank: seq<seq<string>> := BlankFields(|fields|);
    assert RowText([]) == RowText([""]) by { assert Map(EscapeField, [""]) == [""]; }
    assert Map(RowText, fields) == Map(RowText, blank);
    ReadRows(blank, START);
    assert START.rows + blank == blank;
    if |fields| > 1 {
      assert blank[1] == [""];
      if StringifyCsv(blank) == "" { EmptyText(blank); }
    }
  }

  /** For every sheet: importing its export gives the same cells, squared up. */
  lemma SheetRoundTrip(rows: Rows)
    ensures ImportSheet(ExportSheet(rows)) == EnsureRectangular(rows)
  {
    var width := MaxLength(rows);
    AlreadyRectangular([[EMPTY_CELL]], 1);
    assert Padded([], 1) == [EMPTY_CELL];
    if rows == [] {
      assert PaddedRows([[]], 1) == [[EMPTY_CELL]];
    } else {
      MaxLengthBounds(rows);
      AlreadyRectangular(EnsureRectangular(rows), if width == 0 then 1 else width);
      if width == 0 {
        ExportedBlanks(rows);
        BlankCells(rows);
        if |rows| == 1 { assert PaddedRows(rows, 1) == [[EMPTY_CELL]]; }
      } else {
        ExportedFields(rows);
      }
    }
  }
}
