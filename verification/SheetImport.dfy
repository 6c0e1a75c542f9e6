/** What any CSV text is read as, not only the texts that sheets are exported to. */
module SheetImport {
  import opened Basics
  import opened SheetCsv

  // ---------- the text of plain fields ----------

  predicate IsPlain(text: string) {
    '"' !in text && ',' !in text && '\n' !in text && '\r' !in text
  }

  /** The parts of a text between the separators. */
  function SplitAt(text: string, c: char): (parts: seq<string>)
    ensures parts != []
  {
    if text == "" then [""]
    else if text[0] == c then [""] + SplitAt(text[1..], c)
    else
      var parts := SplitAt(text[1..], c);
      [text[..1] + parts[0]] + parts[1..]
  }

  lemma {:induction false} SplitFirst(first: string, rest: string, c: char)
    requires c !in first
    ensures SplitAt(first, c) == [first]
    ensures SplitAt(first + [c] + rest, c) == [first] + SplitAt(rest, c)
  {
    hide SplitAt;
    var all := first + [c] + rest;
    SplitStep(first, c);
    SplitStep(all, c);
    if first == "" {
      assert all == [c] + rest && all[1..] == rest;
    } else {
      SplitFirst(first[1..], rest, c);
      assert all[1..] == first[1..] + [c] + rest && all[..1] == first[..1];
      assert first[..1] + first[1..] == first;
    }
  }

  lemma SplitStep(text: string, c: char)
    ensures SplitAt(text, c)
            == if text == "" then [""]
               else if text[0] == c then [""] + SplitAt(text[1..], c)
               else [text[..1] + SplitAt(text[1..], c)[0]] + SplitAt(text[1..], c)[1..]
  {}

  lemma {:induction false} SplitJoined(parts: seq<string>, c: char)
    requires parts != [] && forall i :: 0 <= i < |parts| ==> c !in parts[i]
    ensures SplitAt(Join(parts, [c]), c) == parts
  {
    hide SplitAt, Join;
    JoinStep(parts, [c]);
    if |parts| == 1 {
      SplitFirst(parts[0], "", c);
    } else {
      SplitJoined(parts[1..], c);
      SplitFirst(parts[0], Join(parts[1..], [c]), c);
    }
  }

  lemma JoinStep(parts: seq<string>, separator: string)
    requires parts != []
    ensures Join(parts, separator)
            == if |parts| == 1 then parts[0] else parts[0] + separator + Join(parts[1..], separator)
  {}

  /** A field is printed as it is exactly when it holds no quote, comma or line break; otherwise it is quoted. */
  lemma FieldText(text: string)
    ensures EscapeField(text) == text <==> IsPlain(text)
    ensures !IsPlain(text) ==>
            |EscapeField(text)| > |text| && EscapeField(text)[0] == '"' == EscapeField(text)[|EscapeField(text)| - 1]
  {
    assert NeedsQuotes(text) <==> !IsPlain(text) by {
      if NeedsQuotes(text) {
        var i :| 0 <= i < |text| && text[i] in "\",\n\r";
        assert text[i] in text;
      }
      if c: char :| c in text && c in "\",\n\r" {
        var i :| 0 <= i < |text| && text[i] == c;
      }
    }
    if NeedsQuotes(text) { DoublingLengthens(text); }
  }

  lemma {:induction false} DoublingLengthens(text: string)
    ensures |ReplaceAll(text, QUOTE, [QUOTE, QUOTE])| >= |text|
  {
    if text != "" { DoublingLengthens(text[1..]); }
  }

  lemma {:induction false} JoinedWithout(parts: seq<string>, separator: string, c: char)
    requires c !in separator && forall i :: 0 <= i < |parts| ==> c !in parts[i]
    ensures c !in Join(parts, separator)
  {
    if |parts| > 1 { JoinedWithout(parts[1..], separator, c); }
  }

  /** Plain fields are printed with commas between the fields of a row and line feeds between the rows. */
  lemma PlainText(rows: seq<seq<string>>)
    requires rows != [] && forall i :: 0 <= i < |rows| ==>
               rows[i] != [] && forall j :: 0 <= j < |rows[i]| ==> IsPlain(rows[i][j])
    ensures var lines := SplitAt(StringifyCsv(rows), '\n');
            |lines| == |rows| && forall i :: 0 <= i < |rows| ==> SplitAt(lines[i], ',') == rows[i]
  {
    hide IsPlain, EscapeField, SplitAt, Join;
    forall i | 0 <= i < |rows| ensures '\n' !in RowText(rows[i]) && SplitAt(RowText(rows[i]), ',') == rows[i] {
      PlainRow(rows[i]);
    }
    SplitJoined(Map(RowText, rows), '\n');
  }

  lemma PlainRow(row: seq<string>)
    requires row != [] && forall j :: 0 <= j < |row| ==> IsPlain(row[j])
    ensures RowText(row) == Join(row, ",") && '\n' !in RowText(row) && SplitAt(RowText(row), ',') == row
  {
    hide EscapeField, SplitAt, Join;
    forall j | 0 <= j < |row| ensures EscapeField(row[j]) == row[j] { FieldText(row[j]); }
    assert Map(EscapeField, row) == row;
    JoinedWithout(row, ",", '\n');
    SplitJoined(row, ',');
  }

  // ---------- line breaks ----------

  /** The rows printed with another line break. */
  function Printed(rows: seq<seq<string>>, lineBreak: string): string { Join(Map(RowText, rows), lineBreak) }

  lemma PrintedWithLineFeeds(rows: seq<seq<string>>)
    ensures Printed(rows, "\n") == StringifyCsv(rows)
  {}

  predicate IsLineBreak(text: string) { text == "\n" || text == "\r\n" || text == "\r" }

  /** A line break ends the row; a carriage return does so by itself, but not before a line feed. */
  lemma ReadBreak(lineBreak: string, tail: string, s: Reading)
    requires !s.insideQuotes && IsLineBreak(lineBreak) && (lineBreak == "\r" ==> tail == "" || tail[0] != '\n')
    ensures Read(lineBreak + tail, s) == Read(tail, s.EndRow())
  {
    assert ("\r" + tail)[1..] == tail && ("\n" + tail)[1..] == tail && ("\r\n" + tail)[1..] == "\n" + tail;
  }

  lemma {:induction false} ReadPrinted(rows: seq<seq<string>>, lineBreak: string, s: Reading)
    requires rows != [] && (forall i :: 0 <= i < |rows| ==> rows[i] != []) && IsLineBreak(lineBreak)
    requires !s.insideQuotes && s.field == "" && s.row == []
    ensures Read(Printed(rows, lineBreak), s).EndRow().rows == s.rows + rows
  {
    hide Read, RowText, Printed;
    var row := rows[0];
    var t := s.(row := [] + row[..|row| - 1], field := row[|row| - 1]);
    RowEnds(row, s, t);
    PrintedSteps(rows, lineBreak);
    if |rows| == 1 {
      assert rows == [row];
      ReadRow(row, "", s);
      ReadNothing(t);
    } else {
      var tail := Printed(rows[1..], lineBreak);
      ReadRow(row, lineBreak + tail, s);
      PrintedStart(rows[1..], lineBreak);
      ReadBreak(lineBreak, tail, t);
      ReadPrinted(rows[1..], lineBreak, t.EndRow());
      assert s.rows + [row] + rows[1..] == s.rows + rows;
    }
  }

  lemma PrintedSteps(rows: seq<seq<string>>, lineBreak: string)
    requires rows != []
    ensures Printed(rows, lineBreak)
            == if |rows|
               == 1 then RowText(rows[0]) + "" else RowText(rows[0]) + (lineBreak + Printed(rows[1..], lineBreak))
  {
    hide RowText;
    assert Map(RowText, rows)[1..] == Map(RowText, rows[1..]);
    assert RowText(rows[0]) + "" == RowText(rows[0]);
  }

  lemma PrintedStart(rows: seq<seq<string>>, lineBreak: string)
    requires rows != [] && rows[0] != []
    ensures lineBreak == "\r" ==> Printed(rows, lineBreak) == "" || Printed(rows, lineBreak)[0] != '\n'
  {
    hide Printed, EscapeField, Join;
    PrintedSteps(rows, lineBreak);
    RowStart(rows[0]);
  }

  lemma RowStart(row: seq<string>)
    requires row != []
    ensures RowText(row) == "" || RowText(row)[0] != '\n'
  {
    hide EscapeField;
    FieldText(row[0]);
    if |row| == 1 { OneFieldText(row[0]); assert row == [row[0]]; } else {
      ManyFieldsText(row, ""); assert RowText(row) + "" == RowText(row);
    }
  }

  /** Rows are read the same with each of the three line breaks. */
  lemma AnyLineBreak(rows: seq<seq<string>>, lineBreak: string)
    requires IsLineBreak(lineBreak) && [] !in rows
    ensures ParseCsv(Printed(rows, lineBreak)) == ParseCsv(StringifyCsv(rows))
    ensures rows != [[""]] ==> ParseCsv(Printed(rows, lineBreak)) == rows
  {
    hide Printed, Read;
    CsvRoundTrip(rows);
    ReadNothing(START);
    assert [] + [""] == [""] && [] + [[""]] == [[""]];
    if rows == [] {
      NothingPrinted(lineBreak);
    } else {
      ReadPrinted(rows, lineBreak, START);
      assert START.rows + rows == rows;
      if rows == [[""]] {
        PrintedSteps(rows, lineBreak);
        PrintedSteps(rows, "\n");
        PrintedWithLineFeeds(rows);
      }
    }
  }

  lemma NothingPrinted(lineBreak: string)
    ensures Printed([], lineBreak) == "" == StringifyCsv([])
  {}

  // ---------- quotes ----------

  /** Quotes may stand anywhere in a field: what they enclose is taken as it is, a doubled quote as one. */
  lemma QuotesInside(before: string, text: string, after: string)
    requires IsPlain(before) && IsPlain(after) && before + text + after != ""
    ensures ParseCsv(before + "\"" + ReplaceAll(text, '"', "\"\"") + "\"" + after) == [[before + text + after]]
  {
    hide Read, ReplaceAll, IsPlain;
    var doubled := ReplaceAll(text, QUOTE, [QUOTE, QUOTE]);
    var body := doubled + [QUOTE] + after;
    QuotedText(before, doubled, after);
    PlainIsRead(before);
    ReadPlain(before, "\"" + body, START);
    assert "" + before == before;
    OpenQuote(body, START.(field := before));
    ReadPlainEnd(text, after, START.(field := before, insideQuotes := true));
    OneField(before + text + after);
  }

  lemma QuotedText(before: string, doubled: string, after: string)
    ensures before + "\"" + doubled + "\"" + after == before + ("\"" + (doubled + [QUOTE] + after))
  {}

  /** The rest of a field behind an opening quote, up to the end of the text. */
  lemma ReadPlainEnd(text: string, after: string, s: Reading)
    requires s.insideQuotes && IsPlain(after)
    ensures Read(ReplaceAll(text, QUOTE, [QUOTE, QUOTE]) + [QUOTE] + after, s)
            == s.(field := s.field + text + after, insideQuotes := false)
  {
    hide Read, ReplaceAll, IsPlain;
    PlainIsRead(after);
    ReadQuoted(text, after, s);
    var t := s.(field := s.field + text, insideQuotes := false);
    assert after + "" == after;
    ReadPlain(after, "", t);
    ReadNothing(t.(field := t.field + after));
  }

  lemma OneField(field: string)
    ensures START.(field := field).EndRow().rows == [[field]]
  {
    assert [] + [field] == [field];
    assert [] + [[field]] == [[field]];
  }

  lemma OpenQuote(body: string, s: Reading)
    requires !s.insideQuotes
    ensures Read("\"" + body, s) == Read(body, s.(insideQuotes := true))
  {
    assert ("\"" + body)[1..] == body;
  }

  lemma PlainIsRead(text: string)
    requires IsPlain(text)
    ensures forall i :: 0 <= i < |text| ==> text[i] !in "\",\n\r"
  {
    forall i | 0 <= i < |text| ensures text[i] !in "\",\n\r" { assert text[i] in text; }
  }

  // ---------- bundles ----------

  /** The parts of a bundle in the order of the layers, each escaped. */
  lemma {:induction false} EscapedParts(parts: seq<string>)
    requires parts != []
    ensures Parts(Join(Map(EscapeLayer, parts), "␟"), "", false) == parts
  {
    hide Parts, EscapeLayer;
    var escaped := Map(EscapeLayer, parts);
    if |parts| == 1 {
      ReadLayer(parts[0], "");
    } else {
      EscapedParts(parts[1..]);
      assert escaped[1..] == Map(EscapeLayer, parts[1..]);
      ReadLayer(parts[0], Join(escaped[1..], "␟"));
      assert Join(escaped, "␟") == escaped[0] + [DELIMITER] + Join(escaped[1..], "␟");
    }
  }

  function Layer(parts: seq<string>, i: nat): string { if i < |parts| then parts[i] else "" }

  /** Two parts or more fill the layers from the left; from the fourth on they make up the source. */
  lemma BundleFillsLayers(parts: seq<string>)
    requires |parts| >= 2
    ensures DecodeBundle(Join(Map(EscapeLayer, parts), "␟"))
            == Cell(value := parts[0], procedure := parts[1], period := Layer(parts, 2),
                    source := if |parts| <= 4 then Layer(parts, 3) else Join(parts[3..], "␟"))
  {
    hide Parts, EscapeLayer;
    EscapedParts(parts);
    var escaped := Map(EscapeLayer, parts);
    assert Join(escaped, "␟")[|escaped[0]|] == DELIMITER;
  }

  /** A text without the delimiter is a value as it stands, backslashes and all. */
  lemma PlainIsValue(text: string)
    requires '␟' !in text
    ensures DecodeBundle(text) == Cell(value := text, procedure := "", period := "", source := "")
  {}

  /** No backslash stands before another one or before the delimiter. */
  predicate Loose(text: string) {
    '␟' !in text && forall i :: 0 <= i < |text| - 1 && text[i] == '\\' ==> text[i + 1] != '\\'
  }

  /** Such backslashes are kept, in the middle of a part and at the very end. */
  lemma {:induction false} LooseIsKept(text: string, rest: string, field: string)
    requires Loose(text)
    ensures Parts(text, field, false) == [field + text]
    ensures text == "" || text[|text| - 1] != '\\' ==>
            Parts(text + "␟" + rest, field, false) == [field + text] + Parts(rest, "", false)
  {
    hide Parts;
    PartsSteps(text, field);
    PartsSteps(text + "␟" + rest, field);
    if text == "" {
      assert field + text == field && (text + "␟" + rest)[1..] == rest;
    } else {
      LooseTail(text);
      assert (text + "␟" + rest)[1..] == text[1..] + "␟" + rest && (text + "␟" + rest)[0] == text[0];
      if text[0] == '\\' && |text| > 1 {
        LooseTail(text[1..]);
        assert text[1..][1..] == text[2..] && (text[1..] + "␟" + rest)[1..] == text[2..] + "␟" + rest;
        LooseIsKept(text[2..], rest, field + ['\\', text[1]]);
        EscapedStep(text[1..], field);
        EscapedStep(text[1..] + "␟" + rest, field);
        assert field + ['\\', text[1]] + text[2..] == field + text;
      } else if text[0] == '\\' {
        EscapedStep("", field);
        assert text[1..] == "" && text == ['\\'];
      } else {
        LooseIsKept(text[1..], rest, field + [text[0]]);
        assert field + [text[0]] + text[1..] == field + text;
      }
    }
  }

  lemma LooseTail(text: string)
    requires Loose(text) && text != ""
    ensures Loose(text[1..]) && text[0] != '␟'
  {
    var t := text[1..];
    forall i | 0 <= i < |t| - 1 && t[i] == '\\' ensures t[i + 1] != '\\' {
      assert text[i + 1] == t[i] && text[i + 1 + 1] == t[i + 1];
    }
  }

  lemma PartsSteps(text: string, field: string)
    ensures Parts(text, field, false)
            == if text == "" then [field]
               else if text[0] == '\\' then Parts(text[1..], field, true)
               else if text[0] == '␟' then [field] + Parts(text[1..], "", false)
               else Parts(text[1..], field + [text[0]], false)
  {}

  lemma EscapedStep(text: string, field: string)
    ensures Parts(text, field, true)
            == if text == "" then [field + ['\\']]
               else if text[0] == '\\' || text[0] == '␟' then Parts(text[1..], field + [text[0]], false)
               else Parts(text[1..], field + ['\\', text[0]], false)
  {}

  // ---------- plain tables ----------

  /** The rows, but a row without fields is one empty field, which is printed the same. */
  function Fielded(fields: seq<seq<string>>): (r: seq<seq<string>>)
    ensures |r| == |fields| && [] !in r
    ensures forall i :: 0 <= i < |r| ==> r[i] == if fields[i] == [] then [""] else fields[i]
  {
    seq(|fields|, i requires 0 <= i < |fields| => if fields[i] == [] then [""] else fields[i])
  }

  lemma FieldedPrints(fields: seq<seq<string>>)
    ensures StringifyCsv(Fielded(fields)) == StringifyCsv(fields)
  {
    assert RowText([]) == RowText([""]) by { assert Map(EscapeField, [""]) == [""]; }
    assert Map(RowText, Fielded(fields)) == Map(RowText, fields);
  }

  /** How wide a table is: no row is longer, and one is as long, or it is a single column. */
  predicate IsWidth(fields: seq<seq<string>>, width: nat) {
    && width >= 1 && (forall i :: 0 <= i < |fields| ==> |fields[i]| <= width)
    && (width == 1 || exists i :: 0 <= i < |fields| && |fields[i]| == width)
  }

  function ValueAt(fields: seq<seq<string>>, i: nat, j: nat): string {
    if i < |fields| && j < |fields[i]| then fields[i][j] else ""
  }

  /**
   Any table of fields without the delimiter is imported as the values of a rectangle of cells;
   missing fields are empty cells, and a table without rows is a single one.
   */
  lemma ImportsValues(fields: seq<seq<string>>, width: nat)
    requires forall i :: 0 <= i < |fields| ==> forall j :: 0 <= j < |fields[i]| ==> '␟' !in fields[i][j]
    requires IsWidth(fields, width)
    ensures var rows := ImportSheet(StringifyCsv(fields));
            && |rows| == (if fields == [] then 1 else |fields|)
            && forall i :: 0 <= i < |rows| ==>
                 |rows[i]| == width && forall j :: 0 <= j < width ==>
                   rows[i][j] == Cell(value := ValueAt(fields, i, j), procedure := "", period := "", source := "")
  {
    hide DecodeBundle, Read, RowText, ParseCsv, StringifyCsv;
    var filled := Fielded(fields);
    FieldedPrints(fields);
    CsvRoundTrip(filled);
    var parsed := ParseCsv(StringifyCsv(fields));
    ParsedOrBlank(fields);
    var rows := if parsed == [] then [[EMPTY_CELL]] else Decoded(parsed);
    forall i | 0 <= i < |rows|
      ensures 1 <= |rows[i]| <= width && forall j ::
              0 <= j < |rows[i]| ==> rows[i][j] == Cell(ValueAt(fields, i, j), "", "", "")
    {
      forall j | 0 <= j < |rows[i]| ensures rows[i][j] == Cell(ValueAt(fields, i, j), "", "", "") {
        if parsed != [] { PlainIsValue(filled[i][j]); }
      }
    }
    WidestRow(rows, fields, width);
  }

  lemma ParsedOrBlank(fields: seq<seq<string>>)
    ensures var parsed := ParseCsv(StringifyCsv(fields));
            if Fielded(fields) == [[""]] then parsed == [] else parsed == Fielded(fields)
  {
    hide Read, RowText;
    FieldedPrints(fields);
    CsvRoundTrip(Fielded(fields));
    if Fielded(fields) == [[""]] { BlankRead(); }
  }

  lemma BlankRead()
    ensures ParseCsv(StringifyCsv([[""]])) == []
  {
    assert Map(EscapeField, [""]) == [""];
    assert RowText([""]) == "";
    assert Map(RowText, [[""]]) == [""];
  }

  lemma WidestRow(rows: Rows, fields: seq<seq<string>>, width: nat)
    requires rows != [] && IsWidth(fields, width) && forall i :: 0 <= i < |rows| ==> 1 <= |rows[i]| <= width
    requires |rows| >= |fields| && forall i :: 0 <= i < |fields| ==> |rows[i]| >= |fields[i]|
    ensures MaxLength(rows) == width
  {
    MaxLengthBounds(rows);
    MaxLengthIsOne(rows);
  }

  lemma {:induction false} MaxLengthIsOne(rows: Rows)
    ensures rows == [] || exists i :: 0 <= i < |rows| && MaxLength(rows) == |rows[i]|
  {
    if |rows| == 1 {
      assert MaxLength(rows[..0]) == 0;
      assert MaxLength(rows) == |rows[0]|;
    } else if |rows| > 1 {
      MaxLengthIsOne(rows[..|rows| - 1]);
      assert forall i :: 0 <= i < |rows| - 1 ==> rows[..|rows| - 1][i] == rows[i];
    }
  }
}
