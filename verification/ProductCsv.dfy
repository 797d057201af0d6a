/**
 The hand-written CSV reader and printer of product-csv.ts, over arbitrary text.
 */
module ProductCsv {
  import opened Wrappers

  type Table = seq<seq<string>>

  datatype CsvProblem = QuoteInvalid

  // ----- reading -----

  /** The reader's variables: finished rows, the row and the value being read, and whether it is inside quotes. */
  datatype Reader = Reader(rows: Table, row: seq<string>, value: string, quoted: bool)

  const START := Reader([], [], "", false)

  /** Drops one trailing carriage return. */
  function Strip(value: string): string {
    if value != "" && value[|value| - 1] == '\r' then value[..|value| - 1] else value
  }

  function EndRow(st: Reader): Reader {
    Reader(st.rows + [st.row + [Strip(st.value)]], [], "", st.quoted)
  }

  function Read(text: string, st: Reader): Reader
    decreases |text|
  {
    if text == "" then st
    else if st.quoted then
      if text[0] == '"' && |text| > 1 && text[1] == '"' then Read(text[2..], st.(value := st.value + "\""))
      else if text[0] == '"' then Read(text[1..], st.(quoted := false))
      else Read(text[1..], st.(value := st.value + [text[0]]))
    else if text[0] == '"' then Read(text[1..], st.(quoted := true))
    else if text[0] == ',' then Read(text[1..], st.(row := st.row + [st.value], value := ""))
    else if text[0] == '\n' then Read(text[1..], EndRow(st))
    else Read(text[1..], st.(value := st.value + [text[0]]))
  }

  function Finish(st: Reader): Outcome<Table, CsvProblem> {
    if st.quoted then Fail(QuoteInvalid)
    else if st.value != "" || st.row != [] then Ok(EndRow(st).rows)
    else Ok(st.rows)
  }

  function ParseCsv(csv: string): Outcome<Table, CsvProblem> {
    Finish(Read(csv, START))
  }

  /** parseCsv: one pass over the text with one character of lookahead. */
  method ParseCsvLoop(csv: string) returns (r: Outcome<Table, CsvProblem>)
    ensures r == ParseCsv(csv)
  {
    var rows: Table := [];
    var row: seq<string> := [];
    var value := "";
    var quoted := false;
    var index := 0;
    while index < |csv|
      invariant 0 <= index <= |csv|
      invariant Read(csv[index..], Reader(rows, row, value, quoted)) == Read(csv, START)
    {
      var character := csv[index];
      ghost var rest := csv[index..];
      assert rest[0] == character && rest[1..] == csv[index + 1..];
      assert |rest| > 1 ==> rest[1] == csv[index + 1] && rest[2..] == csv[index + 2..];
      if quoted {
        if character == '"' && index + 1 < |csv| && csv[index + 1] == '"' {
          value := value + "\"";
          index := index + 1;
        } else if character == '"' {
          quoted := false;
        } else {
          value := value + [character];
        }
      } else if character == '"' {
        quoted := true;
      } else if character == ',' {
        row, value := row + [value], "";
      } else if character == '\n' {
        row := row + [Strip(value)];
        rows, row, value := rows + [row], [], "";
      } else {
        value := value + [character];
      }
      index := index + 1;
    }
    if quoted { return Fail(QuoteInvalid); }
    if value != "" || row != [] {
      row := row + [Strip(value)];
      rows := rows + [row];
    }
    r := Ok(rows);
  }

  // ----- printing -----

  predicate Special(c: char) {
    c == '"' || c == ',' || c == '\r' || c == '\n'
  }

  predicate NeedsQuotes(value: string) {
    exists c :: c in value && Special(c)
  }

  function DoubleQuotes(value: string): string {
    if value == "" then "" else (if value[0] == '"' then "\"\"" else [value[0]]) + DoubleQuotes(value[1..])
  }

  function EscapeCsv(value: string): string {
    if NeedsQuotes(value) then "\"" + DoubleQuotes(value) + "\"" else value
  }

  function Join(texts: seq<string>, separator: string): string {
    if texts == [] then "" else if |texts| == 1 then texts[0] else texts[0] + separator + Join(texts[1..], separator)
  }

  function Escaped(row: seq<string>): seq<string> {
    seq(|row|, i requires 0 <= i < |row| => EscapeCsv(row[i]))
  }

  function Lines(rows: Table): seq<string> {
    seq(|rows|, i requires 0 <= i < |rows| => Join(Escaped(rows[i]), ","))
  }

  /** The join in serializeProductCsv. */
  function PrintCsv(rows: Table): string {
    Join(Lines(rows), "\r\n") + "\r\n"
  }

  // ----- reading what was printed -----

  /** Text that may follow a closing quote: anything that does not begin with another one. */
  predicate Follows(rest: string) {
    rest == "" || rest[0] != '"'
  }

  lemma {:induction false} ReadQuoted(value: string, rest: string, st: Reader)
    requires st.quoted && Follows(rest)
    ensures Read(DoubleQuotes(value) + "\"" + rest, st) == Read(rest, st.(value := st.value + value, quoted := false))
    decreases |value|
  {
    var text := DoubleQuotes(value) + "\"" + rest;
    if value == "" {
      assert text == "\"" + rest && text[1..] == rest;
      assert st.value + value == st.value;
    } else {
      var tail := DoubleQuotes(value[1..]) + "\"" + rest;
      var st1 := st.(value := st.value + [value[0]]);
      if value[0] == '"' {
        assert text == "\"\"" + tail && text[2..] == tail;
      } else {
        assert text == [value[0]] + tail && text[1..] == tail;
      }
      ReadQuoted(value[1..], rest, st1);
      assert st1.value + value[1..] == st.value + value;
    }
  }

  /** No character of the text means anything to the reader outside quotes. */
  predicate Bare(text: string) {
    forall c :: c in text ==> c != '"' && c != ',' && c != '\n'
  }

  lemma {:induction false} ReadBare(value: string, rest: string, st: Reader)
    requires !st.quoted && Bare(value)
    ensures Read(value + rest, st) == Read(rest, st.(value := st.value + value))
    decreases |value|
  {
    if value == "" {
      assert value + rest == rest && st.value + value == st.value;
    } else {
      assert value[0] in value;
      assert (value + rest)[1..] == value[1..] + rest;
      assert forall c :: c in value[1..] ==> c in value;
      ReadBare(value[1..], rest, st.(value := st.value + [value[0]]));
      assert st.value + [value[0]] + value[1..] == st.value + value;
    }
  }

  /** The text is read as the value, by a reader between fields, whatever follows. */
  ghost predicate ReadsAs(text: string, value: string) {
    forall rest, st: Reader :: !st.quoted && st.value == "" && Follows(rest) ==>
                                 Read(text + rest, st) == Read(rest, st.(value := value))
  }

  lemma EscapedReadsAs(value: string)
    ensures ReadsAs(EscapeCsv(value), value)
  {
    forall rest, st: Reader | !st.quoted && st.value == "" && Follows(rest)
      ensures Read(EscapeCsv(value) + rest, st) == Read(rest, st.(value := value))
    {
      assert "" + value == value;
      if NeedsQuotes(value) {
        var text := EscapeCsv(value) + rest;
        assert text == "\"" + (DoubleQuotes(value) + "\"" + rest);
        assert text[1..] == DoubleQuotes(value) + "\"" + rest;
        ReadQuoted(value, rest, st.(quoted := true));
      } else {
        assert forall c :: c in value ==> !Special(c);
        ReadBare(value, rest, st);
      }
    }
  }

  /** The reader has read all of a row's values and still holds the last one. */
  function Holding(st: Reader, values: seq<string>): Reader
    requires values != []
  {
    st.(row := st.row + values[..|values| - 1], value := values[|values| - 1])
  }

  lemma HoldingRest(st: Reader, values: seq<string>)
    requires |values| > 1
    ensures Holding(st.(row := st.row + [values[0]]), values[1..]) == Holding(st, values)
  {
    assert st.row + [values[0]] + values[1..][..|values| - 2] == st.row + values[..|values| - 1];
  }

  lemma ReadFirst(text: string, value: string, more: string, st: Reader)
    requires ReadsAs(text, value) && !st.quoted && st.value == ""
    ensures Read(text + ("," + more), st) == Read(more, st.(row := st.row + [value]))
  {
    var rest := [','] + more;
    assert Read(text + rest, st) == Read(rest, st.(value := value));
    assert rest[1..] == more;
  }

  lemma JoinFirst(texts: seq<string>, rest: string)
    requires |texts| > 1
    ensures Join(texts, ",") + rest == texts[0] + ("," + (Join(texts[1..], ",") + rest))
  {
  }

  /** Fields joined by commas are read as their values, up to what ends the row. */
  lemma {:induction false} ReadFields(texts: seq<string>, values: seq<string>, rest: string, st: Reader)
    requires |texts| == |values| > 0 && forall i :: 0 <= i < |texts| ==> ReadsAs(texts[i], values[i])
    requires !st.quoted && st.value == "" && Follows(rest)
    ensures Read(Join(texts, ",") + rest, st) == Read(rest, Holding(st, values))
    decreases |texts|
  {
    if |texts| == 1 {
      assert Read(texts[0] + rest, st) == Read(rest, st.(value := values[0]));
      assert st.row + values[..0] == st.row;
    } else {
      JoinFirst(texts, rest);
      ReadFirst(texts[0], values[0], Join(texts[1..], ",") + rest, st);
      ReadFields(texts[1..], values[1..], rest, st.(row := st.row + [values[0]]));
      HoldingRest(st, values);
    }
  }

  lemma ReadLf(text: string, st: Reader)
    requires text != "" && text[0] == '\n' && !st.quoted
    ensures Read(text, st) == Read(text[1..], EndRow(st))
  {
  }

  lemma ReadCrLf(text: string, st: Reader)
    requires |text| > 1 && text[0] == '\r' && text[1] == '\n' && !st.quoted
    ensures Read(text, st) == Read(text[2..], Reader(st.rows + [st.row + [st.value]], [], "", false))
  {
    var returned := st.(value := st.value + "\r");
    assert Strip(returned.value) == st.value;
    assert Read(text, st) == Read(text[1..], returned);
    ReadLf(text[1..], returned);
    assert text[1..][1..] == text[2..];
  }

  lemma ReadRow(row: seq<string>, rest: string, rows: Table)
    requires row != []
    ensures Read(Join(Escaped(row), ",") + ("\r\n" + rest), Reader(rows, [], "", false))
         == Read(rest, Reader(rows + [row], [], "", false))
  {
    var st := Reader(rows, [], "", false);
    var tail := "\r\n" + rest;
    forall i | 0 <= i < |row| ensures ReadsAs(Escaped(row)[i], row[i]) { EscapedReadsAs(row[i]); }
    ReadFields(Escaped(row), row, tail, st);
    ReadCrLf(tail, Holding(st, row));
    assert tail[2..] == rest;
    assert [] + row[..|row| - 1] + [row[|row| - 1]] == row;
  }

  lemma PrintFirst(rows: Table)
    requires rows != []
    ensures PrintCsv(rows) == Join(Escaped(rows[0]), ",") + ("\r\n" + if |rows| == 1 then "" else PrintCsv(rows[1..]))
  {
    if |rows| > 1 { assert Lines(rows)[1..] == Lines(rows[1..]); }
  }

  lemma {:induction false} ReadRows(rows: Table, before: Table)
    requires rows != [] && forall row :: row in rows ==> row != []
    ensures Read(PrintCsv(rows), Reader(before, [], "", false)) == Reader(before + rows, [], "", false)
    decreases |rows|
  {
    assert rows[0] in rows;
    PrintFirst(rows);
    if |rows| == 1 {
      ReadRow(rows[0], "", before);
      assert [rows[0]] == rows;
    } else {
      ReadRow(rows[0], PrintCsv(rows[1..]), before);
      assert forall row :: row in rows[1..] ==> row in rows;
      ReadRows(rows[1..], before + [rows[0]]);
      assert before + [rows[0]] + rows[1..] == before + rows;
    }
  }

  /** What a printed table reads as: a line without fields comes back as one empty field. */
  function Readback(rows: Table): Table {
    if rows == [] then [[""]] else seq(|rows|, i requires 0 <= i < |rows| => if rows[i] == [] then [""] else rows[i])
  }

  lemma ParsePrinted(rows: Table)
    ensures ParseCsv(PrintCsv(rows)) == Ok(Readback(rows))
  {
    var back := Readback(rows);
    assert Escaped([""]) == [""] && Join([""], ",") == "";
    assert Lines([[""]]) == [""];
    if rows != [] {
      forall i | 0 <= i < |rows| ensures Lines(rows)[i] == Lines(back)[i] { assert Escaped([]) == []; }
      assert Lines(rows) == Lines(back);
    }
    assert PrintCsv(rows) == PrintCsv(back);
    ReadRows(back, []);
    assert [] + back == back;
  }

  /** The round trip holds exactly for non-empty tables of non-empty rows, whatever text the fields hold. */
  lemma RoundTrip(rows: Table)
    ensures ParseCsv(PrintCsv(rows)) == Ok(rows) <==> rows != [] && forall row :: row in rows ==> row != []
  {
    ParsePrinted(rows);
    var back := Readback(rows);
    if rows != [] && forall row :: row in rows ==> row != [] {
      assert back == rows by {
        forall i | 0 <= i < |rows| ensures back[i] == rows[i] { assert rows[i] in rows; }
      }
    } else if rows != [] {
      var row :| row in rows && row == [];
      var i :| 0 <= i < |rows| && rows[i] == row;
      assert back[i] == [""];
    }
  }

  // ----- what is rejected -----

  function Quotes(text: string): nat {
    if text == "" then 0 else (if text[0] == '"' then 1 else 0) + Quotes(text[1..])
  }

  lemma {:induction false} QuotedIsParity(text: string, st: Reader)
    ensures Read(text, st).quoted <==> (st.quoted <==> Quotes(text) % 2 == 0)
    decreases |text|
  {
    if text != "" {
      if st.quoted && text[0] == '"' && |text| > 1 && text[1] == '"' {
        assert text[1..][1..] == text[2..];
        assert Quotes(text) == 2 + Quotes(text[2..]);
        QuotedIsParity(text[2..], st.(value := st.value + "\""));
      } else if st.quoted {
        if text[0] == '"' { QuotedIsParity(text[1..], st.(quoted := false)); }
        else { QuotedIsParity(text[1..], st.(value := st.value + [text[0]])); }
      } else {
        if text[0] == '"' { QuotedIsParity(text[1..], st.(quoted := true)); }
        else if text[0] == ',' { QuotedIsParity(text[1..], st.(row := st.row + [st.value], value := "")); }
        else if text[0] == '\n' { QuotedIsParity(text[1..], EndRow(st)); }
        else { QuotedIsParity(text[1..], st.(value := st.value + [text[0]])); }
      }
    }
  }

  /** The reader rejects exactly the texts with an odd number of double quotes. */
  lemma RejectsOddQuotes(csv: string)
    ensures ParseCsv(csv).Fail? <==> Quotes(csv) % 2 == 1
  {
    QuotedIsParity(csv, START);
  }
}
