/**
 Which text stands for which table, said without the reader or the printer: fields joined by commas, a field bare or in
 quotes with its quotes doubled, lines ended by either kind of line break.
 */
module ProductCsvText {
  import opened Wrappers
  import opened ProductCsv

  /** A field as it is written. The pieces of a quoted field are what stands between its quotes. */
  datatype Cell = Plain(text: string) | Quoted(pieces: seq<string>)

  predicate Sound(c: Cell) {
    match c
    case Plain(text) => Bare(text)
    case Quoted(pieces) => forall piece :: piece in pieces ==> '"' !in piece
  }

  function Text(c: Cell): string {
    match c
    case Plain(text) => text
    case Quoted(pieces) => "\"" + Join(pieces, "\"\"") + "\""
  }

  function Value(c: Cell): string {
    match c
    case Plain(text) => text
    case Quoted(pieces) => Join(pieces, "\"")
  }

  function Texts(cells: seq<Cell>): seq<string> {
    seq(|cells|, i requires 0 <= i < |cells| => Text(cells[i]))
  }

  function Values(cells: seq<Cell>): seq<string> {
    seq(|cells|, i requires 0 <= i < |cells| => Value(cells[i]))
  }

  datatype LineBreak = Lf | CrLf

  datatype Line = Line(cells: seq<Cell>, end: LineBreak)

  function BreakText(b: LineBreak): string {
    match b
    case Lf => "\n"
    case CrLf => "\r\n"
  }

  predicate SoundRow(cells: seq<Cell>) {
    cells != [] && forall c :: c in cells ==> Sound(c)
  }

  predicate SoundLines(lines: seq<Line>) {
    forall line :: line in lines ==> SoundRow(line.cells)
  }

  function Document(lines: seq<Line>): string {
    if lines == [] then "" else Join(Texts(lines[0].cells), ",") + BreakText(lines[0].end) + Document(lines[1..])
  }

  /** A carriage return right before a line feed or the end of the text belongs to the line break. */
  function WithoutReturn(row: seq<string>): seq<string>
    requires row != []
  {
    row[|row| - 1 := Strip(row[|row| - 1])]
  }

  function Row(line: Line): seq<string>
    requires line.cells != []
  {
    if line.end == CrLf then Values(line.cells) else WithoutReturn(Values(line.cells))
  }

  function Rows(lines: seq<Line>): Table
    requires SoundLines(lines)
  {
    seq(|lines|, i requires 0 <= i < |lines| => assert lines[i] in lines; Row(lines[i]))
  }

  // ----- quoted fields -----

  lemma {:induction false} DoubleConcat(a: string, b: string)
    ensures DoubleQuotes(a + b) == DoubleQuotes(a) + DoubleQuotes(b)
    decreases |a|
  {
    if a == "" {
      assert a + b == b;
    } else {
      assert (a + b)[1..] == a[1..] + b;
      DoubleConcat(a[1..], b);
    }
  }

  lemma {:induction false} NothingToDouble(text: string)
    requires '"' !in text
    ensures DoubleQuotes(text) == text
  {
    if text != "" {
      NothingToDouble(text[1..]);
      assert text == [text[0]] + text[1..];
    }
  }

  lemma DoubleStep(piece: string, quote: string, rest: string)
    requires '"' !in piece && quote == ['"']
    ensures DoubleQuotes(piece + quote + rest) == piece + quote + quote + DoubleQuotes(rest)
  {
    NothingToDouble(piece);
    DoubleConcat(piece, quote + rest);
    assert piece + quote + rest == piece + (quote + rest);
    assert (quote + rest)[1..] == rest;
  }

  /** Doubling the quotes of a text leaves what stands between them. */
  lemma {:induction false} DoublesEachQuote(pieces: seq<string>, quote: string)
    requires quote == ['"'] && forall piece :: piece in pieces ==> '"' !in piece
    ensures DoubleQuotes(Join(pieces, quote)) == Join(pieces, quote + quote)
  {
    if |pieces| == 1 {
      NothingToDouble(pieces[0]);
    } else if pieces != [] {
      assert pieces[0] in pieces && forall piece :: piece in pieces[1..] ==> piece in pieces;
      DoubleStep(pieces[0], quote, Join(pieces[1..], quote));
      DoublesEachQuote(pieces[1..], quote);
      assert pieces[0] + quote + quote == pieces[0] + (quote + quote);
    }
  }

  /** The printer leaves a field as it is exactly when it holds no quote, comma or line break character. */
  lemma PrintedBare(value: string)
    ensures EscapeCsv(value) == value <==> forall c :: c in value ==> c != '"' && c != ',' && c != '\r' && c != '\n'
  {
    if NeedsQuotes(value) {
      DoublingGrows(value);
      assert |EscapeCsv(value)| > |value|;
    }
  }

  lemma {:induction false} DoublingGrows(value: string)
    ensures |DoubleQuotes(value)| >= |value|
  {
    if value != "" { DoublingGrows(value[1..]); }
  }

  /** Any other field is printed in quotes, with the quotes in it doubled. */
  lemma PrintedQuoted(pieces: seq<string>)
    requires forall piece :: piece in pieces ==> '"' !in piece
    requires EscapeCsv(Join(pieces, "\"")) != Join(pieces, "\"")
    ensures EscapeCsv(Join(pieces, "\"")) == "\"" + Join(pieces, "\"\"") + "\""
  {
    DoublesEachQuote(pieces, "\"");
    assert "\"" + "\"" == "\"\"";
  }

  // ----- reading -----

  lemma BareReadsAs(text: string)
    requires Bare(text)
    ensures ReadsAs(text, text)
  {
    forall rest, st: Reader | !st.quoted && st.value == "" && Follows(rest)
      ensures Read(text + rest, st) == Read(rest, st.(value := text))
    {
      assert st.value + text == text;
      ReadBare(text, rest, st);
    }
  }

  lemma QuotedReadsAs(inner: string, value: string)
    requires inner == DoubleQuotes(value)
    ensures ReadsAs("\"" + inner + "\"", value)
  {
    forall rest, st: Reader | !st.quoted && st.value == "" && Follows(rest)
      ensures Read("\"" + inner + "\"" + rest, st) == Read(rest, st.(value := value))
    {
      var text := "\"" + inner + "\"" + rest;
      assert text[1..] == inner + "\"" + rest && st.value + value == value;
      ReadQuoted(value, rest, st.(quoted := true));
    }
  }

  lemma CellReadsAs(c: Cell)
    requires Sound(c)
    ensures ReadsAs(Text(c), Value(c))
  {
    match c {
      case Plain(text) => BareReadsAs(text);
      case Quoted(pieces) =>
        DoublesEachQuote(pieces, "\"");
        assert "\"" + "\"" == "\"\"";
        QuotedReadsAs(Join(pieces, "\"\""), Value(c));
    }
  }

  lemma ReadCells(cells: seq<Cell>, rest: string, st: Reader)
    requires SoundRow(cells) && !st.quoted && st.value == "" && Follows(rest)
    ensures Read(Join(Texts(cells), ",") + rest, st) == Read(rest, Holding(st, Values(cells)))
  {
    forall i | 0 <= i < |cells| ensures ReadsAs(Texts(cells)[i], Values(cells)[i]) { CellReadsAs(cells[i]); }
    ReadFields(Texts(cells), Values(cells), rest, st);
  }

  lemma ReadLine(line: Line, rest: string, rows: Table, ended: Table)
    requires SoundRow(line.cells) && ended == rows + [Row(line)]
    ensures Read(Join(Texts(line.cells), ",") + (BreakText(line.end) + rest), Reader(rows, [], "", false))
         == Read(rest, Reader(ended, [], "", false))
  {
    var values := Values(line.cells);
    var tail := BreakText(line.end) + rest;
    var st := Holding(Reader(rows, [], "", false), values);
    ReadCells(line.cells, tail, Reader(rows, [], "", false));
    if line.end == Lf {
      ReadLf(tail, st);
      assert tail[1..] == rest && st.row + [Strip(st.value)] == Row(line);
    } else {
      ReadCrLf(tail, st);
      assert tail[2..] == rest && st.row + [st.value] == Row(line);
    }
  }

  lemma DocumentFirst(lines: seq<Line>, rest: string)
    requires lines != []
    ensures Document(lines) + rest
         == Join(Texts(lines[0].cells), ",") + (BreakText(lines[0].end) + (Document(lines[1..]) + rest))
  {
  }

  lemma RowsFirst(lines: seq<Line>, rows: Table)
    requires lines != [] && SoundLines(lines)
    ensures SoundRow(lines[0].cells) && SoundLines(lines[1..])
    ensures rows + [Row(lines[0])] + Rows(lines[1..]) == rows + Rows(lines)
  {
    assert lines[0] in lines && forall l :: l in lines[1..] ==> l in lines;
  }

  lemma {:induction false} ReadLines(lines: seq<Line>, rest: string, rows: Table)
    requires SoundLines(lines)
    ensures Read(Document(lines) + rest, Reader(rows, [], "", false))
         == Read(rest, Reader(rows + Rows(lines), [], "", false))
    decreases |lines|
  {
    if lines == [] {
      assert Document(lines) + rest == rest;
      assert rows + Rows(lines) == rows;
    } else {
      RowsFirst(lines, rows);
      var ended := rows + [Row(lines[0])];
      DocumentFirst(lines, rest);
      ReadLine(lines[0], Document(lines[1..]) + rest, rows, ended);
      ReadLines(lines[1..], rest, ended);
    }
  }

  /** Every document parses to its rows. */
  lemma ParsesDocument(lines: seq<Line>)
    requires SoundLines(lines)
    ensures ParseCsv(Document(lines)) == Ok(Rows(lines))
  {
    ReadLines(lines, "", []);
    assert Document(lines) + "" == Document(lines) && [] + Rows(lines) == Rows(lines);
  }

  /**
   A last row without a line break counts as a row, unless it is one empty field: then it is as if it were not there.
   */
  lemma ParsesUnendedDocument(lines: seq<Line>, last: seq<Cell>)
    requires SoundLines(lines) && SoundRow(last)
    ensures ParseCsv(Document(lines) + Join(Texts(last), ","))
         == Ok(if Values(last) == [""] then Rows(lines) else Rows(lines) + [WithoutReturn(Values(last))])
  {
    var values := Values(last);
    var text := Join(Texts(last), ",");
    ReadLines(lines, text, []);
    assert [] + Rows(lines) == Rows(lines);
    var st := Reader(Rows(lines), [], "", false);
    ReadCells(last, "", st);
    assert text + "" == text && [] + values[..|values| - 1] == values[..|values| - 1];
    if |values| == 1 { assert values == [values[0]]; }
    assert values[..|values| - 1] + [Strip(values[|values| - 1])] == WithoutReturn(values);
  }

  // ----- ordinary files -----

  /** No field holds a quote, a comma or a line break character, and every row has a field. */
  ghost predicate Ordinary(table: Table) {
    forall row :: row in table ==>
                    row != [] && forall value, c :: value in row && c in value ==> c !in ['"', ',', '\r', '\n']
  }

  /** The rows with each line ended as given. */
  function Joined(table: Table, ends: seq<LineBreak>): string
    requires |ends| == |table|
  {
    if table == [] then "" else Join(table[0], ",") + BreakText(ends[0]) + Joined(table[1..], ends[1..])
  }

  function Cells(row: seq<string>): seq<Cell> {
    seq(|row|, i requires 0 <= i < |row| => Plain(row[i]))
  }

  function AsLines(table: Table, ends: seq<LineBreak>): seq<Line>
    requires |ends| == |table|
  {
    seq(|table|, i requires 0 <= i < |table| => Line(Cells(table[i]), ends[i]))
  }

  lemma OrdinaryRow(table: Table, i: nat)
    requires Ordinary(table) && i < |table|
    ensures SoundRow(Cells(table[i])) && Values(Cells(table[i])) == table[i] && Texts(Cells(table[i])) == table[i]
    ensures WithoutReturn(table[i]) == table[i]
  {
    var row := table[i];
    assert row in table;
    forall c | c in Cells(row) ensures Sound(c) { assert c.text in row; }
    var last := row[|row| - 1];
    assert last in row;
    if last != "" { assert last[|last| - 1] in last; }
  }

  lemma {:induction false} JoinedDocument(table: Table, ends: seq<LineBreak>)
    requires |ends| == |table| && Ordinary(table)
    ensures Document(AsLines(table, ends)) == Joined(table, ends)
    decreases |table|
  {
    if table != [] {
      OrdinaryRow(table, 0);
      assert AsLines(table, ends)[1..] == AsLines(table[1..], ends[1..]);
      assert forall row :: row in table[1..] ==> row in table;
      JoinedDocument(table[1..], ends[1..]);
    }
  }

  lemma OrdinaryLines(table: Table, ends: seq<LineBreak>)
    requires |ends| == |table| && Ordinary(table)
    ensures SoundLines(AsLines(table, ends)) && Rows(AsLines(table, ends)) == table
  {
    forall line | line in AsLines(table, ends) ensures SoundRow(line.cells) {
      var i :| 0 <= i < |table| && AsLines(table, ends)[i] == line;
      OrdinaryRow(table, i);
    }
    forall i | 0 <= i < |table| ensures Row(AsLines(table, ends)[i]) == table[i] { OrdinaryRow(table, i); }
  }

  /** An ordinary file parses to its table, whichever line break ends each line. */
  lemma ParsesOrdinary(table: Table, ends: seq<LineBreak>)
    requires |ends| == |table| && Ordinary(table)
    ensures ParseCsv(Joined(table, ends)) == Ok(table)
  {
    JoinedDocument(table, ends);
    OrdinaryLines(table, ends);
    ParsesDocument(AsLines(table, ends));
  }

  /** The last line break may be missing, exactly unless the last row is a single empty field. */
  lemma ParsesUnended(table: Table, ends: seq<LineBreak>, last: seq<string>)
    requires |ends| == |table| && Ordinary(table + [last])
    ensures ParseCsv(Joined(table, ends) + Join(last, ",")) == Ok(table + [last]) <==> last != [""]
  {
    var all := table + [last];
    assert all[|table|] == last && forall row :: row in table ==> row in all;
    OrdinaryRow(all, |table|);
    JoinedDocument(table, ends);
    OrdinaryLines(table, ends);
    ParsesUnendedDocument(AsLines(table, ends), Cells(last));
  }
}
