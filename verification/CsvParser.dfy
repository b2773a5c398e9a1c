/** The record scanner of src/import/csvImport.ts and its round trip with section 2 of RFC 4180. */
module CsvParser {
  import Seqs

  const BOM := '\U{FEFF}'

  /** What the scanner has read: the current field, the current record, the finished records. */
  datatype Scanner = Scanner(field: string, record: seq<string>, records: seq<seq<string>>, inQuotes: bool)

  const START := Scanner("", [], [], false)

  /** One turn of the loop: the next state and the number of characters it used. */
  datatype Turn = Turn(next: Scanner, used: nat)

  predicate Peeks(s: string, ch: char) {
    |s| > 1 && s[1] == ch
  }

  function EndField(st: Scanner): Scanner {
    st.(record := st.record + [st.field], field := "")
  }

  function EndRecord(st: Scanner): Scanner {
    st.(records := st.records + [st.record + [st.field]], record := [], field := "")
  }

  function Add(st: Scanner, ch: char): Scanner {
    st.(field := st.field + [ch])
  }

  function OneTurn(st: Scanner, s: string): (t: Turn)
    requires s != ""
    ensures 1 <= t.used <= |s|
  {
    var ch := s[0];
    if st.inQuotes then
      if ch != '"' then Turn(Add(st, ch), 1)
      else if Peeks(s, '"') then Turn(Add(st, '"'), 2)
      else Turn(st.(inQuotes := false), 1)
    else if ch == '"' then Turn(st.(inQuotes := true), 1)
    else if ch == ',' then Turn(EndField(st), 1)
    else if ch == '\n' then Turn(EndRecord(st), 1)
    else if ch == '\r' then Turn(if Peeks(s, '\n') then st else EndRecord(st), 1)
    else Turn(Add(st, ch), 1)
  }

  function Scan(s: string, st: Scanner): Scanner
    decreases |s|
  {
    if s == "" then st else Scan(s[OneTurn(st, s).used..], OneTurn(st, s).next)
  }

  /** The trailing record of a text that does not end with a newline. */
  function Flush(st: Scanner): seq<seq<string>> {
    if st.field != "" || st.record != [] then EndRecord(st).records else st.records
  }

  function StripBom(text: string): string {
    if text != "" && text[0] == BOM then text[1..] else text
  }

  function Records(text: string): seq<seq<string>> {
    Flush(Scan(StripBom(text), START))
  }

  /** The character loop of `parseCsv`. */
  method ParseRecords(text: string) returns (records: seq<seq<string>>)
    ensures records == Records(text)
  {
    var field, record, inQuotes := "", [], false;
    records := [];
    var s := if text != "" && text[0] == BOM then text[1..] else text;
    var i := 0;
    while i < |s|
      invariant i <= |s|
      invariant Scan(s[i..], Scanner(field, record, records, inQuotes)) == Scan(s, START)
    {
      TurnAt(s, i, Scanner(field, record, records, inQuotes));
      ghost var turn := OneTurn(Scanner(field, record, records, inQuotes), s[i..]);
      ghost var end := i + turn.used;
      var ch := s[i];
      if inQuotes {
        if ch == '"' {
          if i + 1 < |s| && s[i + 1] == '"' {
            field := field + ['"'];
            i := i + 1;
          } else {
            inQuotes := false;
          }
        } else {
          field := field + [ch];
        }
      } else if ch == '"' {
        inQuotes := true;
      } else if ch == ',' {
        record, field := record + [field], "";
      } else if ch == '\n' {
        records, record, field := records + [record + [field]], [], "";
      } else if ch == '\r' {
        if !(i + 1 < |s| && s[i + 1] == '\n') {
          records, record, field := records + [record + [field]], [], "";
        }
      } else {
        field := field + [ch];
      }
      i := i + 1;
      assert i == end && Scanner(field, record, records, inQuotes) == turn.next;
    }
    assert s[i..] == "";
    if field != "" || record != [] {
      records := records + [record + [field]];
    }
  }

  lemma TurnAt(s: string, i: nat, st: Scanner)
    requires i < |s|
    ensures var t := OneTurn(st, s[i..]);
            i + t.used <= |s| && Scan(s[i..], st) == Scan(s[i + t.used..], t.next)
    ensures Peeks(s[i..], '"') <==> i + 1 < |s| && s[i + 1] == '"'
    ensures Peeks(s[i..], '\n') <==> i + 1 < |s| && s[i + 1] == '\n'
  {
    assert s[i..][OneTurn(st, s[i..]).used..] == s[i + OneTurn(st, s[i..]).used..];
  }

  // --- printing ------------------------------------------------------------------------------------

  /** A field as a writer may put it: quoted, or bare when nothing in it needs quoting. */
  datatype Cell = Cell(text: string, quoted: bool)

  datatype LineEnd = Lf | CrLf

  datatype Line = Line(cells: seq<Cell>, end: LineEnd)

  predicate Plain(text: string) {
    '"' !in text && ',' !in text && '\n' !in text && '\r' !in text
  }

  predicate Writable(cells: seq<Cell>) {
    cells != [] && forall i :: 0 <= i < |cells| ==> cells[i].quoted || Plain(cells[i].text)
  }

  function Doubled(text: string): string {
    if text == "" then "" else (if text[0] == '"' then "\"\"" else [text[0]]) + Doubled(text[1..])
  }

  function PrintCell(c: Cell): string {
    if c.quoted then "\"" + Doubled(c.text) + "\"" else c.text
  }

  function PrintCells(cells: seq<Cell>): string {
    if cells == [] then "" else if |cells| == 1 then PrintCell(cells[0])
    else PrintCell(cells[0]) + "," + PrintCells(cells[1..])
  }

  function PrintEnd(end: LineEnd): string {
    if end == Lf then "\n" else "\r\n"
  }

  predicate AllWritable(lines: seq<Line>) {
    forall i :: 0 <= i < |lines| ==> Writable(lines[i].cells)
  }

  function PrintLines(lines: seq<Line>): string {
    if lines == [] then "" else PrintCells(lines[0].cells) + PrintEnd(lines[0].end) + PrintLines(lines[1..])
  }

  function Texts(cells: seq<Cell>): (r: seq<string>)
    ensures |r| == |cells| && forall i :: 0 <= i < |cells| ==> r[i] == cells[i].text
  {
    if cells == [] then [] else [cells[0].text] + Texts(cells[1..])
  }

  function AllTexts(lines: seq<Line>): (r: seq<seq<string>>)
    ensures |r| == |lines| && forall i :: 0 <= i < |lines| ==> r[i] == Texts(lines[i].cells)
  {
    if lines == [] then [] else [Texts(lines[0].cells)] + AllTexts(lines[1..])
  }

  // --- round trip ----------------------------------------------------------------------------------

  predicate EndsField(rest: string) {
    rest == "" || rest[0] == ',' || rest[0] == '\n' || rest[0] == '\r'
  }

  lemma Empty<T>(a: seq<T>)
    ensures a + [] == a == [] + a
  {
  }

  /** One turn of the scanner on a text that starts with `head`. */
  lemma Turned(head: string, rest: string, st: Scanner, next: Scanner)
    requires head != "" && OneTurn(st, head + rest) == Turn(next, |head|)
    ensures Scan(head + rest, st) == Scan(rest, next)
  {
    assert (head + rest)[|head|..] == rest;
  }

  lemma HeadTail<T>(a: seq<T>)
    requires a != []
    ensures a == [a[0]] + a[1..]
  {
  }

  lemma {:induction false} ScanQuoted(text: string, rest: string, st: Scanner)
    requires EndsField(rest) && st.inQuotes
    ensures Scan(Doubled(text) + ("\"" + rest), st) == Scan(rest, st.(field := st.field + text, inQuotes := false))
    decreases |text|
  {
    if text == "" {
      Empty("\"" + rest);
      Empty(st.field);
      Turned("\"", rest, st, st.(inQuotes := false));
    } else {
      var head := if text[0] == '"' then "\"\"" else [text[0]];
      var tail := Doubled(text[1..]) + ("\"" + rest);
      Seqs.Assoc(head, Doubled(text[1..]), "\"" + rest);
      Turned(head, tail, st, Add(st, text[0]));
      ScanQuoted(text[1..], rest, Add(st, text[0]));
      Seqs.Assoc(st.field, [text[0]], text[1..]);
      HeadTail(text);
    }
  }

  lemma {:induction false} ScanBare(text: string, rest: string, st: Scanner)
    requires Plain(text) && !st.inQuotes
    ensures Scan(text + rest, st) == Scan(rest, st.(field := st.field + text))
    decreases |text|
  {
    if text == "" {
      Empty(rest);
      Empty(st.field);
    } else {
      HeadTail(text);
      Seqs.Assoc([text[0]], text[1..], rest);
      Turned([text[0]], text[1..] + rest, st, Add(st, text[0]));
      ScanBare(text[1..], rest, Add(st, text[0]));
      Seqs.Assoc(st.field, [text[0]], text[1..]);
    }
  }

  lemma ScanCell(c: Cell, rest: string, st: Scanner)
    requires EndsField(rest) && (c.quoted || Plain(c.text)) && st.field == "" && !st.inQuotes
    ensures Scan(PrintCell(c) + rest, st) == Scan(rest, st.(field := c.text))
  {
    Empty(c.text);
    if c.quoted {
      var tail := Doubled(c.text) + ("\"" + rest);
      Seqs.Assoc("\"" + Doubled(c.text), "\"", rest);
      Seqs.Assoc("\"", Doubled(c.text), "\"" + rest);
      Turned("\"", tail, st, st.(inQuotes := true));
      ScanQuoted(c.text, rest, st.(inQuotes := true));
    } else {
      ScanBare(c.text, rest, st);
    }
  }

  /** The state after the fields of one record, the last of them still open. */
  function AfterCells(cells: seq<Cell>, st: Scanner): Scanner
    requires cells != []
  {
    if |cells| == 1 then st.(field := cells[0].text) else AfterCells(cells[1..], EndField(st.(field := cells[0].text)))
  }

  lemma ScanComma(c: Cell, rest: string, st: Scanner)
    requires (c.quoted || Plain(c.text)) && st.field == "" && !st.inQuotes
    ensures Scan(PrintCell(c) + ("," + rest), st) == Scan(rest, EndField(st.(field := c.text)))
  {
    ScanCell(c, "," + rest, st);
    Turned(",", rest, st.(field := c.text), EndField(st.(field := c.text)));
  }

  lemma {:induction false} ScanCells(cells: seq<Cell>, rest: string, st: Scanner)
    requires Writable(cells) && EndsField(rest) && st.field == "" && !st.inQuotes
    ensures Scan(PrintCells(cells) + rest, st) == Scan(rest, AfterCells(cells, st))
    decreases |cells|
  {
    if |cells| == 1 {
      ScanCell(cells[0], rest, st);
    } else {
      var more := PrintCells(cells[1..]) + rest;
      Seqs.Assoc(PrintCell(cells[0]) + ",", PrintCells(cells[1..]), rest);
      Seqs.Assoc(PrintCell(cells[0]), ",", more);
      ScanComma(cells[0], more, st);
      ScanCells(cells[1..], rest, EndField(st.(field := cells[0].text)));
    }
  }

  lemma {:induction false} AfterCellsIs(cells: seq<Cell>, st: Scanner)
    requires cells != []
    ensures var t := AfterCells(cells, st);
            && t.record + [t.field] == st.record + Texts(cells)
            && t.records == st.records && t.inQuotes == st.inQuotes && |t.record| == |st.record| + |cells| - 1
  {
    if |cells| > 1 {
      var next := EndField(st.(field := cells[0].text));
      AfterCellsIs(cells[1..], next);
      Seqs.Assoc(st.record, [cells[0].text], Texts(cells[1..]));
    } else {
      Empty([cells[0].text]);
    }
  }

  lemma ScanEnd(end: LineEnd, rest: string, st: Scanner)
    requires !st.inQuotes
    ensures EndsField(PrintEnd(end) + rest)
    ensures Scan(PrintEnd(end) + rest, st) == Scan(rest, EndRecord(st))
  {
    Turned("\n", rest, st, EndRecord(st));
    if end == CrLf {
      assert "\r\n" == "\r" + "\n";
      Seqs.Assoc("\r", "\n", rest);
      Turned("\r", "\n" + rest, st, st);
    }
  }

  /** Between two records, with these records read. */
  function Between(records: seq<seq<string>>): Scanner {
    Scanner("", [], records, false)
  }

  lemma ScanLine(line: Line, rest: string, records: seq<seq<string>>)
    requires Writable(line.cells)
    ensures Scan(PrintCells(line.cells) + (PrintEnd(line.end) + rest), Between(records))
         == Scan(rest, Between(records + [Texts(line.cells)]))
  {
    var st := AfterCells(line.cells, Between(records));
    AfterCellsIs(line.cells, Between(records));
    ScanEnd(line.end, rest, st);
    ScanCells(line.cells, PrintEnd(line.end) + rest, Between(records));
    Empty(Texts(line.cells));
  }

  lemma {:induction false} ScanLines(lines: seq<Line>, rest: string, records: seq<seq<string>>)
    requires AllWritable(lines)
    ensures Scan(PrintLines(lines) + rest, Between(records)) == Scan(rest, Between(records + AllTexts(lines)))
    decreases |lines|
  {
    if lines == [] {
      Empty(rest);
      Empty(records);
    } else {
      var more := PrintLines(lines[1..]);
      Seqs.Assoc(PrintCells(lines[0].cells) + PrintEnd(lines[0].end), more, rest);
      Seqs.Assoc(PrintCells(lines[0].cells), PrintEnd(lines[0].end), more + rest);
      ScanLine(lines[0], more + rest, records);
      ScanLines(lines[1..], rest, records + [Texts(lines[0].cells)]);
      Seqs.Assoc(records, [Texts(lines[0].cells)], AllTexts(lines[1..]));
    }
  }

  predicate HasBom(text: string) {
    text != "" && text[0] == BOM
  }

  /** Any records, each field quoted or plainly bare, each record ended by LF or CRLF, read back as
      the same records: embedded commas, quotes and newlines included, with or without a byte order
      mark before them. */
  lemma RoundTrip(lines: seq<Line>)
    requires AllWritable(lines)
    ensures Records([BOM] + PrintLines(lines)) == AllTexts(lines)
    ensures !HasBom(PrintLines(lines)) ==> Records(PrintLines(lines)) == AllTexts(lines)
  {
    var text := PrintLines(lines);
    ScanLines(lines, "", []);
    Empty(text);
    Empty(AllTexts(lines));
    BomIsStripped(text);
  }

  /** The line end after the last record may be left out exactly when that record is not one single
      empty field, even if the empty field is written with quotes. */
  lemma LastLineEndIsOptionalExactly(lines: seq<Line>, last: seq<Cell>)
    requires AllWritable(lines) && Writable(last)
    ensures Records([BOM] + PrintLines(lines) + PrintCells(last))
         == AllTexts(lines) + if Texts(last) == [""] then [] else [Texts(last)]
  {
    ScanLast(last, AllTexts(lines));
    ScanLines(lines, PrintCells(last), []);
    Empty(AllTexts(lines));
    Seqs.Assoc([BOM], PrintLines(lines), PrintCells(last));
    BomIsStripped(PrintLines(lines) + PrintCells(last));
  }

  lemma BomIsStripped(text: string)
    ensures Records([BOM] + text) == Flush(Scan(text, Between([])))
    ensures !HasBom(text) ==> Records(text) == Flush(Scan(text, Between([])))
  {
    assert ([BOM] + text)[1..] == text;
  }

  lemma ScanLast(last: seq<Cell>, records: seq<seq<string>>)
    requires Writable(last)
    ensures Flush(Scan(PrintCells(last), Between(records))) == records + if Texts(last) == [""] then []
        else [Texts(last)]
  {
    ScanCells(last, "", Between(records));
    AfterCellsIs(last, Between(records));
    Empty(PrintCells(last));
    Empty(Texts(last));
    Empty(records);
    var st := AfterCells(last, Between(records));
    assert Scan("", st) == st;
    LastRecord(st.record, st.field, Texts(last));
  }

  lemma LastRecord(record: seq<string>, field: string, texts: seq<string>)
    requires texts == record + [field]
    ensures texts == [""] <==> record == [] && field == ""
  {
    assert |texts| == |record| + 1 && texts[|record|] == field;
  }
}
