/** What the record scanner makes of any text at all, well formed or not, character by character: only the
    number of quotes before a character and its two neighbours decide what it means. */
module CsvQuotes {
  import opened CsvParser

  /** How many of the first n characters are quotes. */
  function Quotes(s: string, n: nat): nat
    requires n <= |s|
  {
    if n == 0 then 0 else Quotes(s, n - 1) + if s[n - 1] == '"' then 1 else 0
  }

  predicate Quoted(s: string, i: nat)
    requires i <= |s|
  {
    Quotes(s, i) % 2 == 1
  }

  /** What one character does to the records: it is kept, ends a field or a record, or leaves no trace. */
  datatype Mark = Kept | FieldEnd | RecordEnd | Silent

  /** A quote leaves a trace only as the second of two in a row, and only when an odd number came before
      the first; anything else inside quotes is kept. Outside, a comma ends the field and a line feed or
      a carriage return the record, the carriage return only when no line feed follows. */
  function MarkAt(s: string, i: nat): Mark
    requires i < |s|
  {
    if s[i] == '"' then if i > 0 && s[i - 1] == '"' && !Quoted(s, i) then Kept else Silent
    else if Quoted(s, i) then Kept
    else if s[i] == ',' then FieldEnd
    else if s[i] == '\n' then RecordEnd
    else if s[i] == '\r' then if i + 1 < |s| && s[i + 1] == '\n' then Silent else RecordEnd
    else Kept
  }

  datatype Sheet = Sheet(field: string, record: seq<string>, records: seq<seq<string>>)

  /** The sheet that the first n characters have written. */
  function Written(s: string, n: nat): Sheet
    requires n <= |s|
  {
    if n == 0 then Sheet("", [], [])
    else
      var w := Written(s, n - 1);
      match MarkAt(s, n - 1)
      case Kept => w.(field := w.field + [s[n - 1]])
      case FieldEnd => w.(field := "", record := w.record + [w.field])
      case RecordEnd => Sheet("", [], w.records + [w.record + [w.field]])
      case Silent => w
  }

  /** The scanner with n characters behind it. */
  function Reached(s: string, n: nat): Scanner
    requires n <= |s|
  {
    var w := Written(s, n);
    Scanner(w.field, w.record, w.records, Quoted(s, n))
  }

  /** A turn of the loop can begin here: the character does not continue a pair of quotes. */
  predicate Between(s: string, i: nat)
    requires i <= |s|
  {
    0 < i < |s| && s[i - 1] == '"' && s[i] == '"' ==> Quoted(s, i)
  }

  lemma OneTurnReaches(s: string, i: nat)
    requires i < |s| && Between(s, i)
    ensures var t := OneTurn(Reached(s, i), s[i..]);
            i + t.used <= |s| && t.next == Reached(s, i + t.used) && Between(s, i + t.used)
  {
    assert Peeks(s[i..], '"') <==> i + 1 < |s| && s[i + 1] == '"';
    assert Peeks(s[i..], '\n') <==> i + 1 < |s| && s[i + 1] == '\n';
    if Quoted(s, i) && s[i] == '"' && i + 1 < |s| && s[i + 1] == '"' {
      assert MarkAt(s, i) == Silent && MarkAt(s, i + 1) == Kept;
      assert Written(s, i + 2) == Written(s, i + 1).(field := Written(s, i).field + ['"']);
    }
  }

  lemma {:induction false} ScanReaches(s: string, i: nat)
    requires i <= |s| && Between(s, i)
    ensures Scan(s[i..], Reached(s, i)) == Reached(s, |s|)
    decreases |s| - i
  {
    if i < |s| {
      var st := Reached(s, i);
      OneTurnReaches(s, i);
      var used := OneTurn(st, s[i..]).used;
      assert s[i..][used..] == s[i + used..];
      ScanReaches(s, i + used);
    }
  }

  function WithoutBom(text: string): string {
    if |text| > 0 && text[0] == '\U{FEFF}' then text[1..] else text
  }

  /** The records of every text are those that its characters write one by one, the byte order mark
      aside; what the last line end leaves over is a record of its own unless it is empty. */
  lemma RecordsAreWritten(text: string)
    ensures var s := WithoutBom(text);
            var w := Written(s, |s|);
            Records(text) == w.records + if w.field == "" && w.record == [] then [] else [w.record + [w.field]]
  {
    var s := WithoutBom(text);
    assert s[0..] == s;
    ScanReaches(s, 0);
  }
}
