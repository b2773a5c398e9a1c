/** The preview of an uploaded sheet: every source row appears once, under its own line number.
    Models src/import/universalImportPreview.ts; number parsing and matching are inputs. */
module ImportPreview {
  import opened StampedCopy
  import opened Text
  import opened ColumnMapping

  const MAX_IMPORT_QUANTITY := 100_000

  /** parse: what `Number` makes of a trimmed cell, None when that is not a safe integer. */
  datatype Sheet = Sheet(headerRowIndex: nat, rows: seq<seq<string>>, mapping: map<Field, nat>,
                         parse: string -> Option<int>)

  datatype Mapped = Mapped(line: nat, partNumber: string, barcode: string, name: string, brand: string, model: string,
                           size: string, category: string, quantity: nat, uom: string, identity: string)

  datatype Status = Exact | Fuzzy | Review | Reject

  datatype Reason = QuantityBlank | QuantityInvalid | QuantityTooLarge | IdentityMissing | UnitNeedsReview | Matching

  datatype PreviewRow = PreviewRow(line: nat, status: Status, reason: Reason, source: Option<Mapped>)

  /** What becomes of one source row: an importable row, or a row held or rejected. */
  datatype Outcome = Importable(row: Mapped) | Held(held: PreviewRow) | Rejected(rejected: PreviewRow)

  function Cell(s: Sheet, cells: seq<string>, field: Field): string {
    if field in s.mapping && s.mapping[field] < |cells| then cells[s.mapping[field]] else ""
  }

  function LineOf(s: Sheet, i: nat): nat {
    s.headerRowIndex + i + 2
  }

  /** "each", whatever its case. */
  predicate IsEach(uom: string) {
    |uom| == 4 && uom[0] in {'e', 'E'} && uom[1] in {'a', 'A'} && uom[2] in {'c', 'C'} && uom[3] in {'h', 'H'}
  }

  function MapRow(s: Sheet, i: nat): Outcome
    requires i < |s.rows|
  {
    var cells, line := s.rows[i], LineOf(s, i);
    var text := Trim(Cell(s, cells, Quantity));
    var quantity := s.parse(text);
    if text == "" then Rejected(PreviewRow(line, Reject, QuantityBlank, None))
    else if quantity.None? || quantity.value < 0 then Rejected(PreviewRow(line, Reject, QuantityInvalid, None))
    else if quantity.value > MAX_IMPORT_QUANTITY then Rejected(PreviewRow(line, Reject, QuantityTooLarge, None))
    else
      var identity := OrElse(Cell(s, cells, PartNumber), OrElse(Cell(s, cells, Barcode), Cell(s, cells, Name)));
      if identity == "" then Rejected(PreviewRow(line, Reject, IdentityMissing, None))
      else
        var row := Mapped(line, Cell(s, cells, PartNumber), Cell(s, cells, Barcode), Cell(s, cells, Name),
                          Cell(s, cells, Brand),
                          Cell(s, cells, Model), Cell(s, cells, Size), Cell(s, cells, Category), quantity.value,
                          Cell(s, cells, Uom), identity);
        if row.uom != "" && !IsEach(row.uom) then Held(PreviewRow(line, Review, UnitNeedsReview, Some(row)))
        else Importable(row)
  }

  datatype Mapping = Mapping(rows: seq<Mapped>, heldForReview: seq<PreviewRow>, rejected: seq<PreviewRow>)

  function Add(m: Mapping, o: Outcome): Mapping {
    match o
    case Importable(row) => m.(rows := m.rows + [row])
    case Held(row) => m.(heldForReview := m.heldForReview + [row])
    case Rejected(row) => m.(rejected := m.rejected + [row])
  }

  function MapRows(s: Sheet, n: nat): Mapping
    requires n <= |s.rows|
  {
    if n == 0 then Mapping([], [], []) else Add(MapRows(s, n - 1), MapRow(s, n - 1))
  }

  method MapUniversalRows(s: Sheet) returns (m: Mapping)
    ensures m == MapRows(s, |s.rows|)
  {
    var rows, heldForReview, rejected := [], [], [];
    for i := 0 to |s.rows|
      invariant Mapping(rows, heldForReview, rejected) == MapRows(s, i)
    {
      match MapRow(s, i)
      case Importable(row) => rows := rows + [row];
      case Held(row) => heldForReview := heldForReview + [row];
      case Rejected(row) => rejected := rejected + [row];
    }
    m := Mapping(rows, heldForReview, rejected);
  }

  /** A matcher's answer; only these facts decide the status. */
  datatype Match = Match(matched: bool, byPartNumber: bool, nonTire: bool, inRetailCatalog: bool)

  function StatusFor(m: Match): Status {
    if m.matched then if m.byPartNumber then Exact else Fuzzy
    else if m.nonTire && m.inRetailCatalog then Exact else Review
  }

  function MatchedRows(rows: seq<Mapped>, matches: seq<Match>): (r: seq<PreviewRow>)
    requires |rows| == |matches|
    ensures |r| == |rows| && forall i :: 0 <= i < |rows| ==>
        r[i] == PreviewRow(rows[i].line, StatusFor(matches[i]), Matching, Some(rows[i]))
  {
    seq(|rows|, i requires 0 <= i < |rows| => PreviewRow(rows[i].line, StatusFor(matches[i]), Matching, Some(rows[i])))
  }

  /** Stable, by line. */
  function InsertLine(row: PreviewRow, sorted: seq<PreviewRow>): seq<PreviewRow> {
    if sorted == [] || row.line < sorted[0].line then [row] + sorted else [sorted[0]] + InsertLine(row, sorted[1..])
  }

  function ByLine(rows: seq<PreviewRow>): seq<PreviewRow> {
    if rows == [] then [] else InsertLine(rows[|rows| - 1], ByLine(rows[..|rows| - 1]))
  }

  function CountOf(rows: seq<PreviewRow>, status: Status): nat {
    if rows == [] then 0 else (if rows[0].status == status then 1 else 0) + CountOf(rows[1..], status)
  }

  datatype Preview = WrongMatchCount | Preview(rows: seq<PreviewRow>, total: nat, exact: nat, fuzzy: nat,
                                               review: nat, reject: nat)

  function BuildImportPreview(m: Mapping, matches: seq<Match>): Preview {
    if |matches| != |m.rows| then WrongMatchCount
    else
      var rows := ByLine(MatchedRows(m.rows, matches) + m.heldForReview + m.rejected);
      Preview(rows, |rows|, CountOf(rows, Exact), CountOf(rows, Fuzzy), CountOf(rows, Review), CountOf(rows, Reject))
  }

  // --- conservation ------------------------------------------------------------------------------------

  function Lines(rows: seq<PreviewRow>): (r: seq<nat>)
    ensures |r| == |rows| && forall i :: 0 <= i < |rows| ==> r[i] == rows[i].line
  {
    seq(|rows|, i requires 0 <= i < |rows| => rows[i].line)
  }

  predicate Ascending(xs: seq<nat>) {
    forall i, j :: 0 <= i < j < |xs| ==> xs[i] <= xs[j]
  }

  /** How often v occurs. */
  function Tally(xs: seq<nat>, v: nat): nat {
    if xs == [] then 0 else (if xs[0] == v then 1 else 0) + Tally(xs[1..], v)
  }

  lemma {:induction false} TallyConcat(xs: seq<nat>, ys: seq<nat>, v: nat)
    ensures Tally(xs + ys, v) == Tally(xs, v) + Tally(ys, v)
  {
    if xs == [] {
      assert xs + ys == ys;
    } else {
      assert (xs + ys)[1..] == xs[1..] + ys;
      TallyConcat(xs[1..], ys, v);
    }
  }

  lemma {:induction false} TallyOccurs(xs: seq<nat>, v: nat)
    requires Ascending(xs)
    ensures Tally(xs, v) > 0 ==> v in xs && xs[0] <= v
    ensures Tally(xs, v) == 0 ==> v !in xs
  {
    if xs != [] {
      assert xs == [xs[0]] + xs[1..];
      TallyOccurs(xs[1..], v);
    }
  }

  ghost predicate SameTally(xs: seq<nat>, ys: seq<nat>) {
    forall v :: Tally(xs, v) == Tally(ys, v)
  }

  /** Two ascending sequences of the same numbers are the same sequence. */
  lemma {:induction false} SortedOnce(xs: seq<nat>, ys: seq<nat>)
    requires Ascending(xs) && Ascending(ys) && SameTally(xs, ys)
    ensures xs == ys
    decreases |xs|
  {
    assert ys != [] ==> Tally(xs, ys[0]) == Tally(ys, ys[0]) > 0;
    assert xs != [] ==> Tally(ys, xs[0]) > 0;
    if xs != [] {
      assert Tally(xs, xs[0]) == Tally(ys, xs[0]);
      TallyOccurs(ys, xs[0]);
      assert Tally(ys, ys[0]) == Tally(xs, ys[0]);
      TallyOccurs(xs, ys[0]);
      forall v ensures Tally(xs[1..], v) == Tally(ys[1..], v) {
        assert Tally(xs, v) == Tally(ys, v);
      }
      SortedOnce(xs[1..], ys[1..]);
      assert xs == [xs[0]] + xs[1..] && ys == [ys[0]] + ys[1..];
    }
  }

  lemma LinesCons(row: PreviewRow, rows: seq<PreviewRow>)
    ensures Lines([row] + rows) == [row.line] + Lines(rows)
  {
  }

  lemma TallyCons(x: nat, xs: seq<nat>, v: nat)
    ensures Tally([x] + xs, v) == (if x == v then 1 else 0) + Tally(xs, v)
  {
    assert ([x] + xs)[1..] == xs;
  }

  lemma LinesConcat(a: seq<PreviewRow>, b: seq<PreviewRow>)
    ensures Lines(a + b) == Lines(a) + Lines(b)
  {
  }

  lemma {:induction false} InsertLineTally(row: PreviewRow, sorted: seq<PreviewRow>, v: nat)
    ensures Tally(Lines(InsertLine(row, sorted)), v) == Tally(Lines(sorted), v) + if row.line == v then 1 else 0
    decreases |sorted|
  {
    if sorted == [] || row.line < sorted[0].line {
      LinesCons(row, sorted);
      TallyCons(row.line, Lines(sorted), v);
    } else {
      InsertLineTally(row, sorted[1..], v);
      assert sorted == [sorted[0]] + sorted[1..];
      LinesCons(sorted[0], sorted[1..]);
      LinesCons(sorted[0], InsertLine(row, sorted[1..]));
      TallyCons(sorted[0].line, Lines(sorted[1..]), v);
      TallyCons(sorted[0].line, Lines(InsertLine(row, sorted[1..])), v);
    }
  }

  predicate Above(rows: seq<PreviewRow>, n: nat) {
    forall i :: 0 <= i < |rows| ==> n <= rows[i].line
  }

  predicate InOrder(rows: seq<PreviewRow>) {
    forall i, j :: 0 <= i < j < |rows| ==> rows[i].line <= rows[j].line
  }

  lemma {:induction false} InsertLineOrder(row: PreviewRow, sorted: seq<PreviewRow>, n: nat)
    requires InOrder(sorted) && Above(sorted, n) && n <= row.line
    ensures InOrder(InsertLine(row, sorted)) && Above(InsertLine(row, sorted), n)
    decreases |sorted|
  {
    if sorted != [] && row.line >= sorted[0].line {
      InsertLineOrder(row, sorted[1..], sorted[0].line);
    }
  }

  lemma {:induction false} ByLineOrder(rows: seq<PreviewRow>)
    ensures InOrder(ByLine(rows))
    decreases |rows|
  {
    if rows != [] {
      ByLineOrder(rows[..|rows| - 1]);
      InsertLineOrder(rows[|rows| - 1], ByLine(rows[..|rows| - 1]), 0);
    }
  }

  lemma {:induction false} ByLineTally(rows: seq<PreviewRow>, v: nat)
    ensures Tally(Lines(ByLine(rows)), v) == Tally(Lines(rows), v)
    decreases |rows|
  {
    if rows != [] {
      var front, last := rows[..|rows| - 1], rows[|rows| - 1];
      ByLineTally(front, v);
      InsertLineTally(last, ByLine(front), v);
      AppendLine(front, last, v);
      assert rows == front + [last];
    }
  }

  lemma AppendLine(rows: seq<PreviewRow>, row: PreviewRow, v: nat)
    ensures Tally(Lines(rows + [row]), v) == Tally(Lines(rows), v) + if row.line == v then 1 else 0
  {
    LinesConcat(rows, [row]);
    TallyConcat(Lines(rows), Lines([row]), v);
    assert Lines([row])[1..] == [];
  }

  function SheetLines(s: Sheet, n: nat): (r: seq<nat>)
    ensures |r| == n && forall i :: 0 <= i < n ==> r[i] == LineOf(s, i)
  {
    seq(n, i requires 0 <= i < n => LineOf(s, i))
  }

  function RowLines(rows: seq<Mapped>): (r: seq<nat>)
    ensures |r| == |rows| && forall i :: 0 <= i < |rows| ==> r[i] == rows[i].line
  {
    seq(|rows|, i requires 0 <= i < |rows| => rows[i].line)
  }

  lemma MapOneTally(s: Sheet, n: nat, v: nat)
    requires n < |s.rows|
    ensures TallyOf(MapRows(s, n + 1), v) == TallyOf(MapRows(s, n), v) + if LineOf(s, n) == v then 1 else 0
  {
    var m, o := MapRows(s, n), MapRow(s, n);
    assert MapRows(s, n + 1) == Add(m, o);
    OutcomeKeepsLine(s, n);
    AddTally(m, o, v);
  }

  /** Each source row goes to exactly one of the three lists. */
  lemma {:induction false} EveryRowIsMappedOnce(s: Sheet, n: nat, v: nat)
    requires n <= |s.rows|
    ensures TallyOf(MapRows(s, n), v) == Tally(SheetLines(s, n), v)
  {
    if n > 0 {
      EveryRowIsMappedOnce(s, n - 1, v);
      MapOneTally(s, n - 1, v);
      SheetLinesAppend(s, n, v);
    }
  }

  function OutcomeLine(o: Outcome): nat {
    match o
    case Importable(row) => row.line
    case Held(row) => row.line
    case Rejected(row) => row.line
  }

  lemma OutcomeKeepsLine(s: Sheet, i: nat)
    requires i < |s.rows|
    ensures OutcomeLine(MapRow(s, i)) == LineOf(s, i)
  {
  }

  function TallyOf(m: Mapping, v: nat): nat {
    Tally(RowLines(m.rows), v) + Tally(Lines(m.heldForReview), v) + Tally(Lines(m.rejected), v)
  }

  lemma AddTally(m: Mapping, o: Outcome, v: nat)
    ensures TallyOf(Add(m, o), v) == TallyOf(m, v) + if OutcomeLine(o) == v then 1 else 0
  {
    match o
    case Importable(row) => AppendRowLine(m.rows, row, v);
    case Held(row) => AppendLine(m.heldForReview, row, v);
    case Rejected(row) => AppendLine(m.rejected, row, v);
  }

  lemma SheetLinesAppend(s: Sheet, n: nat, v: nat)
    requires 0 < n
    ensures Tally(SheetLines(s, n), v) == Tally(SheetLines(s, n - 1), v) + if LineOf(s, n - 1) == v then 1 else 0
  {
    assert SheetLines(s, n) == SheetLines(s, n - 1) + [LineOf(s, n - 1)];
    TallyConcat(SheetLines(s, n - 1), [LineOf(s, n - 1)], v);
    assert [LineOf(s, n - 1)][1..] == [];
  }

  lemma AppendRowLine(rows: seq<Mapped>, row: Mapped, v: nat)
    ensures Tally(RowLines(rows + [row]), v) == Tally(RowLines(rows), v) + if row.line == v then 1 else 0
  {
    assert RowLines(rows + [row]) == RowLines(rows) + [row.line];
    TallyConcat(RowLines(rows), [row.line], v);
    assert [row.line][1..] == [];
  }

  lemma {:induction false} CountsAddUp(rows: seq<PreviewRow>)
    ensures CountOf(rows, Exact) + CountOf(rows, Fuzzy) + CountOf(rows, Review) + CountOf(rows, Reject) == |rows|
    decreases |rows|
  {
    if rows != [] {
      CountsAddUp(rows[1..]);
    }
  }

  /** x shows row i of the sheet: held or rejected as it was mapped, or with the status that the
      matcher's answer for it gives, answers going to the importable rows in turn. */
  predicate Shows(s: Sheet, i: nat, matches: seq<Match>, x: PreviewRow)
    requires i < |s.rows|
  {
    match MapRow(s, i)
    case Held(row) => x == row
    case Rejected(row) => x == row
    case Importable(row) =>
      var k := |MapRows(s, i).rows|;
      k < |matches| && x == PreviewRow(row.line, StatusFor(matches[k]), Matching, Some(row))
  }

  predicate ShowsSome(s: Sheet, n: nat, matches: seq<Match>, x: PreviewRow)
    requires n <= |s.rows|
  {
    exists i: nat :: i < n && Shows(s, i, matches, x)
  }

  predicate AllShown(s: Sheet, n: nat, matches: seq<Match>, m: Mapping)
    requires n <= |s.rows| && |m.rows| <= |matches|
  {
    && (forall k :: 0 <= k < |m.heldForReview| ==> ShowsSome(s, n, matches, m.heldForReview[k]))
    && (forall k :: 0 <= k < |m.rejected| ==> ShowsSome(s, n, matches, m.rejected[k]))
    && (forall k :: 0 <= k < |m.rows| ==>
          ShowsSome(s, n, matches, PreviewRow(m.rows[k].line, StatusFor(matches[k]), Matching, Some(m.rows[k]))))
  }

  lemma ShownLater(s: Sheet, n: nat, matches: seq<Match>, x: PreviewRow)
    requires 0 < n <= |s.rows| && ShowsSome(s, n - 1, matches, x)
    ensures ShowsSome(s, n, matches, x)
  {
    var i: nat :| i < n - 1 && Shows(s, i, matches, x);
    assert i < n;
  }

  lemma AllShownLater(s: Sheet, n: nat, matches: seq<Match>, m: Mapping)
    requires 0 < n <= |s.rows| && |m.rows| <= |matches| && AllShown(s, n - 1, matches, m)
    ensures AllShown(s, n, matches, m)
  {
    forall x | ShowsSome(s, n - 1, matches, x) ensures ShowsSome(s, n, matches, x) {
      ShownLater(s, n, matches, x);
    }
  }

  /** One row more is shown. */
  lemma AddShown(s: Sheet, n: nat, matches: seq<Match>, m: Mapping, o: Outcome)
    requires n <= |s.rows| && |Add(m, o).rows| <= |matches| && AllShown(s, n, matches, m)
    requires match o
             case Held(row) => ShowsSome(s, n, matches, row)
             case Rejected(row) => ShowsSome(s, n, matches, row)
             case Importable(row) =>
               ShowsSome(s, n, matches, PreviewRow(row.line, StatusFor(matches[|m.rows|]), Matching, Some(row)))
    ensures AllShown(s, n, matches, Add(m, o))
  {
  }

  lemma {:induction false} MappedAreShown(s: Sheet, n: nat, matches: seq<Match>)
    requires n <= |s.rows| && |MapRows(s, n).rows| <= |matches|
    ensures AllShown(s, n, matches, MapRows(s, n))
  {
    if n > 0 {
      var m, o := MapRows(s, n - 1), MapRow(s, n - 1);
      MappedAreShown(s, n - 1, matches);
      AllShownLater(s, n, matches, m);
      OutcomeIsShown(s, n - 1, matches);
      AddShown(s, n, matches, m, o);
    }
  }

  lemma OutcomeIsShown(s: Sheet, i: nat, matches: seq<Match>)
    requires i < |s.rows| && |MapRows(s, i + 1).rows| <= |matches|
    ensures match MapRow(s, i)
            case Held(row) => ShowsSome(s, i + 1, matches, row)
            case Rejected(row) => ShowsSome(s, i + 1, matches, row)
            case Importable(row) =>
              && |MapRows(s, i).rows| < |matches|
              && ShowsSome(s, i + 1, matches,
                           PreviewRow(row.line, StatusFor(matches[|MapRows(s, i).rows|]), Matching, Some(row)))
  {
    var o := MapRow(s, i);
    match o
    case Held(row) => assert Shows(s, i, matches, row);
    case Rejected(row) => assert Shows(s, i, matches, row);
    case Importable(row) =>
      assert MapRows(s, i + 1).rows == MapRows(s, i).rows + [row];
      assert Shows(s, i, matches, PreviewRow(row.line, StatusFor(matches[|MapRows(s, i).rows|]), Matching, Some(row)));
  }

  lemma {:induction false} InsertLineMembers(row: PreviewRow, sorted: seq<PreviewRow>, x: PreviewRow)
    requires x in InsertLine(row, sorted)
    ensures x == row || x in sorted
    decreases |sorted|
  {
    if sorted != [] && row.line >= sorted[0].line && x != sorted[0] {
      InsertLineMembers(row, sorted[1..], x);
    }
  }

  lemma {:induction false} ByLineMembers(rows: seq<PreviewRow>, x: PreviewRow)
    requires x in ByLine(rows)
    ensures x in rows
    decreases |rows|
  {
    var front, last := rows[..|rows| - 1], rows[|rows| - 1];
    InsertLineMembers(last, ByLine(front), x);
    if x != last {
      ByLineMembers(front, x);
    }
  }

  lemma PreviewedIsShown(s: Sheet, matches: seq<Match>, x: PreviewRow)
    requires |matches| == |MapRows(s, |s.rows|).rows|
    requires var m := MapRows(s, |s.rows|); x in ByLine(MatchedRows(m.rows, matches) + m.heldForReview + m.rejected)
    ensures ShowsSome(s, |s.rows|, matches, x)
  {
    var m := MapRows(s, |s.rows|);
    var matched := MatchedRows(m.rows, matches);
    ByLineMembers(matched + m.heldForReview + m.rejected, x);
    MappedAreShown(s, |s.rows|, matches);
    assert x in matched || x in m.heldForReview || x in m.rejected;
  }

  lemma ShownLine(s: Sheet, i: nat, matches: seq<Match>, x: PreviewRow)
    requires i < |s.rows| && Shows(s, i, matches, x)
    ensures x.line == LineOf(s, i)
  {
    OutcomeKeepsLine(s, i);
  }

  lemma ShownByItsLine(s: Sheet, matches: seq<Match>, x: PreviewRow, i: nat)
    requires i < |s.rows| && x.line == LineOf(s, i) && ShowsSome(s, |s.rows|, matches, x)
    ensures Shows(s, i, matches, x)
  {
    var j: nat :| j < |s.rows| && Shows(s, j, matches, x);
    ShownLine(s, j, matches, x);
    assert j == i;
  }

  lemma LinesAreTheSheets(s: Sheet, matches: seq<Match>)
    requires |matches| == |MapRows(s, |s.rows|).rows|
    ensures var m := MapRows(s, |s.rows|);
            Lines(ByLine(MatchedRows(m.rows, matches) + m.heldForReview + m.rejected)) == SheetLines(s, |s.rows|)
  {
    var m := MapRows(s, |s.rows|);
    var matched := MatchedRows(m.rows, matches);
    var all := matched + m.heldForReview + m.rejected;
    forall v ensures Tally(Lines(ByLine(all)), v) == Tally(SheetLines(s, |s.rows|), v) {
      ByLineTally(all, v);
      LinesConcat(matched, m.heldForReview);
      LinesConcat(matched + m.heldForReview, m.rejected);
      TallyConcat(Lines(matched), Lines(m.heldForReview), v);
      TallyConcat(Lines(matched) + Lines(m.heldForReview), Lines(m.rejected), v);
      assert Lines(matched) == RowLines(m.rows);
      EveryRowIsMappedOnce(s, |s.rows|, v);
    }
    ByLineOrder(all);
    SortedOnce(Lines(ByLine(all)), SheetLines(s, |s.rows|));
  }

  /** The i-th row of every preview shows the i-th row of the sheet, under line headerRowIndex + i + 2,
      with its own contents and the status its own match gives; the total and the four status counts
      account for every sheet row. */
  lemma EveryRowIsPreviewed(s: Sheet, matches: seq<Match>)
    requires |matches| == |MapRows(s, |s.rows|).rows|
    ensures var p := BuildImportPreview(MapRows(s, |s.rows|), matches);
            && p.Preview? && |p.rows| == p.total == |s.rows|
            && (forall i :: 0 <= i < |s.rows| ==> p.rows[i].line == LineOf(s, i) && Shows(s, i, matches, p.rows[i]))
            && p.exact + p.fuzzy + p.review + p.reject == |s.rows|
  {
    LinesAreTheSheets(s, matches);
    var m := MapRows(s, |s.rows|);
    var rows := ByLine(MatchedRows(m.rows, matches) + m.heldForReview + m.rejected);
    CountsAddUp(rows);
    forall i | 0 <= i < |s.rows| ensures rows[i].line == LineOf(s, i) && Shows(s, i, matches, rows[i]) {
      assert Lines(rows)[i] == SheetLines(s, |s.rows|)[i];
      PreviewedIsShown(s, matches, rows[i]);
      ShownByItsLine(s, matches, rows[i], i);
    }
  }
}
