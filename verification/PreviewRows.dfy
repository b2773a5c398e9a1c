/** What the preview of an import says of each row of the sheet, cell by cell. */
module PreviewRows {
  import opened StampedCopy
  import opened Text
  import opened ColumnMapping
  import opened ImportPreview

  /** What the sheet has for the field in row i: nothing when no column is mapped or the row is too short. */
  function Content(s: Sheet, i: nat, field: Field): string
    requires i < |s.rows|
  {
    if field !in s.mapping then "" else if |s.rows[i]| <= s.mapping[field] then "" else s.rows[i][s.mapping[field]]
  }

  function Stated(s: Sheet, i: nat): Option<int>
    requires i < |s.rows|
  {
    s.parse(Trim(Content(s, i, Quantity)))
  }

  /** The quantity is a whole number from 0 up to 100000. */
  predicate Countable(s: Sheet, i: nat)
    requires i < |s.rows|
  {
    Trim(Content(s, i, Quantity)) != "" && Stated(s, i).Some? && 0 <= Stated(s, i).value <= 100000
  }

  predicate Identified(s: Sheet, i: nat)
    requires i < |s.rows|
  {
    Content(s, i, PartNumber) != "" || Content(s, i, Barcode) != "" || Content(s, i, Name) != ""
  }

  function Lower(c: char): char {
    if 'A' <= c <= 'Z' then (c as int + 32) as char else c
  }

  /** No unit, or "each" in any case. */
  predicate CountsPieces(unit: string) {
    unit != "" ==>
      && |unit| == 4 && Lower(unit[0]) == 'e' && Lower(unit[1]) == 'a' && Lower(unit[2]) == 'c' && Lower(unit[3]) == 'h'
  }

  predicate GoesToTheMatcher(s: Sheet, i: nat)
    requires i < |s.rows|
  {
    Countable(s, i) && Identified(s, i) && CountsPieces(Content(s, i, Uom))
  }

  /** The row as it is shown: its own cells, under its own line, known by the first of part number,
      barcode and name that is there. */
  predicate Carries(s: Sheet, i: nat, row: Mapped)
    requires i < |s.rows|
  {
    && row.line == s.headerRowIndex + i + 2
    && row.partNumber == Content(s, i, PartNumber) && row.barcode == Content(s, i, Barcode)
    && row.name == Content(s, i, Name) && row.brand == Content(s, i, Brand) && row.model == Content(s, i, Model)
    && row.size == Content(s, i, Size) && row.category == Content(s, i, Category) && row.uom == Content(s, i, Uom)
    && Stated(s, i) == Some(row.quantity)
    && row.identity == (if row.partNumber != "" then row.partNumber
                        else if row.barcode != "" then row.barcode else row.name)
  }

  predicate ShowsRow(s: Sheet, i: nat, x: PreviewRow)
    requires i < |s.rows|
  {
    x.line == s.headerRowIndex + i + 2 && x.source.Some? && Carries(s, i, x.source.value)
  }

  /** Why a row is not even held for review. */
  predicate RejectedFor(s: Sheet, i: nat, reason: Reason)
    requires i < |s.rows|
  {
    match reason
    case QuantityBlank => Trim(Content(s, i, Quantity)) == ""
    case QuantityInvalid =>
      Trim(Content(s, i, Quantity)) != "" && (Stated(s, i).None? || Stated(s, i).value < 0)
    case QuantityTooLarge =>
      Trim(Content(s, i, Quantity)) != "" && Stated(s, i).Some? && Stated(s, i).value > 100000
    case IdentityMissing => Countable(s, i) && !Identified(s, i)
    case UnitNeedsReview => false
    case Matching => false
  }

  lemma PiecesIsEach(unit: string)
    ensures CountsPieces(unit) <==> unit == "" || IsEach(unit)
  {
  }

  /** The fate of each source row, by its cells alone. */
  lemma FateExactly(s: Sheet, i: nat)
    requires i < |s.rows|
    ensures match MapRow(s, i)
            case Importable(row) => GoesToTheMatcher(s, i) && Carries(s, i, row)
            case Held(x) =>
              && Countable(s, i) && Identified(s, i) && !CountsPieces(Content(s, i, Uom))
              && x.status == Review && x.reason == UnitNeedsReview && ShowsRow(s, i, x)
            case Rejected(x) =>
              && !(Countable(s, i) && Identified(s, i)) && x.status == Reject && RejectedFor(s, i, x.reason)
              && x.line == s.headerRowIndex + i + 2 && x.source == None
  {
    PiecesIsEach(Content(s, i, Uom));
    assert forall f :: Content(s, i, f) == Cell(s, s.rows[i], f);
  }

  /** Which of the first n rows go to the matcher. */
  function Sent(s: Sheet, n: nat): (r: seq<bool>)
    requires n <= |s.rows|
    ensures |r| == n && forall i :: 0 <= i < n ==> r[i] == GoesToTheMatcher(s, i)
  {
    seq(n, i requires 0 <= i < n => GoesToTheMatcher(s, i))
  }

  function Trues(bits: seq<bool>): nat {
    if bits == [] then 0 else Trues(bits[..|bits| - 1]) + if bits[|bits| - 1] then 1 else 0
  }

  /** How many of the first n rows go to the matcher; its answers come in that order. */
  function MatcherRows(s: Sheet, n: nat): nat
    requires n <= |s.rows|
  {
    Trues(Sent(s, n))
  }

  lemma OneRowMore(s: Sheet, i: nat)
    requires i < |s.rows|
    ensures |MapRows(s, i + 1).rows| == |MapRows(s, i).rows| + if GoesToTheMatcher(s, i) then 1 else 0
  {
    FateExactly(s, i);
    assert MapRows(s, i + 1) == Add(MapRows(s, i), MapRow(s, i));
  }

  lemma {:induction false} MappedIsTrues(s: Sheet, bits: seq<bool>)
    requires |bits| <= |s.rows| && bits == Sent(s, |bits|)
    ensures |MapRows(s, |bits|).rows| == Trues(bits)
    decreases |bits|
  {
    if bits != [] {
      var front := bits[..|bits| - 1];
      assert front == Sent(s, |front|);
      MappedIsTrues(s, front);
      OneRowMore(s, |front|);
    }
  }

  lemma MatcherRowsAre(s: Sheet, n: nat)
    requires n <= |s.rows|
    ensures |MapRows(s, n).rows| == MatcherRows(s, n)
  {
    MappedIsTrues(s, Sent(s, n));
  }

  /** Only an exact part number, or a catalog hit for what is no tire, is counted without review. */
  predicate StatusFits(m: Match, status: Status) {
    match status
    case Exact => (m.matched && m.byPartNumber) || (!m.matched && m.nonTire && m.inRetailCatalog)
    case Fuzzy => m.matched && !m.byPartNumber
    case Review => !m.matched && !(m.nonTire && m.inRetailCatalog)
    case Reject => false
  }

  /** The i-th row of every preview says of the i-th row of the sheet exactly what its cells deserve:
      rejected with its reason, held for its unit, or with the status of the match made for it. */
  lemma PreviewSaysExactly(s: Sheet, matches: seq<Match>, i: nat)
    requires |matches| == MatcherRows(s, |s.rows|) && i < |s.rows|
    ensures var p := BuildImportPreview(MapRows(s, |s.rows|), matches);
            && p.Preview? && |p.rows| == |s.rows| && p.rows[i].line == s.headerRowIndex + i + 2
            && var x := p.rows[i];
            if GoesToTheMatcher(s, i) then
              var k := MatcherRows(s, i);
              k < |matches| && StatusFits(matches[k], x.status) && x.reason == Matching && ShowsRow(s, i, x)
            else if Countable(s, i) && Identified(s, i) then
              x.status == Review && x.reason == UnitNeedsReview && ShowsRow(s, i, x)
            else x.status == Reject && RejectedFor(s, i, x.reason) && x.source == None
  {
    MatcherRowsAre(s, |s.rows|);
    MatcherRowsAre(s, i);
    EveryRowIsPreviewed(s, matches);
    FateExactly(s, i);
    var x := BuildImportPreview(MapRows(s, |s.rows|), matches).rows[i];
    assert Shows(s, i, matches, x);
  }

  /** A preview comes about exactly when there is one answer for each row that goes to the matcher. */
  lemma PreviewNeedsAllAnswers(s: Sheet, matches: seq<Match>)
    ensures BuildImportPreview(MapRows(s, |s.rows|), matches) == WrongMatchCount
       <==> |matches| != MatcherRows(s, |s.rows|)
  {
    MatcherRowsAre(s, |s.rows|);
  }
}
