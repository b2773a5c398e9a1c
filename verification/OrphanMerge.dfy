/** Moving an orphan product's counts onto the product it turned out to be.
    Models `transferOrphanCount` of src/stores/scanStore.ts. */
module OrphanMerge {
  import opened StampedCopy
  import opened Seqs
  import opened Ledger
  import opened LedgerTheorems
  import opened Sums

  lemma ElementsAppend(xs: seq<string>, x: string)
    ensures Elements(xs + [x]) == Elements(xs) + {x}
  {
    assert (xs + [x])[|xs|] == x;
    forall y | y in Elements(xs) ensures y in Elements(xs + [x]) {}
  }

  /** `Array.from(new Set(xs))`: first occurrences in order. */
  function Dedup(xs: seq<string>): (r: seq<string>)
    ensures NoDuplicates(r) && Elements(r) == Elements(xs)
  {
    if xs == [] then []
    else
      var rest, x := Dedup(Front(xs)), Last(xs);
      assert xs == Front(xs) + [x];
      ElementsAppend(Front(xs), x);
      ElementsAppend(rest, x);
      assert x in rest <==> x in Elements(rest);
      AddOnce(rest, x)
  }

  function Absorb(row: Count, orphan: Count, now: string): Count {
    row.(quantity := row.quantity + orphan.quantity,
         scanEventIds := Dedup(row.scanEventIds + orphan.scanEventIds),
         aliasesSeen := Dedup(row.aliasesSeen + orphan.aliasesSeen),
         appliedIdempotencyKeys := Dedup(row.appliedIdempotencyKeys + orphan.appliedIdempotencyKeys),
         updatedAt := now)
  }

  /** `next.map(...)`: every row of the target in the orphan's session absorbs the orphan. */
  function AbsorbInto(counts: seq<Count>, target: string, orphan: Count, now: string): (r: seq<Count>)
    ensures |r| == |counts|
    ensures forall i :: 0 <= i < |r| ==>
              r[i] == if IsRow(counts[i], target, orphan.sessionId) then Absorb(counts[i], orphan, now) else counts[i]
  {
    seq(|counts|, i requires 0 <= i < |counts| =>
      if IsRow(counts[i], target, orphan.sessionId) then Absorb(counts[i], orphan, now) else counts[i])
  }

  function MergeRow(counts: seq<Count>, target: string, orphan: Count, now: string): seq<Count> {
    if orphan.quantity <= 0 then counts
    else if RowOf(counts, target, orphan.sessionId).Some? then AbsorbInto(counts, target, orphan, now)
    else counts + [orphan.(productId := target, updatedAt := now)]
  }

  function MergeRows(counts: seq<Count>, target: string, orphans: seq<Count>, now: string): seq<Count> {
    if orphans == [] then counts
    else MergeRow(MergeRows(counts, target, Front(orphans), now), target, Last(orphans), now)
  }

  function RowsOf(counts: seq<Count>, productId: string, keep: bool): seq<Count> {
    if counts == [] then []
    else RowsOf(Front(counts), productId, keep)
         + (if (Last(counts).productId == productId) == keep then [Last(counts)] else [])
  }

  function Transferred(counts: seq<Count>, oid: string, target: string, now: string): seq<Count> {
    if target == "" then RowsOf(counts, oid, false)
    else MergeRows(RowsOf(counts, oid, false), target, RowsOf(counts, oid, true), now)
  }

  method TransferOrphanCount(counts: seq<Count>, oid: string, target: string, now: string) returns (next: seq<Count>)
    ensures next == Transferred(counts, oid, target, now)
  {
    var orphanRows: seq<Count> := [];
    next := [];
    for i := 0 to |counts|
      invariant orphanRows == RowsOf(counts[..i], oid, true) && next == RowsOf(counts[..i], oid, false)
    {
      assert Front(counts[..i + 1]) == counts[..i];
      if counts[i].productId == oid {
        orphanRows := orphanRows + [counts[i]];
      } else {
        next := next + [counts[i]];
      }
    }
    assert counts[..|counts|] == counts;
    if target == "" {
      return;
    }
    ghost var kept := next;
    for i := 0 to |orphanRows|
      invariant next == MergeRows(kept, target, orphanRows[..i], now)
    {
      assert Front(orphanRows[..i + 1]) == orphanRows[..i];
      var orphanRow := orphanRows[i];
      if orphanRow.quantity <= 0 {
        continue;
      }
      var targetRow := RowOf(next, target, orphanRow.sessionId);
      if targetRow.Some? {
        next := AbsorbInto(next, target, orphanRow, now);
      } else {
        next := next + [orphanRow.(productId := target, updatedAt := now)];
      }
    }
    assert orphanRows[..|orphanRows|] == orphanRows;
  }

  // --- rows of the result -----------------------------------------------------------------------

  lemma {:induction false} RowsOfMembers(counts: seq<Count>, oid: string, keep: bool)
    ensures forall r :: r in RowsOf(counts, oid, keep) <==> r in counts && (r.productId == oid) == keep
  {
    if counts != [] {
      RowsOfMembers(Front(counts), oid, keep);
      assert counts == Front(counts) + [Last(counts)];
    }
  }

  lemma {:induction false} RowsOfUnique(counts: seq<Count>, oid: string, keep: bool)
    requires UniqueRows(counts)
    ensures UniqueRows(RowsOf(counts, oid, keep))
  {
    if counts != [] {
      var front, last := Front(counts), Last(counts);
      RowsOfUnique(front, oid, keep);
      RowsOfMembers(front, oid, keep);
      var part := RowsOf(front, oid, keep);
      forall i | 0 <= i < |part| ensures !IsRow(last, part[i].productId, part[i].sessionId) {
        assert part[i] in front;
      }
    }
  }

  lemma {:induction false} RowsOfRow(counts: seq<Count>, oid: string, keep: bool, productId: string, sessionId: string)
    ensures RowOf(RowsOf(counts, oid, keep), productId, sessionId)
         == if (productId == oid) == keep then RowOf(counts, productId, sessionId) else None
  {
    if counts != [] {
      var front, last := Front(counts), Last(counts);
      RowsOfRow(front, oid, keep, productId, sessionId);
      assert counts == front + [last];
      AppendRow(front, last, productId, sessionId);
      var part := RowsOf(front, oid, keep);
      if (last.productId == oid) == keep {
        AppendRow(part, last, productId, sessionId);
      } else {
        assert RowsOf(counts, oid, keep) == part;
      }
    }
  }

  lemma AppendRow(counts: seq<Count>, row: Count, productId: string, sessionId: string)
    ensures RowOf(counts + [row], productId, sessionId)
         == if RowOf(counts, productId, sessionId).Some? then RowOf(counts, productId, sessionId)
            else if IsRow(row, productId, sessionId) then Some(row) else None
  {
    var i := RowIndex(counts, productId, sessionId);
    if i < |counts| || IsRow(row, productId, sessionId) {
      RowIndexIs(counts + [row], productId, sessionId, i);
    } else {
      RowIndexIs(counts + [row], productId, sessionId, i + 1);
    }
  }

  /** What merging does to one row: absorb, move, or nothing. */
  function MergedRow(row: Option<Count>, orphan: Option<Count>, target: string, now: string): Option<Count> {
    if orphan.None? || orphan.value.quantity <= 0 then row
    else if row.Some? then Some(Absorb(row.value, orphan.value, now))
    else Some(orphan.value.(productId := target, updatedAt := now))
  }

  lemma MergeRowRow(counts: seq<Count>, target: string, orphan: Count, now: string, productId: string,
                    sessionId: string)
    requires UniqueRows(counts)
    ensures UniqueRows(MergeRow(counts, target, orphan, now))
    ensures RowOf(MergeRow(counts, target, orphan, now), productId, sessionId)
         == if productId == target && sessionId == orphan.sessionId
            then MergedRow(RowOf(counts, productId, sessionId), Some(orphan), target, now)
            else RowOf(counts, productId, sessionId)
  {
    if orphan.quantity > 0 {
      if RowOf(counts, target, orphan.sessionId).Some? {
        var next := AbsorbInto(counts, target, orphan, now);
        RowIndexIs(next, productId, sessionId, RowIndex(counts, productId, sessionId));
      } else {
        AppendRow(counts, orphan.(productId := target, updatedAt := now), productId, sessionId);
      }
    }
  }

  lemma {:induction false} MergeRowsRow(counts: seq<Count>, target: string, orphans: seq<Count>, oid: string,
                                        now: string,
                                        productId: string, sessionId: string)
    requires UniqueRows(counts) && UniqueRows(orphans)
    requires forall i :: 0 <= i < |orphans| ==> orphans[i].productId == oid
    ensures UniqueRows(MergeRows(counts, target, orphans, now))
    ensures RowOf(MergeRows(counts, target, orphans, now), productId, sessionId)
         == if productId == target
            then MergedRow(RowOf(counts, productId, sessionId), RowOf(orphans, oid, sessionId), target, now)
            else RowOf(counts, productId, sessionId)
  {
    if orphans != [] {
      var front, last := Front(orphans), Last(orphans);
      MergeRowsRow(counts, target, front, oid, now, productId, sessionId);
      MergeRowRow(MergeRows(counts, target, front, now), target, last, now, productId, sessionId);
      assert orphans == front + [last];
      AppendRow(front, last, oid, sessionId);
      if last.sessionId == sessionId {
        RowIndexIs(front, oid, sessionId, |front|);
      }
    }
  }

  lemma OrphanRows(counts: seq<Count>, oid: string)
    requires UniqueRows(counts)
    ensures UniqueRows(RowsOf(counts, oid, false)) && UniqueRows(RowsOf(counts, oid, true))
    ensures var orphans := RowsOf(counts, oid, true);
            forall i :: 0 <= i < |orphans| ==> orphans[i].productId == oid && orphans[i] in counts
  {
    RowsOfUnique(counts, oid, false);
    RowsOfUnique(counts, oid, true);
    RowsOfMembers(counts, oid, true);
    var orphans := RowsOf(counts, oid, true);
    forall i | 0 <= i < |orphans| ensures orphans[i].productId == oid && orphans[i] in counts {
      assert orphans[i] in orphans;
    }
  }

  /** The row of every product and session after the transfer. */
  lemma TransferredRow(counts: seq<Count>, oid: string, target: string, now: string, productId: string,
                       sessionId: string)
    requires UniqueRows(counts) && target != "" && oid != target
    ensures UniqueRows(Transferred(counts, oid, target, now))
    ensures RowOf(Transferred(counts, oid, target, now), productId, sessionId)
         == if productId == oid then None
            else if productId == target
            then MergedRow(RowOf(counts, target, sessionId), RowOf(counts, oid, sessionId), target, now)
            else RowOf(counts, productId, sessionId)
  {
    RowsOfRow(counts, oid, false, productId, sessionId);
    RowsOfRow(counts, oid, true, oid, sessionId);
    OrphanRows(counts, oid);
    var orphans := RowsOf(counts, oid, true);
    MergeRowsRow(RowsOf(counts, oid, false), target, orphans, oid, now, productId, sessionId);
  }

  /** r lists what is in either, once. */
  predicate Union(r: seq<string>, a: seq<string>, b: seq<string>) {
    NoDuplicates(r) && (forall x :: x in r ==> x in a || x in b) && (forall x :: x in a ==> x in r)
    && (forall x :: x in b ==> x in r)
  }

  lemma DedupIsUnion(a: seq<string>, b: seq<string>)
    ensures Union(Dedup(a + b), a, b)
  {
    forall x ensures x in Dedup(a + b) <==> x in a || x in b {
      assert x in Elements(Dedup(a + b)) <==> x in Elements(a + b);
    }
  }

  /** What the target's row in a session becomes, for all ids: without a target, or an orphan with a count
      above zero there, it stays; it takes the orphan's count and history into its own, or is the
      orphan's row under the target's id. */
  lemma TransferExactly(counts: seq<Count>, oid: string, target: string, now: string, productId: string,
                        sessionId: string)
    requires UniqueRows(counts)
    ensures var orphan := RowOf(counts, oid, sessionId);
            var row := if productId == oid then None else RowOf(counts, productId, sessionId);
            var after := RowOf(Transferred(counts, oid, target, now), productId, sessionId);
            if target == "" || productId != target || orphan.None? || orphan.value.quantity <= 0 then after == row
            else if row.None? then after == Some(orphan.value.(productId := target, updatedAt := now))
            else
              && after.Some?
              && after.value == row.value.(quantity := row.value.quantity + orphan.value.quantity,
                                           scanEventIds := after.value.scanEventIds,
                                           aliasesSeen := after.value.aliasesSeen,
                                           appliedIdempotencyKeys := after.value.appliedIdempotencyKeys,
                                           updatedAt := now)
              && Union(after.value.scanEventIds, row.value.scanEventIds, orphan.value.scanEventIds)
              && Union(after.value.aliasesSeen, row.value.aliasesSeen, orphan.value.aliasesSeen)
              && Union(after.value.appliedIdempotencyKeys, row.value.appliedIdempotencyKeys,
                       orphan.value.appliedIdempotencyKeys)
  {
    RowsOfRow(counts, oid, false, productId, sessionId);
    if target != "" {
      RowsOfRow(counts, oid, true, oid, sessionId);
      OrphanRows(counts, oid);
      MergeRowsRow(RowsOf(counts, oid, false), target, RowsOf(counts, oid, true), oid, now, productId, sessionId);
      var orphan, row := RowOf(counts, oid, sessionId), RowOf(counts, productId, sessionId);
      if orphan.Some? && row.Some? {
        DedupIsUnion(row.value.scanEventIds, orphan.value.scanEventIds);
        DedupIsUnion(row.value.aliasesSeen, orphan.value.aliasesSeen);
        DedupIsUnion(row.value.appliedIdempotencyKeys, orphan.value.appliedIdempotencyKeys);
      }
    }
  }

  // --- the merge commutes with replay -----------------------------------------------------------

  function RepointOne(e: Event, oid: string, target: string): Event {
    if e.matchedProductId == oid then e.(matchedProductId := target) else e
  }

  /** The event stream as if every orphan event had matched the target from the start. */
  function Repoint(events: seq<Event>, oid: string, target: string): seq<Event> {
    if events == [] then [] else Repoint(Front(events), oid, target) + [RepointOne(Last(events), oid, target)]
  }

  lemma {:induction false} RepointedDeltas(events: seq<Event>, oid: string, target: string, productId: string,
                                           sessionId: string)
    requires oid != target
    ensures var d := Deltas(Repoint(events, oid, target), productId, sessionId);
            && (productId == oid ==> d == map[])
            && (productId != oid && productId != target ==> d == Deltas(events, productId, sessionId))
            && (productId == target ==> IsUnion(d, Deltas(events, target, sessionId), Deltas(events, oid, sessionId)))
  {
    if events != [] {
      var moved := Repoint(events, oid, target);
      assert Front(moved) == Repoint(Front(events), oid, target)
          && Last(moved) == RepointOne(Last(events), oid, target);
      RepointedDeltas(Front(events), oid, target, productId, sessionId);
    }
  }

  predicate PositiveFor(events: seq<Event>, productId: string) {
    forall i :: 0 <= i < |events| && events[i].matchedProductId == productId ==> Delta(events[i]) > 0
  }

  lemma {:induction false} PositiveDeltas(events: seq<Event>, productId: string, sessionId: string)
    requires PositiveFor(events, productId)
    ensures AllPositive(Deltas(events, productId, sessionId))
  {
    if events != [] {
      PositiveDeltas(Front(events), productId, sessionId);
    }
  }

  lemma MergedRowBalances(row: Option<Count>, orphan: Option<Count>, target: string, now: string,
                          a: map<string, int>, b: map<string, int>)
    requires Balances(row, a) && Balances(orphan, b) && AllPositive(b)
    ensures var merged := MergedRow(row, orphan, target, now);
            && (merged.None? <==> a == map[] && b == map[])
            && (merged.Some? ==> merged.value.quantity == Sum(a) + Sum(b)
                                 && Elements(merged.value.scanEventIds) == a.Keys + b.Keys)
  {
    SumPositive(b);
    if row.Some? && orphan.Some? {
      var both := row.value.scanEventIds + orphan.value.scanEventIds;
      assert Elements(both) == Elements(row.value.scanEventIds) + Elements(orphan.value.scanEventIds);
    }
  }

  /** With positive deltas the transfer yields the id sets of a replay in which the orphan's events
      had matched the target, in every session; the quantity agrees exactly when orphan and target
      share no event id in that session. */
  lemma TransferCommutesWithReplay(events: seq<Event>, makeId: nat -> string, oid: string, target: string, now: string,
                                   productId: string, sessionId: string)
    requires oid != "" && target != "" && oid != target && productId != ""
    requires PositiveFor(events, oid) && PositiveFor(events, target)
    ensures var moved := RowOf(Transferred(Live(events, makeId), oid, target, now), productId, sessionId);
            var replayed := RowOf(Replayed(Repoint(events, oid, target), sessionId), productId, sessionId);
            if productId == target then
              && (moved.Some? <==> replayed.Some?)
              && (moved.Some? ==> Elements(moved.value.scanEventIds) == Elements(replayed.value.scanEventIds))
              && (SameBooks(moved, replayed)
                  <==> Disjoint(Deltas(events, oid, sessionId), Deltas(events, target, sessionId)))
            else SameBooks(moved, replayed)
  {
    LiveBalances(events, makeId, productId, sessionId);
    LiveBalances(events, makeId, oid, sessionId);
    TransferredRow(Live(events, makeId), oid, target, now, productId, sessionId);
    RepointedDeltas(events, oid, target, productId, sessionId);
    ReplayBalances(Repoint(events, oid, target), productId, sessionId);
    if productId == target {
      var a, b := Deltas(events, target, sessionId), Deltas(events, oid, sessionId);
      PositiveDeltas(events, oid, sessionId);
      PositiveDeltas(events, target, sessionId);
      MergedRowBalances(RowOf(Live(events, makeId), target, sessionId), RowOf(Live(events, makeId), oid, sessionId),
                        target, now, a, b);
      SumUnion(Deltas(Repoint(events, oid, target), target, sessionId), a, b);
      if Disjoint(a, b) {
        assert Disjoint(b, a);
      } else {
        assert !Disjoint(b, a);
        assert a.Keys + b.Keys != {};
      }
    }
  }

  /** Replaying any merged event id is a no-op: it is in the ledger of the merged row. */
  lemma MergedIdsAreNotCountedAgain(counts: seq<Count>, oid: string, target: string, now: string, e: Event)
    requires UniqueRows(counts) && target != "" && oid != target
    requires var row := RowOf(counts, target, e.sessionId); var orphan := RowOf(counts, oid, e.sessionId);
             (row.Some? && e.id in row.value.scanEventIds)
             || (orphan.Some? && orphan.value.quantity > 0 && e.id in orphan.value.scanEventIds)
    ensures var merged := RowOf(Transferred(counts, oid, target, now), target, e.sessionId);
            merged.Some? && ApplyOnce(merged.value, e) == (merged.value, false)
  {
    TransferredRow(counts, oid, target, now, target, e.sessionId);
    var row, orphan := RowOf(counts, target, e.sessionId), RowOf(counts, oid, e.sessionId);
    if row.Some? && orphan.Some? {
      var both := row.value.scanEventIds + orphan.value.scanEventIds;
      assert e.id in both ==> e.id in Elements(both) && e.id in Elements(Dedup(both));
    }
  }

  // --- conservation -----------------------------------------------------------------------------

  function SessionTotal(counts: seq<Count>, sessionId: string): int {
    if counts == [] then 0
    else
      SessionTotal(Front(counts), sessionId)
      + if Last(counts).sessionId == sessionId then Last(counts).quantity else 0
  }

  lemma {:induction false} SplitTotal(counts: seq<Count>, oid: string, sessionId: string)
    ensures SessionTotal(counts, sessionId)
         == SessionTotal(RowsOf(counts, oid, false), sessionId) + SessionTotal(RowsOf(counts, oid, true), sessionId)
  {
    if counts != [] {
      SplitTotal(Front(counts), oid, sessionId);
      var same := Last(counts).productId == oid;
      AppendTotal(RowsOf(Front(counts), oid, same), Last(counts), sessionId);
      assert RowsOf(counts, oid, !same) == RowsOf(Front(counts), oid, !same);
    }
  }

  lemma AppendTotal(counts: seq<Count>, row: Count, sessionId: string)
    ensures SessionTotal(counts + [row], sessionId)
         == SessionTotal(counts, sessionId) + (if row.sessionId == sessionId then row.quantity else 0)
  {
    assert Front(counts + [row]) == counts;
  }

  lemma {:induction false} AbsorbTotal(counts: seq<Count>, target: string, orphan: Count, now: string,
                                       sessionId: string)
    requires UniqueRows(counts)
    ensures SessionTotal(AbsorbInto(counts, target, orphan, now), sessionId)
         == SessionTotal(counts, sessionId)
            + (if RowOf(counts, target, orphan.sessionId).Some?
               && orphan.sessionId == sessionId then orphan.quantity else 0)
  {
    if counts != [] {
      var front, last := Front(counts), Last(counts);
      AbsorbTotal(front, target, orphan, now, sessionId);
      assert Front(AbsorbInto(counts, target, orphan, now)) == AbsorbInto(front, target, orphan, now);
      LastRow(counts, target, orphan.sessionId);
    }
  }

  lemma LastRow(counts: seq<Count>, productId: string, sessionId: string)
    requires counts != [] && UniqueRows(counts)
    ensures var front, last := RowOf(Front(counts), productId, sessionId), IsRow(Last(counts), productId, sessionId);
            && (last ==> front == None)
            && (RowOf(counts, productId, sessionId).Some? <==> front.Some? || last)
  {
    assert counts == Front(counts) + [Last(counts)];
    AppendRow(Front(counts), Last(counts), productId, sessionId);
    var i := RowIndex(Front(counts), productId, sessionId);
    if i < |Front(counts)| {
      assert Front(counts)[i] == counts[i];
    }
  }

  lemma {:induction false} MergeRowsTotal(counts: seq<Count>, target: string, orphans: seq<Count>, oid: string,
                                          now: string,
                                          sessionId: string)
    requires UniqueRows(counts) && UniqueRows(orphans)
    requires forall i :: 0 <= i < |orphans| ==> orphans[i].productId == oid && orphans[i].quantity >= 0
    ensures SessionTotal(MergeRows(counts, target, orphans, now), sessionId)
         == SessionTotal(counts, sessionId) + SessionTotal(orphans, sessionId)
  {
    if orphans != [] {
      var front, last := Front(orphans), Last(orphans);
      MergeRowsTotal(counts, target, front, oid, now, sessionId);
      MergeRowsRow(counts, target, front, oid, now, target, sessionId);
      var before := MergeRows(counts, target, front, now);
      AbsorbTotal(before, target, last, now, sessionId);
      AppendTotal(before, last.(productId := target, updatedAt := now), sessionId);
    }
  }

  /** No session gains or loses a unit, whatever rows there are, as long as no orphan row is negative
      (those are dropped). */
  lemma TransferConservesEachSession(counts: seq<Count>, oid: string, target: string, now: string, sessionId: string)
    requires UniqueRows(counts) && target != ""
    requires forall i :: 0 <= i < |counts| && counts[i].productId == oid ==> counts[i].quantity >= 0
    ensures SessionTotal(Transferred(counts, oid, target, now), sessionId) == SessionTotal(counts, sessionId)
  {
    SplitTotal(counts, oid, sessionId);
    OrphanRows(counts, oid);
    var orphans := RowsOf(counts, oid, true);
    MergeRowsTotal(RowsOf(counts, oid, false), target, orphans, oid, now, sessionId);
  }
}
