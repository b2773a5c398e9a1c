/** The inventory ledger: every count row records the event ids it has applied, so replaying the
    event stream in any way gives the same books. Models src/inventory/ledger.ts and replay.ts. */
module Ledger {
  import opened StampedCopy
  import opened Seqs
  import opened Text
  import Decimal

  datatype SyncStatus = Pending | Synced

  /** matchedProductId, idempotencyKey and createdAt are "" when absent; all three are falsy then. */
  datatype Event = Event(id: string, businessId: string, sessionId: string, matchedProductId: string,
                         quantityDelta: Option<int>, cleanCode: string, createdAt: string, idempotencyKey: string)

  datatype Count = Count(id: string, businessId: string, sessionId: string, productId: string, quantity: int,
                         lastScannedAt: string, aliasesSeen: seq<string>, scanEventIds: seq<string>,
                         createdAt: string, updatedAt: string, syncStatus: SyncStatus,
                         appliedIdempotencyKeys: seq<string>)

  function Delta(e: Event): int {
    if e.quantityDelta.Some? then e.quantityDelta.value else 1
  }

  function CreateCount(id: string, businessId: string, sessionId: string, productId: string, createdAt: string): Count {
    Count(id, businessId, sessionId, productId, 0, createdAt, [], [], createdAt, createdAt, Pending, [])
  }

  function AddOnce(xs: seq<string>, x: string): seq<string> {
    if x in xs then xs else xs + [x]
  }

  /** Apply an event exactly once; the flag says whether it was applied. */
  function ApplyOnce(count: Count, e: Event): (Count, bool) {
    if e.id in count.scanEventIds then (count, false)
    else (count.(quantity := count.quantity + Delta(e),
                 lastScannedAt := OrElse(e.createdAt, count.lastScannedAt),
                 aliasesSeen := AddOnce(count.aliasesSeen, e.cleanCode),
                 scanEventIds := count.scanEventIds + [e.id],
                 appliedIdempotencyKeys := if e.idempotencyKey == "" then count.appliedIdempotencyKeys
                                           else AddOnce(count.appliedIdempotencyKeys, e.idempotencyKey),
                 updatedAt := OrElse(e.createdAt, count.updatedAt)), true)
  }

  // --- the live path ----------------------------------------------------------------------------

  predicate IsRow(c: Count, productId: string, sessionId: string) {
    c.productId == productId && c.sessionId == sessionId
  }

  /** Position of the first row of the product in the session, or the length when there is none. */
  function RowIndex(counts: seq<Count>, productId: string, sessionId: string): (i: nat)
    ensures i <= |counts|
    ensures i < |counts| ==> IsRow(counts[i], productId, sessionId)
    ensures forall j :: 0 <= j < i ==> !IsRow(counts[j], productId, sessionId)
  {
    if counts == [] then 0
    else if IsRow(counts[0], productId, sessionId) then 0
    else 1 + RowIndex(counts[1..], productId, sessionId)
  }

  function RowOf(counts: seq<Count>, productId: string, sessionId: string): Option<Count> {
    var i := RowIndex(counts, productId, sessionId);
    if i < |counts| then Some(counts[i]) else None
  }

  function Incremented(counts: seq<Count>, e: Event, newId: string): seq<Count> {
    var i := RowIndex(counts, e.matchedProductId, e.sessionId);
    if i < |counts| then counts[i := ApplyOnce(counts[i], e).0]
    else counts + [ApplyOnce(CreateCount(newId, e.businessId, e.sessionId, e.matchedProductId, e.createdAt), e).0]
  }

  datatype IncrementResult = Unmatched | Counted(counts: seq<Count>, count: Count, applied: bool)

  method IncrementInventoryCount(counts: seq<Count>, e: Event, newId: string) returns (r: IncrementResult)
    ensures r.Unmatched? <==> e.matchedProductId == ""
    ensures r.Counted? ==>
              && r.counts == Incremented(counts, e, newId)
              && RowOf(r.counts, e.matchedProductId, e.sessionId) == Some(r.count)
              && (r.applied <==> (var was := RowOf(counts, e.matchedProductId, e.sessionId);
                                  was.Some? ==> e.id !in was.value.scanEventIds))
              && e.id in r.count.scanEventIds
  {
    if e.matchedProductId == "" {
      return Unmatched;
    }
    var idx := 0;
    while idx < |counts| && !IsRow(counts[idx], e.matchedProductId, e.sessionId)
      invariant idx <= |counts|
      invariant forall j :: 0 <= j < idx ==> !IsRow(counts[j], e.matchedProductId, e.sessionId)
    {
      idx := idx + 1;
    }
    RowIndexIs(counts, e.matchedProductId, e.sessionId, idx);
    var base := if idx < |counts| then counts[idx]
                else CreateCount(newId, e.businessId, e.sessionId, e.matchedProductId, e.createdAt);
    var (count, applied) := ApplyOnce(base, e);
    var next := counts;
    if idx < |counts| {
      next := next[idx := count];
    } else {
      next := next + [count];
    }
    RowIndexIs(next, e.matchedProductId, e.sessionId, idx);
    r := Counted(next, count, applied);
  }

  lemma RowIndexIs(counts: seq<Count>, productId: string, sessionId: string, i: nat)
    requires i <= |counts| && (i < |counts| ==> IsRow(counts[i], productId, sessionId))
    requires forall j :: 0 <= j < i ==> !IsRow(counts[j], productId, sessionId)
    ensures RowIndex(counts, productId, sessionId) == i
  {
  }

  /** The rows after the live path has counted every matched event in order. */
  function Live(events: seq<Event>, makeId: nat -> string): seq<Count> {
    if events == [] then []
    else
      var counts, e := Live(Front(events), makeId), Last(events);
      if e.matchedProductId == "" then counts else Incremented(counts, e, makeId(|events|))
  }

  // --- replay -----------------------------------------------------------------------------------

  function ReplayId(n: nat): string {
    "replay-" + Decimal.Print(n)
  }

  function Replayed(events: seq<Event>, sessionId: string): seq<Count> {
    if events == [] then []
    else
      var counts, e := Replayed(Front(events), sessionId), Last(events);
      if e.sessionId != sessionId || e.matchedProductId == "" then counts
      else Incremented(counts, e, ReplayId(|counts|))
  }

  function Values(order: seq<string>, byProduct: map<string, Count>): seq<Count>
    requires forall p :: p in order ==> p in byProduct
  {
    seq(|order|, i requires 0 <= i < |order| => byProduct[order[i]])
  }

  lemma ValuesUpdate(order: seq<string>, byProduct: map<string, Count>, k: nat, c: Count)
    requires (forall p :: p in order ==> p in byProduct) && k < |order|
    requires forall i, j :: 0 <= i < j < |order| ==> order[i] != order[j]
    ensures Values(order, byProduct[order[k] := c]) == Values(order, byProduct)[k := c]
  {
  }

  lemma ValuesAppend(order: seq<string>, byProduct: map<string, Count>, p: string, c: Count)
    requires (forall q :: q in order ==> q in byProduct) && p !in order
    ensures Values(order + [p], byProduct[p := c]) == Values(order, byProduct) + [c]
  {
  }

  /** The loop over a Map from product to count; `order` is the Map's insertion order. */
  method ReplayLedgerCounts(events: seq<Event>, sessionId: string) returns (counts: seq<Count>)
    ensures counts == Replayed(events, sessionId)
  {
    var order: seq<string> := [];
    var byProduct: map<string, Count> := map[];
    var seqNo := 0;
    for i := 0 to |events|
      invariant seqNo == |order|
      invariant forall p :: p in order <==> p in byProduct
      invariant forall j, k :: 0 <= j < k < |order| ==> order[j] != order[k]
      invariant forall p :: p in byProduct ==> IsRow(byProduct[p], p, sessionId)
      invariant Values(order, byProduct) == Replayed(events[..i], sessionId)
    {
      var e := events[i];
      assert Front(events[..i + 1]) == events[..i];
      if e.sessionId != sessionId {
        continue;
      }
      if e.matchedProductId == "" {
        continue;
      }
      ghost var was := Values(order, byProduct);
      if e.matchedProductId in byProduct {
        ghost var k :| 0 <= k < |order| && order[k] == e.matchedProductId;
        RowIndexIs(was, e.matchedProductId, sessionId, k);
        ValuesUpdate(order, byProduct, k, ApplyOnce(was[k], e).0);
        byProduct := byProduct[e.matchedProductId := ApplyOnce(byProduct[e.matchedProductId], e).0];
      } else {
        RowIndexIs(was, e.matchedProductId, sessionId, |was|);
        var created := CreateCount(ReplayId(seqNo), e.businessId, e.sessionId, e.matchedProductId, e.createdAt);
        seqNo := seqNo + 1;
        ValuesAppend(order, byProduct, e.matchedProductId, ApplyOnce(created, e).0);
        byProduct := byProduct[e.matchedProductId := ApplyOnce(created, e).0];
        order := order + [e.matchedProductId];
      }
    }
    assert events[..|events|] == events;
    counts := Values(order, byProduct);
  }
}
