/** Everything a count row says of the events it has counted, live and replayed. */
module LedgerRows {
  import opened StampedCopy
  import opened Seqs
  import opened Ledger
  import opened LedgerTheorems

  predicate Counts(counted: seq<Event>, id: string) {
    exists i :: 0 <= i < |counted| && counted[i].id == id
  }

  /** The events of the account, in order, each id only the first time it occurs. */
  function Counted(events: seq<Event>, productId: string, sessionId: string): seq<Event> {
    if events == [] then []
    else
      var before, e := Counted(Front(events), productId, sessionId), Last(events);
      if e.matchedProductId == productId && e.sessionId == sessionId && !Counts(before, e.id) then before + [e]
      else before
  }

  function Total(counted: seq<Event>): int {
    if counted == [] then 0
    else Total(Front(counted)) + if Last(counted).quantityDelta.Some? then Last(counted).quantityDelta.value else 1
  }

  /** The last instant that any of them carries. */
  function LastInstant(counted: seq<Event>): string {
    if counted == [] then ""
    else if Last(counted).createdAt != "" then Last(counted).createdAt else LastInstant(Front(counted))
  }

  predicate HasCode(counted: seq<Event>, x: string) {
    exists i :: 0 <= i < |counted| && counted[i].cleanCode == x
  }

  predicate HasKey(counted: seq<Event>, x: string) {
    x != "" && exists i :: 0 <= i < |counted| && counted[i].idempotencyKey == x
  }

  ghost predicate Tells(c: Count, counted: seq<Event>) {
    && counted != [] && c.quantity == Total(counted)
    && |c.scanEventIds| == |counted| && (forall i :: 0 <= i < |counted| ==> c.scanEventIds[i] == counted[i].id)
    && NoDuplicates(c.aliasesSeen) && (forall x :: x in c.aliasesSeen <==> HasCode(counted, x))
    && NoDuplicates(c.appliedIdempotencyKeys) && (forall x :: x in c.appliedIdempotencyKeys <==> HasKey(counted, x))
    && c.lastScannedAt == LastInstant(counted) && c.updatedAt == LastInstant(counted)
    && c.createdAt == counted[0].createdAt && c.businessId == counted[0].businessId && c.syncStatus == Pending
    && c.productId == counted[0].matchedProductId && c.sessionId == counted[0].sessionId
  }

  lemma AddedOnce(xs: seq<string>, x: string)
    requires NoDuplicates(xs)
    ensures NoDuplicates(AddOnce(xs, x)) && forall y :: y in AddOnce(xs, x) <==> y in xs || y == x
  {
  }

  lemma OneMore(counted: seq<Event>, e: Event, x: string)
    ensures HasCode(counted + [e], x) <==> HasCode(counted, x) || e.cleanCode == x
    ensures HasKey(counted + [e], x) <==> HasKey(counted, x) || (x != "" && e.idempotencyKey == x)
    ensures Total(counted + [e]) == Total(counted) + Delta(e)
    ensures LastInstant(counted + [e]) == if e.createdAt != "" then e.createdAt else LastInstant(counted)
  {
    var more := counted + [e];
    assert Front(more) == counted && Last(more) == e;
    if HasCode(counted, x) {
      var i :| 0 <= i < |counted| && counted[i].cleanCode == x;
      assert more[i].cleanCode == x;
    }
    if HasKey(counted, x) {
      var i :| 0 <= i < |counted| && counted[i].idempotencyKey == x;
      assert more[i].idempotencyKey == x;
    }
    assert more[|counted|] == e;
  }

  /** A row that has counted nothing yet is the one the first event creates. */
  ghost predicate ReadyFor(c: Count, counted: seq<Event>, e: Event) {
    if counted == [] then exists id :: c == CreateCount(id, e.businessId, e.sessionId, e.matchedProductId, e.createdAt)
    else Tells(c, counted)
  }

  lemma CountsOne(c: Count, counted: seq<Event>, e: Event)
    requires ReadyFor(c, counted, e) && !Counts(counted, e.id)
    ensures Tells(ApplyOnce(c, e).0, counted + [e])
  {
    assert e.id !in c.scanEventIds;
    var d := ApplyOnce(c, e).0;
    AddedOnce(c.aliasesSeen, e.cleanCode);
    AddedOnce(c.appliedIdempotencyKeys, e.idempotencyKey);
    forall x ensures x in d.aliasesSeen <==> HasCode(counted + [e], x) {
      OneMore(counted, e, x);
    }
    forall x ensures x in d.appliedIdempotencyKeys <==> HasKey(counted + [e], x) {
      OneMore(counted, e, x);
    }
    OneMore(counted, e, "");
  }

  lemma CountsNothing(c: Count, counted: seq<Event>, e: Event)
    requires Tells(c, counted) && Counts(counted, e.id)
    ensures ApplyOnce(c, e).0 == c
  {
    var i :| 0 <= i < |counted| && counted[i].id == e.id;
    assert c.scanEventIds[i] == e.id;
  }

  /** One event, applied to the row of its account. */
  lemma EventTells(row: Option<Count>, newId: string, counted: seq<Event>, e: Event)
    requires if row.None? then counted == [] else Tells(row.value, counted)
    ensures var base := if row.Some? then row.value
                        else CreateCount(newId, e.businessId, e.sessionId, e.matchedProductId, e.createdAt);
            Tells(ApplyOnce(base, e).0, if Counts(counted, e.id) then counted else counted + [e])
  {
    var base := if row.Some? then row.value
                else CreateCount(newId, e.businessId, e.sessionId, e.matchedProductId, e.createdAt);
    if Counts(counted, e.id) {
      CountsNothing(base, counted, e);
    } else {
      CountsOne(base, counted, e);
    }
  }

  /** The live row of every account tells exactly the events it has counted: which and in what order,
      their total, their codes and keys, and the instants of the first and the last. */
  lemma {:induction false} LiveRowExactly(events: seq<Event>, makeId: nat -> string, productId: string,
                                          sessionId: string)
    requires productId != ""
    ensures var row, counted := RowOf(Live(events, makeId), productId, sessionId),
                                Counted(events, productId, sessionId);
            UniqueRows(Live(events, makeId)) && if row.None? then counted == [] else Tells(row.value, counted)
  {
    if events != [] {
      LiveRowExactly(Front(events), makeId, productId, sessionId);
      var counts, e := Live(Front(events), makeId), Last(events);
      if e.matchedProductId != "" {
        IncrementedRow(counts, e, makeId(|events|), productId, sessionId);
        EventTells(RowOf(counts, productId, sessionId), makeId(|events|),
                   Counted(Front(events), productId, sessionId), e);
      }
    }
  }

  /** So does the replayed row. */
  lemma {:induction false} ReplayedRowExactly(events: seq<Event>, productId: string, sessionId: string)
    requires productId != ""
    ensures var row, counted := RowOf(Replayed(events, sessionId), productId, sessionId),
                                Counted(events, productId, sessionId);
            UniqueRows(Replayed(events, sessionId)) && if row.None? then counted == [] else Tells(row.value, counted)
  {
    if events != [] {
      ReplayedRowExactly(Front(events), productId, sessionId);
      var counts, e := Replayed(Front(events), sessionId), Last(events);
      if e.sessionId == sessionId && e.matchedProductId != "" {
        IncrementedRow(counts, e, ReplayId(|counts|), productId, sessionId);
        EventTells(RowOf(counts, productId, sessionId), ReplayId(|counts|),
                   Counted(Front(events), productId, sessionId), e);
      }
    }
  }

  lemma IncrementedOnlyItsRow(counts: seq<Count>, e: Event, newId: string, c: Count)
    requires c in Incremented(counts, e, newId)
    ensures c in counts || (c.productId == e.matchedProductId && c.sessionId == e.sessionId)
  {
  }

  /** Every replayed row is of the session and of a product that some event names; the live rows are all
      of products that events name, too. */
  lemma {:induction false} NoOtherRows(events: seq<Event>, makeId: nat -> string, sessionId: string, c: Count)
    ensures c in Replayed(events, sessionId) ==>
        c.sessionId == sessionId && c.productId != "" && Counted(events, c.productId, sessionId) != []
    ensures c in Live(events, makeId) ==> c.productId != "" && Counted(events, c.productId, c.sessionId) != []
  {
    if events != [] {
      var e := Last(events);
      NoOtherRows(Front(events), makeId, sessionId, c);
      if c in Replayed(events, sessionId) && c !in Replayed(Front(events), sessionId) {
        IncrementedOnlyItsRow(Replayed(Front(events), sessionId), e, ReplayId(|Replayed(Front(events), sessionId)|), c);
      }
      if c in Live(events, makeId) && c !in Live(Front(events), makeId) {
        IncrementedOnlyItsRow(Live(Front(events), makeId), e, makeId(|events|), c);
      }
    }
  }
}
