/** Live counting, replay and the orphan merge keep the same books. */
module LedgerTheorems {
  import opened StampedCopy
  import opened Seqs
  import opened Ledger
  import opened Sums

  // --- the reference definition: one (product, session) account -----------------------------------

  predicate Concerns(e: Event, productId: string, sessionId: string) {
    e.matchedProductId == productId && e.sessionId == sessionId
  }

  /** What each distinct event id contributed to the account; the first event of an id counts. */
  function Deltas(events: seq<Event>, productId: string, sessionId: string): map<string, int> {
    if events == [] then map[]
    else
      var before, e := Deltas(Front(events), productId, sessionId), Last(events);
      if !Concerns(e, productId, sessionId) || e.id in before then before else before[e.id := Delta(e)]
  }

  function Elements(xs: seq<string>): set<string> {
    set x | x in xs
  }

  predicate NoDuplicates(xs: seq<string>) {
    forall i, j :: 0 <= i < j < |xs| ==> xs[i] != xs[j]
  }

  /** The row carries exactly the account: the sum over distinct ids, and those ids once each. */
  ghost predicate Balances(row: Option<Count>, account: map<string, int>) {
    if row.None? then account == map[]
    else
      && account != map[]
      && row.value.quantity == Sum(account)
      && Elements(row.value.scanEventIds) == account.Keys
      && NoDuplicates(row.value.scanEventIds)
  }

  predicate UniqueRows(counts: seq<Count>) {
    forall i, j :: 0 <= i < j < |counts| ==> !IsRow(counts[j], counts[i].productId, counts[i].sessionId)
  }

  // --- one event --------------------------------------------------------------------------------

  lemma ApplyOnceBalances(row: Option<Count>, start: Count, e: Event, account: map<string, int>)
    requires Balances(row, account)
    requires row.None? ==> start.quantity == 0 && start.scanEventIds == []
    ensures Balances(Some(ApplyOnce(if row.Some? then row.value else start, e).0),
                     if e.id in account then account else account[e.id := Delta(e)])
  {
    var base := if row.Some? then row.value else start;
    assert row.None? ==> Sum(account) == 0;
    if e.id !in account {
      SumPut(account, e.id, Delta(e));
      assert e.id !in Elements(base.scanEventIds);
      assert Elements(base.scanEventIds + [e.id]) == Elements(base.scanEventIds) + {e.id};
    } else {
      assert e.id in Elements(base.scanEventIds);
    }
  }

  lemma IncrementedRow(counts: seq<Count>, e: Event, newId: string, productId: string, sessionId: string)
    requires UniqueRows(counts)
    ensures UniqueRows(Incremented(counts, e, newId))
    ensures RowOf(Incremented(counts, e, newId), productId, sessionId)
         == if !Concerns(e, productId, sessionId) then RowOf(counts, productId, sessionId)
            else
              var row := RowOf(counts, productId, sessionId);
              Some(ApplyOnce(if row.Some? then row.value
                             else CreateCount(newId, e.businessId, e.sessionId, e.matchedProductId, e.createdAt), e).0)
  {
    var next := Incremented(counts, e, newId);
    var i := RowIndex(counts, e.matchedProductId, e.sessionId);
    var j := RowIndex(counts, productId, sessionId);
    if Concerns(e, productId, sessionId) {
      RowIndexIs(next, productId, sessionId, i);
    } else if j < |counts| {
      RowIndexIs(next, productId, sessionId, j);
    } else {
      RowIndexIs(next, productId, sessionId, |next|);
    }
  }

  lemma {:induction false} LiveBalances(events: seq<Event>, makeId: nat -> string, productId: string, sessionId: string)
    requires productId != ""
    ensures UniqueRows(Live(events, makeId))
    ensures Balances(RowOf(Live(events, makeId), productId, sessionId), Deltas(events, productId, sessionId))
  {
    if events != [] {
      LiveBalances(Front(events), makeId, productId, sessionId);
      var counts, e := Live(Front(events), makeId), Last(events);
      if e.matchedProductId != "" {
        IncrementedRow(counts, e, makeId(|events|), productId, sessionId);
        ApplyOnceBalances(RowOf(counts, productId, sessionId),
                          CreateCount(makeId(|events|), e.businessId, e.sessionId, e.matchedProductId, e.createdAt),
                          e, Deltas(Front(events), productId, sessionId));
      }
    }
  }

  lemma {:induction false} ReplayBalances(events: seq<Event>, productId: string, sessionId: string)
    requires productId != ""
    ensures UniqueRows(Replayed(events, sessionId))
    ensures Balances(RowOf(Replayed(events, sessionId), productId, sessionId), Deltas(events, productId, sessionId))
  {
    if events != [] {
      ReplayBalances(Front(events), productId, sessionId);
      var counts, e := Replayed(Front(events), sessionId), Last(events);
      if e.sessionId == sessionId && e.matchedProductId != "" {
        IncrementedRow(counts, e, ReplayId(|counts|), productId, sessionId);
        ApplyOnceBalances(RowOf(counts, productId, sessionId),
                          CreateCount(ReplayId(|counts|), e.businessId, e.sessionId, e.matchedProductId, e.createdAt),
                          e, Deltas(Front(events), productId, sessionId));
      }
    }
  }

  /** Same quantity and same id set. */
  predicate SameBooks(a: Option<Count>, b: Option<Count>) {
    && (a.Some? <==> b.Some?)
    && (a.Some? ==> a.value.quantity == b.value.quantity
                    && Elements(a.value.scanEventIds) == Elements(b.value.scanEventIds))
  }

  /** The live counts equal the replay for every product of every session, repeats included. */
  lemma LiveEqualsReplay(events: seq<Event>, makeId: nat -> string, productId: string, sessionId: string)
    requires productId != ""
    ensures SameBooks(RowOf(Live(events, makeId), productId, sessionId),
                      RowOf(Replayed(events, sessionId), productId, sessionId))
  {
    LiveBalances(events, makeId, productId, sessionId);
    ReplayBalances(events, productId, sessionId);
  }

  // --- order does not matter --------------------------------------------------------------------

  /** Events of the account that share an id agree on the delta. */
  predicate ConsistentDeltas(events: seq<Event>, productId: string, sessionId: string) {
    forall e, f :: e in events && f in events ==>
      (Concerns(e, productId, sessionId) && Concerns(f, productId, sessionId) && e.id == f.id ==> Delta(e) == Delta(f))
  }

  lemma {:induction false} DeltasMembers(events: seq<Event>, productId: string, sessionId: string)
    ensures forall e :: e in events && Concerns(e, productId, sessionId) ==>
        e.id in Deltas(events, productId, sessionId)
    ensures forall id :: id in Deltas(events, productId, sessionId) ==>
              exists e :: e in events && Concerns(e, productId, sessionId) && e.id == id
                          && Deltas(events, productId, sessionId)[id] == Delta(e)
  {
    if events != [] {
      DeltasMembers(Front(events), productId, sessionId);
      assert events == Front(events) + [Last(events)];
      var before := Deltas(Front(events), productId, sessionId);
      forall id | id in Deltas(events, productId, sessionId)
        ensures exists e :: e in events && Concerns(e, productId, sessionId) && e.id == id
                            && Deltas(events, productId, sessionId)[id] == Delta(e)
      {
        if id in before {
          var e :| e in Front(events) && Concerns(e, productId, sessionId) && e.id == id && before[id] == Delta(e);
          assert e in events;
        } else {
          assert Last(events) in events;
        }
      }
    }
  }

  /** Reordering the events changes no balance, provided equal ids carry equal deltas. */
  lemma OrderDoesNotMatter(events: seq<Event>, shuffled: seq<Event>, makeId: nat -> string,
                           productId: string, sessionId: string)
    requires multiset(events) == multiset(shuffled)
    requires productId != "" && ConsistentDeltas(events, productId, sessionId)
    ensures SameBooks(RowOf(Live(events, makeId), productId, sessionId),
                      RowOf(Live(shuffled, makeId), productId, sessionId))
  {
    forall e ensures e in events <==> e in shuffled {
      assert e in events <==> e in multiset(events);
      assert e in shuffled <==> e in multiset(shuffled);
    }
    var a, b := Deltas(events, productId, sessionId), Deltas(shuffled, productId, sessionId);
    DeltasMembers(events, productId, sessionId);
    DeltasMembers(shuffled, productId, sessionId);
    assert a == b;
    LiveBalances(events, makeId, productId, sessionId);
    LiveBalances(shuffled, makeId, productId, sessionId);
  }

  lemma TwoOfOneId(e: Event, f: Event)
    requires Concerns(f, e.matchedProductId, e.sessionId) && e.id == f.id
    ensures Deltas([e, f], e.matchedProductId, e.sessionId) == map[][e.id := Delta(e)]
  {
    assert Front([e, f]) == [e] && Front([e]) == [];
    assert Deltas([e], e.matchedProductId, e.sessionId) == map[][e.id := Delta(e)];
  }

  /** Without that proviso the order does matter: the first delta of an id wins. */
  lemma ConflictingDeltasDependOnOrder(e: Event, f: Event, makeId: nat -> string)
    requires e.matchedProductId != "" && Concerns(f, e.matchedProductId, e.sessionId)
    requires e.id == f.id && Delta(e) != Delta(f)
    ensures !SameBooks(RowOf(Live([e, f], makeId), e.matchedProductId, e.sessionId),
                       RowOf(Live([f, e], makeId), e.matchedProductId, e.sessionId))
  {
    TwoOfOneId(e, f);
    TwoOfOneId(f, e);
    LiveBalances([e, f], makeId, e.matchedProductId, e.sessionId);
    LiveBalances([f, e], makeId, e.matchedProductId, e.sessionId);
    SumPut(map[], e.id, Delta(e));
    SumPut(map[], e.id, Delta(f));
  }
}
