/** Scan, drain, load and refresh neither lose nor double a scan. */
module SyncTheorems {
  import opened StampedCopy
  import opened Seqs
  import opened OrderedMap
  import opened CloudMerge
  import opened CloudRows
  import opened SyncLedger
  import L = Ledger

  // --- what a merge does to one row -----------------------------------------------------------------

  function Held(r: Option<L.Count>): int {
    if r.Some? then r.value.quantity else 0
  }

  lemma {:induction false} QuantityOfValues(m: seq<Entry<CountKey, L.Count>>, k: CountKey)
    requires KeyedBy(m, KeyOf)
    ensures QuantityOf(Values(m), k) == Held(Get(m, k))
  {
    if m != [] {
      QuantityOfValues(m[1..], k);
      assert Values(m) == [m[0].value] + Values(m[1..]);
    }
  }

  lemma QuantityOfRows(rows: seq<L.Count>, k: CountKey)
    requires Unique(rows, KeyOf)
    ensures QuantityOf(rows, k) == Held(Get(From(rows, KeyOf), k))
  {
    FromKeyed(rows, KeyOf);
    FromValues(rows, KeyOf);
    QuantityOfValues(From(rows, KeyOf), k);
  }

  lemma {:induction false} QuantityNeedsKey(rows: seq<L.Count>, k: CountKey)
    ensures !HasKey(rows, k) ==> QuantityOf(rows, k) == 0
  {
    if rows != [] {
      QuantityNeedsKey(rows[1..], k);
      if HasKey(rows[1..], k) {
        var i :| 0 <= i < |rows[1..]| && KeyOf(rows[1..][i]) == k;
        assert KeyOf(rows[i + 1]) == k;
      }
      assert KeyOf(rows[0]) == k ==> HasKey(rows, k);
    }
  }

  lemma {:induction false} QuantityAt(rows: seq<L.Count>, i: nat)
    requires Unique(rows, KeyOf) && i < |rows|
    ensures QuantityOf(rows, KeyOf(rows[i])) == rows[i].quantity
  {
    if i > 0 {
      assert rows[1..][i - 1] == rows[i];
      QuantityAt(rows[1..], i - 1);
    }
  }

  /** A row that the remote list does not name, or whose remote row is left out, stays as seeded;
      any other row becomes the remote one. */
  lemma {:induction false} MergedAt(seed: seq<L.Count>, remote: seq<L.Count>, rule: Rule, k: CountKey)
    requires Unique(remote, KeyOf)
    ensures KeyedBy(MergedCounts(seed, remote, rule), KeyOf)
    ensures !HasKey(remote, k) ==> Get(MergedCounts(seed, remote, rule), k) == Get(From(seed, KeyOf), k)
    ensures forall i :: 0 <= i < |remote| && KeyOf(remote[i]) == k ==>
              Get(MergedCounts(seed, remote, rule), k)
              == if Skips(rule, From(seed, KeyOf), remote[i]) then Get(From(seed, KeyOf), k) else Some(remote[i])
  {
    FromKeyed(seed, KeyOf);
    if remote != [] {
      var n := |remote| - 1;
      var r := remote[n];
      var m := MergedCounts(seed, Front(remote), rule);
      MergedAt(seed, Front(remote), rule, k);
      SetKeyed(m, r, KeyOf);
      GetSet(m, KeyOf(r), r, k);
      assert KeyOf(r) == k ==> !HasKey(Front(remote), k);
      if !HasKey(remote, k) {
        assert KeyOf(remote[n]) != k;
        assert forall i :: 0 <= i < n ==> KeyOf(Front(remote)[i]) == KeyOf(remote[i]);
      }
    }
  }

  // --- sums over the queue ---------------------------------------------------------------------------

  predicate Positive(items: seq<Item>, businessId: string) {
    forall i :: 0 <= i < |items| ==>
      items[i].businessId == businessId
          && (items[i].operation == IncrementCount ==> items[i].payload.Some? && items[i].payload.value.delta > 0)
  }

  predicate DistinctKeys(items: seq<Item>) {
    forall i, j :: 0 <= i < j < |items| ==> items[i].idempotencyKey != items[j].idempotencyKey
  }

  lemma {:induction false} WaitingAppend(items: seq<Item>, it: Item, applied: set<string>, k: CountKey)
    ensures Waiting(items + [it], applied, k)
         == Waiting(items, applied, k) + if it.idempotencyKey in applied then 0 else DeltaFor(it, k)
  {
    if items != [] {
      assert (items + [it])[1..] == items[1..] + [it];
      WaitingAppend(items[1..], it, applied, k);
    }
  }

  lemma {:induction false} WaitingRemoved(items: seq<Item>, i: nat, applied: set<string>, k: CountKey)
    requires i < |items| && items[i].idempotencyKey in applied
    ensures Waiting(Removed(items, i), applied, k) == Waiting(items, applied, k)
  {
    if i == 0 {
      assert Removed(items, 0) == items[1..];
    } else {
      WaitingRemoved(items[1..], i - 1, applied, k);
      assert Removed(items, i) == [items[0]] + Removed(items[1..], i - 1);
    }
  }

  lemma {:induction false} WaitingUnseen(items: seq<Item>, key: string, applied: set<string>, k: CountKey)
    requires forall i :: 0 <= i < |items| ==> items[i].idempotencyKey != key
    ensures Waiting(items, applied + {key}, k) == Waiting(items, applied, k)
  {
    if items != [] {
      WaitingUnseen(items[1..], key, applied, k);
    }
  }

  lemma {:induction false} WaitingApplied(items: seq<Item>, i: nat, applied: set<string>, k: CountKey)
    requires i < |items| && DistinctKeys(items) && items[i].idempotencyKey !in applied
    ensures Waiting(items, applied + {items[i].idempotencyKey}, k) == Waiting(items, applied, k) - DeltaFor(items[i], k)
  {
    if i == 0 {
      WaitingUnseen(items[1..], items[0].idempotencyKey, applied, k);
    } else {
      assert items[1..][i - 1] == items[i];
      WaitingApplied(items[1..], i - 1, applied, k);
    }
  }

  lemma {:induction false} WaitingPositive(items: seq<Item>, businessId: string, applied: set<string>, k: CountKey)
    requires Positive(items, businessId)
    ensures Waiting(items, applied, k) >= 0
    ensures (exists i :: 0 <= i < |items| && items[i].idempotencyKey !in applied && DeltaFor(items[i], k) > 0)
            ==> Waiting(items, applied, k) > 0
  {
    if items != [] {
      WaitingPositive(items[1..], businessId, applied, k);
      if exists i :: 0 <= i < |items| && items[i].idempotencyKey !in applied && DeltaFor(items[i], k) > 0 {
        var i :| 0 <= i < |items| && items[i].idempotencyKey !in applied && DeltaFor(items[i], k) > 0;
        if i > 0 {
          assert items[1..][i - 1] == items[i];
        }
      }
    }
  }

  /** Nothing of row k waits outside `applied`. */
  lemma {:induction false} NothingWaits(items: seq<Item>, applied: set<string>, k: CountKey)
    requires forall i :: 0 <= i < |items| ==> items[i].idempotencyKey in applied || DeltaFor(items[i], k) == 0
    ensures Waiting(items, applied, k) == 0
  {
    if items != [] {
      NothingWaits(items[1..], applied, k);
    }
  }

  // --- the scan step ---------------------------------------------------------------------------------

  predicate Books(rows: seq<L.Count>) {
    Unique(rows, KeyOf) && forall i :: 0 <= i < |rows| ==> rows[i].quantity >= 0
  }

  lemma {:induction false} QuantityUpdate(rows: seq<L.Count>, i: nat, row: L.Count, k: CountKey)
    requires Unique(rows, KeyOf) && i < |rows| && KeyOf(row) == KeyOf(rows[i])
    ensures QuantityOf(rows[i := row], k) == if k == KeyOf(row) then row.quantity else QuantityOf(rows, k)
  {
    if i > 0 {
      assert rows[1..][i - 1] == rows[i] && rows[i := row][1..] == rows[1..][i - 1 := row];
      QuantityUpdate(rows[1..], i - 1, row, k);
    } else {
      assert rows[0 := row][1..] == rows[1..];
    }
  }

  lemma {:induction false} QuantityAppend(rows: seq<L.Count>, row: L.Count, k: CountKey)
    requires !HasKey(rows, KeyOf(row))
    ensures QuantityOf(rows + [row], k) == if k == KeyOf(row) then row.quantity else QuantityOf(rows, k)
  {
    if rows != [] {
      assert KeyOf(rows[0]) != KeyOf(row);
      forall i | 0 <= i < |rows[1..]| ensures KeyOf(rows[1..][i]) != KeyOf(row) {
        assert rows[1..][i] == rows[i + 1];
      }
      assert (rows + [row])[1..] == rows[1..] + [row];
      QuantityAppend(rows[1..], row, k);
    }
  }

  lemma ScanAdds(rows: seq<L.Count>, e: L.Event, rowId: string, k: CountKey)
    requires Books(rows) && L.Delta(e) > 0
    requires var row := L.RowOf(rows, e.matchedProductId, e.sessionId); row.Some? ==> e.id !in row.value.scanEventIds
    ensures Books(L.Incremented(rows, e, rowId))
    ensures QuantityOf(L.Incremented(rows, e, rowId), k)
         == QuantityOf(rows, k) + if k == CountKey(e.sessionId, e.matchedProductId) then L.Delta(e) else 0
  {
    var i := L.RowIndex(rows, e.matchedProductId, e.sessionId);
    if i < |rows| {
      QuantityUpdate(rows, i, L.ApplyOnce(rows[i], e).0, k);
      QuantityAt(rows, i);
    } else {
      var row := L.ApplyOnce(L.CreateCount(rowId, e.businessId, e.sessionId, e.matchedProductId, e.createdAt), e).0;
      assert !HasKey(rows, KeyOf(row));
      QuantityAppend(rows, row, k);
      QuantityNeedsKey(rows, KeyOf(row));
    }
  }

  // --- the two merges --------------------------------------------------------------------------------

  lemma FindRow(rows: seq<L.Count>, c: L.Count)
    requires Unique(rows, KeyOf) && c in rows
    ensures Get(From(rows, KeyOf), KeyOf(c)) == Some(c)
  {
    FromKeyed(rows, KeyOf);
    FromValues(rows, KeyOf);
    GetKeyed(From(rows, KeyOf), KeyOf, KeyOf(c));
  }

  lemma FoundRow(m: seq<Entry<CountKey, L.Count>>, k: CountKey)
    requires KeyedBy(m, KeyOf) && Get(m, k).Some?
    ensures Get(m, k).value in Values(m)
  {
    GetKeyed(m, KeyOf, k);
  }

  lemma KeyedValues(m: seq<Entry<CountKey, L.Count>>)
    requires KeyedBy(m, KeyOf)
    requires forall i :: 0 <= i < |m| ==> m[i].value.quantity >= 0
    ensures Books(Values(m))
  {
    ValuesUnique(m, KeyOf);
  }

  lemma {:induction false} MergedBooks(seed: seq<L.Count>, remote: seq<L.Count>, rule: Rule)
    requires Books(seed) && Books(remote)
    ensures Books(Values(MergedCounts(seed, remote, rule)))
  {
    FromKeyed(seed, KeyOf);
    FromValues(seed, KeyOf);
    if remote != [] {
      var r := remote[|remote| - 1];
      var m := MergedCounts(seed, Front(remote), rule);
      MergedBooks(seed, Front(remote), rule);
      MergedAt(seed, Front(remote), rule, KeyOf(r));
      SetKeyed(m, r, KeyOf);
      SetValues(m, KeyOf(r), r);
      var n := Set(m, KeyOf(r), r);
      forall i | 0 <= i < |n| ensures n[i].value.quantity >= 0 {
        assert n[i].value == Values(n)[i];
        assert Values(n)[i] in Values(n);
      }
      KeyedValues(n);
    }
  }

  /** One row after a merge: as seeded, or as the remote list has it. */
  lemma MergedQuantity(seed: seq<L.Count>, remote: seq<L.Count>, rule: Rule, k: CountKey)
    requires Books(seed) && Books(remote)
    ensures var q := QuantityOf(Values(MergedCounts(seed, remote, rule)), k);
            || q == QuantityOf(seed, k)
            || (HasKey(remote, k) && q == QuantityOf(remote, k))
    ensures !HasKey(remote, k) ==> QuantityOf(Values(MergedCounts(seed, remote, rule)), k) == QuantityOf(seed, k)
    ensures forall i :: 0 <= i < |remote| && KeyOf(remote[i]) == k ==>
              QuantityOf(Values(MergedCounts(seed, remote, rule)), k)
              == if Skips(rule, From(seed, KeyOf), remote[i]) then QuantityOf(seed, k) else QuantityOf(remote, k)
  {
    MergedAt(seed, remote, rule, k);
    QuantityOfValues(MergedCounts(seed, remote, rule), k);
    QuantityOfRows(seed, k);
    forall i | 0 <= i < |remote| && KeyOf(remote[i]) == k ensures QuantityOf(remote, k) == remote[i].quantity {
      QuantityAt(remote, i);
    }
    if HasKey(remote, k) {
      var i :| 0 <= i < |remote| && KeyOf(remote[i]) == k;
    }
  }

  lemma {:induction false} SeedBooks(rows: seq<L.Count>, restored: string, sessions: set<string>, p: Pending,
                                     unsynced: Option<string>)
    requires Books(rows)
    ensures Books(SeedRows(rows, restored, sessions, p, unsynced))
  {
    if rows != [] {
      SeedBooks(rows[1..], restored, sessions, p, unsynced);
      var rest := SeedRows(rows[1..], restored, sessions, p, unsynced);
      forall i | 0 <= i < |rest| ensures KeyOf(rest[i]) != KeyOf(rows[0]) {
        assert rest[i] in rows[1..];
        var j :| 0 <= j < |rows[1..]| && rows[1..][j] == rest[i];
        assert rows[j + 1] == rest[i];
      }
    }
  }

  /** A seeded row keeps its quantity, a row that is not seeded is gone. */
  lemma {:induction false} SeedQuantity(rows: seq<L.Count>, restored: string, sessions: set<string>, p: Pending,
                                        unsynced: Option<string>, k: CountKey)
    requires Books(rows)
    ensures var q := QuantityOf(SeedRows(rows, restored, sessions, p, unsynced), k);
            && (q == QuantityOf(rows, k) || q == 0)
            && (k in p.keys || k.sessionId == restored ==> q == QuantityOf(rows, k))
  {
    if rows != [] {
      SeedQuantity(rows[1..], restored, sessions, p, unsynced, k);
      var rest := SeedRows(rows[1..], restored, sessions, p, unsynced);
      if KeyOf(rows[0]) == k && !Seeds(rows[0], restored, sessions, p, unsynced) {
        forall i | 0 <= i < |rest| ensures KeyOf(rest[i]) != k {
          assert rest[i] in rows[1..];
          var j :| 0 <= j < |rows[1..]| && rows[1..][j] == rest[i];
          assert rows[j + 1] == rest[i];
        }
        QuantityNeedsKey(rest, k);
        assert [] + rest == rest;
      } else if Seeds(rows[0], restored, sessions, p, unsynced) {
        assert SeedRows(rows, restored, sessions, p, unsynced) == [rows[0]] + rest;
      } else {
        assert [] + rest == rest;
      }
    }
  }

  /** No merge drops or changes a row that an unsynced increment is for. */
  lemma PendingRowsSurvive(rows: seq<L.Count>, remote: seq<L.Count>, queue: seq<Item>, businessId: string, c: L.Count,
                           products: seq<Product>, merged: seq<Product>, restored: string, unsynced: Option<string>)
    requires Books(rows) && Books(remote) && c in rows
    requires KeyOf(c) in PendingCounts(queue, businessId).keys || Names(PendingCounts(queue, businessId), c)
    ensures c in RefreshedCounts(rows, remote, queue, businessId, products, merged)
    ensures c in LoadedCounts(rows, remote, restored, queue, businessId, unsynced)
    ensures Unique(RefreshedCounts(rows, remote, queue, businessId, products, merged), KeyOf)
         && Unique(LoadedCounts(rows, remote, restored, queue, businessId, unsynced), KeyOf)
  {
    var p := PendingCounts(queue, businessId);
    SurvivesRefresh(rows, remote, c, RefreshRule(p, ArchivedIds(merged), ArchivedIds(products)));
    var seed := SeedRows(rows, restored, QueueSessions(queue, businessId), p, unsynced);
    SeedBooks(rows, restored, QueueSessions(queue, businessId), p, unsynced);
    SurvivesRefresh(seed, remote, c, LoadRule(restored, p));
  }

  lemma SurvivesRefresh(seed: seq<L.Count>, remote: seq<L.Count>, c: L.Count, rule: Rule)
    requires Books(seed) && Books(remote) && c in seed
    requires KeyOf(c) in rule.pending.keys || Names(rule.pending, c)
    ensures c in Values(MergedCounts(seed, remote, rule)) && Unique(Values(MergedCounts(seed, remote, rule)), KeyOf)
  {
    var k := KeyOf(c);
    FindRow(seed, c);
    MergedAt(seed, remote, rule, k);
    MergedBooks(seed, remote, rule);
    if HasKey(remote, k) {
      var i :| 0 <= i < |remote| && KeyOf(remote[i]) == k;
    }
    FoundRow(MergedCounts(seed, remote, rule), k);
  }

  // --- never too much --------------------------------------------------------------------------------

  /** The backend's books and the queue are in order. */
  ghost predicate Inv(s: State) {
    && Books(s.rows) && Positive(s.queue, s.businessId) && Positive(s.log, s.businessId)
    && DistinctKeys(s.queue) && DistinctKeys(s.log)
    && (forall i :: 0 <= i < |s.queue| ==> s.queue[i] in s.log)
    && (forall it :: it in s.log ==> it in s.queue || it.idempotencyKey in s.applied)
    && (forall k :: k in s.remote ==> s.remote[k] >= 0)
    && (forall i :: 0 <= i < |s.loads| ==> Books(s.loads[i].rows))
  }

  ghost predicate BoundedAt(s: State, k: CountKey) {
    && QuantityOf(s.rows, k) <= RemoteQuantity(s.remote, k) + Waiting(s.queue, s.applied, k)
    && (forall i :: 0 <= i < |s.loads| ==> QuantityOf(s.loads[i].rows, k) <= RemoteQuantity(s.remote, k))
  }

  lemma EnqueueKeeps(queue: seq<Item>, log: seq<Item>, it: Item, businessId: string)
    requires Positive(queue, businessId) && DistinctKeys(queue) && forall i :: 0 <= i < |queue| ==> queue[i] in log
    requires it.idempotencyKey !in Keys(log) && Positive([it], businessId)
    ensures Positive(queue + [it], businessId) && DistinctKeys(queue + [it])
  {
    assert [it][0] == it;
    forall i | 0 <= i < |queue| ensures queue[i].idempotencyKey != it.idempotencyKey {
      var j :| 0 <= j < |log| && log[j] == queue[i];
      assert log[j].idempotencyKey in Keys(log);
    }
  }

  lemma FaithfulBooks(rows: seq<L.Count>, remote: map<CountKey, int>)
    requires Faithful(rows, remote) && forall k :: k in remote ==> remote[k] >= 0
    ensures Books(rows)
  {
  }

  lemma FaithfulQuantity(rows: seq<L.Count>, remote: map<CountKey, int>, k: CountKey)
    requires Faithful(rows, remote)
    ensures QuantityOf(rows, k) == RemoteQuantity(remote, k)
  {
    if k !in remote {
      QuantityNeedsKey(rows, k);
      forall i | 0 <= i < |rows| ensures KeyOf(rows[i]) != k {
        assert KeyOf(rows[i]) in remote;
      }
    }
  }

  lemma RefreshBooks(s: State, i: nat, merged: seq<Product>, k: CountKey)
    requires Inv(s) && i < |s.loads|
    ensures var r := RefreshedCounts(s.rows, s.loads[i].rows, s.queue, s.businessId, s.products, merged);
            && Books(r)
            && (QuantityOf(r, k) == QuantityOf(s.rows, k) || QuantityOf(r, k) == QuantityOf(s.loads[i].rows, k))
            && (k in PendingCounts(s.queue, s.businessId).keys ==> QuantityOf(r, k) == QuantityOf(s.rows, k))
  {
    var rule := RefreshRule(PendingCounts(s.queue, s.businessId), ArchivedIds(merged), ArchivedIds(s.products));
    MergedBooks(s.rows, s.loads[i].rows, rule);
    MergedQuantity(s.rows, s.loads[i].rows, rule, k);
    if HasKey(s.loads[i].rows, k) {
      var j :| 0 <= j < |s.loads[i].rows| && KeyOf(s.loads[i].rows[j]) == k;
    }
  }

  lemma LoadBooks(s: State, i: nat, restored: string, unsynced: Option<string>, k: CountKey)
    requires Inv(s) && i < |s.loads|
    ensures var r := LoadedCounts(s.rows, s.loads[i].rows, restored, s.queue, s.businessId, unsynced);
            && Books(r)
            && (QuantityOf(r, k) == QuantityOf(s.rows, k) || QuantityOf(r, k) == QuantityOf(s.loads[i].rows, k)
                || QuantityOf(r, k) == 0)
            && (k.sessionId == restored ==>
                QuantityOf(r, k) == QuantityOf(s.rows, k) || QuantityOf(r, k) == QuantityOf(s.loads[i].rows, k))
            && (k in PendingCounts(s.queue, s.businessId).keys && HasKey(s.rows, k) ==>
                QuantityOf(r, k) == QuantityOf(s.rows, k))
  {
    var p := PendingCounts(s.queue, s.businessId);
    var sessions := QueueSessions(s.queue, s.businessId);
    var seed := SeedRows(s.rows, restored, sessions, p, unsynced);
    SeedBooks(s.rows, restored, sessions, p, unsynced);
    SeedQuantity(s.rows, restored, sessions, p, unsynced, k);
    MergedBooks(seed, s.loads[i].rows, LoadRule(restored, p));
    MergedQuantity(seed, s.loads[i].rows, LoadRule(restored, p), k);
    if k in p.keys && HasKey(s.rows, k) {
      var j :| 0 <= j < |s.rows| && KeyOf(s.rows[j]) == k;
      assert s.rows[j] in seed;
      FindRow(seed, s.rows[j]);
      if HasKey(s.loads[i].rows, k) {
        var n :| 0 <= n < |s.loads[i].rows| && KeyOf(s.loads[i].rows[n]) == k;
      }
    }
  }

  lemma RemovedElements<T>(q: seq<T>, i: nat)
    requires i < |q|
    ensures forall x :: x in Removed(q, i) ==> x in q
    ensures forall x :: x in q ==> x == q[i] || x in Removed(q, i)
  {
    forall x | x in q && x != q[i] ensures x in Removed(q, i) {
      var j :| 0 <= j < |q| && q[j] == x;
      assert j < i ==> Removed(q, i)[j] == x;
      assert j > i ==> Removed(q, i)[j - 1] == x;
    }
  }

  lemma DequeueKeeps(queue: seq<Item>, i: nat, businessId: string)
    requires i < |queue| && Positive(queue, businessId) && DistinctKeys(queue)
    ensures Positive(Removed(queue, i), businessId) && DistinctKeys(Removed(queue, i))
  {
  }

  lemma InvStep(s: State, step: Step)
    requires Inv(s) && Enabled(s, step)
    ensures Inv(Next(s, step))
  {
    var any := CountKey("", "");
    match step
    case ScanStep(e, rowId, item) =>
      ScanAdds(s.rows, e, rowId, any);
      EnqueueInv(s, item);
    case Enqueue(item) => EnqueueInv(s, item);
    case Apply(i) =>
    case Dequeue(i) =>
      RemovedElements(s.queue, i);
      DequeueKeeps(s.queue, i, s.businessId);
    case OtherDevice(k, delta) =>
    case Read(rows) => FaithfulBooks(rows, s.remote);
    case Refresh(_, _) => InvMerge(s, step);
    case Load(_, _, _) => InvMerge(s, step);
    case EditProducts(_) =>
  }

  lemma InvMerge(s: State, step: Step)
    requires Inv(s) && Enabled(s, step) && (step.Refresh? || step.Load?)
    ensures Inv(Next(s, step))
  {
    if step.Refresh? {
      RefreshBooks(s, step.i, step.merged, CountKey("", ""));
    } else {
      LoadBooks(s, step.i, step.restored, step.unsynced, CountKey("", ""));
    }
  }

  lemma EnqueueInv(s: State, item: Item)
    requires Inv(s) && item.idempotencyKey !in Keys(s.log) && Positive([item], s.businessId)
    ensures Inv(s.(queue := s.queue + [item], log := s.log + [item]))
  {
    EnqueueKeeps(s.queue, s.log, item, s.businessId);
    EnqueueKeeps(s.log, s.log, item, s.businessId);
  }

  lemma BoundedEnqueue(s: State, step: Step, k: CountKey)
    requires Inv(s) && Enabled(s, step) && BoundedAt(s, k) && (step.ScanStep? || step.Enqueue?)
    ensures BoundedAt(Next(s, step), k)
  {
    WaitingAppend(s.queue, step.item, s.applied, k);
    if step.ScanStep? {
      ScanAdds(s.rows, step.event, step.rowId, k);
    }
  }

  lemma BoundedApply(s: State, i: nat, k: CountKey)
    requires Inv(s) && BoundedAt(s, k) && i < |s.queue|
    ensures BoundedAt(Backend(s, s.queue[i]), k)
  {
    if s.queue[i].idempotencyKey !in s.applied {
      WaitingApplied(s.queue, i, s.applied, k);
      assert s.queue[i].operation == IncrementCount ==> s.queue[i].payload.Some?;
    }
  }

  lemma BoundedMerge(s: State, step: Step, k: CountKey)
    requires Inv(s) && Enabled(s, step) && BoundedAt(s, k) && (step.Refresh? || step.Load?)
    ensures BoundedAt(Next(s, step), k)
  {
    WaitingPositive(s.queue, s.businessId, s.applied, k);
    assert RemoteQuantity(s.remote, k) >= 0;
    RemovedElements(s.loads, step.i);
    if step.Refresh? {
      RefreshBooks(s, step.i, step.merged, k);
    } else {
      LoadBooks(s, step.i, step.restored, step.unsynced, k);
    }
  }

  lemma BoundedStep(s: State, step: Step, k: CountKey)
    requires Inv(s) && Enabled(s, step) && BoundedAt(s, k)
    ensures BoundedAt(Next(s, step), k)
  {
    match step
    case ScanStep(_, _, _) => BoundedEnqueue(s, step, k);
    case Enqueue(_) => BoundedEnqueue(s, step, k);
    case Apply(i) => BoundedApply(s, i, k);
    case Dequeue(i) => WaitingRemoved(s.queue, i, s.applied, k);
    case OtherDevice(_, _) =>
    case Read(rows) => FaithfulQuantity(rows, s.remote, k);
    case Refresh(_, _) => BoundedMerge(s, step, k);
    case Load(_, _, _) => BoundedMerge(s, step, k);
    case EditProducts(_) =>
  }

  lemma {:induction false} BoundedRun(s: State, steps: seq<Step>, k: CountKey)
    requires Inv(s) && BoundedAt(s, k) && Legal(s, steps)
    ensures Inv(Run(s, steps)) && BoundedAt(Run(s, steps), k)
    decreases steps
  {
    if steps != [] {
      InvStep(s, steps[0]);
      BoundedStep(s, steps[0], k);
      BoundedRun(Next(s, steps[0]), steps[1..], k);
    }
  }

  /** In every run, with any number of loads in flight, however old their snapshots, and with other
      devices counting too: no row ever shows more than the backend holds plus what still waits in
      this device's queue, and (product, session) rows stay unique. */
  lemma NothingIsCountedTwice(businessId: string, products: seq<Product>, steps: seq<Step>, k: CountKey)
    requires Legal(Fresh(businessId, products), steps)
    ensures var t := Run(Fresh(businessId, products), steps);
            && QuantityOf(t.rows, k) <= RemoteQuantity(t.remote, k) + Waiting(t.queue, t.applied, k)
            && Unique(t.rows, KeyOf)
  {
    BoundedRun(Fresh(businessId, products), steps, k);
  }

  // --- never too little ------------------------------------------------------------------------------

  /** Every increment that has left the queue was already in the snapshot. */
  ghost predicate Covers(load: Snapshot, s: State) {
    forall it :: it in s.log ==> it.idempotencyKey in load.seen || it in s.queue
  }

  ghost predicate LoadAt(load: Snapshot, s: State, k: CountKey) {
    && load.seen <= s.applied && Covers(load, s)
    && Scanned(s.log, k) - Waiting(s.log, load.seen, k) <= QuantityOf(load.rows, k)
  }

  ghost predicate CompleteAt(s: State, k: CountKey) {
    && Scanned(s.log, k) <= QuantityOf(s.rows, k)
    && Scanned(s.log, k) - Waiting(s.log, s.applied, k) <= RemoteQuantity(s.remote, k)
    && (forall i :: 0 <= i < |s.loads| ==> LoadAt(s.loads[i], s, k))
  }

  /** An increment leaves the queue only when every snapshot still to be merged has it; every load
      restores the session of row k. */
  predicate Timely(s: State, step: Step, k: CountKey) {
    && (step.Dequeue? && step.i < |s.queue| ==>
          forall j :: 0 <= j < |s.loads| ==> s.queue[step.i].idempotencyKey in s.loads[j].seen)
    && (step.Load? ==> step.restored == k.sessionId)
  }

  ghost predicate TimelyRun(s: State, steps: seq<Step>, k: CountKey)
    requires Legal(s, steps)
    decreases steps
  {
    steps == [] || (Timely(s, steps[0], k) && TimelyRun(Next(s, steps[0]), steps[1..], k))
  }

  lemma PendingKey(queue: seq<Item>, businessId: string, it: Item, k: CountKey)
    requires it in queue && it.businessId == businessId && DeltaFor(it, k) > 0
    ensures k in PendingCounts(queue, businessId).keys
  {
    var i :| 0 <= i < |queue| && queue[i] == it;
    assert Target(queue[i]).value in PendingCounts(queue, businessId).keys;
  }

  /** A snapshot that covers the log is complete for a row with nothing pending. */
  lemma CoveredRow(s: State, load: Snapshot, k: CountKey)
    requires Inv(s) && LoadAt(load, s, k) && k !in PendingCounts(s.queue, s.businessId).keys
    ensures Scanned(s.log, k) <= QuantityOf(load.rows, k)
  {
    forall i | 0 <= i < |s.log| ensures s.log[i].idempotencyKey in load.seen || DeltaFor(s.log[i], k) == 0 {
      var it := s.log[i];
      if it.idempotencyKey !in load.seen && DeltaFor(it, k) > 0 {
        PendingKey(s.queue, s.businessId, it, k);
      }
    }
    NothingWaits(s.log, load.seen, k);
  }

  /** A row that something waits for has been counted. */
  lemma PendingIsScanned(s: State, k: CountKey)
    requires Inv(s) && k in PendingCounts(s.queue, s.businessId).keys
    ensures Scanned(s.log, k) > 0
  {
    var i :| 0 <= i < |s.queue| && IsIncrement(s.queue[i], s.businessId) && Target(s.queue[i]) == Some(k);
    assert s.queue[i] in s.log;
    var j :| 0 <= j < |s.log| && s.log[j] == s.queue[i];
    assert s.log[j].idempotencyKey !in {} && DeltaFor(s.log[j], k) > 0;
    WaitingPositive(s.log, s.businessId, {}, k);
  }

  lemma LogAppend(s: State, item: Item, load: Snapshot, k: CountKey)
    requires LoadAt(load, s, k) && item.idempotencyKey !in s.applied
    ensures LoadAt(load, s.(queue := s.queue + [item], log := s.log + [item]), k)
  {
    WaitingAppend(s.log, item, load.seen, k);
    WaitingAppend(s.log, item, {}, k);
  }

  lemma CompleteApply(s: State, i: nat, k: CountKey)
    requires Inv(s) && CompleteAt(s, k) && i < |s.queue|
    ensures CompleteAt(Backend(s, s.queue[i]), k)
  {
    var it := s.queue[i];
    if it.idempotencyKey !in s.applied {
      assert it in s.log;
      var j :| 0 <= j < |s.log| && s.log[j] == it;
      WaitingApplied(s.log, j, s.applied, k);
      assert it.operation == IncrementCount ==> it.payload.Some?;
    }
    var t := Backend(s, it);
    forall j | 0 <= j < |t.loads| ensures LoadAt(t.loads[j], t, k) {
      assert LoadAt(s.loads[j], s, k);
    }
  }

  lemma CompleteEnqueue(s: State, item: Item, k: CountKey)
    requires item.idempotencyKey !in s.applied && forall i :: 0 <= i < |s.loads| ==> LoadAt(s.loads[i], s, k)
    ensures var t := s.(queue := s.queue + [item], log := s.log + [item]);
            && Scanned(t.log, k) == Scanned(s.log, k) + DeltaFor(item, k)
            && Waiting(t.log, s.applied, k) == Waiting(s.log, s.applied, k) + DeltaFor(item, k)
            && forall i :: 0 <= i < |t.loads| ==> LoadAt(t.loads[i], t, k)
  {
    WaitingAppend(s.log, item, {}, k);
    WaitingAppend(s.log, item, s.applied, k);
    forall i | 0 <= i < |s.loads| ensures LoadAt(s.loads[i], s.(queue := s.queue + [item], log := s.log + [item]), k) {
      LogAppend(s, item, s.loads[i], k);
    }
  }

  lemma CompleteScan(s: State, e: L.Event, rowId: string, item: Item, k: CountKey)
    requires Inv(s) && CompleteAt(s, k) && Enabled(s, ScanStep(e, rowId, item))
    ensures CompleteAt(Next(s, ScanStep(e, rowId, item)), k)
  {
    ScanAdds(s.rows, e, rowId, k);
    CompleteEnqueue(s, item, k);
    var t := Next(s, ScanStep(e, rowId, item));
    var u := s.(queue := s.queue + [item], log := s.log + [item]);
    forall i | 0 <= i < |t.loads| ensures LoadAt(t.loads[i], t, k) {
      assert LoadAt(u.loads[i], u, k);
    }
  }

  lemma CompleteDequeue(s: State, i: nat, k: CountKey)
    requires Inv(s) && CompleteAt(s, k) && Enabled(s, Dequeue(i)) && Timely(s, Dequeue(i), k)
    ensures CompleteAt(Next(s, Dequeue(i)), k)
  {
    RemovedElements(s.queue, i);
    var t := Next(s, Dequeue(i));
    forall j | 0 <= j < |t.loads| ensures LoadAt(t.loads[j], t, k) {
      assert LoadAt(s.loads[j], s, k);
    }
  }

  lemma CompleteMerge(s: State, step: Step, k: CountKey)
    requires Inv(s) && CompleteAt(s, k) && Enabled(s, step) && (step.Refresh? || step.Load?) && Timely(s, step, k)
    ensures CompleteAt(Next(s, step), k)
  {
    var i, t := step.i, Next(s, step);
    assert LoadAt(s.loads[i], s, k);
    if k in PendingCounts(s.queue, s.businessId).keys {
      PendingIsScanned(s, k);
      QuantityNeedsKey(s.rows, k);
    } else {
      CoveredRow(s, s.loads[i], k);
    }
    if step.Refresh? {
      RefreshBooks(s, i, step.merged, k);
    } else {
      LoadBooks(s, i, step.restored, step.unsynced, k);
    }
    RemovedElements(s.loads, i);
    forall j | 0 <= j < |t.loads| ensures LoadAt(t.loads[j], t, k) {
      assert t.loads[j] in t.loads;
      var n :| 0 <= n < |s.loads| && s.loads[n] == t.loads[j];
      assert LoadAt(s.loads[n], s, k);
    }
  }

  lemma CompleteRead(s: State, rows: seq<L.Count>, k: CountKey)
    requires Inv(s) && CompleteAt(s, k) && Enabled(s, Read(rows))
    ensures CompleteAt(Next(s, Read(rows)), k)
  {
    FaithfulQuantity(rows, s.remote, k);
    var t := Next(s, Read(rows));
    forall j | 0 <= j < |t.loads| ensures LoadAt(t.loads[j], t, k) {
      if j < |s.loads| {
        assert LoadAt(s.loads[j], s, k);
      }
    }
  }

  lemma CompleteStep(s: State, step: Step, k: CountKey)
    requires Inv(s) && CompleteAt(s, k) && Enabled(s, step) && Timely(s, step, k)
    ensures CompleteAt(Next(s, step), k)
  {
    match step
    case ScanStep(e, rowId, item) => CompleteScan(s, e, rowId, item, k);
    case Enqueue(item) => CompleteEnqueue(s, item, k);
    case Apply(i) => CompleteApply(s, i, k);
    case Dequeue(i) => CompleteDequeue(s, i, k);
    case Read(rows) => CompleteRead(s, rows, k);
    case Refresh(_, _) => CompleteMerge(s, step, k);
    case Load(_, _, _) => CompleteMerge(s, step, k);
    case _ =>
      var t := Next(s, step);
      forall j | 0 <= j < |t.loads| ensures LoadAt(t.loads[j], t, k) {
        assert LoadAt(s.loads[j], s, k);
      }
  }

  lemma {:induction false} CompleteRun(s: State, steps: seq<Step>, k: CountKey)
    requires Inv(s) && CompleteAt(s, k) && Legal(s, steps) && TimelyRun(s, steps, k)
    ensures CompleteAt(Run(s, steps), k)
    decreases steps
  {
    if steps != [] {
      InvStep(s, steps[0]);
      CompleteStep(s, steps[0], k);
      CompleteRun(Next(s, steps[0]), steps[1..], k);
    }
  }

  /** In every run where no increment leaves the queue behind the back of a snapshot still to be
      merged, a row of a session that every load restores always shows at least everything this
      device has scanned for it. */
  lemma NoScanIsLost(businessId: string, products: seq<Product>, steps: seq<Step>, k: CountKey)
    requires Legal(Fresh(businessId, products), steps) && TimelyRun(Fresh(businessId, products), steps, k)
    ensures var t := Run(Fresh(businessId, products), steps); Scanned(t.log, k) <= QuantityOf(t.rows, k)
  {
    CompleteRun(Fresh(businessId, products), steps, k);
  }

  // --- one device alone ---------------------------------------------------------------------------------

  /** The backend and every snapshot hold exactly what they have applied of this device's scans. */
  ghost predicate AloneAt(s: State, k: CountKey) {
    && RemoteQuantity(s.remote, k) == Scanned(s.log, k) - Waiting(s.log, s.applied, k)
    && (forall i :: 0 <= i < |s.loads| ==> ExactLoad(s.loads[i], s, k))
  }

  ghost predicate ExactLoad(load: Snapshot, s: State, k: CountKey) {
    load.seen <= s.applied && QuantityOf(load.rows, k) == Scanned(s.log, k) - Waiting(s.log, load.seen, k)
  }

  /** No other device counts row k. */
  predicate Alone(steps: seq<Step>, k: CountKey) {
    forall i :: 0 <= i < |steps| && steps[i].OtherDevice? ==> steps[i].key != k
  }

  lemma AloneEnqueue(s: State, item: Item, k: CountKey)
    requires AloneAt(s, k) && item.idempotencyKey !in s.applied
    ensures AloneAt(s.(queue := s.queue + [item], log := s.log + [item]), k)
  {
    var t := s.(queue := s.queue + [item], log := s.log + [item]);
    WaitingAppend(s.log, item, {}, k);
    WaitingAppend(s.log, item, s.applied, k);
    forall i | 0 <= i < |t.loads| ensures ExactLoad(t.loads[i], t, k) {
      assert ExactLoad(s.loads[i], s, k);
      WaitingAppend(s.log, item, s.loads[i].seen, k);
    }
  }

  lemma AloneScan(s: State, e: L.Event, rowId: string, item: Item, k: CountKey)
    requires AloneAt(s, k) && Enabled(s, ScanStep(e, rowId, item))
    ensures AloneAt(Next(s, ScanStep(e, rowId, item)), k)
  {
    AloneEnqueue(s, item, k);
    var t := Next(s, ScanStep(e, rowId, item));
    var u := s.(queue := s.queue + [item], log := s.log + [item]);
    forall i | 0 <= i < |t.loads| ensures ExactLoad(t.loads[i], t, k) {
      assert ExactLoad(u.loads[i], u, k);
    }
  }

  lemma AloneApply(s: State, i: nat, k: CountKey)
    requires Inv(s) && AloneAt(s, k) && i < |s.queue|
    ensures AloneAt(Backend(s, s.queue[i]), k)
  {
    var it := s.queue[i];
    if it.idempotencyKey !in s.applied {
      assert it in s.log;
      var j :| 0 <= j < |s.log| && s.log[j] == it;
      WaitingApplied(s.log, j, s.applied, k);
      assert it.operation == IncrementCount ==> it.payload.Some?;
    }
    var t := Backend(s, it);
    forall j | 0 <= j < |t.loads| ensures ExactLoad(t.loads[j], t, k) {
      assert ExactLoad(s.loads[j], s, k);
    }
  }

  lemma AloneRead(s: State, rows: seq<L.Count>, k: CountKey)
    requires AloneAt(s, k) && Enabled(s, Read(rows))
    ensures AloneAt(Next(s, Read(rows)), k)
  {
    FaithfulQuantity(rows, s.remote, k);
    var t := Next(s, Read(rows));
    forall j | 0 <= j < |t.loads| ensures ExactLoad(t.loads[j], t, k) {
      if j < |s.loads| {
        assert ExactLoad(s.loads[j], s, k);
      }
    }
  }

  lemma AloneOther(s: State, step: Step, k: CountKey)
    requires AloneAt(s, k) && Enabled(s, step)
    requires step.Dequeue? || step.OtherDevice? || step.Refresh? || step.Load? || step.EditProducts?
    requires step.OtherDevice? ==> step.key != k
    ensures AloneAt(Next(s, step), k)
  {
    var t := Next(s, step);
    if step.Refresh? || step.Load? {
      RemovedElements(s.loads, step.i);
    }
    forall j | 0 <= j < |t.loads| ensures ExactLoad(t.loads[j], t, k) {
      assert t.loads[j] in t.loads;
      var n :| 0 <= n < |s.loads| && s.loads[n] == t.loads[j];
      assert ExactLoad(s.loads[n], s, k);
    }
  }

  lemma {:induction false} AloneRun(s: State, steps: seq<Step>, k: CountKey)
    requires Inv(s) && AloneAt(s, k) && Legal(s, steps) && Alone(steps, k)
    ensures Inv(Run(s, steps)) && AloneAt(Run(s, steps), k)
    decreases steps
  {
    if steps != [] {
      InvStep(s, steps[0]);
      match steps[0] {
        case ScanStep(e, rowId, item) => AloneScan(s, e, rowId, item, k);
        case Enqueue(item) => AloneEnqueue(s, item, k);
        case Apply(i) => AloneApply(s, i, k);
        case Read(rows) => AloneRead(s, rows, k);
        case _ => AloneOther(s, steps[0], k);
      }
      AloneRun(Next(s, steps[0]), steps[1..], k);
    }
  }

  /** In every run in which no other device counts row k, a refresh that takes the snapshot's row keeps
      all scans of it exactly when the backend had applied every one by the time the snapshot was read. */
  lemma MergeKeepsScansExactly(businessId: string, products: seq<Product>, steps: seq<Step>, i: nat,
                               merged: seq<Product>, k: CountKey)
    requires Legal(Fresh(businessId, products), steps) && Alone(steps, k)
    requires var s := Run(Fresh(businessId, products), steps);
             && i < |s.loads| && HasKey(s.loads[i].rows, k)
             && k !in PendingCounts(s.queue, s.businessId).keys && PendingCounts(s.queue, s.businessId).entityIds == {}
             && k.productId !in ArchivedIds(s.products)
    ensures var s := Run(Fresh(businessId, products), steps);
            Scanned(s.log, k) <= QuantityOf(Next(s, Refresh(i, merged)).rows, k)
            <==> forall it :: it in s.log && DeltaFor(it, k) > 0 ==> it.idempotencyKey in s.loads[i].seen
  {
    AloneRun(Fresh(businessId, products), steps, k);
    var s := Run(Fresh(businessId, products), steps);
    assert ExactLoad(s.loads[i], s, k);
    TakesTheSnapshot(s, i, merged, k);
    NothingUnseen(s.log, s.businessId, s.loads[i].seen, k);
  }

  lemma TakesTheSnapshot(s: State, i: nat, merged: seq<Product>, k: CountKey)
    requires Inv(s) && i < |s.loads| && HasKey(s.loads[i].rows, k)
    requires k !in PendingCounts(s.queue, s.businessId).keys && PendingCounts(s.queue, s.businessId).entityIds == {}
    requires k.productId !in ArchivedIds(s.products)
    ensures QuantityOf(Next(s, Refresh(i, merged)).rows, k) == QuantityOf(s.loads[i].rows, k)
  {
    var rule := RefreshRule(PendingCounts(s.queue, s.businessId), ArchivedIds(merged), ArchivedIds(s.products));
    MergedQuantity(s.rows, s.loads[i].rows, rule, k);
    var j :| 0 <= j < |s.loads[i].rows| && KeyOf(s.loads[i].rows[j]) == k;
    assert !Skips(rule, From(s.rows, KeyOf), s.loads[i].rows[j]);
  }

  lemma NothingUnseen(items: seq<Item>, businessId: string, seen: set<string>, k: CountKey)
    requires Positive(items, businessId)
    ensures Waiting(items, seen, k) >= 0
    ensures Waiting(items, seen, k) == 0
        <==> forall it :: it in items && DeltaFor(it, k) > 0 ==> it.idempotencyKey in seen
  {
    WaitingPositive(items, businessId, seen, k);
    if forall it :: it in items && DeltaFor(it, k) > 0 ==> it.idempotencyKey in seen {
      NothingWaits(items, seen, k);
    } else {
      var it :| it in items && DeltaFor(it, k) > 0 && it.idempotencyKey !in seen;
      var n :| 0 <= n < |items| && items[n] == it;
    }
  }

  /** Such a state is reached when a scan is drained completely between the read and the merge of a
      snapshot: the row then shows the first scan only, although the backend holds both. */
  lemma StaleSnapshotHidesAScan(b: string, e: L.Event, it: Item, f: L.Event, jt: Item, rowId: string) returns (t: State)
    requires e.matchedProductId != "" && f.matchedProductId == e.matchedProductId && f.sessionId == e.sessionId
    requires e.id != f.id && e.idempotencyKey != f.idempotencyKey && L.Delta(e) > 0 && L.Delta(f) > 0
    requires ItemFor(it, e, b) && ItemFor(jt, f, b)
    ensures Reaches(Fresh(b, []), t) && t.queue == []
    ensures var k := CountKey(e.sessionId, e.matchedProductId);
            && RemoteQuantity(t.remote, k) == Scanned(t.log, k) == L.Delta(e) + L.Delta(f)
            && QuantityOf(t.rows, k) == L.Delta(e)
  {
    var row := L.ApplyOnce(L.CreateCount(rowId, e.businessId, e.sessionId, e.matchedProductId, e.createdAt), e).0;
    FirstScan(b, e, it, rowId, row);
    CountOnce(Fresh(b, []), e, rowId, it);
    ReachesNext(Fresh(b, []), Counted(Fresh(b, []), e, rowId, it), Read([row]));
    var s := Next(Counted(Fresh(b, []), e, rowId, it), Read([row]));
    ReadThenScan(s, row, f, rowId, jt);
    t := Next(Counted(s, f, rowId, jt), Refresh(0, []));
    ReachesOn(Fresh(b, []), s, t);
    TwoScanned(it, jt, KeyOf(row));
  }

  /** The second half: a scan is drained while the snapshot of one row waits to be merged. */
  lemma ReadThenScan(s: State, row: L.Count, f: L.Event, rowId: string, jt: Item)
    requires s.rows == [row] && s.products == [] && s.queue == [] && |s.loads| == 1 && s.loads[0].rows == [row]
    requires Books([row]) && L.Delta(f) > 0 && f.matchedProductId != "" && ItemFor(jt, f, s.businessId)
    requires KeyOf(row) == CountKey(f.sessionId, f.matchedProductId) && f.id !in row.scanEventIds
    requires jt.idempotencyKey !in Keys(s.log) && jt.idempotencyKey !in s.applied
    ensures Enabled(s, ScanStep(f, rowId, jt))
    ensures var t := Next(Counted(s, f, rowId, jt), Refresh(0, []));
            && Reaches(s, t) && t.queue == [] && t.log == s.log + [jt]
            && RemoteQuantity(t.remote, KeyOf(row)) == RemoteQuantity(s.remote, KeyOf(row)) + L.Delta(f)
            && QuantityOf(t.rows, KeyOf(row)) == row.quantity
  {
    SecondScan(s, row, f, rowId, jt);
    CountOnce(s, f, rowId, jt);
    ReachesNext(s, Counted(s, f, rowId, jt), Refresh(0, []));
    StaleMerge(Counted(s, f, rowId, jt), row);
  }

  lemma FirstScan(b: string, e: L.Event, it: Item, rowId: string, row: L.Count)
    requires e.matchedProductId != "" && L.Delta(e) > 0 && ItemFor(it, e, b)
    requires row == L.ApplyOnce(L.CreateCount(rowId, e.businessId, e.sessionId, e.matchedProductId, e.createdAt), e).0
    ensures Enabled(Fresh(b, []), ScanStep(e, rowId, it))
    ensures Counted(Fresh(b, []), e, rowId, it)
         == State(b, [row], [], [], [it], {e.idempotencyKey}, map[KeyOf(row) := L.Delta(e)], [])
    ensures Faithful([row], map[KeyOf(row) := L.Delta(e)]) && Books([row]) && row.scanEventIds == [e.id]
  {
    assert KeyOf([row][0]) == KeyOf(row);
    assert HasKey([row], KeyOf(row));
  }

  ghost predicate Reaches(s: State, t: State) {
    exists steps :: Legal(s, steps) && Run(s, steps) == t
  }

  lemma RunFirst(s: State, step: Step, rest: seq<Step>)
    requires Enabled(s, step) && Legal(Next(s, step), rest)
    ensures Legal(s, [step] + rest) && Run(s, [step] + rest) == Run(Next(s, step), rest)
  {
    assert ([step] + rest)[1..] == rest;
  }

  lemma {:induction false} RunRest(s: State, steps: seq<Step>)
    requires Legal(s, steps) && steps != []
    ensures Enabled(s, steps[0]) && Legal(Next(s, steps[0]), steps[1..])
    ensures Run(s, steps) == Run(Next(s, steps[0]), steps[1..])
  {
  }

  lemma {:induction false} RunOn(s: State, a: seq<Step>, b: seq<Step>)
    requires Legal(s, a) && Legal(Run(s, a), b)
    ensures Legal(s, a + b) && Run(s, a + b) == Run(Run(s, a), b)
    decreases a
  {
    if a == [] {
      assert a + b == b;
    } else {
      var first, rest := a[0], a[1..];
      assert a + b == [first] + (rest + b);
      RunRest(s, a);
      RunOn(Next(s, first), rest, b);
      RunFirst(s, first, rest + b);
    }
  }

  lemma ReachesOn(s: State, t: State, u: State)
    requires Reaches(s, t) && Reaches(t, u)
    ensures Reaches(s, u)
  {
    var a :| Legal(s, a) && Run(s, a) == t;
    var b :| Legal(t, b) && Run(t, b) == u;
    RunOn(s, a, b);
  }

  lemma ReachesNext(s: State, t: State, step: Step)
    requires Reaches(s, t) && Enabled(t, step)
    ensures Reaches(s, Next(t, step))
  {
    var rest: seq<Step> := [step][1..];
    assert Legal(Next(t, step), rest) && Run(Next(t, step), rest) == Next(t, step);
    assert Legal(t, [step]) && Run(t, [step]) == Next(t, step);
    ReachesOn(s, t, Next(t, step));
  }

  lemma SecondScan(s: State, row: L.Count, f: L.Event, rowId: string, jt: Item)
    requires s.rows == [row] && Books([row]) && L.Delta(f) > 0 && f.matchedProductId != ""
    requires ItemFor(jt, f, s.businessId)
    requires KeyOf(row) == CountKey(f.sessionId, f.matchedProductId) && f.id !in row.scanEventIds
    requires jt.idempotencyKey !in Keys(s.log) && jt.idempotencyKey !in s.applied && s.queue == []
    ensures Enabled(s, ScanStep(f, rowId, jt))
    ensures var t := Counted(s, f, rowId, jt);
            && Books(t.rows) && t.queue == [] && t.products == s.products && t.loads == s.loads && t.log == s.log + [jt]
            && RemoteQuantity(t.remote, KeyOf(row)) == RemoteQuantity(s.remote, KeyOf(row)) + L.Delta(f)
  {
    assert L.RowIndex([row], f.matchedProductId, f.sessionId) == 0;
    ScanAdds([row], f, rowId, KeyOf(row));
  }

  function Drained(s: State, it: Item): State
    requires Target(it).Some?
  {
    State(s.businessId, s.rows, s.products, [], s.log, s.applied + {it.idempotencyKey},
          s.remote[Target(it).value := RemoteQuantity(s.remote, Target(it).value) + it.payload.value.delta], s.loads)
  }

  /** A scan that is drained at once. */
  ghost function Counted(s: State, e: L.Event, rowId: string, it: Item): State
    requires Enabled(s, ScanStep(e, rowId, it))
  {
    Drained(Next(s, ScanStep(e, rowId, it)), it)
  }

  lemma CountOnce(s: State, e: L.Event, rowId: string, it: Item)
    requires s.queue == [] && Enabled(s, ScanStep(e, rowId, it))
    ensures Reaches(s, Counted(s, e, rowId, it))
  {
    assert Legal(s, []) && Run(s, []) == s;
    ReachesNext(s, s, ScanStep(e, rowId, it));
    DrainOne(Next(s, ScanStep(e, rowId, it)), it);
    ReachesOn(s, Next(s, ScanStep(e, rowId, it)), Counted(s, e, rowId, it));
  }

  lemma DrainOne(s: State, it: Item)
    requires s.queue == [it] && it.operation == IncrementCount && Target(it).Some? && it.idempotencyKey !in s.applied
    ensures Reaches(s, Drained(s, it))
  {
    assert Legal(s, []) && Run(s, []) == s;
    ReachesNext(s, s, Apply(0));
    ReachesNext(s, Next(s, Apply(0)), Dequeue(0));
    assert Removed([it], 0) == [];
  }

  lemma StaleMerge(s: State, row: L.Count)
    requires s.queue == [] && s.products == [] && |s.loads| == 1 && s.loads[0].rows == [row] && Books(s.rows)
    requires Books([row])
    ensures QuantityOf(Next(s, Refresh(0, [])).rows, KeyOf(row)) == row.quantity
  {
    var p := PendingCounts(s.queue, s.businessId);
    assert p.keys == {} && p.entityIds == {};
    var rule := RefreshRule(p, ArchivedIds([]), ArchivedIds(s.products));
    MergedQuantity(s.rows, [row], rule, KeyOf(row));
    assert KeyOf([row][0]) == KeyOf(row);
  }

  lemma TwoScanned(it: Item, jt: Item, k: CountKey)
    ensures Scanned([it, jt], k) == DeltaFor(it, k) + DeltaFor(jt, k)
  {
    WaitingAppend([it], jt, {}, k);
    WaitingAppend([], it, {}, k);
    assert [it] + [jt] == [it, jt] && [] + [it] == [it];
  }

  // --- what a load restores --------------------------------------------------------------------------

  lemma {:induction false} QuantityIsAt(rows: seq<L.Count>, k: CountKey)
    ensures QuantityOf(rows, k) == Held(At(rows, KeyOf, k))
    ensures HasKey(rows, k) <==> At(rows, KeyOf, k).Some?
  {
    if rows != [] {
      QuantityIsAt(rows[1..], k);
      if HasKey(rows[1..], k) {
        var i :| 0 <= i < |rows[1..]| && KeyOf(rows[1..][i]) == k;
        assert KeyOf(rows[i + 1]) == k;
      }
      if HasKey(rows, k) && KeyOf(rows[0]) != k {
        var i :| 0 <= i < |rows| && KeyOf(rows[i]) == k;
        assert KeyOf(rows[1..][i - 1]) == k;
      }
    }
  }

  /** The device has an unsynced increment for the row it shows under k, or for k itself. */
  predicate Pending(s: State, k: CountKey) {
    || IncrementWaits(s.queue, s.businessId, k)
    || exists c :: c in s.rows && KeyOf(c) == k && Unsynced(s.queue, s.businessId, c)
  }

  /** A row of the restored session with no unsynced increment ends with exactly the quantity of the
      snapshot that names it, whatever the device showed before, in every state. */
  lemma LoadTakesTheSnapshot(s: State, i: nat, restored: string, unsynced: Option<string>, k: CountKey)
    requires Inv(s) && i < |s.loads| && k.sessionId == restored && HasKey(s.loads[i].rows, k) && !Pending(s, k)
    ensures QuantityOf(Next(s, Load(i, restored, unsynced)).rows, k) == QuantityOf(s.loads[i].rows, k)
  {
    CountAfterLoad(s.rows, s.loads[i].rows, restored, s.queue, s.businessId, unsynced, k);
    AtIsIn(s.rows, KeyOf, k);
    QuantityIsAt(s.loads[i].rows, k);
    QuantityIsAt(Next(s, Load(i, restored, unsynced)).rows, k);
  }

  /** From every reachable state: once the queue is empty, a load of what the backend then answers makes
      every row of the restored session equal to the backend's, also on a device that had none. */
  lemma LoadSettlesTheSession(businessId: string, products: seq<Product>, steps: seq<Step>, restored: string,
                              unsynced: Option<string>, k: CountKey)
    requires Legal(Fresh(businessId, products), steps) && k.sessionId == restored
    requires Run(Fresh(businessId, products), steps).queue == []
    ensures var s := Run(Fresh(businessId, products), steps);
            forall rows :: Faithful(rows, s.remote) ==>
              var t := Next(Next(s, Read(rows)), Load(|s.loads|, restored, unsynced));
              QuantityOf(t.rows, k) == RemoteQuantity(t.remote, k)
  {
    BoundedRun(Fresh(businessId, products), steps, k);
    var s := Run(Fresh(businessId, products), steps);
    forall rows | Faithful(rows, s.remote)
      ensures var t := Next(Next(s, Read(rows)), Load(|s.loads|, restored, unsynced));
              QuantityOf(t.rows, k) == RemoteQuantity(t.remote, k)
    {
      LoadSettles(s, rows, restored, unsynced, k);
    }
  }

  /** A row the backend does not have is not shown either, once nothing waits. */
  lemma UnknownRowIsEmpty(s: State, k: CountKey)
    requires Inv(s) && BoundedAt(s, k) && s.queue == [] && k !in s.remote
    ensures QuantityOf(s.rows, k) == 0
  {
    RowsAreNotNegative(s.rows, k);
  }

  lemma LoadSettles(s: State, rows: seq<L.Count>, restored: string, unsynced: Option<string>, k: CountKey)
    requires Inv(s) && BoundedAt(s, k) && s.queue == [] && Faithful(rows, s.remote) && k.sessionId == restored
    ensures var t := Next(Next(s, Read(rows)), Load(|s.loads|, restored, unsynced));
            QuantityOf(t.rows, k) == RemoteQuantity(t.remote, k)
  {
    InvStep(s, Read(rows));
    if k !in s.remote {
      UnknownRowIsEmpty(s, k);
    }
    CurrentLoadSettles(Next(s, Read(rows)), |s.loads|, restored, unsynced, k);
  }

  /** The snapshot to be merged is what the backend holds. */
  lemma CurrentLoadSettles(s: State, i: nat, restored: string, unsynced: Option<string>, k: CountKey)
    requires Inv(s) && s.queue == [] && i < |s.loads| && Faithful(s.loads[i].rows, s.remote) && k.sessionId == restored
    requires k !in s.remote ==> QuantityOf(s.rows, k) == 0
    ensures QuantityOf(Next(s, Load(i, restored, unsynced)).rows, k) == RemoteQuantity(s.remote, k)
  {
    FaithfulQuantity(s.loads[i].rows, s.remote, k);
    if HasKey(s.loads[i].rows, k) {
      LoadTakesTheSnapshot(s, i, restored, unsynced, k);
    } else {
      RowStays(s, i, restored, unsynced, k);
    }
  }

  lemma RowStays(s: State, i: nat, restored: string, unsynced: Option<string>, k: CountKey)
    requires Inv(s) && i < |s.loads| && k.sessionId == restored && !HasKey(s.loads[i].rows, k)
    ensures QuantityOf(Next(s, Load(i, restored, unsynced)).rows, k) == QuantityOf(s.rows, k)
  {
    CountAfterLoad(s.rows, s.loads[i].rows, restored, s.queue, s.businessId, unsynced, k);
    QuantityIsAt(s.loads[i].rows, k);
    QuantityIsAt(s.rows, k);
    QuantityIsAt(Next(s, Load(i, restored, unsynced)).rows, k);
  }

  // --- settled ---------------------------------------------------------------------------------------

  /** With nothing left to drain, a refresh of the backend's current books makes every row equal to
      the backend's, except rows of products deleted on this device. */
  lemma SettledRefresh(s: State, rows: seq<L.Count>, merged: seq<Product>, k: CountKey)
    requires Inv(s) && BoundedAt(s, k) && s.queue == [] && Faithful(rows, s.remote)
    ensures var t := Next(Next(s, Read(rows)), Refresh(|s.loads|, merged));
            QuantityOf(t.rows, k)
            == if k.productId in ArchivedIds(s.products) && k.productId in ArchivedIds(merged)
               then QuantityOf(s.rows, k) else RemoteQuantity(s.remote, k)
  {
    FaithfulBooks(rows, s.remote);
    FaithfulQuantity(rows, s.remote, k);
    var p := PendingCounts(s.queue, s.businessId);
    assert p.keys == {} && p.entityIds == {};
    var rule := RefreshRule(p, ArchivedIds(merged), ArchivedIds(s.products));
    MergedQuantity(s.rows, rows, rule, k);
    assert Next(s, Read(rows)).loads[|s.loads|].rows == rows;
    if HasKey(rows, k) {
      var j :| 0 <= j < |rows| && KeyOf(rows[j]) == k;
    } else {
      QuantityNeedsKey(rows, k);
      assert k !in s.remote;
      RowsAreNotNegative(s.rows, k);
    }
  }

  lemma {:induction false} RowsAreNotNegative(rows: seq<L.Count>, k: CountKey)
    requires Books(rows)
    ensures QuantityOf(rows, k) >= 0
  {
    if rows != [] {
      RowsAreNotNegative(rows[1..], k);
    }
  }

  /** One full drain in which every apply succeeds. */
  function Drain(n: nat): seq<Step> {
    if n == 0 then [] else [Apply(0), Dequeue(0)] + Drain(n - 1)
  }

  /** The first item of the queue is applied and dequeued. */
  lemma DrainHead(s: State, k: CountKey)
    requires Inv(s) && BoundedAt(s, k) && s.queue != []
    ensures Enabled(Next(s, Apply(0)), Dequeue(0))
    ensures var t := Next(Next(s, Apply(0)), Dequeue(0));
            && Inv(t) && BoundedAt(t, k) && |t.queue| == |s.queue| - 1 && t.rows == s.rows && t.products == s.products
            && RemoteQuantity(t.remote, k) + Waiting(t.queue, t.applied, k)
               == RemoteQuantity(s.remote, k) + Waiting(s.queue, s.applied, k)
  {
    var a := Next(s, Apply(0));
    InvStep(s, Apply(0));
    BoundedApply(s, 0, k);
    AppliedIsWaiting(s, k);
    InvStep(a, Dequeue(0));
    BoundedStep(a, Dequeue(0), k);
    WaitingRemoved(a.queue, 0, a.applied, k);
  }

  lemma Unroll(s: State, first: Step, second: Step, rest: seq<Step>)
    requires Enabled(s, first) && Enabled(Next(s, first), second) && Legal(Next(Next(s, first), second), rest)
    ensures Legal(s, [first, second] + rest)
    ensures Run(s, [first, second] + rest) == Run(Next(Next(s, first), second), rest)
  {
    var steps := [first, second] + rest;
    assert steps[1..][0] == second && steps[1..][1..] == rest;
    assert Legal(Next(s, first), steps[1..]);
  }

  lemma {:induction false} DrainEmpties(s: State, k: CountKey)
    requires Inv(s) && BoundedAt(s, k)
    ensures Legal(s, Drain(|s.queue|))
    ensures var t := Run(s, Drain(|s.queue|));
            && Inv(t) && BoundedAt(t, k) && t.queue == [] && t.rows == s.rows && t.products == s.products
            && RemoteQuantity(t.remote, k) == RemoteQuantity(s.remote, k) + Waiting(s.queue, s.applied, k)
    decreases |s.queue|
  {
    if s.queue != [] {
      DrainHead(s, k);
      var t := Next(Next(s, Apply(0)), Dequeue(0));
      DrainEmpties(t, k);
      Unroll(s, Apply(0), Dequeue(0), Drain(|t.queue|));
    }
  }

  lemma AppliedIsWaiting(s: State, k: CountKey)
    requires Inv(s) && s.queue != []
    ensures var t := Next(s, Apply(0));
            RemoteQuantity(t.remote, k) + Waiting(t.queue, t.applied, k) == RemoteQuantity(s.remote, k)
                + Waiting(s.queue, s.applied, k)
  {
    if s.queue[0].idempotencyKey !in s.applied {
      WaitingApplied(s.queue, 0, s.applied, k);
      assert s.queue[0].operation == IncrementCount ==> s.queue[0].payload.Some?;
    }
  }

  /** From every state a run can reach, a full drain and a refresh of whatever the backend then answers
      leave both sides with exactly the backend's quantity plus what was still waiting: nothing lost,
      nothing counted twice. */
  lemma DrainThenRefreshSettles(businessId: string, products: seq<Product>, steps: seq<Step>, merged: seq<Product>,
                                k: CountKey)
    requires Legal(Fresh(businessId, products), steps)
    requires k.productId !in ArchivedIds(Run(Fresh(businessId, products), steps).products)
    ensures var s := Run(Fresh(businessId, products), steps);
            && Legal(s, Drain(|s.queue|))
            && var d := Run(s, Drain(|s.queue|));
               forall rows :: Faithful(rows, d.remote) ==>
                 var t := Next(Next(d, Read(rows)), Refresh(|d.loads|, merged));
                 && QuantityOf(t.rows, k) == RemoteQuantity(t.remote, k)
                 && RemoteQuantity(t.remote, k) == RemoteQuantity(s.remote, k) + Waiting(s.queue, s.applied, k)
  {
    BoundedRun(Fresh(businessId, products), steps, k);
    var s := Run(Fresh(businessId, products), steps);
    DrainEmpties(s, k);
    var d := Run(s, Drain(|s.queue|));
    forall rows | Faithful(rows, d.remote)
      ensures var t := Next(Next(d, Read(rows)), Refresh(|d.loads|, merged));
              && QuantityOf(t.rows, k) == RemoteQuantity(t.remote, k)
              && RemoteQuantity(t.remote, k) == RemoteQuantity(s.remote, k) + Waiting(s.queue, s.applied, k)
    {
      SettledRefresh(d, rows, merged, k);
    }
  }
}
