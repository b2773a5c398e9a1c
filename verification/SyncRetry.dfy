/** The idempotent backend and the retry loop that drains the queue into it: whatever fails, in
    whatever order, nothing is counted twice. Models src/sync-database/mock/mockDb.ts and the local
    branch of `syncPending` in src/stores/scanStore.ts. */
module SyncRetry {
  import opened StampedCopy
  import opened CloudMerge

  /** A count row of the backend. */
  datatype ServerCount = ServerCount(quantity: int, scanEventIds: seq<string>, appliedIdempotencyKeys: seq<string>)

  const NO_COUNT := ServerCount(0, [], [])

  datatype Server = Server(counts: map<CountKey, ServerCount>, appliedKeys: seq<string>)

  function RowOf(s: Server, k: CountKey): ServerCount {
    if k in s.counts then s.counts[k] else NO_COUNT
  }

  function EventOf(it: Item): string {
    if it.scanEventId.Some? then it.scanEventId.value else ""
  }

  /** Already counted in its row, by event or by key; an empty one is not recorded. */
  predicate Seen(row: ServerCount, it: Item, key: string) {
    (EventOf(it) != "" && EventOf(it) in row.scanEventIds) || (key != "" && key in row.appliedIdempotencyKeys)
  }

  function Recorded(xs: seq<string>, x: string): seq<string> {
    if x == "" then xs else xs + [x]
  }

  function Increase(row: ServerCount, it: Item, p: Increment): ServerCount {
    if Seen(row, it, p.idempotencyKey) then row
    else ServerCount(row.quantity + p.delta, Recorded(row.scanEventIds, EventOf(it)),
                     Recorded(row.appliedIdempotencyKeys, p.idempotencyKey))
  }

  predicate Counts(it: Item, k: CountKey) {
    it.operation == IncrementCount && Target(it) == Some(k)
  }

  function Applied(s: Server, it: Item): Server {
    if it.idempotencyKey != "" && it.idempotencyKey in s.appliedKeys then s
    else
      Server(if it.operation == IncrementCount && Target(it).Some?
             then s.counts[Target(it).value := Increase(RowOf(s, Target(it).value), it, it.payload.value)]
             else s.counts,
             Recorded(s.appliedKeys, it.idempotencyKey))
  }

  /** fails(i): the i-th apply of this drain fails. */
  function Drained(s: Server, queue: seq<Item>, fails: nat -> bool): Server {
    if queue == [] then s
    else
      var t := Drained(s, queue[..|queue| - 1], fails);
      if fails(|queue| - 1) then t else Applied(t, queue[|queue| - 1])
  }

  function StillPending(queue: seq<Item>, fails: nat -> bool): seq<Item> {
    if queue == [] then []
    else StillPending(queue[..|queue| - 1], fails) + if fails(|queue| - 1) then [queue[|queue| - 1]] else []
  }

  class MockDb {
    var counts: map<CountKey, ServerCount>
    var appliedKeys: seq<string>

    ghost function Model(): Server
      reads this
    {
      Server(counts, appliedKeys)
    }

    constructor ()
      ensures Model() == Server(map[], [])
    {
      counts, appliedKeys := map[], [];
    }

    method ApplyIncrement(it: Item, p: Increment, k: CountKey)
      modifies this`counts
      ensures counts == old(counts)[k := Increase(RowOf(old(Model()), k), it, p)]
    {
      var existing := NO_COUNT;
      if k in counts {
        existing := counts[k];
      }
      var seenEvent := EventOf(it) != "" && EventOf(it) in existing.scanEventIds;
      var seenKey := p.idempotencyKey != "" && p.idempotencyKey in existing.appliedIdempotencyKeys;
      if seenEvent || seenKey {
        counts := counts[k := existing];
        return;
      }
      counts := counts[k := ServerCount(existing.quantity + p.delta, Recorded(existing.scanEventIds, EventOf(it)),
                                        Recorded(existing.appliedIdempotencyKeys, p.idempotencyKey))];
    }

    method Apply(it: Item, fails: bool) returns (ok: bool)
      modifies this
      ensures ok == !fails
      ensures Model() == if fails then old(Model()) else Applied(old(Model()), it)
    {
      if fails {
        return false;
      }
      if it.idempotencyKey != "" && it.idempotencyKey in appliedKeys {
        return true;
      }
      if it.operation == IncrementCount && Target(it).Some? {
        ApplyIncrement(it, it.payload.value, Target(it).value);
      }
      if it.idempotencyKey != "" {
        appliedKeys := appliedKeys + [it.idempotencyKey];
      }
      ok := true;
    }

    /** The drain loop of the store: what fails stays in the queue, in order. */
    method SyncPending(queue: seq<Item>, fails: nat -> bool) returns (stillPending: seq<Item>)
      modifies this
      ensures Model() == Drained(old(Model()), queue, fails)
      ensures stillPending == StillPending(queue, fails)
    {
      stillPending := [];
      for i := 0 to |queue|
        invariant Model() == Drained(old(Model()), queue[..i], fails)
        invariant stillPending == StillPending(queue[..i], fails)
      {
        assert queue[..i + 1][..i] == queue[..i];
        var ok := Apply(queue[i], fails(i));
        if !ok {
          stillPending := stillPending + [queue[i]];
        }
      }
      assert queue[..|queue|] == queue;
    }
  }

  // --- applying again ------------------------------------------------------------------------------

  /** Applying an operation a second time changes nothing. */
  lemma ApplyingAgainIsANoOp(s: Server, it: Item)
    requires it.idempotencyKey != ""
    ensures Applied(Applied(s, it), it) == Applied(s, it)
  {
  }

  // --- retries -------------------------------------------------------------------------------------

  /** What applying the item now would add to row k. */
  function Adds(s: Server, it: Item, k: CountKey): int {
    if Counts(it, k) && it.idempotencyKey !in s.appliedKeys && !Seen(RowOf(s, k), it, it.payload.value.idempotencyKey)
    then it.payload.value.delta else 0
  }

  function AddsAll(s: Server, queue: seq<Item>, k: CountKey): int {
    if queue == [] then 0 else AddsAll(s, queue[..|queue| - 1], k) + Adds(s, queue[|queue| - 1], k)
  }

  function Quantity(s: Server, k: CountKey): int {
    RowOf(s, k).quantity
  }

  /** Two operations that do not deduplicate each other. */
  predicate Apart(x: Item, y: Item) {
    && x.idempotencyKey != y.idempotencyKey
    && (x.operation == IncrementCount && y.operation == IncrementCount && Target(x).Some? && Target(x) == Target(y) ==>
          EventOf(x) != EventOf(y) && x.payload.value.idempotencyKey != y.payload.value.idempotencyKey)
  }

  /** Every operation has a key, and no two are the same operation. */
  predicate AllApart(queue: seq<Item>) {
    && (forall i :: 0 <= i < |queue| ==> queue[i].idempotencyKey != "")
    && (forall i, j :: 0 <= i < |queue| && 0 <= j < |queue| && i != j ==> Apart(queue[i], queue[j]))
  }

  lemma ApplyMoves(s: Server, it: Item, k: CountKey)
    requires it.idempotencyKey != ""
    ensures Quantity(Applied(s, it), k) == Quantity(s, k) + Adds(s, it, k)
    ensures Adds(Applied(s, it), it, k) == 0
  {
  }

  lemma OthersAreNotMoved(s: Server, it: Item, other: Item, k: CountKey)
    requires Apart(it, other)
    ensures Adds(Applied(s, it), other, k) == Adds(s, other, k)
  {
  }

  lemma {:induction false} QueueIsNotMoved(s: Server, it: Item, queue: seq<Item>, k: CountKey)
    requires forall x :: x in queue ==> Apart(it, x)
    ensures AddsAll(Applied(s, it), queue, k) == AddsAll(s, queue, k)
    decreases |queue|
  {
    if queue != [] {
      QueueIsNotMoved(s, it, queue[..|queue| - 1], k);
      OthersAreNotMoved(s, it, queue[|queue| - 1], k);
    }
  }

  /** After the items before i of a drain, the quantity and what the failed ones and the rest would
      still add are together what they were. */
  lemma {:induction false} DrainBalances(s: Server, queue: seq<Item>, later: seq<Item>, fails: nat -> bool, k: CountKey)
    requires AllApart(queue + later)
    ensures var t := Drained(s, queue, fails);
            Quantity(t, k) + AddsAll(t, StillPending(queue, fails) + later, k) == Quantity(s, k)
                + AddsAll(s, queue + later, k)
    decreases |queue|
  {
    if queue == [] {
      assert [] + later == later && StillPending(queue, fails) == [];
    } else {
      var n := |queue| - 1;
      var front, it := queue[..n], queue[n];
      assert front + ([it] + later) == queue + later;
      DrainBalances(s, front, [it] + later, fails, k);
      var t := Drained(s, front, fails);
      var kept := StillPending(front, fails);
      if fails(n) {
        assert kept + ([it] + later) == (kept + [it]) + later;
      } else {
        PendingIsApart(queue, later, fails);
        AddsAllSplit(t, kept, it, later, k);
        assert kept + [] == kept;
        ApplyMoves(t, it, k);
        QueueIsNotMoved(t, it, kept + later, k);
      }
    }
  }

  lemma {:induction false} AddsAllConcat(s: Server, a: seq<Item>, b: seq<Item>, k: CountKey)
    ensures AddsAll(s, a + b, k) == AddsAll(s, a, k) + AddsAll(s, b, k)
    decreases |b|
  {
    if b == [] {
      assert a + b == a;
    } else {
      assert (a + b)[..|a + b| - 1] == a + b[..|b| - 1];
      AddsAllConcat(s, a, b[..|b| - 1], k);
    }
  }

  lemma AddsAllSplit(s: Server, a: seq<Item>, it: Item, b: seq<Item>, k: CountKey)
    ensures AddsAll(s, a + ([it] + b), k) == AddsAll(s, a + b, k) + Adds(s, it, k)
  {
    AddsAllConcat(s, a, [it] + b, k);
    AddsAllConcat(s, [it], b, k);
    AddsAllConcat(s, a, b, k);
    assert [it][..0] == [];
  }

  lemma {:induction false} PendingAreOfQueue(queue: seq<Item>, fails: nat -> bool)
    ensures forall x :: x in StillPending(queue, fails) ==> x in queue
    decreases |queue|
  {
    if queue != [] {
      PendingAreOfQueue(queue[..|queue| - 1], fails);
    }
  }

  /** The last item of the queue is apart from the failed ones before it and from later ones. */
  lemma PendingIsApart(queue: seq<Item>, later: seq<Item>, fails: nat -> bool)
    requires queue != [] && AllApart(queue + later)
    ensures var it := queue[|queue| - 1];
            it.idempotencyKey != "" && forall x :: x in StillPending(queue[..|queue| - 1], fails) || x in later ==>
                Apart(it, x)
  {
    var n := |queue| - 1;
    var all := queue + later;
    PendingAreOfQueue(queue[..n], fails);
    assert all[n] == queue[n];
    forall x | x in StillPending(queue[..n], fails) || x in later ensures Apart(queue[n], x) {
      if x in later {
        var i :| 0 <= i < |later| && later[i] == x;
        assert all[n + 1 + i] == x;
      } else {
        var j :| 0 <= j < n && queue[..n][j] == x;
        assert all[j] == x;
      }
    }
  }

  lemma {:induction false} PendingStaysApart(queue: seq<Item>, fails: nat -> bool)
    requires AllApart(queue)
    ensures AllApart(StillPending(queue, fails))
    decreases |queue|
  {
    if queue != [] {
      var n := |queue| - 1;
      assert forall i :: 0 <= i < n ==> queue[..n][i] == queue[i];
      PendingStaysApart(queue[..n], fails);
      assert queue + [] == queue;
      PendingIsApart(queue, [], fails);
      var kept := StillPending(queue[..n], fails);
      forall i | 0 <= i < |kept| ensures Apart(queue[n], kept[i]) {
        assert kept[i] in kept;
      }
    }
  }

  /** The server and the queue after some drains, each with its own failures. */
  function Rounds(s: Server, queue: seq<Item>, rounds: seq<nat -> bool>): (Server, seq<Item>) {
    if rounds == [] then (s, queue)
    else
      var (t, q) := Rounds(s, queue, rounds[..|rounds| - 1]);
      (Drained(t, q, rounds[|rounds| - 1]), StillPending(q, rounds[|rounds| - 1]))
  }

  lemma {:induction false} RoundsBalance(s: Server, queue: seq<Item>, rounds: seq<nat -> bool>, k: CountKey)
    requires AllApart(queue)
    ensures var (t, q) := Rounds(s, queue, rounds);
            AllApart(q) && Quantity(t, k) + AddsAll(t, q, k) == Quantity(s, k) + AddsAll(s, queue, k)
    decreases |rounds|
  {
    if rounds != [] {
      var front, fails := rounds[..|rounds| - 1], rounds[|rounds| - 1];
      RoundsBalance(s, queue, front, k);
      var (t, q) := Rounds(s, queue, front);
      assert q + [] == q && StillPending(q, fails) + [] == StillPending(q, fails);
      DrainBalances(t, q, [], fails, k);
      PendingStaysApart(q, fails);
    }
  }

  /** Retries never lose or double a count: any number of drains with any failures, once the queue
      is empty, leave every row with exactly the quantity of one drain without failures. */
  lemma RetriesNeverDoubleCount(s: Server, queue: seq<Item>, rounds: seq<nat -> bool>, k: CountKey)
    requires AllApart(queue) && Rounds(s, queue, rounds).1 == []
    ensures Quantity(Rounds(s, queue, rounds).0, k) == Quantity(Drained(s, queue, _ => false), k)
  {
    RoundsBalance(s, queue, rounds, k);
    assert queue + [] == queue;
    DrainBalances(s, queue, [], _ => false, k);
    NothingFails(queue, _ => false);
    assert StillPending(queue, _ => false) + [] == [];
  }

  lemma {:induction false} NothingFails(queue: seq<Item>, fails: nat -> bool)
    requires forall i :: !fails(i)
    ensures StillPending(queue, fails) == []
    decreases |queue|
  {
    if queue != [] {
      NothingFails(queue[..|queue| - 1], fails);
    }
  }

  function Failing(fails: nat -> bool, n: nat): nat {
    if n == 0 then 0 else Failing(fails, n - 1) + if fails(n - 1) then 1 else 0
  }

  /** What failed stays in the queue, in its order, and nothing else does. */
  lemma {:induction false} FailedStayInOrder(queue: seq<Item>, fails: nat -> bool, i: nat)
    ensures |StillPending(queue, fails)| == Failing(fails, |queue|)
    ensures i < |queue| && fails(i) ==>
        Failing(fails, i) < |StillPending(queue, fails)| && StillPending(queue, fails)[Failing(fails, i)] == queue[i]
    decreases |queue|
  {
    if queue != [] {
      FailedStayInOrder(queue[..|queue| - 1], fails, i);
    }
  }

  // --- what the backend holds ----------------------------------------------------------------------

  /** The operation increments row k. */
  predicate Increments(x: Item, k: CountKey) {
    && x.operation == IncrementCount && x.payload.Some?
    && k.productId != "" && x.payload.value.productId == k.productId
    && k.sessionId == match x.payload.value.sessionId
                      case Some(own) => own
                      case None => x.sessionId
  }

  /** Two increments of one row that count the same scan: by event or by key. */
  predicate SameScan(x: Item, y: Item)
    requires x.payload.Some? && y.payload.Some?
  {
    || (x.scanEventId.Some? && x.scanEventId.value != "" && x.scanEventId == y.scanEventId)
    || (x.payload.value.idempotencyKey != "" && x.payload.value.idempotencyKey == y.payload.value.idempotencyKey)
  }

  /** The i-th operation sent to an empty backend is counted in row k: it is not a repetition of an
      operation sent before, nor the scan of one that was counted before. */
  predicate CountedAt(sent: seq<Item>, i: nat, k: CountKey)
    requires i < |sent|
  {
    && Increments(sent[i], k)
    && (sent[i].idempotencyKey != "" ==> forall j :: 0 <= j < i ==> sent[j].idempotencyKey != sent[i].idempotencyKey)
    && forall j: nat | j < i :: CountedAt(sent, j, k) ==> !SameScan(sent[j], sent[i])
  }

  function Sent(sent: seq<Item>, n: nat, k: CountKey): int
    requires n <= |sent|
  {
    if n == 0 then 0
    else Sent(sent, n - 1, k) + if CountedAt(sent, n - 1, k) then sent[n - 1].payload.value.delta else 0
  }

  const EMPTY_SERVER := Server(map[], [])

  function Served(sent: seq<Item>, n: nat): Server
    requires n <= |sent|
  {
    if n == 0 then EMPTY_SERVER else Applied(Served(sent, n - 1), sent[n - 1])
  }

  /** Which operation keys, and which events and keys of row k, the first n operations leave behind. */
  predicate SentKey(sent: seq<Item>, n: nat, x: string)
    requires n <= |sent|
  {
    x != "" && exists j :: 0 <= j < n && sent[j].idempotencyKey == x
  }

  predicate CountedEvent(sent: seq<Item>, n: nat, k: CountKey, x: string)
    requires n <= |sent|
  {
    x != "" && exists j :: 0 <= j < n && CountedAt(sent, j, k) && sent[j].scanEventId == Some(x)
  }

  predicate CountedKey(sent: seq<Item>, n: nat, k: CountKey, x: string)
    requires n <= |sent|
  {
    x != "" && exists j :: 0 <= j < n && CountedAt(sent, j, k) && sent[j].payload.value.idempotencyKey == x
  }

  ghost predicate Remembers(s: Server, sent: seq<Item>, n: nat, k: CountKey)
    requires n <= |sent|
  {
    && (forall x :: x in s.appliedKeys <==> SentKey(sent, n, x))
    && (forall x :: x in RowOf(s, k).scanEventIds <==> CountedEvent(sent, n, k, x))
    && (forall x :: x in RowOf(s, k).appliedIdempotencyKeys <==> CountedKey(sent, n, k, x))
  }

  lemma OneSentMore(sent: seq<Item>, n: nat, k: CountKey, x: string)
    requires n < |sent|
    ensures SentKey(sent, n + 1, x) <==> SentKey(sent, n, x) || (x != "" && sent[n].idempotencyKey == x)
    ensures CountedEvent(sent, n + 1, k, x)
       <==> CountedEvent(sent, n, k, x) || (x != "" && CountedAt(sent, n, k) && sent[n].scanEventId == Some(x))
    ensures CountedKey(sent, n + 1, k, x)
       <==> || CountedKey(sent, n, k, x)
            || (x != "" && CountedAt(sent, n, k) && sent[n].payload.value.idempotencyKey == x)
  {
  }

  lemma {:induction false} CountedExactly(sent: seq<Item>, n: nat, k: CountKey)
    requires n < |sent|
    ensures CountedAt(sent, n, k)
       <==> && Increments(sent[n], k) && !SentKey(sent, n, sent[n].idempotencyKey)
            && !CountedEvent(sent, n, k, EventOf(sent[n]))
            && !CountedKey(sent, n, k, sent[n].payload.value.idempotencyKey)
  {
  }

  lemma RecordedMembers(xs: seq<string>, x: string, y: string)
    ensures y in Recorded(xs, x) <==> y in xs || (x != "" && y == x)
  {
  }

  lemma RowAfter(s: Server, it: Item, k: CountKey)
    ensures RowOf(Applied(s, it), k)
         == if Increments(it, k) && !(it.idempotencyKey != "" && it.idempotencyKey in s.appliedKeys)
            then Increase(RowOf(s, k), it, it.payload.value) else RowOf(s, k)
  {
  }

  lemma {:induction false} RemembersOne(s: Server, sent: seq<Item>, n: nat, k: CountKey, x: string)
    requires n < |sent| && Remembers(s, sent, n, k)
    ensures var t := Applied(s, sent[n]);
            && (x in t.appliedKeys <==> SentKey(sent, n + 1, x))
            && (x in RowOf(t, k).scanEventIds <==> CountedEvent(sent, n + 1, k, x))
            && (x in RowOf(t, k).appliedIdempotencyKeys <==> CountedKey(sent, n + 1, k, x))
  {
    var it := sent[n];
    OneSentMore(sent, n, k, x);
    CountedExactly(sent, n, k);
    RowAfter(s, it, k);
    RecordedMembers(s.appliedKeys, it.idempotencyKey, x);
    assert it.idempotencyKey in s.appliedKeys <==> SentKey(sent, n, it.idempotencyKey);
    if Increments(it, k) {
      RecordedMembers(RowOf(s, k).scanEventIds, EventOf(it), x);
      RecordedMembers(RowOf(s, k).appliedIdempotencyKeys, it.payload.value.idempotencyKey, x);
    }
  }

  lemma {:induction false} ServesOne(s: Server, sent: seq<Item>, n: nat, k: CountKey)
    requires n < |sent| && Remembers(s, sent, n, k)
    ensures Remembers(Applied(s, sent[n]), sent, n + 1, k)
    ensures Quantity(Applied(s, sent[n]), k)
         == Quantity(s, k) + if CountedAt(sent, n, k) then sent[n].payload.value.delta else 0
  {
    forall x ensures var t := Applied(s, sent[n]);
      && (x in t.appliedKeys <==> SentKey(sent, n + 1, x))
      && (x in RowOf(t, k).scanEventIds <==> CountedEvent(sent, n + 1, k, x))
      && (x in RowOf(t, k).appliedIdempotencyKeys <==> CountedKey(sent, n + 1, k, x))
    {
      RemembersOne(s, sent, n, k, x);
    }
    CountedExactly(sent, n, k);
    RowAfter(s, sent[n], k);
    assert sent[n].idempotencyKey in s.appliedKeys <==> SentKey(sent, n, sent[n].idempotencyKey);
  }

  /** What the backend holds after any operations at all, repeated, reordered or colliding: each row is
      the sum of the increments that were not counted before. */
  lemma {:induction false} BackendExactly(sent: seq<Item>, n: nat, k: CountKey)
    requires n <= |sent|
    ensures Quantity(Served(sent, n), k) == Sent(sent, n, k) && Remembers(Served(sent, n), sent, n, k)
  {
    if n > 0 {
      BackendExactly(sent, n - 1, k);
      ServesOne(Served(sent, n - 1), sent, n - 1, k);
    }
  }
}
