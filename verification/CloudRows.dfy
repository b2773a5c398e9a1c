/** Row by row, what the merges of a cloud snapshot leave: which remote rows win, which local rows stay,
    and in what order feed and sessions come. */
module CloudRows {
  import opened StampedCopy
  import opened Seqs
  import opened OrderedMap
  import opened CloudMerge
  import L = Ledger

  /** The first row that has the key. */
  function At<K(==), T>(rows: seq<T>, key: T -> K, k: K): Option<T> {
    if rows == [] then None else if key(rows[0]) == k then Some(rows[0]) else At(rows[1..], key, k)
  }

  lemma {:induction false} AtIsIn<K, T>(rows: seq<T>, key: T -> K, k: K)
    ensures At(rows, key, k).Some? ==> At(rows, key, k).value in rows && key(At(rows, key, k).value) == k
    ensures At(rows, key, k).None? ==> forall x :: x in rows ==> key(x) != k
    ensures Unique(rows, key) ==> forall x :: x in rows && key(x) == k ==> At(rows, key, k) == Some(x)
  {
    if rows != [] {
      var rest := rows[1..];
      AtIsIn(rest, key, k);
      assert rows == [rows[0]] + rest;
      if Unique(rows, key) {
        forall x | x in rest ensures key(x) != key(rows[0]) {
          var i :| 0 <= i < |rest| && rest[i] == x;
          assert rows[i + 1] == x;
        }
      }
    }
  }

  lemma {:induction false} AtValues<K, T>(m: seq<Entry<K, T>>, key: T -> K, k: K)
    requires KeyedBy(m, key)
    ensures At(Values(m), key, k) == Get(m, k)
  {
    if m != [] {
      AtValues(m[1..], key, k);
      assert Values(m) == [m[0].value] + Values(m[1..]);
    }
  }

  lemma AtFrom<K, T>(rows: seq<T>, key: T -> K, k: K)
    requires Unique(rows, key)
    ensures KeyedBy(From(rows, key), key) && Get(From(rows, key), k) == At(rows, key, k)
  {
    FromKeyed(rows, key);
    FromValues(rows, key);
    AtValues(From(rows, key), key, k);
  }

  /** A row more at the end. */
  lemma AtLast<K, T>(rows: seq<T>, key: T -> K, k: K)
    requires rows != [] && Unique(rows, key)
    ensures At(rows, key, k) == if key(Last(rows)) == k then Some(Last(rows)) else At(Front(rows), key, k)
    ensures Unique(Front(rows), key) && At(Front(rows), key, key(Last(rows))) == None
  {
    AtIsIn(rows, key, k);
    AtIsIn(Front(rows), key, k);
    AtIsIn(Front(rows), key, key(Last(rows)));
    assert rows == Front(rows) + [Last(rows)];
  }

  // --- products and aliases -------------------------------------------------------------------------

  /** Sync work of this kind for the entity waits in the business's queue. */
  predicate Waits(queue: seq<Item>, b: string, operation: Operation, id: string) {
    exists it :: it in queue && it.businessId == b && it.operation == operation && it.entityId == id
  }

  lemma PendingAreWaiting(queue: seq<Item>, b: string, operation: Operation, id: string)
    ensures id in PendingIds(queue, b, operation) <==> Waits(queue, b, operation, id)
  {
    if Waits(queue, b, operation, id) {
      var it :| it in queue && it.businessId == b && it.operation == operation && it.entityId == id;
      var i :| 0 <= i < |queue| && queue[i] == it;
    }
  }

  /** Unsynced local work wins, a product archived here stays archived, else the remote row wins. */
  function MergedProduct(local: seq<Product>, remote: seq<Product>, queue: seq<Item>, b: string, id: string)
    : Option<Product>
  {
    var l, r := At(local, ProductId, id), At(remote, ProductId, id);
    if r.None? || Waits(queue, b, SaveProduct, id) || (l.Some? && l.value.archived && !r.value.archived) then l else r
  }

  lemma {:induction false} ProductAfterMerge(local: seq<Product>, remote: seq<Product>, queue: seq<Item>, b: string,
                                             id: string)
    requires Unique(local, ProductId) && Unique(remote, ProductId)
    ensures var m := MergedProducts(local, remote, PendingIds(queue, b, SaveProduct));
            && KeyedBy(m, ProductId) && Unique(Values(m), ProductId)
            && Get(m, id) == MergedProduct(local, remote, queue, b, id)
            && At(Values(m), ProductId, id) == MergedProduct(local, remote, queue, b, id)
    decreases |remote|
  {
    var pending := PendingIds(queue, b, SaveProduct);
    AtFrom(local, ProductId, id);
    if remote != [] {
      var m, r := MergedProducts(local, Front(remote), pending), Last(remote);
      AtLast(remote, ProductId, id);
      ProductAfterMerge(local, Front(remote), queue, b, id);
      PendingAreWaiting(queue, b, SaveProduct, r.id);
      SetKeyed(m, r, ProductId);
      GetSet(m, r.id, r, id);
    }
    AtValues(MergedProducts(local, remote, pending), ProductId, id);
    ValuesUnique(MergedProducts(local, remote, pending), ProductId);
  }

  function MergedAlias(local: seq<Alias>, remote: seq<Alias>, queue: seq<Item>, b: string, id: string): Option<Alias> {
    var r := At(remote, AliasId, id);
    if r.None? || Waits(queue, b, ResolveAlias, id) then At(local, AliasId, id) else r
  }

  lemma {:induction false} AliasAfterMerge(local: seq<Alias>, remote: seq<Alias>, queue: seq<Item>, b: string,
                                           id: string)
    requires Unique(local, AliasId) && Unique(remote, AliasId)
    ensures var m := MergedAliases(local, remote, PendingIds(queue, b, ResolveAlias));
            && KeyedBy(m, AliasId) && Unique(Values(m), AliasId)
            && Get(m, id) == MergedAlias(local, remote, queue, b, id)
            && At(Values(m), AliasId, id) == MergedAlias(local, remote, queue, b, id)
    decreases |remote|
  {
    var pending := PendingIds(queue, b, ResolveAlias);
    AtFrom(local, AliasId, id);
    if remote != [] {
      var m, r := MergedAliases(local, Front(remote), pending), Last(remote);
      AtLast(remote, AliasId, id);
      AliasAfterMerge(local, Front(remote), queue, b, id);
      PendingAreWaiting(queue, b, ResolveAlias, r.id);
      SetKeyed(m, r, AliasId);
      GetSet(m, r.id, r, id);
    }
    AtValues(MergedAliases(local, remote, pending), AliasId, id);
    ValuesUnique(MergedAliases(local, remote, pending), AliasId);
  }

  // --- reviews --------------------------------------------------------------------------------------

  /** When the review was decided: its decision clock, or the resolution time of a decided review
      without one; 0 for never. */
  function DecidedAt(r: Review): nat {
    match r.decisionUpdatedAt
    case Some(at) => at
    case None => if r.decided then r.resolvedAt else 0
  }

  function OwnAt(rows: seq<Review>, b: string, id: string): Option<Review> {
    var r := At(rows, ReviewId, id);
    if r.Some? && r.value.businessId == b then r else None
  }

  /** Only the business's own reviews; unsynced local work wins, and so does the later decision. */
  function MergedReview(local: seq<Review>, remote: seq<Review>, queue: seq<Item>, b: string, id: string)
    : Option<Review>
  {
    var l, r := OwnAt(local, b, id), OwnAt(remote, b, id);
    if r.None? || Waits(queue, b, SaveUnknownScan, id) || (l.Some? && DecidedAt(l.value) > DecidedAt(r.value)) then l
    else r
  }

  lemma {:induction false} OwnReviewsUnique(rows: seq<Review>, b: string)
    requires Unique(rows, ReviewId)
    ensures Unique(OwnReviews(rows, b), ReviewId)
    ensures forall r :: r in OwnReviews(rows, b) <==> r in rows && r.businessId == b
  {
    if rows != [] {
      var rest := rows[1..];
      OwnReviewsUnique(rest, b);
      assert rows == [rows[0]] + rest;
      NotInRest(rows, ReviewId, OwnReviews(rest, b));
    }
  }

  /** A selection of the rows behind the first one has none of its key. */
  lemma NotInRest<K, T>(rows: seq<T>, key: T -> K, picked: seq<T>)
    requires rows != [] && Unique(rows, key) && (forall x :: x in picked ==> x in rows[1..]) && Unique(picked, key)
    ensures Unique([rows[0]] + picked, key)
  {
    forall i | 0 <= i < |picked| ensures key(picked[i]) != key(rows[0]) {
      assert picked[i] in rows[1..];
      var j :| 0 <= j < |rows[1..]| && rows[1..][j] == picked[i];
      assert rows[j + 1] == picked[i];
    }
  }

  lemma OwnReviewsAt(rows: seq<Review>, b: string, id: string)
    requires Unique(rows, ReviewId)
    ensures At(OwnReviews(rows, b), ReviewId, id) == OwnAt(rows, b, id)
  {
    OwnReviewsUnique(rows, b);
    AtIsIn(rows, ReviewId, id);
    AtIsIn(OwnReviews(rows, b), ReviewId, id);
  }

  lemma OwnLast(rows: seq<Review>, b: string, id: string)
    requires rows != [] && Unique(rows, ReviewId)
    ensures Unique(Front(rows), ReviewId)
    ensures OwnAt(Front(rows), b, Last(rows).id) == None
    ensures OwnAt(rows, b, id) == if Last(rows).id != id then OwnAt(Front(rows), b, id)
                                  else if Last(rows).businessId == b then Some(Last(rows)) else None
  {
    AtLast(rows, ReviewId, id);
  }

  /** One remote review more: m holds what the ones before it leave. */
  lemma ReviewStep(m: seq<Entry<string, Review>>, local: seq<Review>, remote: seq<Review>, queue: seq<Item>, b: string,
                   id: string)
    requires remote != [] && Unique(remote, ReviewId)
    requires Get(m, id) == MergedReview(local, Front(remote), queue, b, id)
    ensures var r := Last(remote);
            Get(if KeepsReview(m, r, b, PendingIds(queue, b, SaveUnknownScan)) then m else Set(m, r.id, r), id)
            == MergedReview(local, remote, queue, b, id)
  {
    var r := Last(remote);
    OwnLast(remote, b, id);
    PendingAreWaiting(queue, b, SaveUnknownScan, r.id);
    GetSet(m, r.id, r, id);
  }

  lemma {:induction false} ReviewAfterMerge(local: seq<Review>, remote: seq<Review>, queue: seq<Item>, b: string,
                                            id: string)
    requires Unique(local, ReviewId) && Unique(remote, ReviewId)
    ensures var m := MergedReviews(local, remote, b, PendingIds(queue, b, SaveUnknownScan));
            && KeyedBy(m, ReviewId) && Unique(Values(m), ReviewId)
            && Get(m, id) == MergedReview(local, remote, queue, b, id)
            && At(Values(m), ReviewId, id) == MergedReview(local, remote, queue, b, id)
    decreases |remote|
  {
    var pending := PendingIds(queue, b, SaveUnknownScan);
    if remote == [] {
      OwnReviewsUnique(local, b);
      OwnReviewsAt(local, b, id);
      AtFrom(OwnReviews(local, b), ReviewId, id);
    } else {
      var m := MergedReviews(local, Front(remote), b, pending);
      ReviewAfterMerge(local, Front(remote), queue, b, id);
      ReviewStep(m, local, remote, queue, b, id);
      SetKeyed(m, Last(remote), ReviewId);
    }
    AtValues(MergedReviews(local, remote, b, pending), ReviewId, id);
    ValuesUnique(MergedReviews(local, remote, b, pending), ReviewId);
  }

  // --- counts ---------------------------------------------------------------------------------------

  /** An unsynced increment of the business names the product and, itself or in its payload, the session. */
  predicate IncrementWaits(queue: seq<Item>, b: string, k: CountKey) {
    exists it :: it in queue && it.businessId == b && it.operation == IncrementCount
                 && it.payload.Some? && it.payload.value.productId != "" && it.payload.value.productId == k.productId
                 && k.sessionId == (if it.payload.value.sessionId.Some? then it.payload.value.sessionId.value
                                    else it.sessionId)
  }

  /** The row has unsynced increments: by session and product, by its id, or by its joined id. */
  predicate Unsynced(queue: seq<Item>, b: string, c: L.Count) {
    || IncrementWaits(queue, b, KeyOf(c))
    || Waits(queue, b, IncrementCount, c.id)
    || Waits(queue, b, IncrementCount, c.sessionId + "_" + c.productId)
  }

  lemma PendingKeysWait(queue: seq<Item>, b: string, k: CountKey)
    ensures k in PendingCounts(queue, b).keys <==> IncrementWaits(queue, b, k)
  {
    if IncrementWaits(queue, b, k) {
      var it :| it in queue && it.businessId == b && it.operation == IncrementCount
                && it.payload.Some? && it.payload.value.productId != "" && it.payload.value.productId == k.productId
                && k.sessionId == (if it.payload.value.sessionId.Some? then it.payload.value.sessionId.value
                                   else it.sessionId);
      var i :| 0 <= i < |queue| && queue[i] == it;
      assert Target(queue[i]).Some? && Target(queue[i]).value == k;
    }
    if k in PendingCounts(queue, b).keys {
      var i :| 0 <= i < |queue| && IsIncrement(queue[i], b) && Target(queue[i]).Some? && Target(queue[i]).value == k;
      assert queue[i] in queue;
    }
  }

  lemma PendingNamesWait(queue: seq<Item>, b: string, id: string)
    ensures id in PendingCounts(queue, b).entityIds <==> Waits(queue, b, IncrementCount, id)
  {
    if Waits(queue, b, IncrementCount, id) {
      var it :| it in queue && it.businessId == b && it.operation == IncrementCount && it.entityId == id;
      var i :| 0 <= i < |queue| && queue[i] == it;
    }
  }

  lemma UnsyncedExactly(queue: seq<Item>, b: string, c: L.Count)
    ensures KeyOf(c) in PendingCounts(queue, b).keys || Names(PendingCounts(queue, b), c) <==> Unsynced(queue, b, c)
  {
    PendingKeysWait(queue, b, KeyOf(c));
    PendingNamesWait(queue, b, c.id);
    PendingNamesWait(queue, b, c.sessionId + "_" + c.productId);
  }

  lemma {:induction false} CountAfterMerge(seed: seq<L.Count>, remote: seq<L.Count>, rule: Rule, k: CountKey)
    requires Unique(seed, KeyOf) && Unique(remote, KeyOf)
    ensures var m := MergedCounts(seed, remote, rule);
            var l, r := At(seed, KeyOf, k), At(remote, KeyOf, k);
            && KeyedBy(m, KeyOf) && Unique(Values(m), KeyOf) && At(Values(m), KeyOf, k) == Get(m, k)
            && Get(From(seed, KeyOf), k) == l
            && Get(m, k) == if r.None? || Skips(rule, From(seed, KeyOf), r.value) then l else r
    decreases |remote|
  {
    AtFrom(seed, KeyOf, k);
    AtIsIn(remote, KeyOf, k);
    if remote != [] {
      var m, r := MergedCounts(seed, Front(remote), rule), Last(remote);
      AtLast(remote, KeyOf, k);
      CountAfterMerge(seed, Front(remote), rule, k);
      if KeyOf(r) == k {
        assert Get(m, k) == Get(From(seed, KeyOf), k);
      }
      SetKeyed(m, r, KeyOf);
      GetSet(m, KeyOf(r), r, k);
    }
    AtValues(MergedCounts(seed, remote, rule), KeyOf, k);
    ValuesUnique(MergedCounts(seed, remote, rule), KeyOf);
  }

  /** After a refresh: unsynced local work wins, and a product deleted on this device stays deleted; else
      the remote row wins, and rows it does not name stay. */
  function RefreshedCount(counts: seq<L.Count>, remote: seq<L.Count>, queue: seq<Item>, b: string,
                          products: seq<Product>, merged: seq<Product>, k: CountKey): Option<L.Count>
  {
    var l, r := At(counts, KeyOf, k), At(remote, KeyOf, k);
    if r.None? || IncrementWaits(queue, b, k) || (l.Some? && Unsynced(queue, b, l.value))
       || (ArchivedHere(products, k.productId) && ArchivedHere(merged, k.productId)) then l
    else r
  }

  predicate ArchivedHere(products: seq<Product>, id: string) {
    exists p :: p in products && p.id == id && p.archived
  }

  lemma ArchivedIdsAre(products: seq<Product>, id: string)
    ensures id in ArchivedIds(products) <==> ArchivedHere(products, id)
  {
    if ArchivedHere(products, id) {
      var p :| p in products && p.id == id && p.archived;
      var i :| 0 <= i < |products| && products[i] == p;
    }
  }

  lemma CountAfterRefresh(counts: seq<L.Count>, remote: seq<L.Count>, queue: seq<Item>, b: string,
                          products: seq<Product>, merged: seq<Product>, k: CountKey)
    requires Unique(counts, KeyOf) && Unique(remote, KeyOf)
    ensures var after := RefreshedCounts(counts, remote, queue, b, products, merged);
            && Unique(after, KeyOf)
            && At(after, KeyOf, k) == RefreshedCount(counts, remote, queue, b, products, merged, k)
  {
    var rule := RefreshRule(PendingCounts(queue, b), ArchivedIds(merged), ArchivedIds(products));
    CountAfterMerge(counts, remote, rule, k);
    PendingKeysWait(queue, b, k);
    ArchivedIdsAre(products, k.productId);
    ArchivedIdsAre(merged, k.productId);
    AtIsIn(counts, KeyOf, k);
    AtIsIn(remote, KeyOf, k);
    if At(counts, KeyOf, k).Some? {
      UnsyncedExactly(queue, b, At(counts, KeyOf, k).value);
    }
  }

  /** The device still has work for the row or its session. */
  predicate KeptElsewhere(queue: seq<Item>, b: string, unsynced: Option<string>, c: L.Count) {
    || Unsynced(queue, b, c) || unsynced == Some(c.sessionId)
    || (exists it :: it in queue && it.businessId == b && it.sessionId == c.sessionId)
  }

  /** After a load that restored a session: in that session unsynced local work wins, else the remote
      row, else the local one; of other sessions only rows with unsynced work stay, and no remote row
      is taken. */
  function LoadedCount(counts: seq<L.Count>, remote: seq<L.Count>, restored: string, queue: seq<Item>, b: string,
                       unsynced: Option<string>, k: CountKey): Option<L.Count>
  {
    var l, r := At(counts, KeyOf, k), At(remote, KeyOf, k);
    if k.sessionId == restored then
      if r.None? || (l.Some? && Unsynced(queue, b, l.value)) then l else r
    else if l.Some? && KeptElsewhere(queue, b, unsynced, l.value) then l
    else None
  }

  lemma {:induction false} SeedUnique(rows: seq<L.Count>, restored: string, sessions: set<string>, p: Pending,
                                      unsynced: Option<string>)
    requires Unique(rows, KeyOf)
    ensures Unique(SeedRows(rows, restored, sessions, p, unsynced), KeyOf)
  {
    if rows != [] {
      SeedUnique(rows[1..], restored, sessions, p, unsynced);
      NotInRest(rows, KeyOf, SeedRows(rows[1..], restored, sessions, p, unsynced));
    }
  }

  lemma SeedAt(rows: seq<L.Count>, restored: string, sessions: set<string>, p: Pending, unsynced: Option<string>,
               k: CountKey)
    requires Unique(rows, KeyOf)
    ensures var seed := SeedRows(rows, restored, sessions, p, unsynced);
            var l := At(rows, KeyOf, k);
            && Unique(seed, KeyOf)
            && At(seed, KeyOf, k) == if l.Some? && Seeds(l.value, restored, sessions, p, unsynced) then l else None
  {
    SeedUnique(rows, restored, sessions, p, unsynced);
    AtIsIn(rows, KeyOf, k);
    AtIsIn(SeedRows(rows, restored, sessions, p, unsynced), KeyOf, k);
  }

  lemma SeedsExactly(queue: seq<Item>, b: string, restored: string, unsynced: Option<string>, c: L.Count)
    ensures Seeds(c, restored, QueueSessions(queue, b), PendingCounts(queue, b), unsynced)
       <==> c.sessionId == restored || KeptElsewhere(queue, b, unsynced, c)
  {
    UnsyncedExactly(queue, b, c);
    if exists it :: it in queue && it.businessId == b && it.sessionId == c.sessionId {
      var it :| it in queue && it.businessId == b && it.sessionId == c.sessionId;
      var i :| 0 <= i < |queue| && queue[i] == it;
      assert c.sessionId in QueueSessions(queue, b);
    }
  }

  lemma CountAfterLoad(counts: seq<L.Count>, remote: seq<L.Count>, restored: string, queue: seq<Item>, b: string,
                       unsynced: Option<string>, k: CountKey)
    requires Unique(counts, KeyOf) && Unique(remote, KeyOf)
    ensures var after := LoadedCounts(counts, remote, restored, queue, b, unsynced);
            && Unique(after, KeyOf)
            && At(after, KeyOf, k) == LoadedCount(counts, remote, restored, queue, b, unsynced, k)
  {
    var p := PendingCounts(queue, b);
    var seed := SeedRows(counts, restored, QueueSessions(queue, b), p, unsynced);
    SeedAt(counts, restored, QueueSessions(queue, b), p, unsynced, k);
    CountAfterMerge(seed, remote, LoadRule(restored, p), k);
    AtIsIn(counts, KeyOf, k);
    AtIsIn(remote, KeyOf, k);
    if At(counts, KeyOf, k).Some? {
      UnsyncedExactly(queue, b, At(counts, KeyOf, k).value);
      SeedsExactly(queue, b, restored, unsynced, At(counts, KeyOf, k).value);
    }
  }

  // --- sessions -------------------------------------------------------------------------------------

  /** The remote session wins, then the current one, then the one known before. */
  function RefreshedSession(local: seq<Session>, current: Option<Session>, remote: seq<Session>, id: string)
    : Option<Session>
  {
    if At(remote, SessionId, id).Some? then At(remote, SessionId, id)
    else if current.Some? && current.value.id == id then current
    else At(local, SessionId, id)
  }

  lemma {:induction false} UpsertedAt(m: seq<Entry<string, Session>>, rows: seq<Session>, id: string)
    requires KeyedBy(m, SessionId) && Unique(rows, SessionId)
    ensures KeyedBy(UpsertSessions(m, rows), SessionId)
    ensures Get(UpsertSessions(m, rows), id) == if At(rows, SessionId, id).Some? then At(rows, SessionId, id)
        else Get(m, id)
    decreases |rows|
  {
    if rows != [] {
      AtLast(rows, SessionId, id);
      UpsertedAt(m, Front(rows), id);
      SetKeyed(UpsertSessions(m, Front(rows)), Last(rows), SessionId);
      GetSet(UpsertSessions(m, Front(rows)), Last(rows).id, Last(rows), id);
    }
  }

  lemma SessionAfterRefresh(local: seq<Session>, current: Option<Session>, remote: seq<Session>, id: string)
    requires Unique(local, SessionId) && Unique(remote, SessionId)
    ensures var after := RefreshedSessions(local, current, remote);
            Unique(after, SessionId) && At(after, SessionId, id) == RefreshedSession(local, current, remote, id)
  {
    var m := From(local, SessionId);
    AtFrom(local, SessionId, id);
    if current.Some? {
      SetKeyed(m, current.value, SessionId);
      GetSet(m, current.value.id, current.value, id);
    }
    var n := if current.Some? then Set(m, current.value.id, current.value) else m;
    UpsertedAt(n, remote, id);
    AtValues(UpsertSessions(n, remote), SessionId, id);
    ValuesUnique(UpsertSessions(n, remote), SessionId);
  }

  // --- order ----------------------------------------------------------------------------------------

  predicate Descending<T>(rows: seq<T>, at: T -> nat) {
    forall i, j :: 0 <= i < j < |rows| ==> at(rows[i]) >= at(rows[j])
  }

  lemma {:induction false} InsertDescends<T(!new)>(rows: seq<T>, x: T, at: T -> nat)
    requires Descending(rows, at)
    ensures Descending(InsertByDate(rows, x, at), at) && |InsertByDate(rows, x, at)| == |rows| + 1
  {
    if rows != [] && at(rows[0]) >= at(x) {
      var rest := InsertByDate(rows[1..], x, at);
      InsertDescends(rows[1..], x, at);
      forall j | 0 <= j < |rest| ensures at(rows[0]) >= at(rest[j]) {
        assert rest[j] in rest;
        assert rest[j] in rows[1..] ==> exists i :: 0 <= i < |rows[1..]| && rows[1..][i] == rest[j];
      }
    }
  }

  /** Newest first, no row lost or doubled. */
  lemma {:induction false} NewestFirstDescends<T(!new)>(rows: seq<T>, at: T -> nat)
    ensures Descending(NewestFirst(rows, at), at) && |NewestFirst(rows, at)| == |rows|
    decreases |rows|
  {
    if rows != [] {
      NewestFirstDescends(Front(rows), at);
      InsertDescends(NewestFirst(Front(rows), at), Last(rows), at);
    }
  }

  /** The rows of one date, in their order. */
  function OfDate<T>(rows: seq<T>, at: T -> nat, date: nat): seq<T> {
    if rows == [] then [] else (if at(rows[0]) == date then [rows[0]] else []) + OfDate(rows[1..], at, date)
  }

  lemma {:induction false} OfDateConcat<T>(a: seq<T>, b: seq<T>, at: T -> nat, date: nat)
    ensures OfDate(a + b, at, date) == OfDate(a, at, date) + OfDate(b, at, date)
  {
    if a == [] {
      assert a + b == b;
    } else {
      assert (a + b)[0] == a[0] && (a + b)[1..] == a[1..] + b;
      OfDateConcat(a[1..], b, at, date);
      var head := if at(a[0]) == date then [a[0]] else [];
      assert head + (OfDate(a[1..], at, date) + OfDate(b, at, date)) == head + OfDate(a[1..], at, date)
          + OfDate(b, at, date);
    }
  }

  lemma {:induction false} NoneOfDate<T>(rows: seq<T>, at: T -> nat, date: nat)
    requires forall i :: 0 <= i < |rows| ==> at(rows[i]) < date
    ensures OfDate(rows, at, date) == []
  {
    if rows != [] {
      NoneOfDate(rows[1..], at, date);
    }
  }

  lemma {:induction false} InsertIsStable<T(!new)>(rows: seq<T>, x: T, at: T -> nat, date: nat)
    requires Descending(rows, at)
    ensures OfDate(InsertByDate(rows, x, at), at, date) == OfDate(rows, at, date) + if at(x) == date then [x] else []
  {
    if rows == [] || at(rows[0]) < at(x) {
      assert ([x] + rows)[1..] == rows;
      if at(x) == date {
        NoneOfDate(rows, at, date);
      }
    } else {
      var rest := InsertByDate(rows[1..], x, at);
      InsertIsStable(rows[1..], x, at, date);
      assert ([rows[0]] + rest)[1..] == rest;
    }
  }

  /** Rows of one date keep their order. */
  lemma {:induction false} NewestFirstIsStable<T(!new)>(rows: seq<T>, at: T -> nat, date: nat)
    ensures OfDate(NewestFirst(rows, at), at, date) == OfDate(rows, at, date)
    decreases |rows|
  {
    if rows != [] {
      NewestFirstIsStable(Front(rows), at, date);
      NewestFirstDescends(Front(rows), at);
      InsertIsStable(NewestFirst(Front(rows), at), Last(rows), at, date);
      assert rows == Front(rows) + [Last(rows)] && [Last(rows)][1..] == [];
      OfDateConcat(Front(rows), [Last(rows)], at, date);
    }
  }

  lemma {:induction false} InsertUnique<K, T(!new)>(rows: seq<T>, x: T, at: T -> nat, key: T -> K)
    requires Unique(rows, key) && forall y :: y in rows ==> key(y) != key(x)
    ensures Unique(InsertByDate(rows, x, at), key)
  {
    if rows == [] || at(rows[0]) < at(x) {
      forall i | 0 <= i < |rows| ensures key(rows[i]) != key(x) {
        assert rows[i] in rows;
      }
    } else {
      var rest := InsertByDate(rows[1..], x, at);
      InsertUnique(rows[1..], x, at, key);
      assert rows == [rows[0]] + rows[1..];
      forall j | 0 <= j < |rest| ensures key(rest[j]) != key(rows[0]) {
        assert rest[j] in rest;
        if rest[j] in rows[1..] {
          var i :| 0 <= i < |rows[1..]| && rows[1..][i] == rest[j];
          assert rows[i + 1] == rest[j];
        }
      }
    }
  }

  lemma InsertAt<K, T(!new)>(rows: seq<T>, x: T, at: T -> nat, key: T -> K, k: K)
    requires Unique(rows, key) && At(rows, key, key(x)) == None
    ensures Unique(InsertByDate(rows, x, at), key)
    ensures At(InsertByDate(rows, x, at), key, k) == if k == key(x) then Some(x) else At(rows, key, k)
  {
    AtIsIn(rows, key, key(x));
    InsertUnique(rows, x, at, key);
    AtIsIn(rows, key, k);
    AtIsIn(InsertByDate(rows, x, at), key, k);
  }

  lemma {:induction false} NewestFirstAt<K, T(!new)>(rows: seq<T>, at: T -> nat, key: T -> K, k: K)
    requires Unique(rows, key)
    ensures Unique(NewestFirst(rows, at), key) && At(NewestFirst(rows, at), key, k) == At(rows, key, k)
    decreases |rows|
  {
    if rows != [] {
      AtLast(rows, key, k);
      NewestFirstAt(Front(rows), at, key, k);
      NewestFirstAt(Front(rows), at, key, key(Last(rows)));
      InsertAt(NewestFirst(Front(rows), at), Last(rows), at, key, k);
    }
  }

  // --- the feed -------------------------------------------------------------------------------------

  /** Sync work of the business waits for the scan: under its event id, or else its entity id. */
  predicate ScanWaits(queue: seq<Item>, b: string, id: string) {
    id != "" && exists it :: it in queue && it.businessId == b
                             && (if it.scanEventId.Some? then it.scanEventId.value else it.entityId) == id
  }

  lemma PendingScansWait(queue: seq<Item>, b: string, id: string)
    ensures id in PendingScans(queue, b) <==> ScanWaits(queue, b, id)
  {
    if ScanWaits(queue, b, id) {
      var it :| it in queue && it.businessId == b
                && (if it.scanEventId.Some? then it.scanEventId.value else it.entityId) == id;
      var i :| 0 <= i < |queue| && queue[i] == it;
    }
  }

  /** Of the restored session: the local scan while it is unsynced or waits in the queue, else the remote one. */
  function LoadedScan(feed: seq<Scan>, remote: seq<Scan>, sessionId: string, queue: seq<Item>, b: string, id: string)
    : Option<Scan>
  {
    var l, r := At(feed, ScanId, id), At(remote, ScanId, id);
    if l.Some? && l.value.sessionId == sessionId && (!l.value.synced || ScanWaits(queue, b, id)) then l
    else if r.Some? && r.value.sessionId == sessionId then r
    else None
  }

  lemma {:induction false} OfSessionUnique(rows: seq<Scan>, sessionId: string)
    requires Unique(rows, ScanId)
    ensures Unique(OfSession(rows, sessionId), ScanId)
  {
    if rows != [] {
      OfSessionUnique(rows[1..], sessionId);
      NotInRest(rows, ScanId, OfSession(rows[1..], sessionId));
    }
  }

  lemma {:induction false} OverlaidAt(m: seq<Entry<string, Scan>>, local: seq<Scan>, sessionId: string,
                                      pending: set<string>, id: string)
    requires KeyedBy(m, ScanId) && Unique(local, ScanId)
    ensures var o := OverlayScans(m, local, sessionId, pending);
            var l := At(local, ScanId, id);
            && KeyedBy(o, ScanId)
            && Get(o, id) == if l.Some? && KeepsScan(l.value, sessionId, pending) then l else Get(m, id)
    decreases |local|
  {
    if local != [] {
      var o, e := OverlayScans(m, Front(local), sessionId, pending), Last(local);
      AtLast(local, ScanId, id);
      OverlaidAt(m, Front(local), sessionId, pending, id);
      SetKeyed(o, e, ScanId);
      GetSet(o, e.id, e, id);
    }
  }

  /** What the feed holds after a load, and that it is in order. */
  lemma FeedAfterLoad(feed: seq<Scan>, remote: seq<Scan>, sessionId: string, queue: seq<Item>, b: string, id: string)
    requires Unique(feed, ScanId) && Unique(remote, ScanId)
    ensures var after := LoadedFeed(feed, remote, sessionId, queue, b);
            && Unique(after, ScanId)
            && (forall i, j :: 0 <= i < j < |after| ==> after[i].createdAt >= after[j].createdAt)
            && At(after, ScanId, id) == LoadedScan(feed, remote, sessionId, queue, b, id)
  {
    var rows := OfSession(remote, sessionId);
    OfSessionUnique(remote, sessionId);
    AtIsIn(remote, ScanId, id);
    AtIsIn(rows, ScanId, id);
    NewestFirstAt(rows, CreatedAt, ScanId, id);
    var m := From(NewestFirst(rows, CreatedAt), ScanId);
    AtFrom(NewestFirst(rows, CreatedAt), ScanId, id);
    AtIsIn(feed, ScanId, id);
    PendingScansWait(queue, b, id);
    var o := OverlayScans(m, feed, sessionId, PendingScans(queue, b));
    OverlaidAt(m, feed, sessionId, PendingScans(queue, b), id);
    AtValues(o, ScanId, id);
    ValuesUnique(o, ScanId);
    NewestFirstAt(Values(o), CreatedAt, ScanId, id);
    NewestFirstDescends(Values(o), CreatedAt);
  }

  // --- which session is restored --------------------------------------------------------------------

  lemma {:induction false} FirstActiveExactly(rows: seq<Session>)
    requires Descending(rows, StartedAt)
    ensures FirstActive(rows).None? <==> forall s :: s in rows ==> !s.active
    ensures var r := FirstActive(rows);
            r.Some? ==> r.value in rows && r.value.active
                        && forall s :: s in rows && s.active ==> s.startedAt <= r.value.startedAt
  {
    if rows != [] {
      assert rows == [rows[0]] + rows[1..];
      if !rows[0].active {
        FirstActiveExactly(rows[1..]);
      } else {
        forall s | s in rows ensures s.startedAt <= rows[0].startedAt {
          var i :| 0 <= i < |rows| && rows[i] == s;
        }
      }
    }
  }

  /** A session is restored exactly when there is one: an active one if any is, and then none that is
      active started later; else one of those that started last. */
  lemma RestoredExactly(sessions: seq<Session>)
    ensures Restored(sessions).None? <==> sessions == []
    ensures var r := Restored(sessions);
            r.Some? ==>
              && r.value in sessions
              && ((exists s :: s in sessions && s.active) ==> r.value.active)
              && (forall s :: s in sessions && (r.value.active ==> s.active) ==> s.startedAt <= r.value.startedAt)
  {
    var sorted := NewestFirst(sessions, StartedAt);
    NewestFirstDescends(sessions, StartedAt);
    FirstActiveExactly(sorted);
    if FirstActive(sorted).None? && sorted != [] {
      forall s | s in sessions ensures s.startedAt <= sorted[0].startedAt {
        assert s in sorted;
        var i :| 0 <= i < |sorted| && sorted[i] == s;
      }
      assert sorted[0] in sorted;
    }
    assert sessions != [] ==> sessions[0] in sorted;
  }
}
