/** How rows loaded from the cloud are merged with this device's rows.
    Models src/sync-database/queue/reloadMergePolicy.ts and the merges of src/stores/scanStore.ts. */
module CloudMerge {
  import opened StampedCopy
  import opened Seqs
  import opened OrderedMap
  import L = Ledger

  datatype Product = Product(id: string, businessId: string, archived: bool)

  datatype Alias = Alias(id: string, businessId: string, idempotencyKey: string)

  /** Instants are numbers; 0 stands for the empty string. */
  datatype Session = Session(id: string, businessId: string, active: bool, startedAt: nat, synced: bool)

  datatype Scan = Scan(id: string, businessId: string, sessionId: string, createdAt: nat, synced: bool,
                       idempotencyKey: string)

  /** decided: status is resolved or ignored. */
  datatype Review = Review(id: string, businessId: string, decided: bool, resolvedAt: nat,
                           decisionUpdatedAt: Option<nat>, idempotencyKey: string)

  datatype Operation = SaveScanEvent | IncrementCount | SaveUnknownScan | ResolveAlias | SaveProduct | SaveSession

  /** productId is "" when the payload has none. */
  datatype Increment = Increment(sessionId: Option<string>, productId: string, delta: int, idempotencyKey: string)

  datatype Item = Item(id: string, businessId: string, sessionId: string, entityId: string, operation: Operation,
                       payload: Option<Increment>, idempotencyKey: string, scanEventId: Option<string>)

  function PendingIds(queue: seq<Item>, businessId: string, operation: Operation): set<string> {
    set i | 0 <= i < |queue| && queue[i].businessId == businessId
        && queue[i].operation == operation :: queue[i].entityId
  }

  function ProductId(p: Product): string { p.id }
  function AliasId(a: Alias): string { a.id }
  function SessionId(s: Session): string { s.id }
  function ScanId(e: Scan): string { e.id }
  function ReviewId(r: Review): string { r.id }

  // --- products, aliases, reviews -------------------------------------------------------------------

  predicate KeepsProduct(m: seq<Entry<string, Product>>, remote: Product, pending: set<string>) {
    remote.id in pending
    || (Get(m, remote.id).Some? && Get(m, remote.id).value.archived && !remote.archived)
  }

  function MergedProducts(local: seq<Product>, remote: seq<Product>,
                          pending: set<string>): seq<Entry<string, Product>> {
    if remote == [] then From(local, ProductId)
    else
      var m, r := MergedProducts(local, Front(remote), pending), remote[|remote| - 1];
      if KeepsProduct(m, r, pending) then m else Set(m, r.id, r)
  }

  function MergedAliases(local: seq<Alias>, remote: seq<Alias>, pending: set<string>): seq<Entry<string, Alias>> {
    if remote == [] then From(local, AliasId)
    else
      var m, r := MergedAliases(local, Front(remote), pending), remote[|remote| - 1];
      if r.id in pending then m else Set(m, r.id, r)
  }

  /** 0 when the review carries no decision. */
  function DecisionAt(r: Review): nat {
    if r.decisionUpdatedAt.Some? then r.decisionUpdatedAt.value else if r.decided then r.resolvedAt else 0
  }

  /** A local decision is not erased by a remote row without a decision or with an older one. */
  predicate Outdated(local: Review, remote: Review) {
    DecisionAt(local) != 0 && (DecisionAt(remote) == 0 || DecisionAt(local) > DecisionAt(remote))
  }

  predicate KeepsReview(m: seq<Entry<string, Review>>, remote: Review, businessId: string, pending: set<string>) {
    remote.businessId != businessId || remote.id in pending
    || (Get(m, remote.id).Some? && Outdated(Get(m, remote.id).value, remote))
  }

  function OwnReviews(rows: seq<Review>, businessId: string): seq<Review> {
    if rows == [] then []
    else (if rows[0].businessId == businessId then [rows[0]] else []) + OwnReviews(rows[1..], businessId)
  }

  function MergedReviews(local: seq<Review>, remote: seq<Review>, businessId: string, pending: set<string>)
    : seq<Entry<string, Review>>
  {
    if remote == [] then From(OwnReviews(local, businessId), ReviewId)
    else
      var m, r := MergedReviews(local, Front(remote), businessId, pending), remote[|remote| - 1];
      if KeepsReview(m, r, businessId, pending) then m else Set(m, r.id, r)
  }

  method MergeReloadedProductsAndAliases(businessId: string, localProducts: seq<Product>, remoteProducts: seq<Product>,
                                         localAliases: seq<Alias>, remoteAliases: seq<Alias>, queue: seq<Item>)
    returns (products: seq<Product>, aliases: seq<Alias>)
    ensures products == Values(MergedProducts(localProducts, remoteProducts,
                                              PendingIds(queue, businessId, SaveProduct)))
    ensures aliases == Values(MergedAliases(localAliases, remoteAliases, PendingIds(queue, businessId, ResolveAlias)))
  {
    var pendingProductIds := PendingIds(queue, businessId, SaveProduct);
    var pendingAliasIds := PendingIds(queue, businessId, ResolveAlias);
    var productsById := From(localProducts, ProductId);
    for i := 0 to |remoteProducts|
      invariant productsById == MergedProducts(localProducts, remoteProducts[..i], pendingProductIds)
    {
      assert Front(remoteProducts[..i + 1]) == remoteProducts[..i];
      var remote := remoteProducts[i];
      var local := Get(productsById, remote.id);
      if remote.id in pendingProductIds {
        continue;
      }
      if local.Some? && local.value.archived && !remote.archived {
        continue;
      }
      productsById := Set(productsById, remote.id, remote);
    }
    assert remoteProducts[..|remoteProducts|] == remoteProducts;
    var aliasesById := From(localAliases, AliasId);
    for i := 0 to |remoteAliases|
      invariant aliasesById == MergedAliases(localAliases, remoteAliases[..i], pendingAliasIds)
    {
      assert Front(remoteAliases[..i + 1]) == remoteAliases[..i];
      var remote := remoteAliases[i];
      if remote.id in pendingAliasIds {
        continue;
      }
      aliasesById := Set(aliasesById, remote.id, remote);
    }
    assert remoteAliases[..|remoteAliases|] == remoteAliases;
    products, aliases := Values(productsById), Values(aliasesById);
  }

  method MergeReloadedReviews(businessId: string, localReviews: seq<Review>, remoteReviews: seq<Review>,
                              queue: seq<Item>)
    returns (reviews: seq<Review>)
    ensures reviews == Values(MergedReviews(localReviews, remoteReviews, businessId,
                                            PendingIds(queue, businessId, SaveUnknownScan)))
  {
    var pendingReviewIds := PendingIds(queue, businessId, SaveUnknownScan);
    var reviewsById := From(OwnReviews(localReviews, businessId), ReviewId);
    for i := 0 to |remoteReviews|
      invariant reviewsById == MergedReviews(localReviews, remoteReviews[..i], businessId, pendingReviewIds)
    {
      assert Front(remoteReviews[..i + 1]) == remoteReviews[..i];
      var remote := remoteReviews[i];
      if remote.businessId != businessId || remote.id in pendingReviewIds {
        continue;
      }
      var local := Get(reviewsById, remote.id);
      if local.Some? {
        var localDecisionAt, remoteDecisionAt := DecisionAt(local.value), DecisionAt(remote);
        if localDecisionAt != 0 && (remoteDecisionAt == 0 || localDecisionAt > remoteDecisionAt) {
          continue;
        }
      }
      reviewsById := Set(reviewsById, remote.id, remote);
    }
    assert remoteReviews[..|remoteReviews|] == remoteReviews;
    reviews := Values(reviewsById);
  }

  // --- counts ----------------------------------------------------------------------------------------

  datatype CountKey = CountKey(sessionId: string, productId: string)

  function KeyOf(c: L.Count): CountKey {
    CountKey(c.sessionId, c.productId)
  }

  predicate IsIncrement(it: Item, businessId: string) {
    it.businessId == businessId && it.operation == IncrementCount
  }

  /** The row an increment is for, when its payload names a product. */
  function Target(it: Item): Option<CountKey> {
    if it.payload.None? || it.payload.value.productId == "" then None
    else
      var p := it.payload.value;
      Some(CountKey(if p.sessionId.Some? then p.sessionId.value else it.sessionId, p.productId))
  }

  datatype Pending = Pending(keys: set<CountKey>, entityIds: set<string>)

  function PendingCounts(queue: seq<Item>, businessId: string): Pending {
    Pending(set i | 0 <= i < |queue| && IsIncrement(queue[i], businessId)
            && Target(queue[i]).Some? :: Target(queue[i]).value,
            set i | 0 <= i < |queue| && IsIncrement(queue[i], businessId) :: queue[i].entityId)
  }

  predicate Names(p: Pending, c: L.Count) {
    c.id in p.entityIds || c.sessionId + "_" + c.productId in p.entityIds
  }

  /** The two merges differ in which remote rows they leave out. */
  datatype Rule =
    | LoadRule(restored: string, pending: Pending)
    | RefreshRule(pending: Pending, merged: set<string>, deleted: set<string>)  // archived after and before the merge

  predicate Skips(rule: Rule, m: seq<Entry<CountKey, L.Count>>, remote: L.Count) {
    var local := Get(m, KeyOf(remote));
    match rule
    case LoadRule(restored, p) =>
      remote.sessionId != restored || (local.Some? && (KeyOf(remote) in p.keys || Names(p, local.value)))
    case RefreshRule(p, merged, deleted) =>
      || KeyOf(remote) in p.keys || (local.Some? && Names(p, local.value))
      || (remote.productId in merged && remote.productId in deleted)
  }

  function MergedCounts(seed: seq<L.Count>, remote: seq<L.Count>, rule: Rule): seq<Entry<CountKey, L.Count>> {
    if remote == [] then From(seed, KeyOf)
    else
      var m, r := MergedCounts(seed, Front(remote), rule), remote[|remote| - 1];
      if Skips(rule, m, r) then m else Set(m, KeyOf(r), r)
  }

  method MergeCounts(seed: seq<L.Count>, remote: seq<L.Count>, rule: Rule) returns (counts: seq<L.Count>)
    ensures counts == Values(MergedCounts(seed, remote, rule))
  {
    var countsByKey := From(seed, KeyOf);
    for i := 0 to |remote|
      invariant countsByKey == MergedCounts(seed, remote[..i], rule)
    {
      assert Front(remote[..i + 1]) == remote[..i];
      if !Skips(rule, countsByKey, remote[i]) {
        countsByKey := Set(countsByKey, KeyOf(remote[i]), remote[i]);
      }
    }
    assert remote[..|remote|] == remote;
    counts := Values(countsByKey);
  }

  /** The local rows a load keeps: those of the restored session and those with unsynced work. */
  predicate Seeds(c: L.Count, restored: string, queueSessions: set<string>, p: Pending, unsynced: Option<string>) {
    || c.sessionId == restored || c.sessionId in queueSessions || KeyOf(c) in p.keys || Names(p, c)
    || (unsynced.Some? && c.sessionId == unsynced.value)
  }

  function SeedRows(rows: seq<L.Count>, restored: string, queueSessions: set<string>, p: Pending,
                    unsynced: Option<string>)
    : (r: seq<L.Count>)
    ensures forall c :: c in r <==> c in rows && Seeds(c, restored, queueSessions, p, unsynced)
  {
    if rows == [] then []
    else (if Seeds(rows[0], restored, queueSessions, p, unsynced) then [rows[0]] else [])
         + SeedRows(rows[1..], restored, queueSessions, p, unsynced)
  }

  function QueueSessions(queue: seq<Item>, businessId: string): set<string> {
    set i | 0 <= i < |queue| && queue[i].businessId == businessId :: queue[i].sessionId
  }

  /** finalCounts after `setBusinessContext` has restored a session. */
  function LoadedCounts(counts: seq<L.Count>, remote: seq<L.Count>, restored: string, queue: seq<Item>,
                        businessId: string,
                        unsynced: Option<string>): seq<L.Count>
  {
    var p := PendingCounts(queue, businessId);
    Values(MergedCounts(SeedRows(counts, restored, QueueSessions(queue, businessId), p, unsynced), remote,
                        LoadRule(restored, p)))
  }

  function ArchivedIds(products: seq<Product>): set<string> {
    set i | 0 <= i < |products| && products[i].archived :: products[i].id
  }

  /** finalCounts after `refreshFromCloud`. */
  function RefreshedCounts(counts: seq<L.Count>, remote: seq<L.Count>, queue: seq<Item>, businessId: string,
                           products: seq<Product>, merged: seq<Product>): seq<L.Count>
  {
    Values(MergedCounts(counts, remote,
                        RefreshRule(PendingCounts(queue, businessId), ArchivedIds(merged), ArchivedIds(products))))
  }

  // --- sessions and feed ------------------------------------------------------------------------------

  /** Stable, newest first. */
  function InsertByDate<T(!new)>(rows: seq<T>, x: T, at: T -> nat): (r: seq<T>)
    ensures forall y :: y in r <==> y == x || y in rows
  {
    if rows == [] || at(rows[0]) < at(x) then [x] + rows
    else [rows[0]] + InsertByDate(rows[1..], x, at)
  }

  function NewestFirst<T(!new)>(rows: seq<T>, at: T -> nat): (r: seq<T>)
    ensures forall y :: y in r <==> y in rows
  {
    if rows == [] then [] else InsertByDate(NewestFirst(Front(rows), at), rows[|rows| - 1], at)
  }

  function FirstActive(rows: seq<Session>): Option<Session> {
    if rows == [] then None else if rows[0].active then Some(rows[0]) else FirstActive(rows[1..])
  }

  function StartedAt(s: Session): nat { s.startedAt }
  function CreatedAt(e: Scan): nat { e.createdAt }

  /** The newest active session, else the newest one. */
  function Restored(sessions: seq<Session>): Option<Session> {
    var sorted := NewestFirst(sessions, StartedAt);
    if FirstActive(sorted).Some? then FirstActive(sorted)
    else if sorted != [] then Some(sorted[0]) else None
  }

  function UpsertSessions(m: seq<Entry<string, Session>>, rows: seq<Session>): seq<Entry<string, Session>> {
    if rows == [] then m else Set(UpsertSessions(m, Front(rows)), rows[|rows| - 1].id, rows[|rows| - 1])
  }

  function RefreshedSessions(local: seq<Session>, current: Option<Session>, remote: seq<Session>): seq<Session> {
    var m := From(local, SessionId);
    Values(UpsertSessions(if current.Some? then Set(m, current.value.id, current.value) else m, remote))
  }

  function OfSession(rows: seq<Scan>, sessionId: string): (r: seq<Scan>)
    ensures forall e :: e in r <==> e in rows && e.sessionId == sessionId
  {
    if rows == [] then []
    else (if rows[0].sessionId == sessionId then [rows[0]] else []) + OfSession(rows[1..], sessionId)
  }

  function PendingScans(queue: seq<Item>, businessId: string): set<string> {
    (set i | 0 <= i < |queue| && queue[i].businessId == businessId
       :: if queue[i].scanEventId.Some? then queue[i].scanEventId.value else queue[i].entityId) - {""}
  }

  predicate KeepsScan(e: Scan, sessionId: string, pending: set<string>) {
    e.sessionId == sessionId && (!e.synced || e.id in pending)
  }

  function OverlayScans(m: seq<Entry<string, Scan>>, local: seq<Scan>, sessionId: string,
                        pending: set<string>): seq<Entry<string, Scan>> {
    if local == [] then m
    else
      var o, e := OverlayScans(m, Front(local), sessionId, pending), local[|local| - 1];
      if KeepsScan(e, sessionId, pending) then Set(o, e.id, e) else o
  }

  function LoadedFeed(feed: seq<Scan>, remote: seq<Scan>, sessionId: string, queue: seq<Item>,
                      businessId: string): seq<Scan> {
    var m := From(NewestFirst(OfSession(remote, sessionId), CreatedAt), ScanId);
    NewestFirst(Values(OverlayScans(m, feed, sessionId, PendingScans(queue, businessId))), CreatedAt)
  }
}
