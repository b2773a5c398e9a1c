/** What a context change does to a tenant's rows: nothing when the same business and user are set
    again, everything re-scoped at the first sign-in of a placeholder session, nothing left otherwise. */
module TenantContext {
  import opened StampedCopy
  import opened OrderedMap
  import opened CloudMerge
  import opened CloudRows
  import opened TenantStore
  import L = Ledger

  /** The store holds no row of any tenant. */
  predicate NoRows(r: Surfaces) {
    && r.products == [] && r.aliases == [] && r.sessions == [] && r.currentSession == None
    && r.feed == [] && r.counts == [] && r.reviews == []
  }

  /** A session that has never signed in, with scans, reviews or sync work of its own. */
  predicate PlaceholderSession(s: State) {
    && s.cloudBackend && s.businessId == "demo-business" && s.userId == None
    && (|| (exists e :: e in s.rows.feed && e.businessId == "demo-business")
        || (exists it :: it in s.queue && it.businessId == "demo-business")
        || (exists r :: r in s.rows.reviews && r.businessId == "demo-business"))
  }

  // --- what re-scoping does to one row --------------------------------------------------------------

  /** Placeholder keys change their first segment, other keys stay. */
  predicate MovedKey(was: string, now: string, b: string) {
    if "demo-business:" <= was then now == b + ":" + was[|"demo-business:"|..] else now == was
  }

  predicate MovedProduct(was: Product, now: Product, b: string) {
    now == if was.businessId == "demo-business" then was.(businessId := b) else was
  }

  predicate MovedAlias(was: Alias, now: Alias, b: string) {
    if was.businessId == "demo-business" then
      now.id == was.id && now.businessId == b && MovedKey(was.idempotencyKey, now.idempotencyKey, b)
    else now == was
  }

  predicate MovedSession(was: Session, now: Session, b: string) {
    now == if was.businessId == "demo-business" then was.(businessId := b) else was
  }

  predicate MovedScan(was: Scan, now: Scan, b: string) {
    if was.businessId == "demo-business" then
      && now == was.(businessId := b, idempotencyKey := now.idempotencyKey)
      && MovedKey(was.idempotencyKey, now.idempotencyKey, b)
    else now == was
  }

  predicate MovedCount(was: L.Count, now: L.Count, b: string) {
    if was.businessId == "demo-business" then
      && now == was.(businessId := b, appliedIdempotencyKeys := now.appliedIdempotencyKeys)
      && |now.appliedIdempotencyKeys| == |was.appliedIdempotencyKeys|
      && forall i :: 0 <= i < |was.appliedIdempotencyKeys| ==>
           MovedKey(was.appliedIdempotencyKeys[i], now.appliedIdempotencyKeys[i], b)
    else now == was
  }

  predicate MovedReview(was: Review, now: Review, b: string) {
    if was.businessId == "demo-business" then
      && now == was.(businessId := b, idempotencyKey := now.idempotencyKey)
      && MovedKey(was.idempotencyKey, now.idempotencyKey, b)
    else now == was
  }

  predicate MovedItem(was: Item, now: Item, b: string) {
    if was.businessId == "demo-business" then
      && now == was.(businessId := b, idempotencyKey := now.idempotencyKey, payload := now.payload)
      && MovedKey(was.idempotencyKey, now.idempotencyKey, b)
      && (was.payload.None? ==> now.payload.None?)
      && (was.payload.Some? ==>
            && now.payload.Some?
            && now.payload.value == was.payload.value.(idempotencyKey := now.payload.value.idempotencyKey)
            && MovedKey(was.payload.value.idempotencyKey, now.payload.value.idempotencyKey, b))
    else now == was
  }

  /** Row for row the same rows, moved to the business. */
  predicate MovedRows(was: Surfaces, now: Surfaces, b: string) {
    && |now.products| == |was.products|
    && (forall i :: 0 <= i < |was.products| ==> MovedProduct(was.products[i], now.products[i], b))
    && |now.aliases| == |was.aliases|
    && (forall i :: 0 <= i < |was.aliases| ==> MovedAlias(was.aliases[i], now.aliases[i], b))
    && |now.sessions| == |was.sessions|
    && (forall i :: 0 <= i < |was.sessions| ==> MovedSession(was.sessions[i], now.sessions[i], b))
    && (was.currentSession.None? ==> now.currentSession.None?)
    && (was.currentSession.Some? ==>
          now.currentSession.Some? && MovedSession(was.currentSession.value, now.currentSession.value, b))
    && |now.feed| == |was.feed| && (forall i :: 0 <= i < |was.feed| ==> MovedScan(was.feed[i], now.feed[i], b))
    && |now.counts| == |was.counts|
    && (forall i :: 0 <= i < |was.counts| ==> MovedCount(was.counts[i], now.counts[i], b))
    && |now.reviews| == |was.reviews|
    && (forall i :: 0 <= i < |was.reviews| ==> MovedReview(was.reviews[i], now.reviews[i], b))
  }

  lemma RescopedKeyMoves(key: string, b: string)
    ensures MovedKey(key, RescopeKey(key, b), b)
  {
    var prefix := "demo-business:";
    assert prefix == "demo-business" + ":" && |"demo-business"| == 13 && |prefix| == 14;
    if prefix <= key {
      assert key[13..] == ":" + key[14..];
      assert b + key[13..] == b + ":" + key[14..];
    }
  }

  lemma RescopedRowsMove(r: Surfaces, b: string)
    ensures MovedRows(r, Rescope(r, b), b)
  {
    forall key ensures MovedKey(key, RescopeKey(key, b), b) {
      RescopedKeyMoves(key, b);
    }
  }

  lemma RescopedQueueMoves(queue: seq<Item>, b: string)
    ensures |RescopeQueue(queue, b)| == |queue|
    ensures forall i :: 0 <= i < |queue| ==> MovedItem(queue[i], RescopeQueue(queue, b)[i], b)
  {
    forall key ensures MovedKey(key, RescopeKey(key, b), b) {
      RescopedKeyMoves(key, b);
    }
  }

  // --- one context change ---------------------------------------------------------------------------

  /** The store is in the new context at once, a load is issued when there is a cloud to load from, and
      every load issued before is overtaken. */
  lemma ContextIsSet(s: State, b: string, u: Option<string>, resync: seq<Item>)
    ensures var t := Next(s, SetContext(b, u, resync));
            && t.businessId == b && t.userId == u && t.ready && t.generation == s.generation + 1
            && (if s.cloudBackend && s.hasLoader then
                  t.loads == s.loads + [PendingLoad(ContextLoad, t.generation, b, u)] && !t.loaded
                else t.loads == s.loads && t.loaded)
  {
  }

  /** Setting the business and user that are set already, as every page refresh does, keeps every row
      and every queued item. */
  lemma SameTenantKeepsEverything(s: State, resync: seq<Item>)
    ensures var t := Next(s, SetContext(s.businessId, s.userId, resync)); t.rows == s.rows && t.queue == s.queue
  {
  }

  /** A real switch that is not the first sign-in of a placeholder session leaves no row; the queue is
      kept, because its items wait for their own tenant. */
  lemma SwitchLeavesNoRow(s: State, b: string, u: Option<string>, resync: seq<Item>)
    requires !(s.businessId == b && s.userId == u) && !PlaceholderSession(s)
    ensures var t := Next(s, SetContext(b, u, resync)); NoRows(t.rows) && t.queue == s.queue
  {
    assert !PlaceholderActivity(s) || !(s.cloudBackend && s.businessId == "demo-business" && s.userId == None);
  }

  /** The first sign-in of a placeholder session moves every row and every queued item to the business,
      in place, and appends the sync work rebuilt for them. */
  lemma FirstSignInMovesEverything(s: State, b: string, u: Option<string>, resync: seq<Item>)
    requires !(s.businessId == b && s.userId == u) && PlaceholderSession(s)
    ensures var t := Next(s, SetContext(b, u, resync));
            && MovedRows(s.rows, t.rows, b)
            && |t.queue| == |s.queue| + |resync| && t.queue[|s.queue|..] == resync
            && forall i :: 0 <= i < |s.queue| ==> MovedItem(s.queue[i], t.queue[i], b)
  {
    assert PlaceholderActivity(s);
    RescopedRowsMove(s.rows, b);
    RescopedQueueMoves(s.queue, b);
  }

  /** A sign-out leaves no row and no queued item, in the placeholder context. */
  lemma SignOutLeavesNothing(s: State)
    ensures var t := Next(s, SignOut);
            && NoRows(t.rows) && t.queue == [] && t.businessId == "demo-business" && t.userId == None
            && (t.ready <==> !s.cloudBackend) && (t.loaded <==> !s.cloudBackend)
  {
  }

  // --- loads ----------------------------------------------------------------------------------------

  /** A refresh is asked for: a load is issued, overtaking all before it, exactly in a ready cloud context
      of a signed-in user. */
  lemma RefreshIsIssuedExactly(s: State)
    ensures var t := Next(s, RefreshFromCloud);
            t == if s.cloudBackend && s.hasLoader && s.ready && s.userId.Some? && s.userId.value != ""
                && s.businessId != ""
                 then s.(generation := s.generation + 1,
                         loads := s.loads + [PendingLoad(RefreshLoad, s.generation + 1, s.businessId, s.userId)])
                 else s
  {
  }

  /** A load that fails changes no row; it ends the wait for the context's load when it is that load. */
  lemma FailedLoadEndsTheWait(s: State, i: nat)
    requires i < |s.loads|
    ensures var t, load := Next(s, LoadFails(i)), s.loads[i];
            && t.rows == s.rows && t.queue == s.queue && t.loads == s.loads[..i] + s.loads[i + 1..]
            && t.businessId == s.businessId && t.userId == s.userId && t.generation == s.generation
                 && t.ready == s.ready
            && (t.loaded <==>
                  || s.loaded
                  || (load.kind == ContextLoad && load.generation == s.generation && load.businessId == s.businessId
                      && load.userId == s.userId))
  {
  }

  predicate DistinctRows(r: Surfaces) {
    && Unique(r.products, ProductId) && Unique(r.aliases, AliasId) && Unique(r.sessions, SessionId)
    && Unique(r.feed, ScanId) && Unique(r.counts, KeyOf) && Unique(r.reviews, ReviewId)
  }

  predicate DistinctData(d: Data) {
    && Unique(d.products, ProductId) && Unique(d.aliases, AliasId) && Unique(d.sessions, SessionId)
    && Unique(d.counts, KeyOf) && (d.reviews.Some? ==> Unique(d.reviews.value, ReviewId))
    && (d.scanEvents.Some? ==> Unique(d.scanEvents.value, ScanId))
  }

  /** The load was issued last, for the business and user that are set. */
  predicate IsLatest(s: State, i: nat) {
    && i < |s.loads| && s.loads[i].generation == s.generation && s.loads[i].businessId == s.businessId
    && s.loads[i].userId == s.userId
  }

  /** What both kinds of load do to products, aliases and reviews. */
  predicate IdentitiesMerged(was: Surfaces, now: Surfaces, queue: seq<Item>, b: string, data: Data, id: string) {
    && At(now.products, ProductId, id) == MergedProduct(was.products, data.products, queue, b, id)
    && At(now.aliases, AliasId, id) == MergedAlias(was.aliases, data.aliases, queue, b, id)
    && (data.reviews.None? ==> now.reviews == was.reviews)
    && (data.reviews.Some? ==>
          At(now.reviews, ReviewId, id) == MergedReview(was.reviews, data.reviews.value, queue, b, id))
  }

  lemma IdentitiesReloaded(r: Surfaces, queue: seq<Item>, b: string, data: Data, id: string)
    requires DistinctRows(r) && DistinctData(data)
    ensures IdentitiesMerged(r, Reloaded(r, queue, b, data), queue, b, data, id)
  {
    ProductAfterMerge(r.products, data.products, queue, b, id);
    AliasAfterMerge(r.aliases, data.aliases, queue, b, id);
    if data.reviews.Some? {
      ReviewAfterMerge(r.reviews, data.reviews.value, queue, b, id);
    }
  }

  lemma LatestIsMerged(s: State, i: nat, data: Data)
    requires IsLatest(s, i) && Enabled(s, LoadSucceeds(i, data))
    ensures Next(s, LoadSucceeds(i, data)).rows == if s.loads[i].kind == ContextLoad
                                                  then ContextMerge(s.rows, s.queue, s.businessId, data)
                                                  else RefreshMerge(s.rows, s.queue, s.businessId, data)
  {
  }

  /** A load changes no context, and takes nothing off the queue. */
  lemma LoadKeepsContext(s: State, i: nat, data: Data)
    requires Enabled(s, LoadSucceeds(i, data))
    ensures var t := Next(s, LoadSucceeds(i, data));
            && t.queue == s.queue && t.businessId == s.businessId && t.userId == s.userId
                 && t.generation == s.generation
            && t.ready == s.ready && t.loads == s.loads[..i] + s.loads[i + 1..]
            && (t.loaded <==> s.loaded || (IsLatest(s, i) && s.loads[i].kind == ContextLoad))
  {
  }

  /** The device's session when it has not synced. */
  function UnsyncedId(current: Option<Session>): Option<string> {
    if current.Some? && !current.value.synced then Some(current.value.id) else None
  }

  /** What a context load restores: its session, its counts and its feed come in, and rows the device
      still has work for stay. */
  predicate SessionRestored(was: Surfaces, now: Surfaces, queue: seq<Item>, b: string, data: Data, id: string,
                            k: CountKey) {
    var current, restored := was.currentSession, Restored(data.sessions);
    if restored.None? then now.currentSession == current && now.counts == was.counts && now.feed == was.feed
    else
      var sid := restored.value.id;
      && now.currentSession == (if current.Some? && current.value.id == sid then current else restored)
      && At(now.counts, KeyOf, k) == LoadedCount(was.counts, data.counts, sid, queue, b, UnsyncedId(current), k)
      && (data.scanEvents.None? ==> now.feed == was.feed)
      && (data.scanEvents.Some? ==>
            && (forall i, j :: 0 <= i < j < |now.feed| ==> now.feed[i].createdAt >= now.feed[j].createdAt)
            && At(now.feed, ScanId, id) == LoadedScan(was.feed, data.scanEvents.value, sid, queue, b, id))
  }

  lemma ContextMerged(r: Surfaces, queue: seq<Item>, b: string, data: Data, id: string, k: CountKey)
    requires DistinctRows(r) && DistinctData(data)
    ensures SessionRestored(r, ContextMerge(r, queue, b, data), queue, b, data, id, k)
  {
    var restored := Restored(data.sessions);
    if restored.Some? {
      CountAfterLoad(r.counts, data.counts, restored.value.id, queue, b, UnsyncedId(r.currentSession), k);
      if data.scanEvents.Some? {
        FeedAfterLoad(r.feed, data.scanEvents.value, restored.value.id, queue, b, id);
      }
    }
  }

  /** The finished load of a context change, surface by surface. */
  lemma ContextLoadMerges(s: State, i: nat, data: Data, id: string, k: CountKey)
    requires IsLatest(s, i) && s.loads[i].kind == ContextLoad
    requires Enabled(s, LoadSucceeds(i, data)) && DistinctRows(s.rows) && DistinctData(data)
    ensures var now := Next(s, LoadSucceeds(i, data)).rows;
            && IdentitiesMerged(s.rows, now, s.queue, s.businessId, data, id) && now.sessions == s.rows.sessions
            && SessionRestored(s.rows, now, s.queue, s.businessId, data, id, k)
  {
    LatestIsMerged(s, i, data);
    IdentitiesReloaded(s.rows, s.queue, s.businessId, data, id);
    ContextMerged(s.rows, s.queue, s.businessId, data, id, k);
  }

  /** The finished load of a refresh: sessions and counts are merged as well; feed and current session stay. */
  lemma RefreshLoadMerges(s: State, i: nat, data: Data, id: string, k: CountKey)
    requires IsLatest(s, i) && s.loads[i].kind == RefreshLoad
    requires Enabled(s, LoadSucceeds(i, data)) && DistinctRows(s.rows) && DistinctData(data)
    ensures var was, now := s.rows, Next(s, LoadSucceeds(i, data)).rows;
            && IdentitiesMerged(was, now, s.queue, s.businessId, data, id)
            && now.currentSession == was.currentSession && now.feed == was.feed
            && At(now.sessions, SessionId, id) == RefreshedSession(was.sessions, was.currentSession, data.sessions, id)
            && At(now.counts, KeyOf, k)
               == RefreshedCount(was.counts, data.counts, s.queue, s.businessId, was.products, now.products, k)
  {
    LatestIsMerged(s, i, data);
    IdentitiesReloaded(s.rows, s.queue, s.businessId, data, id);
    SessionAfterRefresh(s.rows.sessions, s.rows.currentSession, data.sessions, id);
    var n := Reloaded(s.rows, s.queue, s.businessId, data);
    CountAfterRefresh(s.rows.counts, data.counts, s.queue, s.businessId, s.rows.products, n.products, k);
  }

  // --- the refresh guard over runs ------------------------------------------------------------------

  /** The same tenant is set again, a refresh is asked for, a load fails, or one answers after it has
      been overtaken or for another context. */
  predicate Harmless(s: State, step: Step) {
    match step
    case SetContext(b, u, _) => b == s.businessId && u == s.userId
    case RefreshFromCloud => true
    case LoadFails(_) => true
    case LoadSucceeds(i, _) =>
      i < |s.loads| ==>
        var load := s.loads[i];
        load.generation != s.generation || load.businessId != s.businessId || load.userId != s.userId
    case _ => false
  }

  predicate HarmlessRun(s: State, steps: seq<Step>)
    requires Legal(s, steps)
    decreases |steps|
  {
    steps != [] ==> Harmless(s, steps[0]) && HarmlessRun(Next(s, steps[0]), steps[1..])
  }

  lemma HarmlessStep(s: State, step: Step)
    requires Enabled(s, step) && Harmless(s, step)
    ensures var t := Next(s, step);
            t.rows == s.rows && t.queue == s.queue && t.businessId == s.businessId && t.userId == s.userId
  {
  }

  /** However often a page is refreshed, and whatever loads fail or come too late: no row and no queued
      item is lost or changed. */
  lemma {:induction false} RefreshesLoseNothing(s: State, steps: seq<Step>)
    requires Legal(s, steps) && HarmlessRun(s, steps)
    ensures var t := Run(s, steps);
            t.rows == s.rows && t.queue == s.queue && t.businessId == s.businessId && t.userId == s.userId
    decreases |steps|
  {
    if steps != [] {
      HarmlessStep(s, steps[0]);
      RefreshesLoseNothing(Next(s, steps[0]), steps[1..]);
    }
  }
}
