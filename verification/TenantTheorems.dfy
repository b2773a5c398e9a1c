/** Tenant isolation over runs, who may merge a load, and what adoption keeps. */
module TenantTheorems {
  import opened StampedCopy
  import opened Seqs
  import opened OrderedMap
  import opened CloudMerge
  import opened TenantStore
  import L = Ledger

  // --- merges only mix local and loaded rows -----------------------------------------------------------

  predicate From2<T(==)>(r: seq<T>, a: seq<T>, b: seq<T>) {
    forall i :: 0 <= i < |r| ==> r[i] in a || r[i] in b
  }

  lemma {:induction false} ProductsMix(local: seq<Product>, remote: seq<Product>, pending: set<string>)
    ensures From2(Values(MergedProducts(local, remote, pending)), local, remote)
  {
    FromKeyed(local, ProductId);
    if remote == [] {
      InValues(From(local, ProductId), local, remote);
    } else {
      var r := remote[|remote| - 1];
      ProductsMix(local, Front(remote), pending);
      SetMixes(MergedProducts(local, Front(remote), pending), r.id, r, local, remote);
    }
  }

  lemma InValues<K, T>(m: seq<Entry<K, T>>, a: seq<T>, b: seq<T>)
    requires forall x :: x in Values(m) ==> x in a
    ensures From2(Values(m), a, b)
  {
    forall i | 0 <= i < |Values(m)| ensures Values(m)[i] in a {
      assert Values(m)[i] in Values(m);
    }
  }

  lemma SetMixes<K, T>(m: seq<Entry<K, T>>, k: K, v: T, a: seq<T>, b: seq<T>)
    requires b != [] && v == b[|b| - 1] && From2(Values(m), a, Front(b))
    ensures From2(Values(m), a, b) && From2(Values(Set(m, k, v)), a, b)
  {
    SetValues(m, k, v);
    forall x | x in Values(m) ensures x in a || x in b {
      var i :| 0 <= i < |Values(m)| && Values(m)[i] == x;
      assert Values(m)[i] in a || Values(m)[i] in Front(b);
    }
    var r := Values(Set(m, k, v));
    forall i | 0 <= i < |r| ensures r[i] in a || r[i] in b {
      assert r[i] in r;
    }
    var q := Values(m);
    forall i | 0 <= i < |q| ensures q[i] in a || q[i] in b {
      assert q[i] in q;
    }
  }

  lemma {:induction false} AliasesMix(local: seq<Alias>, remote: seq<Alias>, pending: set<string>)
    ensures From2(Values(MergedAliases(local, remote, pending)), local, remote)
  {
    FromKeyed(local, AliasId);
    if remote == [] {
      InValues(From(local, AliasId), local, remote);
    } else {
      var r := remote[|remote| - 1];
      AliasesMix(local, Front(remote), pending);
      SetMixes(MergedAliases(local, Front(remote), pending), r.id, r, local, remote);
    }
  }

  lemma {:induction false} OwnReviewsAreOwn(rows: seq<Review>, b: string)
    ensures forall x :: x in OwnReviews(rows, b) ==> x.businessId == b
  {
    if rows != [] {
      OwnReviewsAreOwn(rows[1..], b);
    }
  }

  /** Merged reviews are the business's own, whatever the loader sends. */
  lemma {:induction false} ReviewsAreOwn(local: seq<Review>, remote: seq<Review>, b: string, pending: set<string>)
    ensures forall x :: x in Values(MergedReviews(local, remote, b, pending)) ==> x.businessId == b
  {
    if remote == [] {
      OwnReviewsAreOwn(local, b);
      FromKeyed(OwnReviews(local, b), ReviewId);
    } else {
      var r := remote[|remote| - 1];
      ReviewsAreOwn(local, Front(remote), b, pending);
      SetValues(MergedReviews(local, Front(remote), b, pending), r.id, r);
    }
  }

  lemma {:induction false} CountsMix(seed: seq<L.Count>, remote: seq<L.Count>, rule: Rule)
    ensures From2(Values(MergedCounts(seed, remote, rule)), seed, remote)
  {
    FromKeyed(seed, KeyOf);
    if remote == [] {
      InValues(From(seed, KeyOf), seed, remote);
    } else {
      var r := remote[|remote| - 1];
      CountsMix(seed, Front(remote), rule);
      SetMixes(MergedCounts(seed, Front(remote), rule), KeyOf(r), r, seed, remote);
    }
  }

  lemma {:induction false} SessionsMix(m: seq<Entry<string, Session>>, rows: seq<Session>, local: seq<Session>)
    requires From2(Values(m), local, [])
    ensures From2(Values(UpsertSessions(m, rows)), local, rows)
  {
    if rows != [] {
      SessionsMix(m, Front(rows), local);
      SetMixes(UpsertSessions(m, Front(rows)), rows[|rows| - 1].id, rows[|rows| - 1], local, rows);
    }
  }

  lemma {:induction false} FeedMix(m: seq<Entry<string, Scan>>, local: seq<Scan>, sessionId: string,
                                   pending: set<string>, remote: seq<Scan>)
    requires forall x :: x in Values(m) ==> x in remote
    ensures forall x :: x in Values(OverlayScans(m, local, sessionId, pending)) ==> x in remote || x in local
  {
    if local != [] {
      var e := local[|local| - 1];
      FeedMix(m, Front(local), sessionId, pending, remote);
      SetValues(OverlayScans(m, Front(local), sessionId, pending), e.id, e);
    }
  }

  // --- isolation ----------------------------------------------------------------------------------------

  lemma MixedProducts(r: seq<Product>, a: seq<Product>, b: seq<Product>, biz: string)
    requires From2(r, a, b)
    requires forall i :: 0 <= i < |a| ==> a[i].businessId == biz
    requires forall i :: 0 <= i < |b| ==> b[i].businessId == biz
    ensures forall i :: 0 <= i < |r| ==> r[i].businessId == biz
  {
  }

  lemma MixedAliases(r: seq<Alias>, a: seq<Alias>, b: seq<Alias>, biz: string)
    requires From2(r, a, b)
    requires forall i :: 0 <= i < |a| ==> a[i].businessId == biz
    requires forall i :: 0 <= i < |b| ==> b[i].businessId == biz
    ensures forall i :: 0 <= i < |r| ==> r[i].businessId == biz
  {
  }

  lemma MixedCounts(r: seq<L.Count>, a: seq<L.Count>, b: seq<L.Count>, biz: string)
    requires From2(r, a, b)
    requires forall i :: 0 <= i < |a| ==> a[i].businessId == biz
    requires forall i :: 0 <= i < |b| ==> b[i].businessId == biz
    ensures forall i :: 0 <= i < |r| ==> r[i].businessId == biz
  {
  }

  lemma MixedSessions(r: seq<Session>, a: seq<Session>, b: seq<Session>, biz: string)
    requires From2(r, a, b)
    requires forall i :: 0 <= i < |a| ==> a[i].businessId == biz
    requires forall i :: 0 <= i < |b| ==> b[i].businessId == biz
    ensures forall i :: 0 <= i < |r| ==> r[i].businessId == biz
  {
  }

  lemma ReloadedOwned(r: Surfaces, queue: seq<Item>, b: string, data: Data)
    requires Owned(r, b) && Serves(data, b)
    ensures Owned(Reloaded(r, queue, b, data), b)
  {
    var products, aliases := PendingIds(queue, b, SaveProduct), PendingIds(queue, b, ResolveAlias);
    ProductsMix(r.products, data.products, products);
    MixedProducts(Values(MergedProducts(r.products, data.products, products)), r.products, data.products, b);
    AliasesMix(r.aliases, data.aliases, aliases);
    MixedAliases(Values(MergedAliases(r.aliases, data.aliases, aliases)), r.aliases, data.aliases, b);
    if data.reviews.Some? {
      var v := Values(MergedReviews(r.reviews, data.reviews.value, b, PendingIds(queue, b, SaveUnknownScan)));
      ReviewsAreOwn(r.reviews, data.reviews.value, b, PendingIds(queue, b, SaveUnknownScan));
      forall i | 0 <= i < |v| ensures v[i].businessId == b {
        assert v[i] in v;
      }
    }
  }

  lemma {:induction false} FirstActiveIsOne(rows: seq<Session>)
    ensures FirstActive(rows).Some? ==> FirstActive(rows).value in rows
  {
    if rows != [] && !rows[0].active {
      FirstActiveIsOne(rows[1..]);
    }
  }

  lemma RestoredIsOne(sessions: seq<Session>)
    ensures Restored(sessions).Some? ==> Restored(sessions).value in sessions
  {
    FirstActiveIsOne(NewestFirst(sessions, StartedAt));
  }

  lemma LoadedCountsOwned(counts: seq<L.Count>, remote: seq<L.Count>, restored: string, queue: seq<Item>, b: string,
                          unsynced: Option<string>)
    requires forall i :: 0 <= i < |counts| ==> counts[i].businessId == b
    requires forall i :: 0 <= i < |remote| ==> remote[i].businessId == b
    ensures var r := LoadedCounts(counts, remote, restored, queue, b, unsynced);
            forall i :: 0 <= i < |r| ==> r[i].businessId == b
  {
    var p := PendingCounts(queue, b);
    var seed := SeedRows(counts, restored, QueueSessions(queue, b), p, unsynced);
    CountsMix(seed, remote, LoadRule(restored, p));
    forall i | 0 <= i < |seed| ensures seed[i].businessId == b {
      assert seed[i] in counts;
    }
    MixedCounts(LoadedCounts(counts, remote, restored, queue, b, unsynced), seed, remote, b);
  }

  lemma LoadedFeedOwned(feed: seq<Scan>, remote: seq<Scan>, sessionId: string, queue: seq<Item>, b: string)
    requires forall i :: 0 <= i < |feed| ==> feed[i].businessId == b
    requires forall i :: 0 <= i < |remote| ==> remote[i].businessId == b
    ensures var r := LoadedFeed(feed, remote, sessionId, queue, b);
            forall i :: 0 <= i < |r| ==> r[i].businessId == b
  {
    var rows := NewestFirst(OfSession(remote, sessionId), CreatedAt);
    FromKeyed(rows, ScanId);
    FeedMix(From(rows, ScanId), feed, sessionId, PendingScans(queue, b), remote);
    var r := LoadedFeed(feed, remote, sessionId, queue, b);
    forall i | 0 <= i < |r| ensures r[i].businessId == b {
      assert r[i] in r;
    }
  }

  lemma RefreshedSessionsOwned(local: seq<Session>, current: Option<Session>, remote: seq<Session>, b: string)
    requires forall i :: 0 <= i < |local| ==> local[i].businessId == b
    requires current.Some? ==> current.value.businessId == b
    requires forall i :: 0 <= i < |remote| ==> remote[i].businessId == b
    ensures var r := RefreshedSessions(local, current, remote); forall i :: 0 <= i < |r| ==> r[i].businessId == b
  {
    FromKeyed(local, SessionId);
    var m := From(local, SessionId);
    var own := if current.Some? then local + [current.value] else local;
    var n := if current.Some? then Set(m, current.value.id, current.value) else m;
    if current.Some? {
      SetValues(m, current.value.id, current.value);
    }
    InValues(n, own, []);
    SessionsMix(n, remote, own);
    MixedSessions(RefreshedSessions(local, current, remote), own, remote, b);
  }

  lemma ContextMergeOwned(r: Surfaces, queue: seq<Item>, b: string, data: Data)
    requires Owned(r, b) && Serves(data, b)
    ensures Owned(ContextMerge(r, queue, b, data), b)
  {
    ReloadedOwned(r, queue, b, data);
    RestoredIsOne(data.sessions);
    if Restored(data.sessions).Some? {
      var restored := Restored(data.sessions).value;
      LoadedCountsOwned(r.counts, data.counts, restored.id, queue, b, UnsyncedSession(r.currentSession));
      if data.scanEvents.Some? {
        LoadedFeedOwned(r.feed, data.scanEvents.value, restored.id, queue, b);
      }
    }
  }

  lemma RefreshMergeOwned(r: Surfaces, queue: seq<Item>, b: string, data: Data)
    requires Owned(r, b) && Serves(data, b)
    ensures Owned(RefreshMerge(r, queue, b, data), b)
  {
    ReloadedOwned(r, queue, b, data);
    var n := Reloaded(r, queue, b, data);
    RefreshedSessionsOwned(r.sessions, r.currentSession, data.sessions, b);
    var rule := RefreshRule(PendingCounts(queue, b), ArchivedIds(n.products), ArchivedIds(r.products));
    CountsMix(r.counts, data.counts, rule);
    MixedCounts(RefreshedCounts(r.counts, data.counts, queue, b, r.products, n.products), r.counts, data.counts, b);
  }

  /** Re-scoping moves every placeholder row to the business, and no other. */
  lemma RescopeOwned(r: Surfaces, b: string)
    requires Owned(r, DEMO_BUSINESS_ID)
    ensures Owned(Rescope(r, b), b)
  {
  }

  lemma OwnedFinish(s: State, i: nat, data: Data)
    requires i < |s.loads| && Serves(data, s.loads[i].businessId) && Owned(s.rows, s.businessId)
    ensures Owned(Finish(s, i, data).rows, s.businessId)
  {
    if Current(s, s.loads[i]) {
      ContextMergeOwned(s.rows, s.queue, s.businessId, data);
      RefreshMergeOwned(s.rows, s.queue, s.businessId, data);
    }
  }

  lemma OwnedStep(s: State, step: Step)
    requires Enabled(s, step) && Owned(s.rows, s.businessId)
    ensures Owned(Next(s, step).rows, Next(s, step).businessId)
  {
    match step
    case SetContext(b, u, resync) =>
      if Bootstrap(s, b, u) {
        RescopeOwned(s.rows, b);
      }
    case LoadSucceeds(i, data) =>
      OwnedFinish(s, i, data);
    case _ =>
  }

  /** In every run of switches, sign-outs, refreshes, local work and loads that finish at any later
      time, in any order, every row of the store belongs to the business that is current then. */
  lemma {:induction false} TenantIsolation(s: State, steps: seq<Step>)
    requires Owned(s.rows, s.businessId) && Legal(s, steps)
    ensures Owned(Run(s, steps).rows, Run(s, steps).businessId)
    decreases steps
  {
    if steps != [] {
      OwnedStep(s, steps[0]);
      TenantIsolation(Next(s, steps[0]), steps[1..]);
    }
  }

  // --- which load is merged -------------------------------------------------------------------------------

  lemma {:induction false} GenerationOnlyGrows(s: State, steps: seq<Step>)
    requires Legal(s, steps)
    ensures Run(s, steps).generation >= s.generation
    decreases steps
  {
    if steps != [] {
      GenerationOnlyGrows(Next(s, steps[0]), steps[1..]);
    }
  }

  /** Issues: the step starts a load. */
  predicate Issues(s: State, step: Step) {
    s.cloudBackend && s.hasLoader && (step.SetContext? || (step.RefreshFromCloud? && RefreshAllowed(s)))
  }

  lemma IssueGeneration(s: State, step: Step)
    requires Enabled(s, step)
    ensures (step.SetContext? || (step.RefreshFromCloud? && RefreshAllowed(s))) ==>
        Next(s, step).generation == s.generation + 1
    ensures Next(s, step).cloudBackend == s.cloudBackend && Next(s, step).hasLoader == s.hasLoader
  {
  }

  ghost predicate Overtaken(s: State, steps: seq<Step>)
    requires Legal(s, steps)
    decreases steps
  {
    steps != [] && (steps[0].SetContext? || Issues(s, steps[0]) || Overtaken(Next(s, steps[0]), steps[1..]))
  }

  lemma {:induction false} OvertakenGeneration(s: State, steps: seq<Step>)
    requires Legal(s, steps) && Overtaken(s, steps)
    ensures Run(s, steps).generation > s.generation
    decreases steps
  {
    IssueGeneration(s, steps[0]);
    GenerationOnlyGrows(Next(s, steps[0]), steps[1..]);
    if !steps[0].SetContext? && !Issues(s, steps[0]) {
      OvertakenGeneration(Next(s, steps[0]), steps[1..]);
    }
  }

  lemma {:induction false} ContextWithoutSwitch(s: State, steps: seq<Step>)
    requires Legal(s, steps) && !Overtaken(s, steps)
    ensures Run(s, steps).generation == s.generation
    ensures var t := Run(s, steps);
            (t.businessId == s.businessId && t.userId == s.userId)
                || (t.businessId == DEMO_BUSINESS_ID && t.userId == None)
    decreases steps
  {
    if steps != [] {
      ContextWithoutSwitch(Next(s, steps[0]), steps[1..]);
    }
  }

  /** Only the load issued last can ever be merged, and only into the context it was issued for: a
      load issued by a step is current at a later point exactly when no other load and no switch
      came in between and the business and user are the ones it was issued with. */
  lemma OnlyTheLatestLoadIsMerged(s: State, step: Step, steps: seq<Step>)
    requires Enabled(s, step) && Issues(s, step) && Legal(Next(s, step), steps)
    ensures var u, t := Next(s, step), Run(Next(s, step), steps);
            var load := u.loads[|u.loads| - 1];
            Current(t, load) <==> !Overtaken(u, steps) && t.businessId == u.businessId && t.userId == u.userId
  {
    var u := Next(s, step);
    if Overtaken(u, steps) {
      OvertakenGeneration(u, steps);
    } else {
      ContextWithoutSwitch(u, steps);
    }
  }

  // --- what a switch keeps -----------------------------------------------------------------------------------

  /** Adoption keeps every count row with its product, session, quantity and applied event ids, and
      every feed row with its id: nothing is lost or counted twice. */
  lemma AdoptionKeepsTheBooks(s: State, b: string, u: Option<string>, resync: seq<Item>, i: nat)
    requires Bootstrap(s, b, u)
    ensures var t := Next(s, SetContext(b, u, resync));
            && |t.rows.counts| == |s.rows.counts| && |t.rows.feed| == |s.rows.feed|
            && (i < |s.rows.counts| ==>
                  && KeyOf(t.rows.counts[i]) == KeyOf(s.rows.counts[i])
                  && t.rows.counts[i].quantity == s.rows.counts[i].quantity
                  && t.rows.counts[i].scanEventIds == s.rows.counts[i].scanEventIds)
            && (i < |s.rows.feed| ==>
                t.rows.feed[i].id == s.rows.feed[i].id && t.rows.feed[i].sessionId == s.rows.feed[i].sessionId)
  {
  }

  /** No queued item stays stranded under the placeholder, an item's own key and the copy in its
      payload stay equal, and an increment keeps its row and its delta. */
  lemma AdoptionKeepsTheQueue(s: State, b: string, u: Option<string>, resync: seq<Item>, i: nat)
    requires Bootstrap(s, b, u) && b != DEMO_BUSINESS_ID && i < |s.queue|
    ensures var was, now := s.queue[i], Next(s, SetContext(b, u, resync)).queue[i];
            && now.businessId != DEMO_BUSINESS_ID
            && (was.businessId != DEMO_BUSINESS_ID ==> now == was)
            && Target(now) == Target(was) && now.entityId == was.entityId && now.operation == was.operation
            && (was.payload.Some? && was.payload.value.idempotencyKey == was.idempotencyKey ==>
                  now.payload.Some? && now.payload.value.idempotencyKey == now.idempotencyKey)
            && (was.payload.Some? ==> now.payload.value.delta == was.payload.value.delta)
  {
  }

  predicate IsPlaceholderKey(key: string) {
    DEMO_BUSINESS_ID + ":" <= key
  }

  /** Two different keys stay different, unless one is a placeholder key and the other is already
      the same key of the business. */
  lemma RescopedKeysCollideExactly(x: string, y: string, b: string)
    requires x != y
    ensures RescopeKey(x, b) == RescopeKey(y, b)
       <==> || (IsPlaceholderKey(x) && !IsPlaceholderKey(y) && y == b + x[|DEMO_BUSINESS_ID|..])
            || (IsPlaceholderKey(y) && !IsPlaceholderKey(x) && x == b + y[|DEMO_BUSINESS_ID|..])
  {
    if IsPlaceholderKey(x) && IsPlaceholderKey(y) {
      var p, q := x[|DEMO_BUSINESS_ID|..], y[|DEMO_BUSINESS_ID|..];
      assert x == DEMO_BUSINESS_ID + p && y == DEMO_BUSINESS_ID + q;
      SameHead(b, p, q);
    }
  }

  lemma SameHead(b: string, p: string, q: string)
    ensures b + p == b + q <==> p == q
  {
    assert p == (b + p)[|b|..] && q == (b + q)[|b|..];
  }
}
