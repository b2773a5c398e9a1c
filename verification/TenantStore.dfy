/** The store's tenant context: switching business or user, signing out, and loads from the cloud
    that finish late. Models src/stores/scanStore.ts and src/stores/scan/adoption.ts. */
module TenantStore {
  import opened StampedCopy
  import opened CloudMerge
  import OrderedMap
  import L = Ledger

  /** The placeholder tenant of a session that has not signed in. */
  const DEMO_BUSINESS_ID := "demo-business"

  datatype LoadKind = ContextLoad | RefreshLoad

  /** A load in flight with what it captured when it was issued. */
  datatype PendingLoad = PendingLoad(kind: LoadKind, generation: nat, businessId: string, userId: Option<string>)

  datatype Data = Data(products: seq<Product>, aliases: seq<Alias>, sessions: seq<Session>, counts: seq<L.Count>,
                       reviews: Option<seq<Review>>, scanEvents: Option<seq<Scan>>)

  /** Every tenant-owned list of the store. */
  datatype Surfaces = Surfaces(products: seq<Product>, aliases: seq<Alias>, sessions: seq<Session>,
                               currentSession: Option<Session>, feed: seq<Scan>, counts: seq<L.Count>,
                               reviews: seq<Review>)

  const CLEARED := Surfaces([], [], [], None, [], [], [])

  datatype State = State(cloudBackend: bool, hasLoader: bool, businessId: string, userId: Option<string>,
                         ready: bool, loaded: bool, generation: nat, rows: Surfaces, queue: seq<Item>,
                         loads: seq<PendingLoad>)

  datatype Step =
    | SetContext(businessId: string, userId: Option<string>, resync: seq<Item>)
    | SignOut
    | RefreshFromCloud
    | LoadSucceeds(i: nat, data: Data)
    | LoadFails(i: nat)
    | Edit(rows: Surfaces, queue: seq<Item>)  // any local work: scans, edits, drains

  // --- re-scoping ------------------------------------------------------------------------------------

  /** Only the leading business segment of a key is rewritten. */
  function RescopeKey(key: string, businessId: string): string {
    if DEMO_BUSINESS_ID + ":" <= key then businessId + key[|DEMO_BUSINESS_ID|..] else key
  }

  function RescopeKeys(keys: seq<string>, businessId: string): (r: seq<string>)
    ensures |r| == |keys| && forall i :: 0 <= i < |keys| ==> r[i] == RescopeKey(keys[i], businessId)
  {
    seq(|keys|, i requires 0 <= i < |keys| => RescopeKey(keys[i], businessId))
  }

  function RescopeProduct(p: Product, b: string): Product {
    if p.businessId != DEMO_BUSINESS_ID then p else p.(businessId := b)
  }

  function RescopeAlias(a: Alias, b: string): Alias {
    if a.businessId != DEMO_BUSINESS_ID then a
    else a.(businessId := b, idempotencyKey := RescopeKey(a.idempotencyKey, b))
  }

  function RescopeSession(s: Session, b: string): Session {
    if s.businessId != DEMO_BUSINESS_ID then s else s.(businessId := b)
  }

  function RescopeScan(e: Scan, b: string): Scan {
    if e.businessId != DEMO_BUSINESS_ID then e
    else e.(businessId := b, idempotencyKey := RescopeKey(e.idempotencyKey, b))
  }

  function RescopeCount(c: L.Count, b: string): L.Count {
    if c.businessId != DEMO_BUSINESS_ID then c
    else c.(businessId := b, appliedIdempotencyKeys := RescopeKeys(c.appliedIdempotencyKeys, b))
  }

  function RescopeReview(r: Review, b: string): Review {
    if r.businessId != DEMO_BUSINESS_ID then r
    else r.(businessId := b, idempotencyKey := RescopeKey(r.idempotencyKey, b))
  }

  function RescopeItem(it: Item, b: string): Item {
    if it.businessId != DEMO_BUSINESS_ID then it
    else it.(businessId := b, idempotencyKey := RescopeKey(it.idempotencyKey, b),
             payload := if it.payload.None? then None
                        else Some(it.payload.value.(idempotencyKey := RescopeKey(it.payload.value.idempotencyKey, b))))
  }

  function Map<T, U>(f: T -> U, xs: seq<T>): (r: seq<U>)
    ensures |r| == |xs| && forall i :: 0 <= i < |xs| ==> r[i] == f(xs[i])
  {
    seq(|xs|, i requires 0 <= i < |xs| => f(xs[i]))
  }

  function RescopeProducts(xs: seq<Product>, b: string): seq<Product> { Map(p => RescopeProduct(p, b), xs) }
  function RescopeAliases(xs: seq<Alias>, b: string): seq<Alias> { Map(a => RescopeAlias(a, b), xs) }
  function RescopeSessions(xs: seq<Session>, b: string): seq<Session> { Map(s => RescopeSession(s, b), xs) }
  function RescopeFeed(xs: seq<Scan>, b: string): seq<Scan> { Map(e => RescopeScan(e, b), xs) }
  function RescopeCounts(xs: seq<L.Count>, b: string): seq<L.Count> { Map(c => RescopeCount(c, b), xs) }
  function RescopeReviews(xs: seq<Review>, b: string): seq<Review> { Map(r => RescopeReview(r, b), xs) }

  function Rescope(r: Surfaces, b: string): Surfaces {
    Surfaces(RescopeProducts(r.products, b), RescopeAliases(r.aliases, b), RescopeSessions(r.sessions, b),
             if r.currentSession.Some? then Some(RescopeSession(r.currentSession.value, b)) else None,
             RescopeFeed(r.feed, b), RescopeCounts(r.counts, b), RescopeReviews(r.reviews, b))
  }

  function RescopeQueue(queue: seq<Item>, b: string): seq<Item> {
    Map(it => RescopeItem(it, b), queue)
  }

  predicate PlaceholderActivity(s: State) {
    || (exists i :: 0 <= i < |s.rows.feed| && s.rows.feed[i].businessId == DEMO_BUSINESS_ID)
    || (exists i :: 0 <= i < |s.queue| && s.queue[i].businessId == DEMO_BUSINESS_ID)
    || (exists i :: 0 <= i < |s.rows.reviews| && s.rows.reviews[i].businessId == DEMO_BUSINESS_ID)
  }

  predicate SameTenant(s: State, b: string, u: Option<string>) {
    s.businessId == b && s.userId == u
  }

  predicate Bootstrap(s: State, b: string, u: Option<string>) {
    s.cloudBackend && !SameTenant(s, b, u) && s.businessId == DEMO_BUSINESS_ID && s.userId.None?
        && PlaceholderActivity(s)
  }

  // --- steps -----------------------------------------------------------------------------------------

  function Issue(s: State, kind: LoadKind): State {
    s.(loads := s.loads + [PendingLoad(kind, s.generation, s.businessId, s.userId)])
  }

  function SwitchedRows(s: State, b: string, u: Option<string>): Surfaces {
    if SameTenant(s, b, u) then s.rows else if Bootstrap(s, b, u) then Rescope(s.rows, b) else CLEARED
  }

  /** The queue survives every switch: items of another tenant wait for their own tenant. */
  function SwitchedQueue(s: State, b: string, u: Option<string>, resync: seq<Item>): seq<Item> {
    if Bootstrap(s, b, u) then RescopeQueue(s.queue, b) + resync else s.queue
  }

  function Switched(s: State, b: string, u: Option<string>, resync: seq<Item>): State {
    State(s.cloudBackend, s.hasLoader, b, u, true, !(s.cloudBackend && s.hasLoader), s.generation + 1,
          SwitchedRows(s, b, u), SwitchedQueue(s, b, u, resync), s.loads)
  }

  predicate RefreshAllowed(s: State) {
    s.cloudBackend && s.hasLoader && s.ready && s.userId.Some? && s.userId.value != "" && s.businessId != ""
  }

  /** The load was the last one issued and its business and user are still the current ones. */
  predicate Current(s: State, load: PendingLoad) {
    load.generation == s.generation && load.businessId == s.businessId && load.userId == s.userId
  }

  function UnsyncedSession(current: Option<Session>): Option<string> {
    if current.Some? && !current.value.synced then Some(current.value.id) else None
  }

  function Reloaded(r: Surfaces, queue: seq<Item>, b: string, data: Data): Surfaces {
    r.(products := OrderedMap.Values(MergedProducts(r.products, data.products, PendingIds(queue, b, SaveProduct))),
       aliases := OrderedMap.Values(MergedAliases(r.aliases, data.aliases, PendingIds(queue, b, ResolveAlias))),
       reviews := if data.reviews.None? then r.reviews
                  else OrderedMap.Values(MergedReviews(r.reviews, data.reviews.value, b,
                                                       PendingIds(queue, b, SaveUnknownScan))))
  }

  /** What a finished `setBusinessContext` load does to the rows. */
  function ContextMerge(r: Surfaces, queue: seq<Item>, b: string, data: Data): Surfaces {
    var n := Reloaded(r, queue, b, data);
    match Restored(data.sessions)
    case None => n
    case Some(restored) =>
      n.(currentSession := if r.currentSession.Some? && r.currentSession.value.id == restored.id
                           then r.currentSession else Some(restored),
         counts := LoadedCounts(r.counts, data.counts, restored.id, queue, b, UnsyncedSession(r.currentSession)),
         feed := if data.scanEvents.None? then r.feed
                 else LoadedFeed(r.feed, data.scanEvents.value, restored.id, queue, b))
  }

  /** What a finished `refreshFromCloud` load does to the rows. */
  function RefreshMerge(r: Surfaces, queue: seq<Item>, b: string, data: Data): Surfaces {
    var n := Reloaded(r, queue, b, data);
    n.(sessions := RefreshedSessions(r.sessions, r.currentSession, data.sessions),
       counts := RefreshedCounts(r.counts, data.counts, queue, b, r.products, n.products))
  }

  function Without(s: State, i: nat): State
    requires i < |s.loads|
  {
    s.(loads := s.loads[..i] + s.loads[i + 1..])
  }

  function Merged(s: State, kind: LoadKind, data: Data): Surfaces {
    if kind == ContextLoad then ContextMerge(s.rows, s.queue, s.businessId, data)
    else RefreshMerge(s.rows, s.queue, s.businessId, data)
  }

  /** What a finished load does when it is current. */
  function Accept(s: State, kind: LoadKind, data: Data): State {
    State(s.cloudBackend, s.hasLoader, s.businessId, s.userId, s.ready, s.loaded || kind == ContextLoad, s.generation,
          Merged(s, kind, data), s.queue, s.loads)
  }

  function Finish(s: State, i: nat, data: Data): State
    requires i < |s.loads|
  {
    var t := Without(s, i);
    if Current(t, s.loads[i]) then Accept(t, s.loads[i].kind, data) else t
  }

  function Next(s: State, step: Step): State
    requires Enabled(s, step)
  {
    match step
    case SetContext(b, u, resync) =>
      var t := Switched(s, b, u, resync);
      if s.cloudBackend && s.hasLoader then Issue(t, ContextLoad) else t
    case SignOut =>
      s.(businessId := DEMO_BUSINESS_ID, userId := None, ready := !s.cloudBackend, loaded := !s.cloudBackend,
         rows := CLEARED, queue := [])
    case RefreshFromCloud =>
      if RefreshAllowed(s) then Issue(s.(generation := s.generation + 1), RefreshLoad) else s
    case LoadSucceeds(i, data) => Finish(s, i, data)
    case LoadFails(i) =>
      var t := Without(s, i);
      if Current(s, s.loads[i]) && s.loads[i].kind == ContextLoad then t.(loaded := true) else t
    case Edit(rows, queue) => s.(rows := rows, queue := queue)
  }

  // --- who owns a row ---------------------------------------------------------------------------------

  predicate Owned(r: Surfaces, b: string) {
    && (forall i :: 0 <= i < |r.products| ==> r.products[i].businessId == b)
    && (forall i :: 0 <= i < |r.aliases| ==> r.aliases[i].businessId == b)
    && (forall i :: 0 <= i < |r.sessions| ==> r.sessions[i].businessId == b)
    && (r.currentSession.Some? ==> r.currentSession.value.businessId == b)
    && (forall i :: 0 <= i < |r.feed| ==> r.feed[i].businessId == b)
    && (forall i :: 0 <= i < |r.counts| ==> r.counts[i].businessId == b)
    && (forall i :: 0 <= i < |r.reviews| ==> r.reviews[i].businessId == b)
  }

  /** The loader's contract: it answers with rows of the business it was asked for. Reviews need no
      contract, the merge filters them. */
  predicate Serves(data: Data, b: string) {
    && (forall i :: 0 <= i < |data.products| ==> data.products[i].businessId == b)
    && (forall i :: 0 <= i < |data.aliases| ==> data.aliases[i].businessId == b)
    && (forall i :: 0 <= i < |data.sessions| ==> data.sessions[i].businessId == b)
    && (forall i :: 0 <= i < |data.counts| ==> data.counts[i].businessId == b)
    && (data.scanEvents.Some? ==> forall i :: 0 <= i < |data.scanEvents.value| ==>
        data.scanEvents.value[i].businessId == b)
  }

  predicate Enabled(s: State, step: Step) {
    match step
    case LoadSucceeds(i, data) => i < |s.loads| && Serves(data, s.loads[i].businessId)
    case LoadFails(i) => i < |s.loads|
    case Edit(rows, _) => Owned(rows, s.businessId)
    case _ => true
  }

  predicate Legal(s: State, steps: seq<Step>)
    decreases steps
  {
    steps == [] || (Enabled(s, steps[0]) && Legal(Next(s, steps[0]), steps[1..]))
  }

  function Run(s: State, steps: seq<Step>): State
    requires Legal(s, steps)
    decreases steps
  {
    if steps == [] then s else Run(Next(s, steps[0]), steps[1..])
  }

  /** A new store: seed rows of the placeholder tenant. */
  function Initial(cloudBackend: bool, hasLoader: bool, seed: Surfaces): State {
    State(cloudBackend, hasLoader, DEMO_BUSINESS_ID, None, !cloudBackend, !cloudBackend, 0, seed, [], [])
  }
}
