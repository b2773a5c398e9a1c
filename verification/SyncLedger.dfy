/** One tenant's counts on this device, its queue of unsynced increments and the backend, as a step
    system: scans, drains, other devices, and loads whose snapshot is merged some time after it was
    read. The backend applies each idempotency key once. */
module SyncLedger {
  import opened StampedCopy
  import opened Seqs
  import opened OrderedMap
  import opened CloudMerge
  import L = Ledger

  /** rows as read; seen: the keys the backend had applied by then. */
  datatype Snapshot = Snapshot(rows: seq<L.Count>, seen: set<string>)

  /** log holds every item ever enqueued. */
  datatype State = State(businessId: string, rows: seq<L.Count>, products: seq<Product>,
                         queue: seq<Item>, log: seq<Item>,
                         applied: set<string>, remote: map<CountKey, int>, loads: seq<Snapshot>)

  datatype Step =
    | ScanStep(event: L.Event, rowId: string, item: Item)
    | Enqueue(item: Item)
    | Apply(i: nat)
    | Dequeue(i: nat)
    | OtherDevice(key: CountKey, delta: int)
    | Read(rows: seq<L.Count>)
    | Refresh(i: nat, merged: seq<Product>)
    | Load(i: nat, restored: string, unsynced: Option<string>)
    | EditProducts(products: seq<Product>)

  function QuantityOf(rows: seq<L.Count>, k: CountKey): int {
    if rows == [] then 0
    else if KeyOf(rows[0]) == k then rows[0].quantity
    else QuantityOf(rows[1..], k)
  }

  function RemoteQuantity(remote: map<CountKey, int>, k: CountKey): int {
    if k in remote then remote[k] else 0
  }

  function DeltaFor(it: Item, k: CountKey): int {
    if it.operation == IncrementCount && Target(it) == Some(k) then it.payload.value.delta else 0
  }

  /** What the items outside `applied` add to row k. */
  function Waiting(items: seq<Item>, applied: set<string>, k: CountKey): int {
    if items == [] then 0
    else (if items[0].idempotencyKey in applied then 0 else DeltaFor(items[0], k)) + Waiting(items[1..], applied, k)
  }

  /** Everything this device ever counted for row k. */
  function Scanned(items: seq<Item>, k: CountKey): int {
    Waiting(items, {}, k)
  }

  function Keys(items: seq<Item>): set<string> {
    set i | 0 <= i < |items| :: items[i].idempotencyKey
  }

  /** A snapshot lists the backend's rows, each once, in any order. */
  ghost predicate Faithful(rows: seq<L.Count>, remote: map<CountKey, int>) {
    && Unique(rows, KeyOf)
    && (forall i :: 0 <= i < |rows| ==> KeyOf(rows[i]) in remote && rows[i].quantity == remote[KeyOf(rows[i])])
    && (forall k :: k in remote ==> QuantityOf(rows, k) == remote[k] && HasKey(rows, k))
  }

  predicate HasKey(rows: seq<L.Count>, k: CountKey) {
    exists i :: 0 <= i < |rows| && KeyOf(rows[i]) == k
  }

  /** The increment that the scan path enqueues for an event. */
  predicate ItemFor(it: Item, e: L.Event, businessId: string) {
    && it.businessId == businessId && it.operation == IncrementCount
    && it.idempotencyKey == e.idempotencyKey
    && Target(it) == Some(CountKey(e.sessionId, e.matchedProductId)) && it.payload.value.delta == L.Delta(e)
  }

  ghost predicate Enabled(s: State, step: Step) {
    match step
    case ScanStep(e, rowId, item) =>
      && e.matchedProductId != "" && L.Delta(e) > 0 && ItemFor(item, e, s.businessId)
      && (var row := L.RowOf(s.rows, e.matchedProductId, e.sessionId); row.Some? ==> e.id !in row.value.scanEventIds)
      && item.idempotencyKey !in Keys(s.log) && item.idempotencyKey !in s.applied
    case Enqueue(item) =>
      && item.businessId == s.businessId && item.operation != IncrementCount
      && item.idempotencyKey !in Keys(s.log) && item.idempotencyKey !in s.applied
    case Apply(i) => i < |s.queue|
    case Dequeue(i) => i < |s.queue| && s.queue[i].idempotencyKey in s.applied
    case OtherDevice(_, delta) => delta >= 0
    case Read(rows) => Faithful(rows, s.remote)
    case Refresh(i, _) => i < |s.loads|
    case Load(i, _, _) => i < |s.loads|
    case EditProducts(_) => true
  }

  /** The backend adds an increment unless it has already applied its key. */
  function Backend(s: State, it: Item): State {
    if it.idempotencyKey in s.applied then s
    else
      var t := s.(applied := s.applied + {it.idempotencyKey});
      if it.operation != IncrementCount || Target(it).None? then t
      else
        var k := Target(it).value;
        t.(remote := s.remote[k := RemoteQuantity(s.remote, k) + it.payload.value.delta])
  }

  ghost function Next(s: State, step: Step): State
    requires Enabled(s, step)
  {
    match step
    case ScanStep(e, rowId, item) =>
      s.(rows := L.Incremented(s.rows, e, rowId), queue := s.queue + [item], log := s.log + [item])
    case Enqueue(item) => s.(queue := s.queue + [item], log := s.log + [item])
    case Apply(i) => Backend(s, s.queue[i])
    case Dequeue(i) => s.(queue := Removed(s.queue, i))
    case OtherDevice(k, delta) => s.(remote := s.remote[k := RemoteQuantity(s.remote, k) + delta])
    case Read(rows) => s.(loads := s.loads + [Snapshot(rows, s.applied)])
    case Refresh(i, merged) =>
      s.(rows := RefreshedCounts(s.rows, s.loads[i].rows, s.queue, s.businessId, s.products, merged),
         products := merged, loads := Removed(s.loads, i))
    case Load(i, restored, unsynced) =>
      s.(rows := LoadedCounts(s.rows, s.loads[i].rows, restored, s.queue, s.businessId, unsynced),
         loads := Removed(s.loads, i))
    case EditProducts(products) => s.(products := products)
  }

  ghost predicate Legal(s: State, steps: seq<Step>)
    decreases steps
  {
    steps == [] || (Enabled(s, steps[0]) && Legal(Next(s, steps[0]), steps[1..]))
  }

  ghost function Run(s: State, steps: seq<Step>): State
    requires Legal(s, steps)
    decreases steps
  {
    if steps == [] then s else Run(Next(s, steps[0]), steps[1..])
  }

  function Fresh(businessId: string, products: seq<Product>): State {
    State(businessId, [], products, [], [], {}, map[], [])
  }
}
