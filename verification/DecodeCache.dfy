/** The bounded store of src/decoding/decodeCache.ts and the state machine of its callers.

    A step is one uninterrupted piece of the program (the part between two awaits) or one move of
    the environment: a compute settles. Any number of calls may be between two of their steps. */
module DecodeCache {
  import opened StampedCopy
  import opened Text

  const MAX_ENTRIES := 5000

  /** What a compute produces. Undefined is the one value a lookup cannot tell from a miss. */
  datatype Value = Undefined | Decoded(text: string)

  datatype Entry = Entry(value: Value, expiresAt: Option<int>)

  /** order lists the keys as the map iterates over them, oldest insertion first. */
  datatype Cache = Cache(order: seq<string>, entries: map<string, Entry>)

  const EMPTY_CACHE := Cache([], map[])

  function Key(code: string): string {
    Trim(code)
  }

  function Without(order: seq<string>, k: string): seq<string> {
    if order == [] then []
    else if order[0] == k then order[1..]
    else [order[0]] + Without(order[1..], k)
  }

  function Delete(c: Cache, k: string): Cache {
    Cache(Without(c.order, k), c.entries - {k})
  }

  predicate Expired(e: Entry, now: int) {
    e.expiresAt.Some? && now > e.expiresAt.value
  }

  /** The cached value, or Undefined for a miss. */
  function Lookup(c: Cache, code: string, now: int): Value {
    var k := Key(code);
    if k == "" || k !in c.entries || Expired(c.entries[k], now) then Undefined else c.entries[k].value
  }

  /** A lookup drops the entry it finds expired. */
  function AfterLookup(c: Cache, code: string, now: int): Cache {
    var k := Key(code);
    if k != "" && k in c.entries && Expired(c.entries[k], now) then Delete(c, k) else c
  }

  function Put(c: Cache, k: string, value: Value, expiresAt: Option<int>): Cache {
    if k == "" then c
    else if k in c.entries then c.(entries := c.entries[k := Entry(value, expiresAt)])
    else
      var room := if |c.entries| >= MAX_ENTRIES && c.order != [] then Delete(c, c.order[0]) else c;
      Cache(room.order + [k], room.entries[k := Entry(value, expiresAt)])
  }

  function Invalidate(c: Cache, code: string): Cache {
    if Key(code) == "" then c else Delete(c, Key(code))
  }

  // --- callers ------------------------------------------------------------------------------------

  datatype Outcome = Resolved(value: Value) | Threw(error: string)

  datatype Reply = Reply(value: Value, cached: bool, joined: bool) | Rejected(error: string)

  /** A call for a key that is inside `await compute()`; settled is known once the compute has settled. */
  datatype Compute = Compute(key: string, forced: bool, isSuccess: Value -> bool, settled: Option<Outcome>)

  /** A call that awaits the shared promise of call `on`. */
  datatype Wait = Wait(on: nat, joined: bool)

  datatype State = State(
    cache: Cache,
    inFlight: map<string, nat>,
    computes: map<nat, Compute>,
    promises: map<nat, Outcome>,   // shared promises that have settled
    waits: map<nat, Wait>,
    replies: map<nat, Reply>)

  const INITIAL := State(EMPTY_CACHE, map[], map[], map[], map[], map[])

  datatype Step =
    | Call(id: nat, code: string, forced: bool, isSuccess: Value -> bool, now: int)
    | CallThrows(id: nat, code: string, forced: bool, error: string,
                 now: int)  // compute throws before it returns a promise
    | Settle(id: nat, outcome: Outcome)
    | Resume(id: nat)
    | Deliver(id: nat)
    | Get(code: string, now: int)
    | Set(code: string, value: Value, expiresAt: Option<int>)
    | Drop(code: string)
    | Clear

  predicate Fresh(s: State, id: nat) {
    id !in s.computes && id !in s.promises && id !in s.waits && id !in s.replies
  }

  predicate Enabled(s: State, step: Step) {
    match step
    case Call(id, _, _, _, _) => Fresh(s, id)
    case CallThrows(id, _, _, _, _) => Fresh(s, id)
    case Settle(id, _) => id in s.computes && s.computes[id].settled.None?
    case Resume(id) => id in s.computes && s.computes[id].settled.Some?
    case Deliver(id) => id in s.waits && s.waits[id].on in s.promises
    case _ => true
  }

  function Answer(outcome: Outcome, cached: bool, joined: bool): Reply {
    match outcome
    case Resolved(value) => Reply(value, cached, joined)
    case Threw(error) => Rejected(error)
  }

  /** The call neither hits the cache nor finds a compute to join: it starts one of its own. */
  predicate Leads(s: State, code: string, forced: bool, now: int) {
    forced || (Lookup(s.cache, code, now) == Undefined && (Key(code) == "" || Key(code) !in s.inFlight))
  }

  /** The call when it does not lead. */
  function Follow(s: State, id: nat, code: string, now: int): State
    requires !Leads(s, code, false, now)
  {
    var hit := Lookup(s.cache, code, now);
    if hit != Undefined then s.(replies := s.replies[id := Reply(hit, true, false)])
    else
      s.(cache := AfterLookup(s.cache, code, now),
         waits := s.waits[id := Wait(s.inFlight[Key(code)], true)])
  }

  /** The call awaits its own shared promise, registered under its key unless the code is blank. */
  function Register(inFlight: map<string, nat>, id: nat, k: string): map<string, nat> {
    if k == "" then inFlight else inFlight[k := id]
  }

  function Start(s: State, id: nat, code: string, forced: bool, isSuccess: Value -> bool, now: int): State {
    var computes := s.computes[id := Compute(Key(code), forced, isSuccess, None)];
    if forced then State(s.cache, s.inFlight, computes, s.promises, s.waits, s.replies)
    else State(AfterLookup(s.cache, code, now), Register(s.inFlight, id, Key(code)),
               computes, s.promises, s.waits[id := Wait(id, false)], s.replies)
  }

  /** The cleanup runs inside the call that builds the promise, before the promise is registered. */
  function FailToStart(s: State, id: nat, code: string, forced: bool, error: string, now: int): State {
    if forced then s.(replies := s.replies[id := Rejected(error)])
    else State(AfterLookup(s.cache, code, now), Register(s.inFlight, id, Key(code)),
               s.computes, s.promises[id := Threw(error)], s.waits[id := Wait(id, false)], s.replies)
  }

  /** Only a value that passes the caller's own isSuccess is stored. */
  function Stored(cache: Cache, c: Compute, o: Outcome): Cache {
    if o.Resolved? && c.isSuccess(o.value) then Put(cache, c.key, o.value, None) else cache
  }

  /** The continuation of a call after `await compute()`. */
  function Continue(s: State, id: nat, c: Compute, o: Outcome): State {
    State(Stored(s.cache, c, o),
          if c.forced || c.key == "" then s.inFlight else s.inFlight - {c.key},
          s.computes - {id},
          if c.forced then s.promises else s.promises[id := o],
          s.waits,
          if c.forced then s.replies[id := Answer(o, false, false)] else s.replies)
  }

  function Apply(s: State, step: Step): State
    requires Enabled(s, step)
  {
    match step
    case Call(id, code, forced, isSuccess, now) =>
      if Leads(s, code, forced, now) then Start(s, id, code, forced, isSuccess, now) else Follow(s, id, code, now)
    case CallThrows(id, code, forced, error, now) =>
      if Leads(s, code, forced, now) then FailToStart(s, id, code, forced, error, now) else Follow(s, id, code, now)
    case Settle(id, outcome) => s.(computes := s.computes[id := s.computes[id].(settled := Some(outcome))])
    case Resume(id) => Continue(s, id, s.computes[id], s.computes[id].settled.value)
    case Deliver(id) =>
      var w := s.waits[id];
      s.(waits := s.waits - {id}, replies := s.replies[id := Answer(s.promises[w.on], w.joined, w.joined)])
    case Get(code, now) => s.(cache := AfterLookup(s.cache, code, now))
    case Set(code, value, expiresAt) => s.(cache := Put(s.cache, Key(code), value, expiresAt))
    case Drop(code) => s.(cache := Invalidate(s.cache, code))
    case Clear => s.(cache := EMPTY_CACHE)
  }

  predicate Legal(s: State, steps: seq<Step>)
    decreases steps
  {
    steps == [] || (Enabled(s, steps[0]) && Legal(Apply(s, steps[0]), steps[1..]))
  }

  function Run(s: State, steps: seq<Step>): State
    requires Legal(s, steps)
    decreases steps
  {
    if steps == [] then s else Run(Apply(s, steps[0]), steps[1..])
  }
}
