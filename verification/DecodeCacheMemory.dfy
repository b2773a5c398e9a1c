/** What the decode cache remembers: an entry answers every later call for its key until it expires, is
    dropped, cleared or overwritten, or 5000 other keys have come in behind it. */
module DecodeCacheMemory {
  import opened StampedCopy
  import Text
  import opened DecodeCache
  import opened DecodeCacheTheorems

  /** How many keys were inserted after k and are still there. */
  function Behind(order: seq<string>, k: string): nat {
    if order == [] then 0 else if order[0] == k then |order| - 1 else Behind(order[1..], k)
  }

  predicate Remembers(c: Cache, k: string, e: Entry) {
    k != "" && k in c.entries && c.entries[k] == e
  }

  /** The step brings a key into the store that was not there. */
  function Arrivals(s: State, step: Step): nat
    requires Enabled(s, step)
  {
    if Apply(s, step).cache.entries.Keys <= s.cache.entries.Keys then 0 else 1
  }

  function ArrivalsOver(s: State, steps: seq<Step>): nat
    requires Legal(s, steps)
    decreases steps
  {
    if steps == [] then 0 else Arrivals(s, steps[0]) + ArrivalsOver(Apply(s, steps[0]), steps[1..])
  }

  /** The step neither drops nor overwrites the key, and no lookup of it comes after the entry expires. */
  predicate Spares(s: State, step: Step, k: string, e: Entry) {
    match step
    case Call(_, code, _, _, now) => Key(code) == k ==> StillGood(e, now)
    case CallThrows(_, code, _, _, now) => Key(code) == k ==> StillGood(e, now)
    case Resume(id) => id in s.computes ==> s.computes[id].key != k
    case Get(code, now) => Key(code) == k ==> StillGood(e, now)
    case Set(code, _, _) => Key(code) != k
    case Drop(code) => Key(code) != k
    case Clear => false
    case _ => true
  }

  /** An entry is good up to and including the instant it expires at. */
  predicate StillGood(e: Entry, now: int) {
    e.expiresAt.None? || now <= e.expiresAt.value
  }

  predicate SparedRun(s: State, steps: seq<Step>, k: string, e: Entry)
    requires Legal(s, steps)
    decreases steps
  {
    steps == [] || (Spares(s, steps[0], k, e) && SparedRun(Apply(s, steps[0]), steps[1..], k, e))
  }

  // --- places in the order --------------------------------------------------------------------------

  lemma {:induction false} BehindFewer(order: seq<string>, k: string)
    requires k in order
    ensures Behind(order, k) < |order|
    ensures order[0] != k ==> Behind(order, k) < |order| - 1
  {
    if order[0] != k {
      assert order == [order[0]] + order[1..];
      BehindFewer(order[1..], k);
    }
  }

  lemma {:induction false} BehindAppend(order: seq<string>, k: string, x: string)
    requires k in order
    ensures Behind(order + [x], k) == Behind(order, k) + 1
  {
    assert order == [order[0]] + order[1..];
    if order[0] != k {
      assert (order + [x])[1..] == order[1..] + [x];
      BehindAppend(order[1..], k, x);
    }
  }

  lemma {:induction false} BehindWithout(order: seq<string>, k: string, x: string)
    requires k in order && x != k
    ensures k in Without(order, x) && Behind(Without(order, x), k) <= Behind(order, k)
  {
    assert order == [order[0]] + order[1..];
    if order[0] == x {
      assert k in order[1..];
    } else if order[0] == k {
      WithoutShrinks(order[1..], x);
    } else {
      BehindWithout(order[1..], k, x);
      assert Without(order, x)[1..] == Without(order[1..], x);
    }
  }

  lemma {:induction false} WithoutShrinks(order: seq<string>, x: string)
    ensures |Without(order, x)| <= |order|
  {
    if order != [] && order[0] != x {
      WithoutShrinks(order[1..], x);
    }
  }

  lemma {:induction false} LastIsLast(order: seq<string>, k: string)
    requires k !in order
    ensures Behind(order + [k], k) == 0
  {
    if order != [] {
      assert (order + [k])[1..] == order[1..] + [k];
      LastIsLast(order[1..], k);
    }
  }

  // --- one change of the store ----------------------------------------------------------------------

  lemma OrderListsEntries(c: Cache, k: string)
    requires Sorted(c)
    ensures k in c.order <==> k in c.entries
  {
    assert k in Keys(c.order) <==> k in c.order;
  }

  lemma OtherDeleteSpares(c: Cache, k: string, e: Entry, x: string)
    requires Sorted(c) && Remembers(c, k, e) && x != k
    ensures Remembers(Delete(c, x), k, e) && Behind(Delete(c, x).order, k) <= Behind(c.order, k)
    ensures Delete(c, x).entries.Keys <= c.entries.Keys
  {
    OrderListsEntries(c, k);
    BehindWithout(c.order, k, x);
  }

  /** Storing another key pushes k back by one place at most; k itself goes only from the front of a
      full store. */
  lemma OtherPutSpares(c: Cache, k: string, e: Entry, x: string, value: Value, expiresAt: Option<int>)
    requires Bounded(c) && Remembers(c, k, e) && x != k
    requires x == "" || x in c.entries || Behind(c.order, k) < MAX_ENTRIES - 1
    ensures var d := Put(c, x, value, expiresAt);
            && Remembers(d, k, e)
            && Behind(d.order, k) <= Behind(c.order, k) + if d.entries.Keys <= c.entries.Keys then 0 else 1
  {
    if x != "" && x !in c.entries {
      SizeIsOrder(c);
      OrderListsEntries(c, k);
      BehindFewer(c.order, k);
      var full := |c.entries| >= MAX_ENTRIES && c.order != [];
      assert full ==> c.order[0] != k;
      var room := if full then Delete(c, c.order[0]) else c;
      if full {
        OtherDeleteSpares(c, k, e, c.order[0]);
        DeleteKeeps(c, c.order[0]);
      }
      OrderListsEntries(room, k);
      BehindAppend(room.order, k, x);
      assert x in Put(c, x, value, expiresAt).entries.Keys;
    }
  }

  lemma LookupSpares(c: Cache, k: string, e: Entry, code: string, now: int)
    requires Sorted(c) && Remembers(c, k, e) && (Key(code) == k ==> StillGood(e, now))
    ensures var d := AfterLookup(c, code, now);
            Remembers(d, k, e) && Behind(d.order, k) <= Behind(c.order, k) && d.entries.Keys <= c.entries.Keys
  {
    if Key(code) != k {
      OtherDeleteSpares(c, k, e, Key(code));
    }
  }

  lemma CallSpares(s: State, step: Step, k: string, e: Entry)
    requires Enabled(s, step) && (step.Call? || step.CallThrows?) && Sorted(s.cache)
    requires Remembers(s.cache, k, e) && Spares(s, step, k, e)
    ensures var d := Apply(s, step).cache;
            Remembers(d, k, e) && Behind(d.order, k) <= Behind(s.cache.order, k)
                && d.entries.Keys <= s.cache.entries.Keys
  {
    CallMoves(s, step);
    LookupSpares(s.cache, k, e, step.code, step.now);
  }

  lemma ResumeSpares(s: State, id: nat, k: string, e: Entry)
    requires Enabled(s, Resume(id)) && Bounded(s.cache) && Remembers(s.cache, k, e) && s.computes[id].key != k
    requires Behind(s.cache.order, k) + Arrivals(s, Resume(id)) < MAX_ENTRIES
    ensures var d := Apply(s, Resume(id)).cache;
            Remembers(d, k, e) && Behind(d.order, k) <= Behind(s.cache.order, k) + Arrivals(s, Resume(id))
  {
    var c := s.computes[id];
    var d := Apply(s, Resume(id)).cache;
    if d != s.cache {
      var value := c.settled.value.value;
      NewKeyArrives(s.cache, c.key, value, None);
      OtherPutSpares(s.cache, k, e, c.key, value, None);
    }
  }

  lemma NewKeyArrives(c: Cache, x: string, value: Value, expiresAt: Option<int>)
    ensures Put(c, x, value, expiresAt).entries.Keys <= c.entries.Keys <==> x == "" || x in c.entries
  {
    if x != "" && x !in c.entries {
      assert x in Put(c, x, value, expiresAt).entries.Keys;
    } else if x != "" {
      assert c.entries[x := Entry(value, expiresAt)].Keys == c.entries.Keys;
    }
  }

  lemma StepSpares(s: State, step: Step, k: string, e: Entry)
    requires Enabled(s, step) && Bounded(s.cache) && Remembers(s.cache, k, e) && Spares(s, step, k, e)
    requires Behind(s.cache.order, k) + Arrivals(s, step) < MAX_ENTRIES
    ensures var d := Apply(s, step).cache;
            Remembers(d, k, e) && Behind(d.order, k) <= Behind(s.cache.order, k) + Arrivals(s, step)
  {
    match step
    case Call(_, _, _, _, _) => CallSpares(s, step, k, e);
    case CallThrows(_, _, _, _, _) => CallSpares(s, step, k, e);
    case Resume(id) => ResumeSpares(s, id, k, e);
    case Get(code, now) => LookupSpares(s.cache, k, e, code, now);
    case Set(code, value, expiresAt) =>
      NewKeyArrives(s.cache, Key(code), value, expiresAt);
      OtherPutSpares(s.cache, k, e, Key(code), value, expiresAt);
    case Drop(code) => OtherDeleteSpares(s.cache, k, e, Key(code));
    case _ =>
  }

  lemma {:induction false} RunSpares(s: State, steps: seq<Step>, k: string, e: Entry)
    requires Legal(s, steps) && Bounded(s.cache) && Remembers(s.cache, k, e) && SparedRun(s, steps, k, e)
    requires Behind(s.cache.order, k) + ArrivalsOver(s, steps) < MAX_ENTRIES
    ensures Remembers(Run(s, steps).cache, k, e)
    decreases steps
  {
    if steps != [] {
      CacheStep(s, steps[0]);
      StepSpares(s, steps[0], k, e);
      RunSpares(Apply(s, steps[0]), steps[1..], k, e);
    }
  }

  // --- what is stored is remembered -----------------------------------------------------------------

  /** A success of an awaited compute is in the store at once, without an expiry. */
  lemma SuccessIsStored(s: State, id: nat, v: Value)
    requires Enabled(s, Resume(id)) && Bounded(s.cache)
    requires var c := s.computes[id]; c.key != "" && c.settled == Some(Resolved(v)) && c.isSuccess(v)
    ensures var k, d := s.computes[id].key, Apply(s, Resume(id)).cache;
            && Bounded(d) && Remembers(d, k, Entry(v, None))
            && (k !in s.cache.entries ==> Behind(d.order, k) == 0)
            && (k in s.cache.entries ==> Behind(d.order, k) == Behind(s.cache.order, k))
  {
    CacheStep(s, Resume(id));
    StoredIsLast(s.cache, s.computes[id].key, v, None);
  }

  lemma StoredIsLast(c: Cache, k: string, value: Value, expiresAt: Option<int>)
    requires Bounded(c) && k != ""
    ensures var d := Put(c, k, value, expiresAt);
            && Remembers(d, k, Entry(value, expiresAt))
            && (k !in c.entries ==> Behind(d.order, k) == 0)
            && (k in c.entries ==> d.order == c.order)
  {
    if k !in c.entries {
      var full := |c.entries| >= MAX_ENTRIES && c.order != [];
      var room := if full then Delete(c, c.order[0]) else c;
      if full {
        DeleteKeeps(c, c.order[0]);
      }
      OrderListsEntries(room, k);
      LastIsLast(room.order, k);
    }
  }

  /** A call that finds the entry good is answered from the store, at once, and computes nothing. */
  lemma RememberedAnswers(s: State, later: Step, e: Entry)
    requires later.Call? && !later.forced && Enabled(s, later)
    requires Remembers(s.cache, Key(later.code), e) && e.value != Undefined && StillGood(e, later.now)
    ensures Apply(s, later) == s.(replies := s.replies[later.id := Reply(e.value, true, false)])
  {
  }

  /** In every run: once a compute for a key has resolved to a value its caller accepts, every later
      unforced call for the key is told that value from the cache and starts no compute, as long as the
      key is not dropped, cleared or overwritten and fewer than 5000 other keys have come in. */
  lemma SuccessIsRemembered(past: seq<Step>, id: nat, v: Value, steps: seq<Step>, later: Step)
    requires Legal(INITIAL, past) && v != Undefined
    requires var s := Run(INITIAL, past);
             && Enabled(s, Resume(id)) && s.computes[id].key != "" && s.computes[id].key !in s.cache.entries
             && s.computes[id].settled == Some(Resolved(v)) && s.computes[id].isSuccess(v)
    requires var s := Run(INITIAL, past);
             var t := Apply(s, Resume(id));
             && Legal(t, steps) && SparedRun(t, steps, s.computes[id].key, Entry(v, None))
             && ArrivalsOver(t, steps) < 5000
    requires var s := Run(INITIAL, past);
             var end := Run(Apply(s, Resume(id)), steps);
             later.Call? && !later.forced && Key(later.code) == s.computes[id].key && Enabled(end, later)
    ensures var end := Run(Apply(Run(INITIAL, past), Resume(id)), steps);
            Apply(end, later) == end.(replies := end.replies[later.id := Reply(v, true, false)])
  {
    var s := Run(INITIAL, past);
    var k := s.computes[id].key;
    StoreRun([], INITIAL, past);
    SuccessIsStored(s, id, v);
    RunSpares(Apply(s, Resume(id)), steps, k, Entry(v, None));
    RememberedAnswers(Run(Apply(s, Resume(id)), steps), later, Entry(v, None));
  }

  /** The same for a value stored explicitly, up to and including the instant it expires at; a key that
      was there already keeps its place, so fewer arrivals push it out. */
  lemma StoredValueIsRemembered(past: seq<Step>, code: string, v: Value, expiresAt: Option<int>, steps: seq<Step>,
                                later: Step)
    requires Legal(INITIAL, past) && v != Undefined && Key(code) != ""
    requires var t := Apply(Run(INITIAL, past), Set(code, v, expiresAt));
             && Legal(t, steps) && SparedRun(t, steps, Key(code), Entry(v, expiresAt))
             && Behind(t.cache.order, Key(code)) + ArrivalsOver(t, steps) < 5000
    requires var end := Run(Apply(Run(INITIAL, past), Set(code, v, expiresAt)), steps);
             && later.Call? && !later.forced && Key(later.code) == Key(code) && Enabled(end, later)
             && StillGood(Entry(v, expiresAt), later.now)
    ensures var end := Run(Apply(Run(INITIAL, past), Set(code, v, expiresAt)), steps);
            Apply(end, later) == end.(replies := end.replies[later.id := Reply(v, true, false)])
  {
    var s := Run(INITIAL, past);
    StoreRun([], INITIAL, past);
    StoredIsLast(s.cache, Key(code), v, expiresAt);
    CacheStep(s, Set(code, v, expiresAt));
    RunSpares(Apply(s, Set(code, v, expiresAt)), steps, Key(code), Entry(v, expiresAt));
    RememberedAnswers(Run(Apply(s, Set(code, v, expiresAt)), steps), later, Entry(v, expiresAt));
  }

  // --- what is not remembered -----------------------------------------------------------------------

  /** A call that finds nothing good for its key, and no compute of it running, starts one of its own and
      registers it, and drops the expired entry; so does every forced call, which registers nothing. */
  lemma MissStartsACompute(s: State, call: Step)
    requires call.Call? && Enabled(s, call)
    requires var k := Key(call.code);
             || call.forced
             || k == ""
             || ((k !in s.cache.entries || !StillGood(s.cache.entries[k], call.now)) && k !in s.inFlight)
    ensures var t, k := Apply(s, call), Key(call.code);
            && call.id in t.computes && t.computes[call.id] == Compute(k, call.forced, call.isSuccess, None)
            && (forall i :: i in s.computes ==> i in t.computes && t.computes[i] == s.computes[i])
            && t.replies == s.replies
            && (call.forced ==> t.inFlight == s.inFlight && t.cache == s.cache)
            && (!call.forced && k != "" ==> t.inFlight == s.inFlight[k := call.id] && k !in t.cache.entries)
            && (!call.forced ==> call.id in t.waits && t.waits[call.id] == Wait(call.id, false))
  {
  }

  /** A dropped key and a cleared store are forgotten, and nothing else is. */
  lemma DroppedIsForgotten(s: State, code: string, k: string)
    ensures var t := Apply(s, Drop(code));
            && (Key(code) != "" ==> Key(code) !in t.cache.entries)
            && (k != Key(code) ==> (k in t.cache.entries <==> k in s.cache.entries))
            && (k != Key(code) && k in s.cache.entries ==> t.cache.entries[k] == s.cache.entries[k])
            && Apply(s, Clear).cache.entries == map[] && Apply(s, Clear).cache.order == []
  {
  }

  /** A lookup that finds its entry expired drops it and nothing else, whether the call then joins a
      compute, starts one, or only asks. */
  lemma ExpiredIsDropped(s: State, step: Step, code: string, now: int, k: string)
    requires Enabled(s, step)
    requires || (step.Call? && !step.forced && step.code == code && step.now == now)
             || (step.CallThrows? && !step.forced && step.code == code && step.now == now)
             || step == Get(code, now)
    requires Key(code) != "" && Key(code) in s.cache.entries && !StillGood(s.cache.entries[Key(code)], now)
    ensures var t := Apply(s, step);
            && (k in t.cache.entries <==> k in s.cache.entries && k != Key(code))
            && (k in t.cache.entries ==> t.cache.entries[k] == s.cache.entries[k])
  {
  }

  /** Two codes share an entry exactly when the same text stands between their outer blanks. */
  lemma SameKeyExactly(a: string, b: string)
    ensures Key(a) == Key(b)
       <==> exists t, u, v, w, x :: Text.Between(a, u, t, v) && Text.Between(b, w, t, x)
  {
    Text.TrimExactly(a, Key(a));
    Text.TrimExactly(b, Key(b));
    forall t, u, v, w, x | Text.Between(a, u, t, v) && Text.Between(b, w, t, x) ensures Key(a) == Key(b) {
      Text.TrimExactly(a, t);
      Text.TrimExactly(b, t);
    }
  }
}
