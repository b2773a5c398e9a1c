/** The module's two maps as the object they are, changed in place. Every method takes exactly its
    step of the state machine, so the theorems about runs are theorems about this object. */
module DecodeCacheStore {
  import opened StampedCopy
  import D = DecodeCache

  class DecodeCacheModule {
    var order: seq<string>
    var store: map<string, D.Entry>
    var inFlight: map<string, nat>
    var computes: map<nat, D.Compute>
    var promises: map<nat, D.Outcome>
    var waits: map<nat, D.Wait>
    var replies: map<nat, D.Reply>

    ghost function Cache(): D.Cache
      reads this
    {
      D.Cache(order, store)
    }

    ghost function Model(): D.State
      reads this
    {
      D.State(Cache(), inFlight, computes, promises, waits, replies)
    }

    constructor ()
      ensures Model() == D.INITIAL
    {
      order, store, inFlight := [], map[], map[];
      computes, promises, waits, replies := map[], map[], map[], map[];
    }

    method Delete(k: string)
      modifies this`order, this`store
      ensures Cache() == D.Delete(old(Cache()), k)
    {
      order := D.Without(order, k);
      store := store - {k};
    }

    method GetDecodeCache(code: string, now: int) returns (value: D.Value)
      modifies this`order, this`store
      ensures value == D.Lookup(old(Cache()), code, now)
      ensures Model() == D.Apply(old(Model()), D.Get(code, now))
    {
      var k := D.Key(code);
      if k == "" {
        return D.Undefined;
      }
      if k !in store {
        return D.Undefined;
      }
      if D.Expired(store[k], now) {
        Delete(k);
        return D.Undefined;
      }
      value := store[k].value;
    }

    method SetDecodeCache(code: string, value: D.Value, expiresAt: Option<int>)
      modifies this`order, this`store
      ensures Model() == D.Apply(old(Model()), D.Set(code, value, expiresAt))
    {
      SetKey(D.Key(code), value, expiresAt);
    }

    method SetKey(k: string, value: D.Value, expiresAt: Option<int>)
      modifies this`order, this`store
      ensures Cache() == D.Put(old(Cache()), k, value, expiresAt)
    {
      if k == "" {
        return;
      }
      if k in store {
        store := store[k := D.Entry(value, expiresAt)];
        return;
      }
      if |store| >= D.MAX_ENTRIES && order != [] {
        Delete(order[0]);
      }
      order, store := order + [k], store[k := D.Entry(value, expiresAt)];
    }

    method ClearDecodeCache()
      modifies this`order, this`store
      ensures Model() == D.Apply(old(Model()), D.Clear)
    {
      order, store := [], map[];
    }

    method InvalidateDecodeCache(code: string)
      modifies this`order, this`store
      ensures Model() == D.Apply(old(Model()), D.Drop(code))
    {
      var key := D.Key(code);
      if key != "" {
        Delete(key);
      }
    }

    /** `withDecodeCache` up to its first await. `throws` is the error of a compute that throws
        before it returns a promise. */
    method WithDecodeCache(id: nat, code: string, forced: bool, isSuccess: D.Value -> bool, throws: Option<string>,
                           now: int)
      requires D.Fresh(Model(), id)
      modifies this
      ensures Model() == D.Apply(old(Model()), if throws.Some? then D.CallThrows(id, code, forced, throws.value, now)
                                               else D.Call(id, code, forced, isSuccess, now))
    {
      if forced {
        if throws.Some? {
          replies := replies[id := D.Rejected(throws.value)];
        } else {
          computes := computes[id := D.Compute(D.Key(code), true, isSuccess, None)];
        }
        return;
      }
      var hit := GetDecodeCache(code, now);
      if hit != D.Undefined {
        replies := replies[id := D.Reply(hit, true, false)];
        return;
      }
      var key := D.Key(code);
      if key != "" && key in inFlight {
        waits := waits[id := D.Wait(inFlight[key], true)];
        return;
      }
      if throws.Some? {
        // `finally` has already run when the promise is registered below.
        if key != "" {
          inFlight := inFlight - {key};
        }
        promises := promises[id := D.Threw(throws.value)];
      } else {
        computes := computes[id := D.Compute(D.Key(code), false, isSuccess, None)];
      }
      if key != "" {
        inFlight := inFlight[key := id];
      }
      waits := waits[id := D.Wait(id, false)];
    }

    /** What follows `await compute()`, with the `finally` of an unforced call. */
    method AfterCompute(id: nat)
      requires D.Enabled(Model(), D.Resume(id))
      modifies this
      ensures Model() == D.Apply(old(Model()), D.Resume(id))
    {
      var c := computes[id];
      var outcome := c.settled.value;
      var succeeded := outcome.Resolved? && c.isSuccess(outcome.value);
      computes := computes - {id};
      if succeeded {
        SetKey(c.key, outcome.value, None);
      }
      if c.forced {
        replies := replies[id := D.Answer(outcome, false, false)];
        return;
      }
      var key := c.key;
      if key != "" {
        inFlight := inFlight - {key};
      }
      promises := promises[id := outcome];
    }

    /** What follows the await of the shared promise, for the call that made it and for the calls
        that joined it. */
    method AfterShared(id: nat)
      requires D.Enabled(Model(), D.Deliver(id))
      modifies this`waits, this`replies
      ensures Model() == D.Apply(old(Model()), D.Deliver(id))
    {
      var w := waits[id];
      waits := waits - {id};
      replies := replies[id := D.Answer(promises[w.on], w.joined, w.joined)];
    }
  }
}
