/** What every run of the decode cache keeps: one compute for each key at a time, one outcome for
    every caller that joined it, only accepted values in a store that forgets its oldest key. */
module DecodeCacheTheorems {
  import opened StampedCopy
  import opened DecodeCache

  // --- single flight ------------------------------------------------------------------------------

  /** Compute id holds the flight of key k. */
  predicate Flies(computes: map<nat, Compute>, id: nat, k: string) {
    k != "" && id in computes && !computes[id].forced && computes[id].key == k
  }

  /** A key is registered exactly while its unforced compute runs. */
  ghost predicate Exact(inFlight: map<string, nat>, computes: map<nat, Compute>) {
    && (forall k :: k in inFlight ==> Flies(computes, inFlight[k], k))
    && (forall id, k :: Flies(computes, id, k) ==> k in inFlight && inFlight[k] == id)
  }

  predicate Poisons(s: State, step: Step) {
    step.CallThrows? && !step.forced && Key(step.code) != "" && Leads(s, step.code, false, step.now)
  }

  predicate Clean(s: State, steps: seq<Step>)
    requires Legal(s, steps)
    decreases steps
  {
    steps == [] || (!Poisons(s, steps[0]) && Clean(Apply(s, steps[0]), steps[1..]))
  }

  /** Key k is registered to a call whose compute is over. */
  ghost predicate Poisoned(s: State, k: string) {
    && k in s.inFlight && s.inFlight[k] in s.promises && s.inFlight[k] !in s.computes
    && forall id :: !Flies(s.computes, id, k)
  }

  lemma ExactLead(inFlight: map<string, nat>, computes: map<nat, Compute>, id: nat, c: Compute)
    requires Exact(inFlight, computes) && id !in computes && (c.forced || c.key !in inFlight)
    ensures Exact(if c.forced || c.key == "" then inFlight else inFlight[c.key := id], computes[id := c])
  {
    var after := computes[id := c];
    forall i, k | Flies(after, i, k) ensures i == id || Flies(computes, i, k) {
    }
    forall k | k in inFlight ensures Flies(after, inFlight[k], k) {
      assert Flies(computes, inFlight[k], k);
    }
  }

  lemma ExactSettle(inFlight: map<string, nat>, computes: map<nat, Compute>, id: nat, o: Outcome)
    requires Exact(inFlight, computes) && id in computes
    ensures Exact(inFlight, computes[id := computes[id].(settled := Some(o))])
  {
    var after := computes[id := computes[id].(settled := Some(o))];
    assert forall i, k :: Flies(after, i, k) <==> Flies(computes, i, k);
  }

  lemma ExactResume(inFlight: map<string, nat>, computes: map<nat, Compute>, id: nat)
    requires Exact(inFlight, computes) && id in computes
    ensures Exact(if computes[id].forced || computes[id].key == "" then inFlight
                  else inFlight - {computes[id].key}, computes - {id})
  {
    var c, after := computes[id], computes - {id};
    forall i, k | Flies(after, i, k) ensures Flies(computes, i, k) && i != id {
    }
    assert !c.forced && c.key != "" ==> Flies(computes, id, c.key);
    forall k | k in inFlight ensures Flies(computes, inFlight[k], k) {
    }
  }

  lemma ExactStep(s: State, step: Step)
    requires Exact(s.inFlight, s.computes) && Enabled(s, step) && !Poisons(s, step)
    ensures Exact(Apply(s, step).inFlight, Apply(s, step).computes)
  {
    match step
    case Call(id, code, forced, isSuccess, now) =>
      if Leads(s, code, forced, now) {
        NoEmptyKey(s);
        ExactLead(s.inFlight, s.computes, id, Compute(Key(code), forced, isSuccess, None));
      }
    case Settle(id, o) => ExactSettle(s.inFlight, s.computes, id, o);
    case Resume(id) => ExactResume(s.inFlight, s.computes, id);
    case _ =>
  }

  lemma NoEmptyKey(s: State)
    requires Exact(s.inFlight, s.computes)
    ensures "" !in s.inFlight
  {
  }

  /** What one step does to a registered key: nothing, except the step that resumes its compute. */
  lemma RegisteredStays(s: State, step: Step, k: string)
    requires Enabled(s, step) && k in s.inFlight
    requires step.Resume? ==> !Flies(s.computes, step.id, k)
    requires k != ""
    ensures k in Apply(s, step).inFlight && Apply(s, step).inFlight[k] == s.inFlight[k]
  {
  }

  lemma NoNewFlight(s: State, step: Step, k: string)
    requires Enabled(s, step) && k in s.inFlight && forall id :: !Flies(s.computes, id, k)
    ensures forall id :: !Flies(Apply(s, step).computes, id, k)
  {
    var t := Apply(s, step);
    forall id ensures !Flies(t.computes, id, k) {
      assert !Flies(s.computes, id, k);
    }
  }

  lemma PoisonedStep(s: State, step: Step, k: string)
    requires Poisoned(s, k) && Enabled(s, step) && k != ""
    ensures Poisoned(Apply(s, step), k) && Apply(s, step).inFlight[k] == s.inFlight[k]
  {
    RegisteredStays(s, step, k);
    NoNewFlight(s, step, k);
    PromiseKeysStay(s, step, s.inFlight[k]);
  }

  lemma PromiseKeysStay(s: State, step: Step, id: nat)
    requires Enabled(s, step) && id in s.promises && id !in s.computes
    ensures id in Apply(s, step).promises && id !in Apply(s, step).computes
    ensures Apply(s, step).promises[id] == s.promises[id]
  {
  }

  lemma {:induction false} PoisonedForever(s: State, steps: seq<Step>, k: string)
    requires Poisoned(s, k) && Legal(s, steps) && k != ""
    ensures Poisoned(Run(s, steps), k)
    ensures Run(s, steps).promises[Run(s, steps).inFlight[k]] == s.promises[s.inFlight[k]]
    decreases steps
  {
    if steps != [] {
      PoisonedStep(s, steps[0], k);
      PromiseKeysStay(s, steps[0], s.inFlight[k]);
      PoisonedForever(Apply(s, steps[0]), steps[1..], k);
    }
  }

  lemma PoisonsPoisons(s: State, step: Step)
    requires Exact(s.inFlight, s.computes) && Enabled(s, step) && Poisons(s, step)
    ensures Poisoned(Apply(s, step), Key(step.code))
    ensures var t := Apply(s, step); t.promises[t.inFlight[Key(step.code)]] == Threw(step.error)
  {
    var k := Key(step.code);
    assert k !in s.inFlight;
    forall id ensures !Flies(s.computes, id, k) {
    }
  }

  lemma {:induction false} ExactRun(s: State, steps: seq<Step>)
    requires Exact(s.inFlight, s.computes) && Legal(s, steps)
    ensures Exact(Run(s, steps).inFlight, Run(s, steps).computes) <==> Clean(s, steps)
    decreases steps
  {
    if steps != [] {
      if Poisons(s, steps[0]) {
        var k := Key(steps[0].code);
        PoisonsPoisons(s, steps[0]);
        PoisonedForever(Apply(s, steps[0]), steps[1..], k);
        var t := Run(s, steps);
        assert !Flies(t.computes, t.inFlight[k], k);
      } else {
        ExactStep(s, steps[0]);
        ExactRun(Apply(s, steps[0]), steps[1..]);
      }
    }
  }

  /** In every run, a key is registered exactly while its one unforced compute runs, if and only if
      no leading call of the run had a compute that threw before returning its promise. */
  lemma SingleFlight(steps: seq<Step>)
    requires Legal(INITIAL, steps)
    ensures var t := Run(INITIAL, steps);
            && (Exact(t.inFlight, t.computes) <==> Clean(INITIAL, steps))
            && (Clean(INITIAL, steps) ==> forall i, j, k :: Flies(t.computes, i, k) && Flies(t.computes, j, k) ==>
                i == j)
  {
    ExactRun(INITIAL, steps);
  }

  /** After one such throw the key is lost: however the run goes on, a later call that misses the
      cache joins the old promise, and what it is told is the old error. */
  lemma ThrowPoisonsTheKey(s: State, first: Step, steps: seq<Step>, later: Step)
    requires Exact(s.inFlight, s.computes) && Enabled(s, first) && Poisons(s, first)
    requires Legal(Apply(s, first), steps)
    requires var t := Run(Apply(s, first), steps);
             && later.Call? && !later.forced && Key(later.code) == Key(first.code) && Enabled(t, later)
             && Lookup(t.cache, later.code, later.now) == Undefined
    ensures var t := Apply(Run(Apply(s, first), steps), later);
            Enabled(t, Deliver(later.id)) && Apply(t, Deliver(later.id)).replies[later.id] == Rejected(first.error)
  {
    var k := Key(first.code);
    PoisonsPoisons(s, first);
    PoisonedForever(Apply(s, first), steps, k);
    var mid := Run(Apply(s, first), steps);
    assert !Leads(mid, later.code, false, later.now);
    assert Apply(mid, later).waits[later.id] == Wait(mid.inFlight[k], true);
  }

  // --- every waiter gets the outcome it joined ------------------------------------------------------

  /** The promise of compute id has settled or is being computed. */
  predicate Pends(s: State, id: nat) {
    id in s.promises || (id in s.computes && !s.computes[id].forced)
  }

  /** A call is in one place at a time, and nobody waits for a compute that is gone without a trace. */
  predicate Placed(s: State, id: nat) {
    && (id in s.computes ==> id !in s.promises && id !in s.replies)
    && (id in s.computes && s.computes[id].forced ==> id !in s.waits)
    && (id in s.waits ==> id !in s.replies && Pends(s, s.waits[id].on))
    && (id in s.waits && id in s.computes ==> s.waits[id].on == id)
  }

  ghost predicate Ids(s: State) {
    (forall id :: Placed(s, id)) && (forall k :: k in s.inFlight ==> Pends(s, s.inFlight[k]))
  }

  lemma PendsStays(s: State, step: Step, id: nat)
    requires Pends(s, id) && Enabled(s, step) && Placed(s, id)
    ensures Pends(Apply(s, step), id)
  {
  }

  ghost predicate Same(s: State, t: State, id: nat) {
    && (id in t.computes <==> id in s.computes) && (id in s.computes ==> t.computes[id] == s.computes[id])
    && (id in t.promises <==> id in s.promises)
    && (id in t.waits <==> id in s.waits) && (id in s.waits ==> t.waits[id] == s.waits[id])
    && (id in t.replies <==> id in s.replies)
  }

  lemma StartKeepsOthers(s: State, step: Step, id: nat)
    requires step.Call? && id != step.id
    ensures Same(s, Start(s, step.id, step.code, step.forced, step.isSuccess, step.now), id)
  {
  }

  lemma FailKeepsOthers(s: State, step: Step, id: nat)
    requires step.CallThrows? && id != step.id
    ensures Same(s, FailToStart(s, step.id, step.code, step.forced, step.error, step.now), id)
  {
  }

  lemma FollowKeepsOthers(s: State, step: Step, id: nat)
    requires (step.Call? || step.CallThrows?) && id != step.id && !Leads(s, step.code, false, step.now)
    ensures Same(s, Follow(s, step.id, step.code, step.now), id)
  {
  }

  lemma CallKeepsOthers(s: State, step: Step, id: nat)
    requires Enabled(s, step) && (step.Call? || step.CallThrows?) && id != step.id
    ensures Same(s, Apply(s, step), id)
  {
    if !Leads(s, step.code, step.forced, step.now) {
      FollowKeepsOthers(s, step, id);
    } else if step.Call? {
      StartKeepsOthers(s, step, id);
    } else {
      FailKeepsOthers(s, step, id);
    }
  }

  lemma PlacedCall(s: State, t: State, id: nat)
    requires Placed(s, id) && Same(s, t, id)
    requires id in s.waits ==> Pends(t, s.waits[id].on)
    ensures Placed(t, id)
  {
  }

  lemma PendsAfterCall(s: State, step: Step, j: nat)
    requires Pends(s, j) && Enabled(s, step) && (step.Call? || step.CallThrows?)
    ensures Pends(Apply(s, step), j)
  {
  }

  /** Where a new call ends up: answered, waiting for a registered compute, or computing. */
  predicate Landed(s: State, t: State, id: nat, k: string) {
    || (id in t.replies && id !in t.computes && id !in t.waits)
    || (id !in t.replies && id !in t.computes && id in t.waits && k in s.inFlight && t.waits[id].on == s.inFlight[k])
    || (id !in t.replies && id !in t.computes && id in t.waits && t.waits[id].on == id && id in t.promises)
    || (id !in t.replies && id in t.computes && id !in t.promises && id in t.waits && t.waits[id].on == id
        && !t.computes[id].forced)
    || (id !in t.replies && id in t.computes && id !in t.promises && id !in t.waits)
  }

  lemma StartLands(s: State, step: Step)
    requires step.Call? && Fresh(s, step.id)
    ensures Landed(s, Start(s, step.id, step.code, step.forced, step.isSuccess, step.now), step.id, Key(step.code))
  {
  }

  lemma FailLands(s: State, step: Step)
    requires step.CallThrows? && Fresh(s, step.id)
    ensures Landed(s, FailToStart(s, step.id, step.code, step.forced, step.error, step.now), step.id, Key(step.code))
  {
  }

  lemma FollowLands(s: State, step: Step)
    requires (step.Call? || step.CallThrows?) && Fresh(s, step.id) && !Leads(s, step.code, false, step.now)
    ensures Landed(s, Follow(s, step.id, step.code, step.now), step.id, Key(step.code))
  {
  }

  lemma NewCall(s: State, step: Step)
    requires Enabled(s, step) && (step.Call? || step.CallThrows?)
    ensures Landed(s, Apply(s, step), step.id, Key(step.code))
  {
    if !Leads(s, step.code, step.forced, step.now) {
      FollowLands(s, step);
    } else if step.Call? {
      StartLands(s, step);
    } else {
      FailLands(s, step);
    }
  }

  lemma PlacedCaller(s: State, step: Step)
    requires Enabled(s, step) && (step.Call? || step.CallThrows?)
    requires forall k :: k in s.inFlight ==> Pends(s, s.inFlight[k])
    ensures Placed(Apply(s, step), step.id)
  {
    var k := Key(step.code);
    NewCall(s, step);
    if k in s.inFlight {
      PendsAfterCall(s, step, s.inFlight[k]);
    }
  }

  lemma PlacedOther(s: State, step: Step, id: nat)
    requires Placed(s, id) && Enabled(s, step) && !step.Call? && !step.CallThrows?
    requires (step.Deliver? || step.Resume? || step.Settle?) ==> Placed(s, step.id)
    ensures Placed(Apply(s, step), id)
  {
  }

  lemma PlacedStep(s: State, step: Step, id: nat)
    requires Placed(s, id) && Enabled(s, step)
    requires forall k :: k in s.inFlight ==> Pends(s, s.inFlight[k])
    requires (step.Deliver? || step.Resume? || step.Settle?) ==> Placed(s, step.id)
    ensures Placed(Apply(s, step), id)
  {
    if step.Call? || step.CallThrows? {
      if id == step.id {
        PlacedCaller(s, step);
      } else {
        if id in s.waits {
          PendsAfterCall(s, step, s.waits[id].on);
        }
        CallKeepsOthers(s, step, id);
        PlacedCall(s, Apply(s, step), id);
      }
    } else {
      PlacedOther(s, step, id);
    }
  }

  lemma IdsStep(s: State, step: Step)
    requires Ids(s) && Enabled(s, step)
    ensures Ids(Apply(s, step))
  {
    var t := Apply(s, step);
    forall j | Pends(s, j) ensures Pends(t, j) {
      PendsStays(s, step, j);
    }
    assert (step.Deliver? || step.Resume? || step.Settle?) ==> Placed(s, step.id);
    forall id ensures Placed(t, id) {
      PlacedStep(s, step, id);
    }
    forall k | k in t.inFlight ensures Pends(t, t.inFlight[k]) {
      RegisteredPends(s, step, k);
    }
  }

  lemma RegisteredPends(s: State, step: Step, k: string)
    requires Enabled(s, step) && k in Apply(s, step).inFlight
    ensures var t := Apply(s, step);
            (k in s.inFlight && t.inFlight[k] == s.inFlight[k]) || Pends(t, t.inFlight[k])
  {
  }

  lemma PromisesStay(s: State, step: Step, j: nat)
    requires Placed(s, j) && Enabled(s, step) && j in s.promises
    ensures j in Apply(s, step).promises && Apply(s, step).promises[j] == s.promises[j]
  {
  }

  lemma PromiseIsSettled(s: State, step: Step, j: nat, o: Outcome)
    requires Placed(s, j) && Enabled(s, step)
    requires (step == Settle(j, o) && !s.computes[j].forced)
          || (j in s.computes && !s.computes[j].forced && s.computes[j].settled == Some(o))
          || (j in s.promises && s.promises[j] == o)
    ensures var t := Apply(s, step);
            || (j in t.computes && !t.computes[j].forced && t.computes[j].settled == Some(o))
            || (j in t.promises && t.promises[j] == o)
  {
  }

  /** The outcome a compute settles with is the outcome its promise hands out from then on. */
  lemma {:induction false} SettledOutcomeStays(s: State, steps: seq<Step>, j: nat, o: Outcome)
    requires Ids(s) && Legal(s, steps)
    requires (j in s.computes && !s.computes[j].forced && s.computes[j].settled == Some(o))
          || (j in s.promises && s.promises[j] == o)
    ensures var t := Run(s, steps);
            || (j in t.computes && !t.computes[j].forced && t.computes[j].settled == Some(o))
            || (j in t.promises && t.promises[j] == o)
    decreases steps
  {
    if steps != [] {
      IdsStep(s, steps[0]);
      assert Placed(s, j);
      PromiseIsSettled(s, steps[0], j, o);
      SettledOutcomeStays(Apply(s, steps[0]), steps[1..], j, o);
    }
  }

  predicate Served(s: State, id: nat, w: Wait) {
    || (id in s.waits && s.waits[id] == w)
    || (id !in s.waits && id !in s.computes && w.on in s.promises
        && id in s.replies && s.replies[id] == Answer(s.promises[w.on], w.joined, w.joined))
  }

  lemma ServedStep(s: State, step: Step, id: nat, w: Wait)
    requires Placed(s, id) && Placed(s, w.on) && Enabled(s, step) && Served(s, id, w)
    ensures Served(Apply(s, step), id, w)
  {
    if w.on in s.promises {
      PromisesStay(s, step, w.on);
    }
    if id in s.waits {
      WaitStays(s, step, id);
    } else {
      ReplyStays(s, step, id);
    }
  }

  lemma WaitStays(s: State, step: Step, id: nat)
    requires id in s.waits && Placed(s, id) && Placed(s, s.waits[id].on) && Enabled(s, step)
    ensures var t, w := Apply(s, step), s.waits[id];
            if step == Deliver(id)
            then id !in t.waits && id !in t.computes && id in t.replies
                 && w.on in s.promises && t.replies[id] == Answer(s.promises[w.on], w.joined, w.joined)
            else id in t.waits && t.waits[id] == w
  {
  }

  lemma ReplyStays(s: State, step: Step, id: nat)
    requires Enabled(s, step) && id in s.replies && id !in s.waits && id !in s.computes
    ensures var t := Apply(s, step);
            id in t.replies && id !in t.waits && id !in t.computes && t.replies[id] == s.replies[id]
  {
  }

  lemma {:induction false} ServedRun(s: State, steps: seq<Step>, id: nat, w: Wait)
    requires Ids(s) && Legal(s, steps) && Served(s, id, w)
    ensures Served(Run(s, steps), id, w) && Ids(Run(s, steps))
    decreases steps
  {
    if steps != [] {
      IdsStep(s, steps[0]);
      assert Placed(s, id) && Placed(s, w.on);
      ServedStep(s, steps[0], id, w);
      ServedRun(Apply(s, steps[0]), steps[1..], id, w);
    }
  }

  lemma {:induction false} RunConcat(s: State, a: seq<Step>, b: seq<Step>)
    requires Legal(s, a + b)
    ensures Legal(s, a) && Legal(Run(s, a), b) && Run(s, a + b) == Run(Run(s, a), b)
    decreases a
  {
    if a == [] {
      assert a + b == b;
    } else {
      assert (a + b)[0] == a[0] && (a + b)[1..] == a[1..] + b;
      RunConcat(Apply(s, a[0]), a[1..], b);
    }
  }

  lemma {:induction false} IdsRun(s: State, steps: seq<Step>)
    requires Ids(s) && Legal(s, steps)
    ensures Ids(Run(s, steps))
    decreases steps
  {
    if steps != [] {
      IdsStep(s, steps[0]);
      IdsRun(Apply(s, steps[0]), steps[1..]);
    }
  }

  /** Whoever waits on compute j at any point of any run is never stranded, and is in the end told
      exactly what j settled with, before or after that point; `cached` and `joined` are set
      exactly for the callers whose own compute never ran. */
  lemma EveryWaiterGetsTheOutcomeItJoined(before: seq<Step>, after: seq<Step>, id: nat, i: nat)
    requires Legal(INITIAL, before + after)
    requires Legal(INITIAL, before) && id in Run(INITIAL, before).waits
    ensures var t := Run(INITIAL, before + after);
            var w := Run(INITIAL, before).waits[id];
            && (id in t.waits ==> t.waits[id] == w && Pends(t, w.on))
            && (id !in t.waits ==> id in t.replies)
            && ((i < |before + after| && (before + after)[i].Settle? && (before + after)[i].id == w.on
                 && id !in t.waits) ==>
                  t.replies[id] == Answer((before + after)[i].outcome, w.joined, w.joined))
  {
    var all := before + after;
    RunConcat(INITIAL, before, after);
    var mid := Run(INITIAL, before);
    var w := mid.waits[id];
    IdsRun(INITIAL, before);
    ServedRun(mid, after, id, w);
    var t := Run(INITIAL, all);
    assert Placed(t, id);
    if i < |all| && all[i].Settle? && all[i].id == w.on && id !in t.waits {
      SettleFixesThePromise(all, i, w.on);
    }
  }

  lemma SettleFixesThePromise(all: seq<Step>, i: nat, j: nat)
    requires Legal(INITIAL, all) && i < |all| && all[i].Settle? && all[i].id == j && j in Run(INITIAL, all).promises
    ensures Run(INITIAL, all).promises[j] == all[i].outcome
  {
    var a, b := all[..i], all[i..];
    assert all == a + b && b[0] == all[i];
    RunConcat(INITIAL, a, b);
    var s := Run(INITIAL, a);
    IdsRun(INITIAL, a);
    IdsStep(s, b[0]);
    var u := Apply(s, b[0]);
    assert Placed(s, j) && Placed(u, j);
    if s.computes[j].forced {
      ForcedNeverShares(u, b[1..], j);
    } else {
      SettledOutcomeStays(u, b[1..], j, all[i].outcome);
      IdsRun(u, b[1..]);
      assert Placed(Run(u, b[1..]), j);
    }
  }

  predicate OutOfSharing(s: State, j: nat) {
    j !in s.promises && ((j in s.computes && s.computes[j].forced) || (j in s.replies && j !in s.computes))
  }

  lemma {:induction false} ForcedNeverShares(s: State, steps: seq<Step>, j: nat)
    requires Legal(s, steps) && OutOfSharing(s, j)
    ensures OutOfSharing(Run(s, steps), j)
    decreases steps
  {
    if steps != [] {
      ForcedStaysOut(s, steps[0], j);
      ForcedNeverShares(Apply(s, steps[0]), steps[1..], j);
    }
  }

  lemma ForcedStaysOut(s: State, step: Step, j: nat)
    requires Enabled(s, step) && OutOfSharing(s, j)
    ensures OutOfSharing(Apply(s, step), j)
  {
    if step.Call? || step.CallThrows? {
      CallKeepsOthers(s, step, j);
    } else {
      ForcedSurvivesOthers(s, step, j);
    }
  }

  lemma ForcedSurvivesOthers(s: State, step: Step, j: nat)
    requires Enabled(s, step) && OutOfSharing(s, j) && !step.Call? && !step.CallThrows?
    ensures OutOfSharing(Apply(s, step), j)
  {
  }

  // --- what is in the store -------------------------------------------------------------------------

  predicate Distinct(order: seq<string>) {
    forall i, j :: 0 <= i < j < |order| ==> order[i] != order[j]
  }

  function Keys(order: seq<string>): set<string> {
    set k | k in order
  }

  /** order lists exactly the keys of the map, each once, and never the blank code. */
  predicate Sorted(c: Cache) {
    Distinct(c.order) && Keys(c.order) == c.entries.Keys && "" !in c.entries.Keys
  }

  lemma {:induction false} KeyCount(order: seq<string>)
    requires Distinct(order)
    ensures |Keys(order)| == |order|
  {
    if order != [] {
      var rest := order[1..];
      KeyCount(rest);
      assert order == [order[0]] + rest;
      assert Keys(order) == Keys(rest) + {order[0]};
      assert order[0] !in rest;
    }
  }

  lemma {:induction false} WithoutKeeps(order: seq<string>, k: string)
    requires Distinct(order)
    ensures Distinct(Without(order, k)) && Keys(Without(order, k)) == Keys(order) - {k}
    ensures |Without(order, k)| == if k in order then |order| - 1 else |order|
  {
    if order != [] {
      var rest := order[1..];
      WithoutKeeps(rest, k);
      var r := Without(rest, k);
      assert order == [order[0]] + rest;
      assert Keys(order) == Keys(rest) + {order[0]};
      assert order[0] !in rest;
      assert order[0] !in Keys(rest);
      if order[0] != k {
        assert Keys([order[0]] + r) == Keys(r) + {order[0]};
        assert order[0] !in Keys(r);
        assert order[0] !in r;
      }
    }
  }

  lemma DeleteKeeps(c: Cache, k: string)
    requires Sorted(c)
    ensures Sorted(Delete(c, k)) && |Delete(c, k).order| <= |c.order|
    ensures k in c.entries ==> |Delete(c, k).order| == |c.order| - 1
  {
    WithoutKeeps(c.order, k);
    assert (c.entries - {k}).Keys == c.entries.Keys - {k};
    assert k in c.entries.Keys ==> k in Keys(c.order);
  }

  lemma SizeIsOrder(c: Cache)
    requires Sorted(c)
    ensures |c.entries| == |c.order|
  {
    KeyCount(c.order);
    assert |c.entries| == |c.entries.Keys|;
  }

  lemma AppendKeeps(c: Cache, k: string, e: Entry)
    requires Sorted(c) && k != "" && k !in c.entries
    ensures Sorted(Cache(c.order + [k], c.entries[k := e]))
  {
    assert k !in Keys(c.order);
    assert Keys(c.order + [k]) == Keys(c.order) + {k};
    assert c.entries[k := e].Keys == c.entries.Keys + {k};
  }

  predicate Bounded(c: Cache) {
    Sorted(c) && |c.order| <= MAX_ENTRIES
  }

  lemma PutKeeps(c: Cache, k: string, value: Value, expiresAt: Option<int>)
    requires Bounded(c)
    ensures Bounded(Put(c, k, value, expiresAt))
  {
    if k == "" {
    } else if k in c.entries {
      assert Put(c, k, value, expiresAt).entries.Keys == c.entries.Keys;
    } else {
      SizeIsOrder(c);
      if |c.entries| >= MAX_ENTRIES {
        assert c.order[0] in Keys(c.order);
        DeleteKeeps(c, c.order[0]);
        AppendKeeps(Delete(c, c.order[0]), k, Entry(value, expiresAt));
      } else {
        AppendKeeps(c, k, Entry(value, expiresAt));
      }
    }
  }

  /** Every way a step changes the store. */
  predicate Moved(s: State, step: Step, d: Cache)
    requires Enabled(s, step)
  {
    || d == s.cache
    || ((step.Call? || step.CallThrows? || step.Get? || step.Drop?) && d == Delete(s.cache, Key(step.code)))
    || (step.Resume? && var c := s.computes[step.id]; var o := c.settled.value;
                        o.Resolved? && c.isSuccess(o.value) && d == Put(s.cache, c.key, o.value, None))
    || (step.Set? && d == Put(s.cache, Key(step.code), step.value, step.expiresAt))
    || (step.Clear? && d == EMPTY_CACHE)
  }

  lemma LookupMoves(c: Cache, code: string, now: int)
    ensures AfterLookup(c, code, now) == c || AfterLookup(c, code, now) == Delete(c, Key(code))
  {
  }

  predicate Looked(c: Cache, code: string, now: int, d: Cache) {
    d == c || d == AfterLookup(c, code, now)
  }

  lemma StartMoves(s: State, step: Step)
    requires step.Call?
    ensures Looked(s.cache, step.code, step.now,
                   Start(s, step.id, step.code, step.forced, step.isSuccess, step.now).cache)
  {
  }

  lemma FailMoves(s: State, step: Step)
    requires step.CallThrows?
    ensures Looked(s.cache, step.code, step.now,
                   FailToStart(s, step.id, step.code, step.forced, step.error, step.now).cache)
  {
  }

  lemma FollowMoves(s: State, step: Step)
    requires (step.Call? || step.CallThrows?) && !Leads(s, step.code, false, step.now)
    ensures Looked(s.cache, step.code, step.now, Follow(s, step.id, step.code, step.now).cache)
  {
  }

  lemma CallMoves(s: State, step: Step)
    requires Enabled(s, step) && (step.Call? || step.CallThrows?)
    ensures Looked(s.cache, step.code, step.now, Apply(s, step).cache)
  {
    if !Leads(s, step.code, step.forced, step.now) {
      FollowMoves(s, step);
    } else if step.Call? {
      StartMoves(s, step);
    } else {
      FailMoves(s, step);
    }
  }

  lemma CacheMoves(s: State, step: Step)
    requires Enabled(s, step)
    ensures Moved(s, step, Apply(s, step).cache)
  {
    match step
    case Call(_, code, _, _, now) => CallMoves(s, step); LookupMoves(s.cache, code, now);
    case CallThrows(_, code, _, _, now) => CallMoves(s, step); LookupMoves(s.cache, code, now);
    case Get(code, now) => LookupMoves(s.cache, code, now);
    case _ =>
  }

  lemma CacheStep(s: State, step: Step)
    requires Enabled(s, step) && Bounded(s.cache)
    ensures Bounded(Apply(s, step).cache)
  {
    CacheMoves(s, step);
    if step.Call? || step.CallThrows? || step.Get? || step.Drop? {
      DeleteKeeps(s.cache, Key(step.code));
    } else if step.Resume? {
      var c := s.computes[step.id];
      if c.settled.value.Resolved? {
        PutKeeps(s.cache, c.key, c.settled.value.value, None);
      }
    } else if step.Set? {
      PutKeeps(s.cache, Key(step.code), step.value, step.expiresAt);
    }
  }

  /** Some step of the history made this value acceptable: an explicit `setDecodeCache` of it, or
      a call for the key whose own isSuccess holds of it. */
  ghost predicate Vouched(past: seq<Step>, k: string, v: Value) {
    exists i :: 0 <= i < |past|
      && ((past[i].Set? && Key(past[i].code) == k && past[i].value == v)
          || (past[i].Call? && Key(past[i].code) == k && past[i].isSuccess(v)))
  }

  ghost predicate Called(past: seq<Step>, id: nat, c: Compute) {
    exists i :: 0 <= i < |past| && past[i].Call? && past[i].id == id && Key(past[i].code) == c.key
        && past[i].isSuccess == c.isSuccess
  }

  ghost predicate Explained(past: seq<Step>, s: State) {
    && (forall k :: k in s.cache.entries ==> Vouched(past, k, s.cache.entries[k].value))
    && (forall id :: id in s.computes ==> Called(past, id, s.computes[id]))
  }

  lemma VouchedGrows(past: seq<Step>, step: Step, k: string, v: Value)
    requires Vouched(past, k, v)
    ensures Vouched(past + [step], k, v)
  {
    var i :| 0 <= i < |past|
      && ((past[i].Set? && Key(past[i].code) == k && past[i].value == v)
          || (past[i].Call? && Key(past[i].code) == k && past[i].isSuccess(v)));
    assert (past + [step])[i] == past[i];
  }

  lemma CalledGrows(past: seq<Step>, step: Step, id: nat, c: Compute, settled: Option<Outcome>)
    requires Called(past, id, c)
    ensures Called(past + [step], id, c.(settled := settled))
  {
    var i :| 0 <= i < |past| && past[i].Call? && past[i].id == id && Key(past[i].code) == c.key
        && past[i].isSuccess == c.isSuccess;
    assert (past + [step])[i] == past[i];
  }

  lemma CalledVouches(past: seq<Step>, id: nat, c: Compute, v: Value)
    requires Called(past, id, c) && c.isSuccess(v)
    ensures Vouched(past, c.key, v)
  {
    var i :| 0 <= i < |past| && past[i].Call? && past[i].id == id && Key(past[i].code) == c.key
        && past[i].isSuccess == c.isSuccess;
  }

  lemma PutEntries(c: Cache, key: string, value: Value, expiresAt: Option<int>)
    ensures forall k :: k in Put(c, key, value, expiresAt).entries ==>
              || (k == key && Put(c, key, value, expiresAt).entries[k].value == value)
              || (k in c.entries && Put(c, key, value, expiresAt).entries[k] == c.entries[k])
  {
  }

  lemma CacheExplained(past: seq<Step>, s: State, step: Step)
    requires Explained(past, s) && Enabled(s, step)
    ensures var t := Apply(s, step); forall k :: k in t.cache.entries ==>
        Vouched(past + [step], k, t.cache.entries[k].value)
  {
    CacheMoves(s, step);
    forall k | k in s.cache.entries ensures Vouched(past + [step], k, s.cache.entries[k].value) {
      VouchedGrows(past, step, k, s.cache.entries[k].value);
    }
    if step.Set? {
      PutEntries(s.cache, Key(step.code), step.value, step.expiresAt);
      assert (past + [step])[|past|] == step;
      assert Vouched(past + [step], Key(step.code), step.value);
    } else if step.Resume? {
      var c := s.computes[step.id];
      var o := c.settled.value;
      if o.Resolved? && c.isSuccess(o.value) {
        PutEntries(s.cache, c.key, o.value, None);
        CalledVouches(past, step.id, c, o.value);
        VouchedGrows(past, step, c.key, o.value);
      }
    }
  }

  lemma ComputeIsOld(s: State, step: Step, id: nat)
    requires Enabled(s, step) && id in Apply(s, step).computes
    ensures var c := Apply(s, step).computes[id];
            || (id in s.computes && c == s.computes[id].(settled := c.settled))
            || (step.Call? && step.id == id && Key(step.code) == c.key && step.isSuccess == c.isSuccess)
  {
  }

  lemma ComputesExplained(past: seq<Step>, s: State, step: Step)
    requires Explained(past, s) && Enabled(s, step)
    ensures var t := Apply(s, step); forall id :: id in t.computes ==> Called(past + [step], id, t.computes[id])
  {
    var computes := Apply(s, step).computes;
    forall id | id in computes ensures Called(past + [step], id, computes[id]) {
      ComputeIsOld(s, step, id);
      assert (past + [step])[|past|] == step;
      if id in s.computes {
        CalledGrows(past, step, id, s.computes[id], computes[id].settled);
      }
    }
  }

  lemma {:induction false} StoreRun(past: seq<Step>, s: State, steps: seq<Step>)
    requires Legal(s, steps) && Explained(past, s) && Bounded(s.cache)
    ensures var t := Run(s, steps);
            Explained(past + steps, t) && Bounded(t.cache)
    decreases steps
  {
    if steps == [] {
      assert past + steps == past;
    } else {
      CacheExplained(past, s, steps[0]);
      ComputesExplained(past, s, steps[0]);
      CacheStep(s, steps[0]);
      StoreRun(past + [steps[0]], Apply(s, steps[0]), steps[1..]);
      assert past + [steps[0]] + steps[1..] == past + steps;
    }
  }

  /** In every run: at most 5000 entries, no entry for a blank code, and every entry was accepted by
      the isSuccess of a call for its key or stored explicitly. Errors and misses are never kept. */
  lemma OnlySuccessesAreStored(steps: seq<Step>, k: string)
    requires Legal(INITIAL, steps)
    ensures var t := Run(INITIAL, steps);
            && |t.cache.entries| <= MAX_ENTRIES
            && (k in t.cache.entries ==> k != "" && Vouched(steps, k, t.cache.entries[k].value))
  {
    StoreRun([], INITIAL, steps);
    SizeIsOrder(Run(INITIAL, steps).cache);
    assert [] + steps == steps;
  }

  // --- first in, first out --------------------------------------------------------------------------

  datatype Write = Write(code: string, value: Value, expiresAt: Option<int>)

  function PutAll(c: Cache, writes: seq<Write>): Cache
    decreases writes
  {
    if writes == [] then c
    else PutAll(Put(c, Key(writes[0].code), writes[0].value, writes[0].expiresAt), writes[1..])
  }

  /** The keys of the writes that found no entry for their key, in order. */
  function Inserted(c: Cache, writes: seq<Write>): seq<string>
    decreases writes
  {
    if writes == [] then []
    else
      var k := Key(writes[0].code);
      (if k == "" || k in c.entries then [] else [k])
      + Inserted(Put(c, Key(writes[0].code), writes[0].value, writes[0].expiresAt), writes[1..])
  }

  function Last<T>(q: seq<T>, n: nat): seq<T> {
    if |q| <= n then q else q[|q| - n..]
  }

  lemma PutOrder(c: Cache, k: string, e: Entry)
    requires Bounded(c)
    ensures Put(c, k, e.value, e.expiresAt).order
         == Last(c.order + if k == "" || k in c.entries then [] else [k], MAX_ENTRIES)
  {
    SizeIsOrder(c);
    assert c.order + [] == c.order;
    if k != "" && k !in c.entries && |c.order| >= MAX_ENTRIES {
      assert Without(c.order, c.order[0]) == c.order[1..];
      assert Put(c, k, e.value, e.expiresAt).order == c.order[1..] + [k];
      assert Last(c.order + [k], MAX_ENTRIES) == (c.order + [k])[1..];
    }
  }

  /** Only the oldest keys ever leave: after any writes, the store lists exactly the last 5000 of
      the keys it held followed by the keys inserted since, in insertion order. Overwriting a key
      does not make it younger. */
  lemma {:induction false} FirstInFirstOut(c: Cache, writes: seq<Write>)
    requires Bounded(c)
    ensures PutAll(c, writes).order == Last(c.order + Inserted(c, writes), MAX_ENTRIES)
    decreases writes
  {
    assert c.order + [] == c.order;
    if writes != [] {
      var k := Key(writes[0].code);
      var e := Entry(writes[0].value, writes[0].expiresAt);
      PutKeeps(c, k, e.value, e.expiresAt);
      PutOrder(c, k, e);
      var d := Put(c, k, e.value, e.expiresAt);
      FirstInFirstOut(d, writes[1..]);
      OneMoreWrite(c.order, if k == "" || k in c.entries then [] else [k], d.order, Inserted(d, writes[1..]));
    }
  }

  lemma OneMoreWrite(order: seq<string>, inserted: seq<string>, next: seq<string>, rest: seq<string>)
    requires |order| <= MAX_ENTRIES && |inserted| <= 1 && next == Last(order + inserted, MAX_ENTRIES)
    ensures Last(next + rest, MAX_ENTRIES) == Last(order + (inserted + rest), MAX_ENTRIES)
  {
    LastOfLast(order + inserted, rest, MAX_ENTRIES);
    assert order + inserted + rest == order + (inserted + rest);
  }

  lemma LastOfLast<T>(a: seq<T>, b: seq<T>, n: nat)
    ensures Last(Last(a, n) + b, n) == Last(a + b, n)
  {
  }
}
