/** A value written after a removal: when every transaction commits and all take effect in the order
    of issue, it survives exactly when no write of the key was in flight at the removal. The late
    success of such a write deletes the key once more, whatever has been written since. */
module PersistRewrite {
  import opened StampedCopy
  import opened Seqs
  import opened PersistProtocol
  import opened PersistOrder
  import opened PersistDiscipline
  import opened PersistPipeline
  import opened PersistNewest
  import opened PersistRemoval
  import opened PersistReach
  import opened PersistReturn

  predicate AllCommit(steps: seq<Step>, name: string) {
    forall i :: 0 <= i < |steps| ==> Commits(steps[i], name)
  }

  /** No transaction of the lane has failed. */
  predicate NothingFailed(lane: Lane) {
    && (forall i :: 0 <= i < |lane.writes| ==> lane.writes[i].stage != Aborted)
    && (lane.migration.Some? ==> lane.migration.value.stage != Aborted)
  }

  /** The history of a name that has just been removed. */
  const REMOVED := Track(None, None, true, 0)

  /** In every disciplined run in which all transactions of the name commit, what the next session
      reads is what was flushed last. */
  ghost predicate LatestSurvives(s: State, name: string, t: Track, ops: seq<Op>) {
    forall steps :: Legal(s, steps) && DisciplinedRun(s, steps, name, t, ops) && AllCommit(steps, name) ==>
      var lane := LaneOf(Run(s, steps), name);
      Landed(lane) && !Removing(lane) ==> FreshRead(lane).raw == FollowRun(s, steps, name, t).latest
  }

  // --- no write in flight: the invariant holds from the removal on ---------------------------------

  lemma RemovalStartsPipeline(s: State, name: string, ops: seq<Op>)
    requires var lane := LaneOf(s, name);
             && Sound(lane) && Matches(ops, lane) && lane.writes == [] && lane.readers == [] && lane.released == []
    ensures Pipeline(LaneOf(Apply(s, RemoveItem(name)), name), Outstanding(s, RemoveItem(name), name, ops), 0)
  {
    var lane, next := LaneOf(s, name), LaneOf(Apply(s, RemoveItem(name)), name);
    OrderMatches(s, RemoveItem(name), name, ops);
    CountOccurs(Outstanding(s, RemoveItem(name), name, ops), WriteOp);
    assert lane.migration.Some? ==> next.parked[|lane.parked|] == ParkedRemoval && ParkedRemoval in next.parked;
    assert LiveWrites(next, 0) == [];
  }

  lemma RemovalStartsInv(s: State, name: string, ops: seq<Op>)
    requires var lane := LaneOf(s, name);
             && Sound(lane) && Matches(ops, lane) && lane.writes == [] && lane.readers == [] && lane.released == []
    ensures var removed := Apply(s, RemoveItem(name));
            Inv(LaneOf(removed, name), removed.lastStamp, REMOVED, Outstanding(s, RemoveItem(name), name, ops))
  {
    var lane, next := LaneOf(s, name), LaneOf(Apply(s, RemoveItem(name)), name);
    RemoveKeepsCore(s, name, REMOVED);
    RemovalStartsPipeline(s, name, ops);
    assert Waiters(next) == if lane.migration.None? then [] else lane.parked + [ParkedRemoval];
  }

  // --- a write in flight: a run that loses what was flushed last ------------------------------------

  /** A write older than the removal is still to succeed, or its success is being cleaned up. */
  predicate Doomed(s: State, name: string, ops: seq<Op>) {
    var lane := LaneOf(s, name);
    && !s.broken && Matches(ops, lane) && NothingFailed(lane)
    && lane.readers == [] && lane.legBlob == None && lane.legStamp == None
    && (lane.migration.Some? ==> lane.migration.value.cancelled && lane.released == [])
    && (lane.parked != [] ==> lane.migration.Some?)
    && (|| (lane.writes != [] && lane.writes[0].generation < lane.generation)
        || CleaningUp(lane))
  }

  /** Everything has committed, and what the backing holds is about to be deleted. */
  predicate CleaningUp(lane: Lane) {
    && lane.migration.None? && lane.released == []
    && (forall i :: 0 <= i < |lane.writes| ==> lane.writes[i].stage == Committed)
    && (lane.backBlob.Some? ==> lane.blobDeletes > 0) && (lane.backStamp.Some? ==> lane.stampDeletes > 0)
  }

  predicate Done(lane: Lane, ops: seq<Op>) {
    ops == [] && lane.migration.None? && lane.released == [] && lane.writes == []
  }

  /** What is outstanding takes effect first; then the cancelled copy settles, what waited for it runs,
      and the writes settle. */
  function NextStep(lane: Lane, name: string, ops: seq<Op>): Step
    requires Matches(ops, lane) && !Done(lane, ops)
  {
    if ops != [] then EffectStep(lane, name, ops)
    else if lane.migration.Some? then MigrationSettle(name)
    else if lane.released != [] then Resume(name, 0, true)
    else Settle(name, 0, true)
  }

  lemma NextStepIsTaken(s: State, name: string, t: Track, ops: seq<Op>)
    requires Doomed(s, name, ops) && !Done(LaneOf(s, name), ops) && t.hydrated
    ensures var step := NextStep(LaneOf(s, name), name, ops);
            && Enabled(s, step) && Disciplined(s, step, name, t) && InOrder(s, step, name, ops) && Commits(step, name)
            && Follow(s, step, name, t).latest == t.latest && Follow(s, step, name, t).hydrated
  {
    if ops == [] {
      NothingOutstanding(LaneOf(s, name));
    }
  }

  lemma EffectKeepsDoomed(s: State, name: string, ops: seq<Op>)
    requires Doomed(s, name, ops) && ops != [] && Enabled(s, NextStep(LaneOf(s, name), name, ops))
    requires Matches(ops[1..], LaneOf(Apply(s, NextStep(LaneOf(s, name), name, ops)), name))
    ensures Doomed(Apply(s, NextStep(LaneOf(s, name), name, ops)), name, ops[1..])
  {
    var lane, next := LaneOf(s, name), LaneOf(Apply(s, NextStep(LaneOf(s, name), name, ops)), name);
    if ops[0] == WriteOp {
      assert !CleaningUp(lane);
      assert next.writes[0].generation == lane.writes[0].generation;
    }
  }

  lemma CallbackKeepsDoomed(s: State, name: string, ops: seq<Op>)
    requires Doomed(s, name, []) && !Done(LaneOf(s, name), []) && Enabled(s, NextStep(LaneOf(s, name), name, []))
    requires Matches(ops, LaneOf(Apply(s, NextStep(LaneOf(s, name), name, [])), name))
    ensures Doomed(Apply(s, NextStep(LaneOf(s, name), name, [])), name, ops)
  {
    var lane, next := LaneOf(s, name), LaneOf(Apply(s, NextStep(LaneOf(s, name), name, [])), name);
    NothingOutstanding(lane);
    if lane.migration.None? && lane.released == [] {
      assert next.writes == Removed(lane.writes, 0) == lane.writes[1..];
      assert CleaningUp(next);
    } else {
      assert next.writes != [] && next.writes[0] == lane.writes[0];
    }
  }

  lemma NextStepKeepsDoomed(s: State, name: string, ops: seq<Op>)
    requires Doomed(s, name, ops) && !Done(LaneOf(s, name), ops)
    requires var step := NextStep(LaneOf(s, name), name, ops); Enabled(s, step) && InOrder(s, step, name, ops)
    ensures var step := NextStep(LaneOf(s, name), name, ops);
            Doomed(Apply(s, step), name, Outstanding(s, step, name, ops))
  {
    var step := NextStep(LaneOf(s, name), name, ops);
    OrderMatches(s, step, name, ops);
    if ops == [] {
      CallbackKeepsDoomed(s, name, Outstanding(s, step, name, ops));
    } else {
      EffectKeepsDoomed(s, name, ops);
    }
  }

  function Copying(lane: Lane): nat {
    if lane.migration.Some? then 1 else 0
  }

  lemma NextStepMakesProgress(s: State, name: string, ops: seq<Op>)
    requires Doomed(s, name, ops) && !Done(LaneOf(s, name), ops) && Enabled(s, NextStep(LaneOf(s, name), name, ops))
    ensures var step := NextStep(LaneOf(s, name), name, ops);
            var lane, next := LaneOf(s, name), LaneOf(Apply(s, step), name);
            (Copying(lane), |lane.released|, |lane.writes|, |ops|
             decreases to Copying(next), |next.released|, |next.writes|, |Outstanding(s, step, name, ops)|)
  {
  }

  /** The run that follows NextStep ends with the key in no store. */
  lemma {:induction false} DoomedRunEndsGone(s: State, name: string, t: Track, ops: seq<Op>) returns (steps: seq<Step>)
    requires Doomed(s, name, ops) && t.hydrated
    ensures Legal(s, steps) && DisciplinedRun(s, steps, name, t, ops) && AllCommit(steps, name)
    ensures FollowRun(s, steps, name, t).latest == t.latest
    ensures Settled(LaneOf(Run(s, steps), name)) && Gone(LaneOf(Run(s, steps), name))
    decreases Copying(LaneOf(s, name)), |LaneOf(s, name).released|, |LaneOf(s, name).writes|, |ops|
  {
    steps := [];
    if Done(LaneOf(s, name), ops) {
      NothingOutstanding(LaneOf(s, name));
    } else {
      var step := NextStep(LaneOf(s, name), name, ops);
      NextStepIsTaken(s, name, t, ops);
      NextStepKeepsDoomed(s, name, ops);
      NextStepMakesProgress(s, name, ops);
      var rest := DoomedRunEndsGone(Apply(s, step), name, Follow(s, step, name, t), Outstanding(s, step, name, ops));
      steps := [step] + rest;
    }
  }

  lemma RemovalDooms(s: State, name: string, ops: seq<Op>)
    requires var lane := LaneOf(s, name);
             && Sound(lane) && Matches(ops, lane) && NothingFailed(lane) && !s.broken
             && lane.readers == [] && lane.released == [] && lane.writes != []
    ensures Doomed(Apply(s, RemoveItem(name)), name, Outstanding(s, RemoveItem(name), name, ops))
  {
    OrderMatches(s, RemoveItem(name), name, ops);
  }

  lemma WriteKeepsDoomed(s: State, step: Step, name: string, ops: seq<Op>)
    requires Doomed(s, name, ops) && LaneOf(s, name).released == [] && LaneOf(s, name).writes != []
    requires LaneOf(s, name).writes[0].generation < LaneOf(s, name).generation
    requires step.SetItem? || (step.Flush? && Target(s, step) == Some(name))
    ensures Doomed(Apply(s, step), name, Outstanding(s, step, name, ops))
  {
    OrderMatches(s, step, name, ops);
    var lane, next := LaneOf(s, name), LaneOf(Apply(s, step), name);
    assert next.writes[0] == lane.writes[0];
  }

  lemma RewriteIsLost(s: State, name: string, value: string, t: Track, ops: seq<Op>) returns (steps: seq<Step>)
    requires Doomed(s, name, ops) && LaneOf(s, name).released == [] && LaneOf(s, name).writes != [] && t.hydrated
    requires LaneOf(s, name).writes[0].generation < LaneOf(s, name).generation
    ensures Legal(s, steps) && DisciplinedRun(s, steps, name, t, ops) && AllCommit(steps, name)
    ensures FollowRun(s, steps, name, t).latest == Some(value)
    ensures Settled(LaneOf(Run(s, steps), name)) && Gone(LaneOf(Run(s, steps), name))
  {
    var put, flush := SetItem(name, value), Flush(0, true);
    WriteKeepsDoomed(s, put, name, ops);
    var s1, ops1 := Apply(s, put), Outstanding(s, put, name, ops);
    WriteKeepsDoomed(s1, flush, name, ops1);
    var t2 := Follow(s1, flush, name, t);
    var rest := DoomedRunEndsGone(Apply(s1, flush), name, t2, Outstanding(s1, flush, name, ops1));
    var tail := [flush] + rest;
    assert tail[1..] == rest && Legal(s1, tail) && DisciplinedRun(s1, tail, name, t, ops1);
    steps := [put] + tail;
    assert steps[1..] == tail;
  }

  // --- the exact condition -------------------------------------------------------------------------

  /** With no read in flight at the removal and nothing failed so far, whatever is parked: what is
      flushed last after the removal, or nothing when nothing is, is what the next session reads, in all
      runs, exactly when no write of the key was in flight at the removal. */
  lemma RewriteSurvivesExactly(s: State, name: string, ops: seq<Op>)
    requires var lane := LaneOf(s, name);
             && Sound(lane) && Matches(ops, lane) && NothingFailed(lane) && !s.broken
             && lane.readers == [] && lane.released == []
    ensures LatestSurvives(Apply(s, RemoveItem(name)), name, REMOVED, Outstanding(s, RemoveItem(name), name, ops))
       <==> LaneOf(s, name).writes == []
  {
    var removed, after := Apply(s, RemoveItem(name)), Outstanding(s, RemoveItem(name), name, ops);
    var t := REMOVED;
    if LaneOf(s, name).writes == [] {
      RemovalStartsInv(s, name, ops);
      forall steps | Legal(removed, steps) && DisciplinedRun(removed, steps, name, t, after)
        ensures var lane := LaneOf(Run(removed, steps), name);
                Landed(lane) && !Removing(lane) ==> FreshRead(lane).raw == FollowRun(removed, steps, name, t).latest
      {
        NewestWriteIsRead(removed, steps, name, t, after);
      }
    } else {
      RemovalDooms(s, name, ops);
      var steps := RewriteIsLost(removed, name, "x", t, after);
      var lane := LaneOf(Run(removed, steps), name);
      assert Landed(lane) && !Removing(lane) && FreshRead(lane).raw == None;
    }
  }
}
