/** What brings a removed key back: a write still parked behind a migration, when it fails or the latch
    has tripped, or a read that picked the fallback copy and may still copy it forward. Nothing else
    does, so a removal is final exactly when there is neither. Each run that brings the key back keeps
    the order of issue. */
module PersistReturn {
  import opened StampedCopy
  import opened Seqs
  import opened PersistProtocol
  import opened PersistOrder
  import opened PersistRemoval
  import opened PersistReach

  // --- finishing reads ------------------------------------------------------------------------------

  function ReadersRank(lane: Lane): nat {
    if lane.readers == [] then 0
    else match lane.readers[0]
         case Issued => 3
         case BackingRead(_, _) => 2
         case Picked(_) => 1
  }

  function ReadStep(lane: Lane, name: string): Step
    requires lane.readers != []
  {
    match lane.readers[0]
    case Issued => ReadBacking(name, 0, true)
    case BackingRead(_, _) => ReadLegacy(name, 0, true)
    case Picked(_) => FinishRead(name, 0)
  }

  /** What finishing reads leaves alone: the latch, everything that waits, and the copy once there is one. */
  predicate OnlyReads(p: Point, q: Point, name: string) {
    var lane, next := LaneAt(p, name), LaneAt(q, name);
    && q.s.broken == p.s.broken && next.writes == lane.writes && next.released == lane.released
         && next.parked == lane.parked
    && next.blobDeletes == lane.blobDeletes && next.stampDeletes == lane.stampDeletes
    && next.backBlob == lane.backBlob
    && (lane.migration.Some? ==> next.migration == lane.migration && q.ops == p.ops)
  }

  lemma ReadStepAdvances(p: Point, name: string, clean: bool)
    requires LaneAt(p, name).readers != [] && (clean ==> !p.s.broken)
    ensures var step := ReadStep(LaneAt(p, name), name);
            && Enabled(p.s, step) && Allowed(p, step, name, clean)
            && OnlyReads(p, StepFrom(p, step, name), name)
            && var lane, next := LaneAt(p, name), LaneOf(Apply(p.s, step), name);
               |next.readers| < |lane.readers|
                   || (|next.readers| == |lane.readers| && ReadersRank(next) < ReadersRank(lane))
  {
    var lane := LaneAt(p, name);
    var next := LaneOf(Apply(p.s, ReadStep(lane, name)), name);
    assert lane.readers[0].Picked? ==> |next.readers| == |lane.readers| - 1;
    assert lane.migration.Some? ==> Handed(lane, next) == [] && p.ops + [] == p.ops;
  }

  lemma {:induction false} FinishReads(p: Point, name: string, clean: bool) returns (q: Point)
    requires InStep(p, name) && (clean ==> !p.s.broken)
    ensures Reaches(p, q, name, clean) && InStep(q, name)
    ensures LaneAt(q, name).readers == [] && OnlyReads(p, q, name)
    decreases |LaneAt(p, name).readers|, ReadersRank(LaneAt(p, name))
  {
    q := p;
    Stays(p, name, clean);
    if LaneAt(p, name).readers != [] {
      ReadStepAdvances(p, name, clean);
      var step := ReadStep(LaneAt(p, name), name);
      var r := StepFrom(p, step, name);
      StepKeepsInStep(p, step, name, clean);
      Goes(p, step, name, clean);
      q := FinishReads(r, name, clean);
      GoesOn(p, r, q, name, clean);
    }
  }

  // --- finishing writes, the copy and deletes, in order -----------------------------------------------

  function FirstRunning(writes: seq<Write>): (i: nat)
    requires CountRunning(writes) > 0
    ensures i < |writes| && writes[i].stage == Running && NoneRunningBefore(writes, i)
  {
    if writes[0].stage == Running then 0 else 1 + FirstRunning(writes[1..])
  }

  /** What is outstanding takes effect. */
  function EffectStep(lane: Lane, name: string, ops: seq<Op>): Step
    requires Matches(ops, lane) && ops != []
  {
    match ops[0]
    case WriteOp => Outcome(name, FirstRunning(lane.writes), true)
    case CopyOp => MigrationOutcome(name, true)
    case BlobDelete => DeleteBlob(name, true)
    case StampDelete => DeleteStamp(name, true)
  }

  /** Callbacks change neither what waits nor what is read. */
  predicate OnlyWork(p: Point, q: Point, name: string) {
    var lane, next := LaneAt(p, name), LaneAt(q, name);
    && q.s.broken == p.s.broken && next.readers == lane.readers
    && Waiters(next) == Waiters(lane)
  }

  lemma EffectStepAdvances(p: Point, name: string, clean: bool)
    requires InStep(p, name) && p.ops != [] && (clean ==> !p.s.broken)
    ensures var step := EffectStep(LaneAt(p, name), name, p.ops);
            && Enabled(p.s, step) && Allowed(p, step, name, clean)
            && OnlyWork(p, StepFrom(p, step, name), name)
            && StepFrom(p, step, name).ops == p.ops[1..]
            && var lane, next := LaneAt(p, name), LaneOf(Apply(p.s, step), name);
               |next.writes| == |lane.writes| && (next.migration.Some? <==> lane.migration.Some?)
               && next.parked == lane.parked && next.released == lane.released
  {
  }

  lemma {:induction false} TakeEffect(p: Point, name: string, clean: bool) returns (q: Point)
    requires InStep(p, name) && (clean ==> !p.s.broken)
    ensures Reaches(p, q, name, clean) && InStep(q, name) && q.ops == [] && OnlyWork(p, q, name)
    ensures var lane, next := LaneAt(p, name), LaneAt(q, name);
            |next.writes| == |lane.writes| && (next.migration.Some? <==> lane.migration.Some?)
            && next.parked == lane.parked && next.released == lane.released
    decreases |p.ops|
  {
    q := p;
    Stays(p, name, clean);
    if p.ops != [] {
      EffectStepAdvances(p, name, clean);
      var step := EffectStep(LaneAt(p, name), name, p.ops);
      var r := StepFrom(p, step, name);
      StepKeepsInStep(p, step, name, clean);
      Goes(p, step, name, clean);
      q := TakeEffect(r, name, clean);
      GoesOn(p, r, q, name, clean);
    }
  }

  lemma NothingOutstanding(lane: Lane)
    requires Matches([], lane)
    ensures forall i :: 0 <= i < |lane.writes| ==> lane.writes[i].stage != Running
    ensures lane.migration.Some? ==> lane.migration.value.stage != Running
    ensures lane.blobDeletes == 0 && lane.stampDeletes == 0
  {
    SomeRunning(lane.writes);
  }

  function CallbackStep(lane: Lane, name: string): Step
    requires lane.writes != [] || lane.migration.Some?
  {
    if lane.writes != [] then Settle(name, 0, true) else MigrationSettle(name)
  }

  function Busy(lane: Lane): nat {
    |lane.writes| + if lane.migration.Some? then 1 else 0
  }

  /** With the failure count cleared, a callback does not trip the latch. */
  lemma CallbackAdvances(p: Point, name: string, clean: bool)
    requires InStep(p, name) && p.ops == [] && Busy(LaneAt(p, name)) > 0
    requires (clean ==> !p.s.broken) && (p.s.broken || p.s.failures == 0)
    ensures var step := CallbackStep(LaneAt(p, name), name);
            && Enabled(p.s, step) && Allowed(p, step, name, clean)
            && OnlyWork(p, StepFrom(p, step, name), name)
            && Busy(LaneOf(Apply(p.s, step), name)) < Busy(LaneAt(p, name))
            && (ParkedBehindCopy(p, name) ==> ParkedBehindCopy(StepFrom(p, step, name), name))
  {
    var lane := LaneAt(p, name);
    var next := LaneOf(Apply(p.s, CallbackStep(lane, name)), name);
    NothingOutstanding(lane);
    if lane.writes != [] {
      assert |next.writes| == |lane.writes| - 1;
    } else {
      assert Waiters(next) == lane.released + lane.parked + [];
    }
  }

  /** No write, copy or delete of the name is in flight and nothing is attached to one. */
  predicate Idle(p: Point, name: string) {
    var lane := LaneAt(p, name);
    p.ops == [] && lane.writes == [] && lane.migration.None? && lane.parked == [] && lane.blobDeletes == 0
        && lane.stampDeletes == 0
  }

  predicate ParkedBehindCopy(p: Point, name: string) {
    LaneAt(p, name).parked != [] ==> LaneAt(p, name).migration.Some?
  }

  /** Everything outstanding takes effect, and then one callback runs. */
  lemma OneCallback(p: Point, name: string, clean: bool) returns (q: Point)
    requires InStep(p, name) && p.ops == [] && (clean ==> !p.s.broken) && Busy(LaneAt(p, name)) > 0
    ensures Reaches(p, q, name, clean) && InStep(q, name) && OnlyWork(p, q, name)
    ensures Busy(LaneAt(q, name)) < Busy(LaneAt(p, name)) && (ParkedBehindCopy(p, name) ==> ParkedBehindCopy(q, name))
  {
    var r := ClearFailures(p, name, clean);
    CallbackAdvances(r, name, clean);
    var step := CallbackStep(LaneAt(r, name), name);
    StepKeepsInStep(r, step, name, clean);
    ThenGoes(p, r, step, name, clean);
    q := StepFrom(r, step, name);
  }

  lemma {:induction false} FinishWork(p: Point, name: string, clean: bool) returns (q: Point)
    requires InStep(p, name) && (clean ==> !p.s.broken) && ParkedBehindCopy(p, name)
    ensures Reaches(p, q, name, clean) && InStep(q, name) && Idle(q, name) && OnlyWork(p, q, name)
    decreases Busy(LaneAt(p, name))
  {
    q := TakeEffect(p, name, clean);
    NothingOutstanding(LaneAt(q, name));
    if Busy(LaneAt(q, name)) > 0 {
      var r := OneCallback(q, name, clean);
      GoesOn(p, q, r, name, clean);
      q := FinishWork(r, name, clean);
      GoesOn(p, r, q, name, clean);
    }
  }

  // --- what waited, one by one ------------------------------------------------------------------------

  predicate Resumable(p: Point, name: string) {
    Idle(p, name) && LaneAt(p, name).released != []
  }

  /** One waiter runs and what it started is over. */
  predicate OneResumed(p: Point, q: Point, name: string) {
    var lane, next := LaneAt(p, name), LaneAt(q, name);
    Idle(q, name) && next.readers == lane.readers && lane.released != [] && next.released == lane.released[1..]
  }

  lemma ResumeRemoval(p: Point, name: string, clean: bool) returns (q: Point)
    requires Resumable(p, name) && LaneAt(p, name).released[0].ParkedRemoval? && (clean ==> !p.s.broken)
    ensures Reaches(p, q, name, clean) && OneResumed(p, q, name) && q.s.broken == p.s.broken
    ensures LaneAt(q, name).legBlob == LaneAt(p, name).legBlob
  {
    Goes(p, Resume(name, 0, true), name, clean);
    q := StepFrom(p, Resume(name, 0, true), name);
    RemovalHandsDeletes(p, name);
    var r := DeletesEnd(q, name, clean);
    GoesOn(p, q, r, name, clean);
    q := r;
  }

  lemma DeletesEnd(p: Point, name: string, clean: bool) returns (q: Point)
    requires p.ops == [BlobDelete, StampDelete] && LaneAt(p, name).blobDeletes == 1 && LaneAt(p, name).stampDeletes == 1
    requires clean ==> !p.s.broken
    ensures Reaches(p, q, name, clean) && q.ops == [] && q.s.broken == p.s.broken
    ensures LaneAt(q, name) == LaneAt(p, name).(blobDeletes := 0, stampDeletes := 0, backBlob := None,
                                                backStamp := None)
  {
    Goes(p, DeleteBlob(name, true), name, clean);
    var r := StepFrom(p, DeleteBlob(name, true), name);
    ThenGoes(p, r, DeleteStamp(name, true), name, clean);
    q := StepFrom(r, DeleteStamp(name, true), name);
  }

  lemma RemovalHandsDeletes(p: Point, name: string)
    requires Resumable(p, name) && LaneAt(p, name).released[0].ParkedRemoval?
    ensures var q := StepFrom(p, Resume(name, 0, true), name);
            q.ops == [BlobDelete, StampDelete]
            && LaneAt(q, name) == IssueDeletes(LaneAt(p, name).(released := LaneAt(p, name).released[1..]), 1)
            && q.s.broken == p.s.broken
  {
    assert Deletes(1) == [BlobDelete, StampDelete] + Deletes(0);
  }

  lemma WriteStarts(p: Point, name: string)
    requires Resumable(p, name) && LaneAt(p, name).released[0].ParkedWrite? && !p.s.broken
    ensures var q := StepFrom(p, Resume(name, 0, true), name);
            var lane := LaneAt(p, name);
            q.ops == [WriteOp] && q.s.broken == p.s.broken && q.s.failures == p.s.failures
            && LaneAt(q, name) == lane.(released := lane.released[1..], writes := LaneAt(q, name).writes)
            && LaneAt(q, name).writes == [Write(lane.released[0].value, NextStamp(p.s.lastStamp, 0), lane.generation,
                                                Running)]
  {
  }

  lemma WriteEnds(p: Point, name: string, commits: bool, clean: bool) returns (q: Point)
    requires var lane := LaneAt(p, name);
             && p.ops == [WriteOp] && |lane.writes| == 1 && lane.writes[0].stage == Running
                  && lane.writes[0].generation == lane.generation
    requires clean ==> !p.s.broken && commits
    ensures Reaches(p, q, name, clean) && q.ops == [] && (commits ==> q.s.broken == p.s.broken)
    ensures var lane := LaneAt(p, name);
            var w := lane.writes[0];
            LaneAt(q, name) == if commits then CommitToBacking(lane, w.raw, w.stamp).(writes := [])
                               else WriteThrough(lane, w.raw, w.stamp, true).(writes := [])
  {
    var outcome := Outcome(name, 0, commits);
    Goes(p, outcome, name, clean);
    var r := StepFrom(p, outcome, name);
    assert Removed(LaneAt(r, name).writes, 0) == [];
    ThenGoes(p, r, Settle(name, 0, true), name, clean);
    q := StepFrom(r, Settle(name, 0, true), name);
  }

  lemma ResumeWrite(p: Point, name: string, commits: bool, clean: bool) returns (q: Point)
    requires Resumable(p, name) && LaneAt(p, name).released[0].ParkedWrite? && (clean ==> !p.s.broken && commits)
    requires commits ==> !p.s.broken
    ensures Reaches(p, q, name, clean) && OneResumed(p, q, name)
    ensures commits ==> LaneAt(q, name).backBlob.Some? && !q.s.broken
    ensures !commits ==> LaneAt(q, name).legBlob.Some?
  {
    var step := Resume(name, 0, true);
    Goes(p, step, name, clean);
    q := StepFrom(p, step, name);
    if !p.s.broken {
      WriteStarts(p, name);
      var r := WriteEnds(q, name, commits, clean);
      GoesOn(p, q, r, name, clean);
      q := r;
    }
  }

  /** The first waiter runs; a write that does not commit leaves its value in the fallback. */
  lemma ResumeOne(p: Point, name: string, clean: bool) returns (q: Point)
    requires Resumable(p, name) && (clean ==> !p.s.broken)
    ensures Reaches(p, q, name, clean) && OneResumed(p, q, name)
    ensures var first := LaneAt(p, name).released[0];
            if clean then !q.s.broken && (first.ParkedWrite? ==> LaneAt(q, name).backBlob.Some?)
            else LaneAt(q, name).legBlob.Some? <== first.ParkedWrite? || LaneAt(p, name).legBlob.Some?
  {
    if LaneAt(p, name).released[0].ParkedWrite? {
      q := ResumeWrite(p, name, clean, clean);
    } else {
      q := ResumeRemoval(p, name, clean);
    }
  }

  lemma {:induction false} ResumeFailing(p: Point, name: string) returns (q: Point)
    requires Idle(p, name)
    requires LaneAt(p, name).legBlob.Some? || !OnlyRemovals(LaneAt(p, name).released)
    ensures Reaches(p, q, name, false) && Idle(q, name) && LaneAt(q, name).released == []
    ensures LaneAt(q, name).readers == LaneAt(p, name).readers && LaneAt(q, name).legBlob.Some?
    decreases |LaneAt(p, name).released|
  {
    q := p;
    Stays(p, name, false);
    if LaneAt(p, name).released != [] {
      var r := ResumeOne(p, name, false);
      assert LaneAt(r, name).legBlob.Some? || !OnlyRemovals(LaneAt(r, name).released);
      q := ResumeFailing(r, name);
      GoesOn(p, r, q, name, false);
    }
  }

  lemma {:induction false} ResumeCommitting(p: Point, name: string) returns (q: Point)
    requires Idle(p, name) && !p.s.broken
    ensures Reaches(p, q, name, true) && Idle(q, name) && LaneAt(q, name).released == [] && !q.s.broken
    ensures LaneAt(q, name).readers == LaneAt(p, name).readers && (LaneAt(p, name).released == [] ==> q == p)
    ensures var waiters := LaneAt(p, name).released;
            waiters != [] && Last(waiters).ParkedWrite? ==> LaneAt(q, name).backBlob.Some?
    decreases |LaneAt(p, name).released|
  {
    q := p;
    Stays(p, name, true);
    if LaneAt(p, name).released != [] {
      var r := ResumeOne(p, name, true);
      q := ResumeCommitting(r, name);
      GoesOn(p, r, q, name, true);
    }
  }

  // --- a parked write comes back -------------------------------------------------------------------

  /** A parked write starts with the generation of after the removal, so its failure writes the value
      through to the fallback store, which the deletes behind it do not touch. */
  lemma ParkedWriteComesBack(p: Point, name: string) returns (q: Point)
    requires InStep(p, name) && ParkedBehindCopy(p, name) && !NoneParked(LaneAt(p, name))
    ensures Reaches(p, q, name, false) && Settled(LaneAt(q, name)) && LaneAt(q, name).legBlob.Some?
  {
    q := FinishReads(p, name, false);
    var r := FinishWork(q, name, false);
    GoesOn(p, q, r, name, false);
    assert Waiters(LaneAt(r, name)) == LaneAt(r, name).released + [] == LaneAt(r, name).released;
    SomeWriteWaits(LaneAt(p, name));
    q := ResumeFailing(r, name);
    GoesOn(p, r, q, name, false);
  }

  lemma SomeWriteWaits(lane: Lane)
    ensures OnlyRemovals(Waiters(lane)) <==> NoneParked(lane)
  {
    var n := |lane.released|;
    assert forall i :: 0 <= i < n ==> Waiters(lane)[i] == lane.released[i];
    assert forall i :: 0 <= i < |lane.parked| ==> Waiters(lane)[n + i] == lane.parked[i];
  }

  /** A released write with no removal behind it comes back even when everything commits. */
  lemma ReleasedWriteComesBack(p: Point, name: string) returns (q: Point)
    requires InStep(p, name) && !p.s.broken && LaneAt(p, name).parked == []
    requires LaneAt(p, name).released != [] && Last(LaneAt(p, name).released).ParkedWrite?
    ensures Reaches(p, q, name, true) && Settled(LaneAt(q, name)) && LaneAt(q, name).backBlob.Some?
  {
    q := FinishReads(p, name, true);
    var r := FinishWork(q, name, true);
    GoesOn(p, q, r, name, true);
    assert Waiters(LaneAt(q, name)) == LaneAt(p, name).released + [] == LaneAt(p, name).released;
    assert Waiters(LaneAt(r, name)) == LaneAt(r, name).released + [] == LaneAt(r, name).released;
    q := ResumeCommitting(r, name);
    GoesOn(p, r, q, name, true);
  }

  // --- a picked fallback copy comes back -----------------------------------------------------------

  lemma PickStartsCopy(p: Point, name: string, i: nat)
    requires Idle(p, name) && !p.s.broken && i < |LaneAt(p, name).readers|
    requires PicksLegacy(LaneAt(p, name).readers[i]) && LaneAt(p, name).readers[i].read.legacyRaw.Some?
    ensures var q := StepFrom(p, FinishRead(name, i), name);
            var lane, m := LaneAt(q, name), LaneAt(q, name).migration;
            q.ops == [CopyOp] && !q.s.broken && m.Some? && m.value.stage == Running
                && lane.released == LaneAt(p, name).released
            && lane.writes == [] && lane.parked == [] && lane.blobDeletes == 0 && lane.stampDeletes == 0
            && InStep(q, name)
  {
    assert Deletes(0) == [] && [CopyOp][1..] == [];
  }

  lemma CopyEnds(p: Point, name: string) returns (q: Point)
    requires var lane := LaneAt(p, name);
             && p.ops == [CopyOp] && lane.migration.Some? && lane.migration.value.stage == Running && lane.readers == []
             && lane.writes == [] && lane.parked == [] && lane.released == [] && lane.blobDeletes == 0
                  && lane.stampDeletes == 0
    requires !p.s.broken
    ensures Reaches(p, q, name, true) && Settled(LaneAt(q, name)) && LaneAt(q, name).backBlob.Some?
  {
    Goes(p, MigrationOutcome(name, true), name, true);
    var r := StepFrom(p, MigrationOutcome(name, true), name);
    ThenGoes(p, r, MigrationSettle(name), name, true);
    q := StepFrom(r, MigrationSettle(name), name);
  }

  /** When everything else has committed and settled, the pick's continuation starts a copy that nobody
      cancels and nothing deletes. */
  lemma PickComesBack(p: Point, name: string, i: nat) returns (q: Point)
    requires InStep(p, name) && ParkedBehindCopy(p, name) && !p.s.broken
    requires i < |LaneAt(p, name).readers| && PicksLegacy(LaneAt(p, name).readers[i])
    requires LaneAt(p, name).readers[i].read.legacyRaw.Some?
    ensures Reaches(p, q, name, true) && Settled(LaneAt(q, name)) && LaneAt(q, name).backBlob.Some?
  {
    var r := FinishWork(p, name, true);
    q := ResumeCommitting(r, name);
    GoesOn(p, r, q, name, true);
    PickStartsCopy(q, name, i);
    ThenGoes(p, q, FinishRead(name, i), name, true);
    r := StepFrom(q, FinishRead(name, i), name);
    q := FinishReads(r, name, true);
    GoesOn(p, r, q, name, true);
    r := CopyEnds(q, name);
    GoesOn(p, q, r, name, true);
    q := r;
  }

  // --- the exact condition -------------------------------------------------------------------------

  /** In every calm run after the removal, once all is settled, no store holds the key. */
  ghost predicate FinalInAllRuns(s: State, name: string) {
    var removed := Apply(s, RemoveItem(name));
    forall steps :: Legal(removed, steps) && AllCalm(steps, name) && Settled(LaneOf(Run(removed, steps), name))
               ==> Gone(LaneOf(Run(removed, steps), name))
  }

  /** The same for the runs in the order of issue, and, if clean, in which everything commits and the
      latch does not trip. */
  ghost predicate FinalInOrder(s: State, name: string, ops: seq<Op>, clean: bool) {
    forall q :: Reaches(StepFrom(Point(s, ops), RemoveItem(name), name), q, name, clean) && Settled(LaneAt(q, name))
           ==> Gone(LaneAt(q, name))
  }

  lemma NotFinal(s: State, name: string, ops: seq<Op>, q: Point, clean: bool)
    requires Reaches(StepFrom(Point(s, ops), RemoveItem(name), name), q, name, clean)
    requires Settled(LaneAt(q, name)) && !Gone(LaneAt(q, name))
    ensures !FinalInOrder(s, name, ops, clean) && !FinalInOrder(s, name, ops, false) && !FinalInAllRuns(s, name)
  {
    var p := StepFrom(Point(s, ops), RemoveItem(name), name);
    var points :| Path(points, name, clean) && points[0] == p && Last(points) == q;
    var steps := PathIsCalm(points, name, clean);
    forall i | 0 <= i < |points| - 1 ensures Moves(points[i], points[i + 1], name, false) {
      MovesAnyway(points[i], points[i + 1], name, clean);
    }
    assert Path(points, name, false);
  }

  lemma MovesAnyway(p: Point, q: Point, name: string, clean: bool)
    requires Moves(p, q, name, clean)
    ensures Moves(p, q, name, false)
  {
    var step :| Enabled(p.s, step) && Allowed(p, step, name, clean) && q == StepFrom(p, step, name);
    assert Allowed(p, step, name, false);
  }

  lemma RemovedPoint(s: State, name: string, ops: seq<Op>) returns (p: Point)
    requires Sound(LaneOf(s, name)) && Matches(ops, LaneOf(s, name))
    ensures p == StepFrom(Point(s, ops), RemoveItem(name), name) && InStep(p, name) && ParkedBehindCopy(p, name)
    ensures p.s.broken == s.broken && LaneAt(p, name).readers == LaneOf(s, name).readers
    ensures NoneParked(LaneAt(p, name)) <==> NoneParked(LaneOf(s, name))
  {
    p := StepFrom(Point(s, ops), RemoveItem(name), name);
    OrderMatches(s, RemoveItem(name), name, ops);
    var lane, next := LaneOf(s, name), LaneAt(p, name);
    assert forall i :: 0 <= i < |lane.parked| ==> next.parked[i] == lane.parked[i];
  }

  /** A removal is final exactly when no write of the key is parked behind a migration and, unless
      the session has given the backing up, no read of it has picked the fallback copy. That holds of
      all calm runs, and already of those in the order of issue. */
  lemma RemovalIsFinalExactly(s: State, name: string, ops: seq<Op>)
    requires Sound(LaneOf(s, name)) && Matches(ops, LaneOf(s, name))
    ensures FinalInAllRuns(s, name)
       <==> NoneParked(LaneOf(s, name)) && (s.broken || NoLegacyPick(LaneOf(s, name)))
    ensures FinalInOrder(s, name, ops, false) <==> FinalInAllRuns(s, name)
  {
    var lane := LaneOf(s, name);
    if NoneParked(lane) && (s.broken || NoLegacyPick(lane)) {
      FinalOnBothCounts(s, name, ops);
    } else {
      var p := RemovedPoint(s, name, ops);
      if !NoneParked(lane) {
        var q := ParkedWriteComesBack(p, name);
        NotFinal(s, name, ops, q, false);
      } else {
        var i :| 0 <= i < |lane.readers| && PicksLegacy(lane.readers[i]);
        var q := PickComesBack(p, name, i);
        NotFinal(s, name, ops, q, true);
      }
    }
  }

  lemma FinalOnBothCounts(s: State, name: string, ops: seq<Op>)
    requires Sound(LaneOf(s, name)) && NoneParked(LaneOf(s, name)) && (s.broken || NoLegacyPick(LaneOf(s, name)))
    ensures FinalInAllRuns(s, name) && FinalInOrder(s, name, ops, false)
  {
    var removed := Apply(s, RemoveItem(name));
    forall steps | Legal(removed, steps) && AllCalm(steps, name) && Settled(LaneOf(Run(removed, steps), name))
      ensures Gone(LaneOf(Run(removed, steps), name))
    {
      RemovalIsFinal(s, steps, name);
    }
    var p := StepFrom(Point(s, ops), RemoveItem(name), name);
    forall q | Reaches(p, q, name, false) && Settled(LaneAt(q, name)) ensures Gone(LaneAt(q, name)) {
      var points :| Path(points, name, false) && points[0] == p && Last(points) == q;
      var steps := PathIsCalm(points, name, false);
    }
  }
}
