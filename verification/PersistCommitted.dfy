/** When every transaction of the key commits, all take effect in the order of issue and the latch does
    not trip, a removal is final although writes are parked: they start ahead of its deletes. Only a
    pick of the fallback copy, or a write released with no removal behind it, still brings the key back. */
module PersistCommitted {
  import opened StampedCopy
  import opened Seqs
  import opened PersistProtocol
  import opened PersistOrder
  import opened PersistDiscipline
  import opened PersistPipeline
  import opened PersistRemoval
  import opened PersistReach
  import opened PersistReturn

  /** The last thing attached to the copy, or released by it, is a removal. */
  predicate RemovalLast(waiters: seq<Waiter>) {
    waiters == [] || Last(waiters).ParkedRemoval?
  }

  predicate SucceededLate(lane: Lane) {
    exists i :: 0 <= i < |lane.writes| && lane.writes[i].stage == Committed
        && lane.writes[i].generation < lane.generation
  }

  /** A delete will follow everything that writes. */
  predicate DeletesFollow(lane: Lane, ops: seq<Op>) {
    && RemovalLast(Waiters(lane))
    && (lane.migration.Some? ==> lane.parked != [])
    && (WriteOp in ops ==> Waiters(lane) != [] || EndsInDeletes(ops))
  }

  /** A delete is on its way to each cell that holds something. */
  predicate CellsCovered(lane: Lane) {
    && (lane.backBlob.Some? ==> lane.blobDeletes > 0 || Waiters(lane) != [] || SucceededLate(lane))
    && (lane.backStamp.Some? ==> lane.stampDeletes > 0 || Waiters(lane) != [] || SucceededLate(lane))
  }

  /** What failed is older than the removal, so its callback writes nothing through. */
  predicate FailuresAreOld(lane: Lane) {
    forall i :: 0 <= i < |lane.writes| && lane.writes[i].stage == Aborted ==>
        lane.writes[i].generation < lane.generation
  }

  predicate Doomed(p: Point, name: string) {
    var lane := LaneAt(p, name);
    && InStep(p, name) && Sound(lane) && NotPending(p.s, name)
    && lane.legBlob == None && lane.legStamp == None && NoLegacyPick(lane)
    && DeletesFollow(lane, p.ops) && CellsCovered(lane) && FailuresAreOld(lane)
  }

  // --- the order of operations ----------------------------------------------------------------------

  lemma DeletesStillFollow(ops: seq<Op>)
    requires ops != [] && (WriteOp in ops ==> EndsInDeletes(ops))
    ensures WriteOp in ops[1..] ==> EndsInDeletes(ops[1..])
    ensures ops[0] == WriteOp ==> BlobDelete in ops[1..] && StampDelete in ops[1..]
  {
    EndAfterPop(ops, false);
    if ops[0] == WriteOp {
      assert ops[1..][|ops| - 3] == BlobDelete && ops[1..][|ops| - 2] == StampDelete;
    }
  }

  lemma DeletesAreIssued(ops: seq<Op>, lane: Lane)
    requires Matches(ops, lane)
    ensures BlobDelete in ops <==> lane.blobDeletes > 0
    ensures StampDelete in ops <==> lane.stampDeletes > 0
  {
    CountOccurs(ops, BlobDelete);
    CountOccurs(ops, StampDelete);
  }

  lemma OneRemovalHanded(lane: Lane, next: Lane, ops: seq<Op>)
    requires |next.writes| <= |lane.writes| && (lane.migration.Some? || next.migration.None?)
    requires next.blobDeletes == lane.blobDeletes + 1
    ensures EndsInDeletes(ops + Handed(lane, next))
  {
    assert Deletes(1) == [BlobDelete, StampDelete] + Deletes(0);
    assert Handed(lane, next) == [BlobDelete, StampDelete];
  }

  // --- each step ------------------------------------------------------------------------------------

  lemma EffectKeepsFollowing(p: Point, step: Step, name: string)
    requires Doomed(p, name) && Enabled(p.s, step) && Allowed(p, step, name, true) && TakesEffect(step, name)
    ensures DeletesFollow(NextLane(p.s, step, name), p.ops[1..])
  {
    var lane, next := LaneAt(p, name), NextLane(p.s, step, name);
    assert Waiters(next) == Waiters(lane);
    if Waiters(lane) == [] {
      DeletesStillFollow(p.ops);
    }
  }

  lemma WriteEffectIsCovered(p: Point, name: string, i: nat)
    requires Doomed(p, name) && Enabled(p.s, Outcome(name, i, true)) && Allowed(p, Outcome(name, i, true), name, true)
    ensures CellsCovered(NextLane(p.s, Outcome(name, i, true), name))
    ensures FailuresAreOld(NextLane(p.s, Outcome(name, i, true), name))
  {
    var lane, next := LaneAt(p, name), NextLane(p.s, Outcome(name, i, true), name);
    assert Waiters(next) == Waiters(lane) && next.writes[i].stage == Committed;
    if Waiters(lane) == [] {
      DeletesStillFollow(p.ops);
      DeletesAreIssued(p.ops, lane);
    }
  }

  lemma OtherEffectIsCovered(p: Point, step: Step, name: string)
    requires Doomed(p, name) && Enabled(p.s, step) && Allowed(p, step, name, true) && TakesEffect(step, name)
    requires !step.Outcome?
    ensures CellsCovered(NextLane(p.s, step, name)) && FailuresAreOld(NextLane(p.s, step, name))
  {
    var lane, next := LaneAt(p, name), NextLane(p.s, step, name);
    assert Waiters(next) == Waiters(lane) && next.writes == lane.writes;
    assert step.MigrationOutcome? ==> Waiters(lane) != [];
  }

  lemma EffectKeepsDoomed(p: Point, step: Step, name: string)
    requires Doomed(p, name) && Enabled(p.s, step) && Allowed(p, step, name, true) && TakesEffect(step, name)
    requires InStep(StepFrom(p, step, name), name) && Sound(NextLane(p.s, step, name))
    requires NotPending(Apply(p.s, step), name)
    ensures Doomed(StepFrom(p, step, name), name)
  {
    EffectKeepsFollowing(p, step, name);
    if step.Outcome? {
      WriteEffectIsCovered(p, name, step.i);
    } else {
      OtherEffectIsCovered(p, step, name);
    }
  }

  lemma WriteStartsDoomed(p: Point, name: string, now: int, lands: bool)
    requires Doomed(p, name) && !p.s.broken && Enabled(p.s, Resume(name, now, lands))
    requires LaneAt(p, name).released[0].ParkedWrite?
    requires var step := Resume(name, now, lands);
             InStep(StepFrom(p, step, name), name) && Sound(NextLane(p.s, step, name))
                 && NotPending(Apply(p.s, step), name)
    ensures Doomed(StepFrom(p, Resume(name, now, lands), name), name)
  {
    var lane, next := LaneAt(p, name), NextLane(p.s, Resume(name, now, lands), name);
    assert Waiters(next) == Waiters(lane)[1..];
    assert Last(Waiters(lane)) == Waiters(lane)[|Waiters(lane)| - 1] && Waiters(lane)[0].ParkedWrite?;
    assert forall i :: 0 <= i < |lane.writes| ==> next.writes[i] == lane.writes[i];
  }

  lemma RemovalRunsDoomed(p: Point, name: string, now: int, lands: bool)
    requires Doomed(p, name) && Enabled(p.s, Resume(name, now, lands)) && LaneAt(p, name).released[0].ParkedRemoval?
    requires var step := Resume(name, now, lands);
             InStep(StepFrom(p, step, name), name) && Sound(NextLane(p.s, step, name))
                 && NotPending(Apply(p.s, step), name)
    ensures Doomed(StepFrom(p, Resume(name, now, lands), name), name)
  {
    var lane, next := LaneAt(p, name), NextLane(p.s, Resume(name, now, lands), name);
    assert Waiters(next) == Waiters(lane)[1..];
    assert Waiters(next) != [] ==> Last(Waiters(next)) == Last(Waiters(lane));
    OneRemovalHanded(lane, next, p.ops);
  }

  lemma SettleCovers(p: Point, name: string, i: nat, lands: bool)
    requires Doomed(p, name) && Enabled(p.s, Settle(name, i, lands))
    ensures CellsCovered(NextLane(p.s, Settle(name, i, lands), name))
    ensures FailuresAreOld(NextLane(p.s, Settle(name, i, lands), name))
  {
    var lane, next := LaneAt(p, name), NextLane(p.s, Settle(name, i, lands), name);
    var w := lane.writes[i];
    assert next.writes == Removed(lane.writes, i) && Waiters(next) == Waiters(lane);
    forall j | 0 <= j < |next.writes| ensures next.writes[j] == lane.writes[if j < i then j else j + 1] {
    }
    if SucceededLate(lane) && !(w.stage == Committed && w.generation < lane.generation) {
      var j :| 0 <= j < |lane.writes| && lane.writes[j].stage == Committed
          && lane.writes[j].generation < lane.generation;
      assert next.writes[if j < i then j else j - 1] == lane.writes[j];
    }
  }

  lemma SettleKeepsDoomed(p: Point, name: string, i: nat, lands: bool)
    requires Doomed(p, name) && Enabled(p.s, Settle(name, i, lands))
    requires var step := Settle(name, i, lands);
             InStep(StepFrom(p, step, name), name) && Sound(NextLane(p.s, step, name))
                 && NotPending(Apply(p.s, step), name)
    ensures Doomed(StepFrom(p, Settle(name, i, lands), name), name)
  {
    SettleCovers(p, name, i, lands);
    SettleKeepsFollowing(p, name, i, lands);
  }

  lemma SettleLeaves(s: State, name: string, i: nat, lands: bool)
    requires Enabled(s, Settle(name, i, lands)) && FailuresAreOld(LaneOf(s, name))
    requires LaneOf(s, name).legBlob == None && LaneOf(s, name).legStamp == None
    ensures var lane, next := LaneOf(s, name), NextLane(s, Settle(name, i, lands), name);
            && next.legBlob == None && next.legStamp == None && next.readers == lane.readers
            && |next.writes| == |lane.writes| - 1 && Waiters(next) == Waiters(lane)
            && next.migration == lane.migration && next.parked == lane.parked
            && lane.blobDeletes <= next.blobDeletes <= lane.blobDeletes + 1
  {
  }

  lemma SettleKeepsFollowing(p: Point, name: string, i: nat, lands: bool)
    requires Doomed(p, name) && Enabled(p.s, Settle(name, i, lands))
    ensures var next := NextLane(p.s, Settle(name, i, lands), name);
            && DeletesFollow(next, p.ops + Handed(LaneAt(p, name), next))
            && next.legBlob == None && next.legStamp == None && next.readers == LaneAt(p, name).readers
  {
    var lane, next := LaneAt(p, name), NextLane(p.s, Settle(name, i, lands), name);
    SettleLeaves(p.s, name, i, lands);
    if next.blobDeletes > lane.blobDeletes {
      OneRemovalHanded(lane, next, p.ops);
    } else {
      NothingHanded(lane, next, p.ops);
    }
  }

  lemma ReadKeepsDoomed(p: Point, step: Step, name: string)
    requires Doomed(p, name) && Enabled(p.s, step) && Target(p.s, step) == Some(name) && IsReadStep(step)
    requires InStep(StepFrom(p, step, name), name) && Sound(NextLane(p.s, step, name))
    requires NotPending(Apply(p.s, step), name)
    ensures Doomed(StepFrom(p, step, name), name)
  {
    var lane, next := LaneAt(p, name), NextLane(p.s, step, name);
    NoPickStays(p, step, name);
    assert step.FinishRead? ==> !PicksLegacy(lane.readers[step.i]);
    assert next == lane.(readers := next.readers);
    NothingHanded(lane, next, p.ops);
  }

  lemma NoPickStays(p: Point, step: Step, name: string)
    requires Doomed(p, name) && Enabled(p.s, step) && Target(p.s, step) == Some(name) && IsReadStep(step)
    ensures NoLegacyPick(NextLane(p.s, step, name))
  {
    var lane, next := LaneAt(p, name), NextLane(p.s, step, name);
    forall j | 0 <= j < |next.readers| ensures !PicksLegacy(next.readers[j]) {
      if step.FinishRead? {
        assert next.readers[j] == lane.readers[if j < step.i then j else j + 1];
      } else if step.ReadLegacy? && j == step.i {
        assert next.readers[j].read.legacyRaw == None;
      }
    }
  }

  lemma ReleaseKeepsDoomed(p: Point, step: Step, name: string)
    requires Doomed(p, name) && step.MigrationSettle? && step.name == name && Enabled(p.s, step)
    requires InStep(StepFrom(p, step, name), name) && Sound(NextLane(p.s, step, name))
    requires NotPending(Apply(p.s, step), name)
    ensures Doomed(StepFrom(p, step, name), name)
  {
    var lane, next := LaneAt(p, name), NextLane(p.s, step, name);
    assert Waiters(next) == Waiters(lane) + [] && next.writes == lane.writes && next.readers == lane.readers;
    NothingHanded(lane, next, p.ops);
  }

  lemma RemovalKeepsDoomed(p: Point, step: Step, name: string)
    requires Doomed(p, name) && step.RemoveItem? && step.name == name
    requires InStep(StepFrom(p, step, name), name) && Sound(NextLane(p.s, step, name))
    requires NotPending(Apply(p.s, step), name)
    ensures Doomed(StepFrom(p, step, name), name)
  {
    var lane, next := LaneAt(p, name), NextLane(p.s, step, name);
    assert next.writes == lane.writes && next.readers == lane.readers;
    if lane.migration.Some? {
      assert Waiters(next) == Waiters(lane) + [ParkedRemoval];
      NothingHanded(lane, next, p.ops);
    } else {
      OneRemovalHanded(lane, next, p.ops);
    }
  }

  lemma OtherNameKeepsDoomed(p: Point, step: Step, name: string)
    requires Doomed(p, name) && Enabled(p.s, step) && !step.NewSession? && Target(p.s, step) != Some(name)
    requires Calm(step, name)
    requires NotPending(Apply(p.s, step), name)
    ensures Doomed(StepFrom(p, step, name), name)
  {
    OtherNameStep(p, step, name, false);
  }

  lemma StepKeepsDoomed(p: Point, step: Step, name: string)
    requires Doomed(p, name) && Enabled(p.s, step) && Allowed(p, step, name, true)
    ensures Doomed(StepFrom(p, step, name), name)
  {
    StepKeepsInStep(p, step, name, true);
    SoundIsKept(p.s, step, name);
    PendingStaysAway(p.s, step, name);
    if Target(p.s, step) != Some(name) {
      OtherNameKeepsDoomed(p, step, name);
    } else if TakesEffect(step, name) {
      EffectKeepsDoomed(p, step, name);
    } else if IsReadStep(step) {
      ReadKeepsDoomed(p, step, name);
    } else {
      match step
      case Settle(_, i, lands) => SettleKeepsDoomed(p, name, i, lands);
      case Resume(_, now, lands) =>
        if LaneAt(p, name).released[0].ParkedWrite? {
          WriteStartsDoomed(p, name, now, lands);
        } else {
          RemovalRunsDoomed(p, name, now, lands);
        }
      case Flush(_, _) =>
      case MigrationSettle(_) => ReleaseKeepsDoomed(p, step, name);
      case _ => RemovalKeepsDoomed(p, step, name);
    }
  }

  lemma MoveKeepsDoomed(p: Point, q: Point, name: string)
    requires Moves(p, q, name, true) && Doomed(p, name)
    ensures Doomed(q, name)
  {
    var step :| Enabled(p.s, step) && Allowed(p, step, name, true) && q == StepFrom(p, step, name);
    StepKeepsDoomed(p, step, name);
  }

  lemma {:induction false} PathKeepsDoomed(points: seq<Point>, name: string)
    requires Path(points, name, true) && Doomed(points[0], name)
    ensures Doomed(Last(points), name)
    decreases |points|
  {
    if |points| > 1 {
      var p, q := points[0], points[1];
      assert Moves(p, q, name, true);
      MoveKeepsDoomed(p, q, name);
      PathKeepsDoomed(points[1..], name);
    }
  }

  // --- the exact condition --------------------------------------------------------------------------

  /** The removal itself comes after every write that waits: it is attached to the copy in flight, or
      nothing is released, or a removal is the last thing released. */
  predicate RemovalComesLast(lane: Lane) {
    lane.migration.Some? || RemovalLast(lane.released)
  }

  lemma RemovalDooms(s: State, name: string, ops: seq<Op>)
    requires Sound(LaneOf(s, name)) && Matches(ops, LaneOf(s, name))
    requires NoLegacyPick(LaneOf(s, name)) && RemovalComesLast(LaneOf(s, name))
    ensures Doomed(StepFrom(Point(s, ops), RemoveItem(name), name), name)
  {
    var p := StepFrom(Point(s, ops), RemoveItem(name), name);
    var lane, next := LaneOf(s, name), LaneAt(p, name);
    OrderMatches(s, RemoveItem(name), name, ops);
    SoundIsKept(s, RemoveItem(name), name);
    if lane.migration.None? {
      assert Waiters(next) == lane.released + [];
      OneRemovalHanded(lane, next, ops);
    } else {
      assert Waiters(next) == lane.released + lane.parked + [ParkedRemoval];
    }
  }

  /** When everything commits in the order of issue and the latch does not trip, a removal is final,
      whatever is parked, exactly when no read has picked the fallback copy and no write has been
      released behind the last removal. */
  lemma CommittedRemovalIsFinalExactly(s: State, name: string, ops: seq<Op>)
    requires Sound(LaneOf(s, name)) && Matches(ops, LaneOf(s, name)) && !s.broken
    ensures FinalInOrder(s, name, ops, true) <==> NoLegacyPick(LaneOf(s, name)) && RemovalComesLast(LaneOf(s, name))
  {
    var lane := LaneOf(s, name);
    if NoLegacyPick(lane) && RemovalComesLast(lane) {
      RemovalDooms(s, name, ops);
      var p := StepFrom(Point(s, ops), RemoveItem(name), name);
      forall q | Reaches(p, q, name, true) && Settled(LaneAt(q, name)) ensures Gone(LaneAt(q, name)) {
        var points :| Path(points, name, true) && points[0] == p && Last(points) == q;
        PathKeepsDoomed(points, name);
      }
    } else {
      var p := RemovedPoint(s, name, ops);
      if !NoLegacyPick(lane) {
        var i :| 0 <= i < |lane.readers| && PicksLegacy(lane.readers[i]);
        var q := PickComesBack(p, name, i);
        NotFinal(s, name, ops, q, true);
      } else {
        var q := ReleasedWriteComesBack(p, name);
        NotFinal(s, name, ops, q, true);
      }
    }
  }
}
