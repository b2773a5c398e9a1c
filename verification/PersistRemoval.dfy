/** removeItem is final: neither a started write nor a started copy that was in flight at the
    removal brings the key back. */
module PersistRemoval {
  import opened StampedCopy
  import opened Seqs
  import opened PersistProtocol

  // --- reachable lanes ------------------------------------------------------------------------------

  predicate PicksLegacy(reader: ReadOp) {
    reader.Picked? && reader.read.source == FromLegacy
  }

  /** No write carries a generation the lane has not reached; writes and removals park only behind a
      migration, and it is cancelled exactly when a removal has; a read that picked the fallback copy
      holds its bytes. */
  predicate Sound(lane: Lane) {
    && (forall i :: 0 <= i < |lane.writes| ==> lane.writes[i].generation <= lane.generation)
    && (if lane.migration.None? then lane.parked == []
        else lane.migration.value.cancelled <==> ParkedRemoval in lane.parked)
    && (forall i :: 0 <= i < |lane.readers| && PicksLegacy(lane.readers[i]) ==> lane.readers[i].read.legacyRaw.Some?)
  }

  lemma SoundAfterStart(s: State, step: Step, name: string)
    requires Enabled(s, step) && Sound(LaneOf(s, name)) && (step.SetItem? || step.Flush? || step.Resume?)
        && Target(s, step) == Some(name)
    ensures Sound(LaneOf(Apply(s, step), name))
  {
  }

  lemma SoundAfterOutcome(s: State, step: Step, name: string)
    requires Enabled(s, step) && Sound(LaneOf(s, name)) && (step.Outcome? || step.Settle?)
        && Target(s, step) == Some(name)
    ensures Sound(LaneOf(Apply(s, step), name))
  {
  }

  lemma PicksHoldBytes(s: State, step: Step, name: string, j: nat)
    requires Enabled(s, step) && Sound(LaneOf(s, name)) && IsReadStep(step) && Target(s, step) == Some(name)
    requires j < |LaneOf(Apply(s, step), name).readers| && PicksLegacy(LaneOf(Apply(s, step), name).readers[j])
    ensures LaneOf(Apply(s, step), name).readers[j].read.legacyRaw.Some?
  {
    var lane, next := LaneOf(s, name), LaneOf(Apply(s, step), name);
    if step.FinishRead? {
      assert next.readers[j] == lane.readers[if j < step.i then j else j + 1];
    } else if j < |lane.readers| && next.readers[j] == lane.readers[j] {
      assert PicksLegacy(lane.readers[j]);
    }
  }

  lemma SoundAfterRead(s: State, step: Step, name: string)
    requires Enabled(s, step) && Sound(LaneOf(s, name)) && IsReadStep(step) && Target(s, step) == Some(name)
    ensures Sound(LaneOf(Apply(s, step), name))
  {
    var lane, next := LaneOf(s, name), LaneOf(Apply(s, step), name);
    assert next.writes == lane.writes && next.parked == lane.parked && next.generation == lane.generation;
    assert next.migration == lane.migration
        || (lane.parked == [] && next.migration.Some? && !next.migration.value.cancelled);
    forall j | 0 <= j < |next.readers| && PicksLegacy(next.readers[j]) ensures next.readers[j].read.legacyRaw.Some? {
      PicksHoldBytes(s, step, name, j);
    }
  }

  lemma SoundAfterOtherStep(s: State, step: Step, name: string)
    requires Enabled(s, step) && Sound(LaneOf(s, name)) && !IsWriteStep(step) && !IsReadStep(step)
    requires step.NewSession? || Target(s, step) == Some(name)
    ensures Sound(LaneOf(Apply(s, step), name))
  {
  }

  lemma SoundIsKept(s: State, step: Step, name: string)
    requires Enabled(s, step) && Sound(LaneOf(s, name))
    ensures Sound(LaneOf(Apply(s, step), name))
  {
    if !step.NewSession? && Target(s, step) != Some(name) {
      OtherLanesUntouched(s, step, name);
    } else if step.SetItem? || step.Flush? || step.Resume? {
      SoundAfterStart(s, step, name);
    } else if step.Outcome? || step.Settle? {
      SoundAfterOutcome(s, step, name);
    } else if IsReadStep(step) {
      SoundAfterRead(s, step, name);
    } else {
      SoundAfterOtherStep(s, step, name);
    }
  }

  lemma {:induction false} SoundAlways(s: State, steps: seq<Step>, name: string)
    requires Legal(s, steps) && Sound(LaneOf(s, name))
    ensures Sound(LaneOf(Run(s, steps), name))
    decreases |steps|
  {
    if steps != [] {
      SoundIsKept(s, steps[0], name);
      SoundAlways(Apply(s, steps[0]), steps[1..], name);
    }
  }

  // --- the safety half --------------------------------------------------------------------------

  /** The name is not written again, the session goes on, and issued deletes of it succeed. */
  predicate Calm(step: Step, name: string) {
    && (step.SetItem? ==> step.name != name)
    && !step.NewSession?
    && (step.DeleteBlob? || step.DeleteStamp? ==> step.name != name || step.commits)
  }

  predicate AllCalm(steps: seq<Step>, name: string) {
    forall i :: 0 <= i < |steps| ==> Calm(steps[i], name)
  }

  predicate OnlyRemovals(waiters: seq<Waiter>) {
    forall i :: 0 <= i < |waiters| ==> waiters[i].ParkedRemoval?
  }

  /** No write waits behind a migration. */
  predicate NoneParked(lane: Lane) {
    OnlyRemovals(lane.parked) && OnlyRemovals(lane.released)
  }

  /** No read has picked a fallback copy and not yet acted on it. */
  predicate NoLegacyPick(lane: Lane) {
    forall i :: 0 <= i < |lane.readers| ==> !PicksLegacy(lane.readers[i])
  }

  predicate Settled(lane: Lane) {
    && lane.writes == [] && lane.parked == [] && lane.released == [] && lane.readers == []
    && lane.migration == None && lane.blobDeletes == 0 && lane.stampDeletes == 0
  }

  /** Neither store holds the blob or its stamp. */
  predicate Gone(lane: Lane) {
    lane.backBlob == None && lane.backStamp == None && lane.legBlob == None && lane.legStamp == None
  }

  predicate AnyCommitted(writes: seq<Write>) {
    exists i :: 0 <= i < |writes| && writes[i].stage == Committed
  }

  /** Some work in flight will still issue or commit a delete of the backing cells. */
  predicate CleanupComing(lane: Lane, deletes: nat) {
    deletes > 0 || lane.parked != [] || lane.released != [] || AnyCommitted(lane.writes)
  }

  predicate AllOlder(writes: seq<Write>, generation: nat) {
    forall i :: 0 <= i < |writes| ==> writes[i].generation < generation
  }

  /** What holds from the removal on, although the backing may hold the key again for a while. A
      session that has given the backing up starts no copies, so its picks do no harm. */
  predicate Dead(lane: Lane, broken: bool) {
    && lane.legBlob == None && lane.legStamp == None
    && NoneParked(lane) && (broken || NoLegacyPick(lane)) && AllOlder(lane.writes, lane.generation)
    && (lane.migration.Some? ==> lane.migration.value.cancelled && lane.parked != [])
    && (lane.backBlob.Some? ==> CleanupComing(lane, lane.blobDeletes))
    && (lane.backStamp.Some? ==> CleanupComing(lane, lane.stampDeletes))
  }

  predicate NotPending(s: State, name: string) {
    s.pending.Some? ==> s.pending.value.name != name
  }

  lemma OutcomeKeepsDead(s: State, name: string, i: nat, commits: bool)
    requires Dead(LaneOf(s, name), s.broken) && Enabled(s, Outcome(name, i, commits))
    ensures Dead(LaneOf(Apply(s, Outcome(name, i, commits)), name), Apply(s, Outcome(name, i, commits)).broken)
  {
    var lane, next := LaneOf(s, name), LaneOf(Apply(s, Outcome(name, i, commits)), name);
    assert commits ==> next.writes[i].stage == Committed;
    forall j | 0 <= j < |lane.writes| && lane.writes[j].stage == Committed
      ensures AnyCommitted(next.writes)
    {
      assert next.writes[j].stage == Committed;
    }
  }

  lemma DroppingOneWrite(writes: seq<Write>, i: nat, generation: nat)
    requires i < |writes| && AllOlder(writes, generation)
    ensures AllOlder(Removed(writes, i), generation)
    ensures writes[i].stage != Committed && AnyCommitted(writes) ==> AnyCommitted(Removed(writes, i))
  {
    var rest := Removed(writes, i);
    forall j | 0 <= j < |rest| ensures rest[j].generation < generation {
      assert rest[j] == writes[if j < i then j else j + 1];
    }
    if writes[i].stage != Committed && AnyCommitted(writes) {
      var j :| 0 <= j < |writes| && writes[j].stage == Committed;
      assert rest[if j < i then j else j - 1] == writes[j];
    }
  }

  lemma SettleKeepsDead(s: State, name: string, i: nat, lands: bool)
    requires Dead(LaneOf(s, name), s.broken) && Enabled(s, Settle(name, i, lands))
    ensures Dead(LaneOf(Apply(s, Settle(name, i, lands)), name), Apply(s, Settle(name, i, lands)).broken)
  {
    var lane := LaneOf(s, name);
    DroppingOneWrite(lane.writes, i, lane.generation);
    assert lane.generation != lane.writes[i].generation;
  }

  lemma ReadKeepsDead(s: State, step: Step, name: string)
    requires Dead(LaneOf(s, name), s.broken) && Enabled(s, step) && Target(s, step) == Some(name)
    requires IsReadStep(step)
    ensures Dead(LaneOf(Apply(s, step), name), Apply(s, step).broken)
  {
    var lane, next := LaneOf(s, name), LaneOf(Apply(s, step), name);
    if step.ReadLegacy? {
      assert next.readers[step.i].read.legacyRaw == None;
    } else if step.FinishRead? {
      forall j | 0 <= j < |next.readers| ensures PicksLegacy(next.readers[j]) ==> !NoLegacyPick(lane) {
        assert next.readers[j] == lane.readers[if j < step.i then j else j + 1];
      }
    }
  }

  lemma CopyKeepsDead(s: State, step: Step, name: string)
    requires Dead(LaneOf(s, name), s.broken) && Enabled(s, step) && Target(s, step) == Some(name)
    requires step.MigrationOutcome? || step.MigrationSettle? || step.Resume?
    ensures Dead(LaneOf(Apply(s, step), name), Apply(s, step).broken)
  {
    var lane, next := LaneOf(s, name), LaneOf(Apply(s, step), name);
    assert step.Resume? ==> lane.released[0].ParkedRemoval?;
    assert next.writes == lane.writes && next.readers == lane.readers && next.generation == lane.generation;
  }

  lemma RemovalKeepsDead(s: State, step: Step, name: string)
    requires Dead(LaneOf(s, name), s.broken) && Enabled(s, step) && Calm(step, name) && Target(s, step) == Some(name)
    requires step.RemoveItem? || step.DeleteBlob? || step.DeleteStamp?
    ensures Dead(LaneOf(Apply(s, step), name), Apply(s, step).broken)
  {
  }

  lemma PendingStaysAway(s: State, step: Step, name: string)
    requires NotPending(s, name) && Enabled(s, step) && Calm(step, name)
    ensures NotPending(Apply(s, step), name)
  {
  }

  /** Late commits, late callbacks, late reads and the cancelled migration all keep the key dead. */
  lemma DeadStaysDead(s: State, step: Step, name: string)
    requires Dead(LaneOf(s, name), s.broken) && NotPending(s, name) && Enabled(s, step) && Calm(step, name)
    ensures Dead(LaneOf(Apply(s, step), name), Apply(s, step).broken) && NotPending(Apply(s, step), name)
  {
    PendingStaysAway(s, step, name);
    if Target(s, step) != Some(name) {
      OtherLanesUntouched(s, step, name);
    } else {
      match step
      case Outcome(_, i, commits) => OutcomeKeepsDead(s, name, i, commits);
      case Settle(_, i, lands) => SettleKeepsDead(s, name, i, lands);
      case BeginRead(_) => ReadKeepsDead(s, step, name);
      case ReadBacking(_, _, _) => ReadKeepsDead(s, step, name);
      case ReadLegacy(_, _, _) => ReadKeepsDead(s, step, name);
      case FinishRead(_, _) => ReadKeepsDead(s, step, name);
      case RemoveItem(_) => RemovalKeepsDead(s, step, name);
      case DeleteBlob(_, _) => RemovalKeepsDead(s, step, name);
      case DeleteStamp(_, _) => RemovalKeepsDead(s, step, name);
      case Flush(_, _) =>
      case _ => CopyKeepsDead(s, step, name);
    }
  }

  lemma {:induction false} DeadForever(s: State, steps: seq<Step>, name: string)
    requires Dead(LaneOf(s, name), s.broken) && NotPending(s, name) && Legal(s, steps) && AllCalm(steps, name)
    ensures Dead(LaneOf(Run(s, steps), name), Run(s, steps).broken)
    decreases |steps|
  {
    if steps != [] {
      DeadStaysDead(s, steps[0], name);
      DeadForever(Apply(s, steps[0]), steps[1..], name);
    }
  }

  /** After removeItem, in every interleaving of what was in flight: the fallback store never holds
      the key again, and once everything has settled neither store does. */
  lemma RemovalIsFinal(s: State, steps: seq<Step>, name: string)
    requires Sound(LaneOf(s, name)) && NoneParked(LaneOf(s, name)) && (s.broken || NoLegacyPick(LaneOf(s, name)))
    requires Legal(Apply(s, RemoveItem(name)), steps) && AllCalm(steps, name)
    ensures var lane := LaneOf(Run(Apply(s, RemoveItem(name)), steps), name);
            && lane.legBlob == None && lane.legStamp == None
            && (Settled(lane) ==> Gone(lane))
  {
    var removed := Apply(s, RemoveItem(name));
    assert Dead(LaneOf(removed, name), removed.broken);
    DeadForever(removed, steps, name);
  }

}
