/** Reads that fail. A failed read of a store counts as an empty store, so a repair may copy the fallback
    over a newer primary copy. Reading and repairing with any pattern of failing reads keeps the newest
    bytes exactly when there is no fallback copy, or it carries the newest bytes itself. */
module PersistReads {
  import opened StampedCopy
  import opened Seqs
  import opened PersistProtocol
  import opened PersistDiscipline
  import opened PersistNewest
  import opened PersistLimits

  /** A step that only reads, repairs, or concerns other names; its reads may fail. */
  predicate ReadingStep(s: State, step: Step, name: string) {
    Target(s, step) == Some(name) ==> IsReadStep(step) || step.MigrationOutcome? || step.MigrationSettle?
  }

  predicate ReadingRun(s: State, steps: seq<Step>, name: string)
    requires Legal(s, steps)
    decreases |steps|
  {
    steps != [] ==> ReadingStep(s, steps[0], name) && ReadingRun(Apply(s, steps[0]), steps[1..], name)
  }

  // --- without a fallback copy ----------------------------------------------------------------------

  /** No fallback copy, and nobody believes there was one. */
  predicate Unrivalled(lane: Lane, blob: Option<string>, stamp: Option<string>) {
    && lane.backBlob == blob && lane.backStamp == stamp && lane.legBlob == None
    && Quiet(lane) && lane.migration.None?
    && forall i :: 0 <= i < |lane.readers| && lane.readers[i].Picked? ==> lane.readers[i].read.legacyRaw == None
  }

  lemma UnrivalledStays(s: State, step: Step, name: string, blob: Option<string>, stamp: Option<string>)
    requires Unrivalled(LaneOf(s, name), blob, stamp) && Enabled(s, step) && ReadingStep(s, step, name)
    ensures Unrivalled(LaneOf(Apply(s, step), name), blob, stamp)
  {
    var lane, next := LaneOf(s, name), LaneOf(Apply(s, step), name);
    if !step.NewSession? && Target(s, step) != Some(name) {
      OtherLanesUntouched(s, step, name);
    } else if step.FinishRead? {
      forall j | 0 <= j < |next.readers| ensures next.readers[j] == lane.readers[if j < step.i then j else j + 1] {
      }
    }
  }

  lemma {:induction false} UnrivalledAlways(s: State, steps: seq<Step>, name: string, blob: Option<string>,
                                            stamp: Option<string>)
    requires Unrivalled(LaneOf(s, name), blob, stamp) && Legal(s, steps) && ReadingRun(s, steps, name)
    ensures Unrivalled(LaneOf(Run(s, steps), name), blob, stamp)
    decreases |steps|
  {
    if steps != [] {
      UnrivalledStays(s, steps[0], name, blob, stamp);
      UnrivalledAlways(Apply(s, steps[0]), steps[1..], name, blob, stamp);
    }
  }

  // --- the fallback copy carries the newest bytes ---------------------------------------------------

  predicate BackHas(lane: Lane, raw: string) {
    Raw(Back(lane)) == Some(raw)
  }

  /** What a reader found in the backing: nothing, something older than the copy, or its bytes. */
  predicate Harmless(lane: Lane, found: Option<Copy>, c: Copy) {
    OlderThan(found, c.stamp) || (Raw(found) == Some(c.raw) && BackHas(lane, c.raw))
  }

  predicate ReaderCarries(lane: Lane, reader: ReadOp, c: Copy) {
    match reader
    case Issued => true
    case BackingRead(blob, stamp) => Harmless(lane, BackingCopy(blob, stamp), c)
    case Picked(read) =>
      && (read.legacyRaw.Some? ==> read.legacyRaw == Some(c.raw) && read.legacyStamp == c.stamp)
      && (read.source == FromBacking && read.legacyRaw.Some? ==> BackHas(lane, c.raw))
  }

  /** The fallback holds c or nothing, the backing its bytes or something older. */
  predicate Carries(lane: Lane, c: Copy) {
    && Quiet(lane) && (Leg(lane) == None || Leg(lane) == Some(c))
    && (BackHas(lane, c.raw) || (Leg(lane) == Some(c) && OlderThan(Back(lane), c.stamp)))
    && (forall i :: 0 <= i < |lane.readers| ==> ReaderCarries(lane, lane.readers[i], c))
    && (lane.migration.Some? ==>
          var m := lane.migration.value;
          m.raw == c.raw && m.stamp == c.stamp && (m.stage == Committed ==> BackHas(lane, c.raw)))
  }

  lemma CarriesAreRead(lane: Lane, c: Copy)
    requires Carries(lane, c)
    ensures FreshRead(lane).raw == Some(c.raw)
  {
    JudgeReturnsTheNewer(lane.backBlob, lane.backStamp, lane.legBlob, lane.legStamp);
  }

  lemma BeginCarries(s: State, step: Step, name: string, c: Copy)
    requires Carries(LaneOf(s, name), c) && Enabled(s, step) && (step.BeginRead? || step.ReadBacking?)
        && step.name == name
    ensures Carries(LaneOf(Apply(s, step), name), c)
  {
    var lane, next := LaneOf(s, name), LaneOf(Apply(s, step), name);
    forall j | 0 <= j < |next.readers| ensures ReaderCarries(next, next.readers[j], c) {
      if j < |lane.readers| && next.readers[j] == lane.readers[j] {
        assert ReaderCarries(lane, lane.readers[j], c);
      }
    }
  }

  lemma PickCarries(lane: Lane, i: nat, ok: bool, c: Copy)
    requires Carries(lane, c) && i < |lane.readers| && lane.readers[i].BackingRead?
    ensures ReaderCarries(lane, Picked(ReadResult(lane, i, ok)), c)
  {
    assert ReaderCarries(lane, lane.readers[i], c);
    var blob, stamp := if ok then lane.legBlob else None, if ok then lane.legStamp else None;
    JudgeReturnsTheNewer(lane.readers[i].blob, lane.readers[i].stamp, blob, stamp);
  }

  lemma LegacyReadCarries(s: State, name: string, i: nat, ok: bool, c: Copy)
    requires Carries(LaneOf(s, name), c) && Enabled(s, ReadLegacy(name, i, ok))
    ensures Carries(LaneOf(Apply(s, ReadLegacy(name, i, ok)), name), c)
  {
    var lane, next := LaneOf(s, name), LaneOf(Apply(s, ReadLegacy(name, i, ok)), name);
    PickCarries(lane, i, ok, c);
    forall j | 0 <= j < |next.readers| ensures ReaderCarries(next, next.readers[j], c) {
      assert ReaderCarries(lane, if j == i then next.readers[j] else lane.readers[j], c);
    }
  }

  lemma FinishCarries(s: State, name: string, i: nat, c: Copy)
    requires Carries(LaneOf(s, name), c) && Enabled(s, FinishRead(name, i))
    ensures Carries(LaneOf(Apply(s, FinishRead(name, i)), name), c)
  {
    var lane, next := LaneOf(s, name), LaneOf(CompleteRead(s, name, i), name);
    assert ReaderCarries(lane, lane.readers[i], c);
    assert Back(next) == Back(lane);
    forall j | 0 <= j < |next.readers| ensures ReaderCarries(next, next.readers[j], c) {
      assert next.readers[j] == lane.readers[if j < i then j else j + 1];
      assert ReaderCarries(lane, next.readers[j], c);
    }
  }

  lemma CopyCarries(s: State, step: Step, name: string, c: Copy)
    requires Carries(LaneOf(s, name), c) && Enabled(s, step)
    requires (step.MigrationOutcome? || step.MigrationSettle?) && step.name == name
    ensures Carries(LaneOf(Apply(s, step), name), c)
  {
    var lane, next := LaneOf(s, name), LaneOf(Apply(s, step), name);
    assert BackHas(lane, c.raw) ==> BackHas(next, c.raw);
    forall j | 0 <= j < |next.readers| ensures ReaderCarries(next, next.readers[j], c) {
      assert ReaderCarries(lane, lane.readers[j], c);
    }
  }

  lemma CarriesStays(s: State, step: Step, name: string, c: Copy)
    requires Carries(LaneOf(s, name), c) && Enabled(s, step) && ReadingStep(s, step, name)
    ensures Carries(LaneOf(Apply(s, step), name), c)
  {
    if step.NewSession? {
      assert LaneOf(Apply(s, step), name) == EndSession(LaneOf(s, name));
    } else if Target(s, step) != Some(name) {
      OtherLanesUntouched(s, step, name);
    } else {
      match step
      case ReadLegacy(_, i, ok) => LegacyReadCarries(s, name, i, ok, c);
      case FinishRead(_, i) => FinishCarries(s, name, i, c);
      case MigrationOutcome(_, _) => CopyCarries(s, step, name, c);
      case MigrationSettle(_) => CopyCarries(s, step, name, c);
      case _ => BeginCarries(s, step, name, c);
    }
  }

  lemma {:induction false} CarriesAlways(s: State, steps: seq<Step>, name: string, c: Copy)
    requires Carries(LaneOf(s, name), c) && Legal(s, steps) && ReadingRun(s, steps, name)
    ensures Carries(LaneOf(Run(s, steps), name), c)
    decreases |steps|
  {
    if steps != [] {
      CarriesStays(s, steps[0], name, c);
      CarriesAlways(Apply(s, steps[0]), steps[1..], name, c);
    }
  }

  // --- the exact condition --------------------------------------------------------------------------

  /** Whatever reads fail and whatever copies commit, a fresh read returns the same bytes throughout. */
  ghost predicate ReadsLoseNothing(s: State, name: string) {
    forall steps :: Legal(s, steps) && ReadingRun(s, steps, name) ==>
      FreshRead(LaneOf(Run(s, steps), name)).raw == FreshRead(LaneOf(s, name)).raw
  }

  /** The failing run: in a new session, one read whose backing half fails, and its repair. */
  lemma FailingRunIsReading(s: State, name: string) returns (steps: seq<Step>)
    requires Untouched(LaneOf(s, name)) && Leg(LaneOf(s, name)).Some?
    ensures Legal(s, steps) && ReadingRun(s, steps, name)
    ensures FreshRead(LaneOf(Run(s, steps), name)).raw == FreshRead(LaneOf(s, name)).raw
            ==> FreshRead(LaneOf(s, name)).raw == Some(Leg(LaneOf(s, name)).value.raw)
  {
    var renewed := Apply(s, NewSession);
    assert LaneOf(renewed, name) == EndSession(LaneOf(s, name));
    var rest := FailedBackingRead(renewed, name);
    FailingRunIsReads(renewed, name, rest);
    steps := [NewSession] + rest;
    assert steps[1..] == rest;
  }

  lemma FailingRunIsReads(s: State, name: string, steps: seq<Step>)
    requires Legal(s, steps)
    requires steps == FailingRead(name) + [MigrationOutcome(name, true), MigrationSettle(name)]
    ensures ReadingRun(s, steps, name)
  {
    AllReadsAreReading(s, steps, name);
  }

  lemma {:induction false} AllReadsAreReading(s: State, steps: seq<Step>, name: string)
    requires Legal(s, steps)
    requires forall i :: 0 <= i < |steps| ==>
        IsReadStep(steps[i]) || steps[i].MigrationOutcome? || steps[i].MigrationSettle?
    ensures ReadingRun(s, steps, name)
    decreases |steps|
  {
    if steps != [] {
      AllReadsAreReading(Apply(s, steps[0]), steps[1..], name);
    }
  }

  lemma FailingReadsAreHarmlessExactly(s: State, name: string)
    requires Untouched(LaneOf(s, name))
    ensures var was := LaneOf(s, name);
            ReadsLoseNothing(s, name) <==> Leg(was).None? || FreshRead(was).raw == Some(Leg(was).value.raw)
  {
    var was := LaneOf(s, name);
    JudgeReturnsTheNewer(was.backBlob, was.backStamp, was.legBlob, was.legStamp);
    if Leg(was).None? {
      forall steps | Legal(s, steps) && ReadingRun(s, steps, name)
        ensures FreshRead(LaneOf(Run(s, steps), name)).raw == FreshRead(was).raw
      {
        UnrivalledAlways(s, steps, name, was.backBlob, was.backStamp);
      }
    } else if FreshRead(was).raw == Some(Leg(was).value.raw) {
      var c := Leg(was).value;
      forall steps | Legal(s, steps) && ReadingRun(s, steps, name)
        ensures FreshRead(LaneOf(Run(s, steps), name)).raw == FreshRead(was).raw
      {
        CarriesAlways(s, steps, name, c);
        CarriesAreRead(LaneOf(Run(s, steps), name), c);
      }
    } else {
      var steps := FailingRunIsReading(s, name);
    }
  }
}
