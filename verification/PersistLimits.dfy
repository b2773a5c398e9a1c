/** Where the guarantees of the persistence protocol end. For each thing the discipline of
    PersistNewest asks for, a run that does without it and the exact condition under which the newest
    value is read all the same: a failing read, a write before the first read, a fallback that does
    not land, a read during a write, a demoted write that overtakes. Then two runs that break a
    removal; PersistReturn and PersistRewrite say exactly when such runs exist. */
module PersistLimits {
  import opened StampedCopy
  import opened Seqs
  import opened PersistProtocol
  import opened PersistDiscipline
  import opened PersistNewest
  import opened PersistRemoval

  /** A read whose backing half fails treats the backing as empty. The fallback copy is then copied
      over whatever the backing holds; that is harmless exactly when there is none, or it carries the
      newest bytes already. */
  lemma FailedBackingRead(s: State, name: string) returns (steps: seq<Step>)
    requires Untouched(LaneOf(s, name)) && !s.broken
    ensures steps == FailingRead(name)
                     + (if Leg(LaneOf(s, name)).Some? then [MigrationOutcome(name, true), MigrationSettle(name)]
                        else [])
    ensures Legal(s, steps)
    ensures var was, lane := LaneOf(s, name), LaneOf(Run(s, steps), name);
            && Untouched(lane)
            && (FreshRead(lane).raw == FreshRead(was).raw
                <==> Leg(was).None? || FreshRead(was).raw == Some(Leg(was).value.raw))
  {
    var was := LaneOf(s, name);
    JudgeReturnsTheNewer(was.backBlob, was.backStamp, was.legBlob, was.legStamp);
    steps := ReadFailing(s, name);
    if Leg(was).Some? {
      steps := ThenCopyForward(s, steps, name);
    }
    var lane := LaneOf(Run(s, steps), name);
    JudgeReturnsTheNewer(lane.backBlob, lane.backStamp, lane.legBlob, lane.legStamp);
  }

  /** A whole read whose backing half fails. */
  function FailingRead(name: string): seq<Step> {
    [BeginRead(name), ReadBacking(name, 0, false), ReadLegacy(name, 0, true), FinishRead(name, 0)]
  }

  /** It starts to copy the fallback forward when there is one. */
  lemma ReadFailing(s: State, name: string) returns (steps: seq<Step>)
    requires Untouched(LaneOf(s, name)) && !s.broken
    ensures steps == FailingRead(name) && Legal(s, steps)
    ensures var was, lane := LaneOf(s, name), LaneOf(Run(s, steps), name);
            lane == if Leg(was).None? then was
                    else was.(migration := Some(Migration(Leg(was).value.raw, Leg(was).value.stamp, Running, false)))
  {
    var was := LaneOf(s, name);
    JudgeReturnsTheNewer(None, None, was.legBlob, was.legStamp);
    steps := Then(s, [], BeginRead(name));
    steps := Then(s, steps, ReadBacking(name, 0, false));
    steps := Then(s, steps, ReadLegacy(name, 0, true));
    steps := Then(s, steps, FinishRead(name, 0));
  }

  /** setItem and the flush behind it, with nothing in the way. */
  lemma ThenWrite(s: State, steps: seq<Step>, name: string, value: string, now: int) returns (longer: seq<Step>)
    requires Legal(s, steps)
    requires LaneOf(Run(s, steps), name).released == [] && LaneOf(Run(s, steps), name).migration.None?
    ensures longer == steps + [SetItem(name, value), Flush(now, true)] && Legal(s, longer)
    ensures var before, after := Run(s, steps), Run(s, longer);
            var lane, stamp := LaneOf(before, name), NextStamp(before.lastStamp, now);
            && after.lastStamp == stamp && after.broken == before.broken && after.failures == before.failures
            && LaneOf(after, name)
               == if before.broken then WriteThrough(lane, value, stamp, true)
                  else lane.(writes := lane.writes + [Write(value, stamp, lane.generation, Running)])
  {
    longer := Then(s, steps, SetItem(name, value));
    longer := Then(s, longer, Flush(now, true));
  }

  /** The outcome and the callback of the only write in flight. */
  lemma ThenSettle(s: State, steps: seq<Step>, name: string, commits: bool) returns (longer: seq<Step>)
    requires Legal(s, steps) && |LaneOf(Run(s, steps), name).writes| == 1
    requires var lane := LaneOf(Run(s, steps), name);
             lane.writes[0].stage == Running && lane.writes[0].generation == lane.generation
    ensures longer == steps + [Outcome(name, 0, commits), Settle(name, 0, true)] && Legal(s, longer)
    ensures var before, after := Run(s, steps), Run(s, longer);
            if commits then after.broken == before.broken
            else after.broken == (before.broken || before.failures + 1 >= BACKING_BROKEN_THRESHOLD)
    ensures var lane := LaneOf(Run(s, steps), name);
            var w := lane.writes[0];
            LaneOf(Run(s, longer), name)
            == if commits then CommitToBacking(lane, w.raw, w.stamp).(writes := [])
               else WriteThrough(lane, w.raw, w.stamp, true).(writes := [])
  {
    longer := Then(s, steps, Outcome(name, 0, commits));
    var lane := LaneOf(Run(s, longer), name);
    assert Removed(lane.writes, 0) == [];
    longer := Then(s, longer, Settle(name, 0, true));
  }

  /** A write before the session has read the name may be stamped below what is on disk. It is read
      next exactly when the copy in the other store does not outrank it, or has the same bytes. */
  lemma WriteBeforeRead(s: State, name: string, value: string, now: int, commits: bool) returns (steps: seq<Step>)
    requires Untouched(LaneOf(s, name)) && !s.broken
    ensures steps == [SetItem(name, value), Flush(now, true), Outcome(name, 0, commits), Settle(name, 0, true)]
    ensures Legal(s, steps)
    ensures var was, lane := LaneOf(s, name), LaneOf(Run(s, steps), name);
            var other, stamp := if commits then Leg(was) else Back(was), NextStamp(s.lastStamp, now);
            && Untouched(lane)
            && (FreshRead(lane).raw == Some(value)
                <==> || other.None? || other.value.raw == value
                     || (if commits then other.value.stamp <= stamp else other.value.stamp < stamp))
  {
    EnvelopeRoundTrip(value, NextStamp(s.lastStamp, now));
    steps := ThenWrite(s, [], name, value, now);
    steps := ThenSettle(s, steps, name, commits);
    var lane := LaneOf(Run(s, steps), name);
    JudgeReturnsTheNewer(lane.backBlob, lane.backStamp, lane.legBlob, lane.legStamp);
  }

  /** A failed write whose fallback does not fit the quota is dropped. */
  lemma FallbackThatDoesNotLand(s: State, name: string, value: string, now: int, commits: bool, lands: bool)
    returns (steps: seq<Step>)
    requires Untouched(LaneOf(s, name)) && Floored(LaneOf(s, name), s.lastStamp) && !s.broken
    ensures steps == [SetItem(name, value), Flush(now, true), Outcome(name, 0, commits), Settle(name, 0, lands)]
    ensures Legal(s, steps)
    ensures var was, lane := LaneOf(s, name), LaneOf(Run(s, steps), name);
            && Untouched(lane)
            && (FreshRead(lane).raw == Some(value) <==> commits || lands || FreshRead(was).raw == Some(value))
  {
    var was := LaneOf(s, name);
    EnvelopeRoundTrip(value, NextStamp(s.lastStamp, now));
    JudgeReturnsTheNewer(was.backBlob, was.backStamp, was.legBlob, was.legStamp);
    steps := ThenWrite(s, [], name, value, now);
    steps := Then(s, steps, Outcome(name, 0, commits));
    assert Removed(LaneOf(Run(s, steps), name).writes, 0) == [];
    steps := Then(s, steps, Settle(name, 0, lands));
    var lane := LaneOf(Run(s, steps), name);
    JudgeReturnsTheNewer(lane.backBlob, lane.backStamp, lane.legBlob, lane.legStamp);
  }

  /** A whole read of both stores up to its pick. */
  function Pick(name: string): seq<Step> {
    [BeginRead(name), ReadBacking(name, 0, true), ReadLegacy(name, 0, true)]
  }

  lemma ThenPick(s: State, steps: seq<Step>, name: string) returns (longer: seq<Step>)
    requires Legal(s, steps) && LaneOf(Run(s, steps), name).readers == []
    ensures longer == steps + Pick(name) && Legal(s, longer)
    ensures var before, after := Run(s, steps), Run(s, longer);
            && after.broken == before.broken && after.failures == before.failures
            && LaneOf(after, name) == LaneOf(before, name).(readers := [Picked(FreshRead(LaneOf(before, name)))])
  {
    longer := Then(s, steps, BeginRead(name));
    longer := Then(s, longer, ReadBacking(name, 0, true));
    longer := Then(s, longer, ReadLegacy(name, 0, true));
  }

  /** A write is in flight while the stores are read, and settles before the read is acted on. */
  function ReadDuring(name: string, value: string, now: int, commits: bool): seq<Step> {
    [] + [SetItem(name, value), Flush(now, true)] + Pick(name)
    + [Outcome(name, 0, commits), Settle(name, 0, true)] + [FinishRead(name, 0)]
  }

  /** The read would copy its pick forward, unless the failing write tripped the latch. */
  predicate CopiesPick(s: State, name: string, commits: bool) {
    FreshRead(LaneOf(s, name)).source == FromLegacy && (commits || s.failures + 1 < BACKING_BROKEN_THRESHOLD)
  }

  /** The lane when the read has been acted on. */
  lemma ReadDuringWriteRuns(s: State, name: string, value: string, now: int, commits: bool) returns (steps: seq<Step>)
    requires Untouched(LaneOf(s, name)) && !s.broken
    ensures steps == ReadDuring(name, value, now, commits) && Legal(s, steps)
    ensures var was, stamp := LaneOf(s, name), NextStamp(s.lastStamp, now);
            var read := FreshRead(was);
            var settled := if commits then CommitToBacking(was, value, stamp)
                else WriteThrough(was, value, stamp, true);
            LaneOf(Run(s, steps), name)
            == if CopiesPick(s, name, commits)
               then settled.(migration := Some(Migration(read.legacyRaw.value, read.legacyStamp, Running, false)))
               else if read.source == FromBacking && read.legacyRaw.Some? then ClearLegacy(settled)
               else settled
  {
    steps := ThenWrite(s, [], name, value, now);
    steps := ThenPick(s, steps, name);
    steps := ThenSettle(s, steps, name, commits);
    var pick := LaneOf(Run(s, steps), name).readers[0];
    assert Removed([pick], 0) == [];
    steps := Then(s, steps, FinishRead(name, 0));
  }

  /** A read during a write acts on what was there before. The value is read next exactly when the
      pick was harmless, or had the same bytes: when there was no fallback copy, above all. */
  lemma ReadDuringWrite(s: State, name: string, value: string, now: int, commits: bool) returns (steps: seq<Step>)
    requires Untouched(LaneOf(s, name)) && Floored(LaneOf(s, name), s.lastStamp) && !s.broken
    ensures steps == ReadDuring(name, value, now, commits)
                     + (if CopiesPick(s, name, commits) then [MigrationOutcome(name, true), MigrationSettle(name)]
                        else [])
    ensures Legal(s, steps)
    ensures var was, lane := LaneOf(s, name), LaneOf(Run(s, steps), name);
            && Untouched(lane)
            && (FreshRead(lane).raw == Some(value)
                <==> || Leg(was).None? || FreshRead(was).raw == Some(value)
                     || (if FreshRead(was).source == FromLegacy then !CopiesPick(s, name, commits) else commits))
  {
    var was := LaneOf(s, name);
    EnvelopeRoundTrip(value, NextStamp(s.lastStamp, now));
    JudgeReturnsTheNewer(was.backBlob, was.backStamp, was.legBlob, was.legStamp);
    steps := ReadDuringWriteRuns(s, name, value, now, commits);
    if CopiesPick(s, name, commits) {
      steps := ThenCopyForward(s, steps, name);
    }
    var lane := LaneOf(Run(s, steps), name);
    JudgeReturnsTheNewer(lane.backBlob, lane.backStamp, lane.legBlob, lane.legStamp);
  }

  /** With no older write in flight, a demoted write that lands is read next. */
  lemma DemotedWriteSurvives(s: State, name: string, value: string, now: int) returns (steps: seq<Step>)
    requires Untouched(LaneOf(s, name)) && Floored(LaneOf(s, name), s.lastStamp) && s.broken
    ensures steps == [SetItem(name, value), Flush(now, true)] && Legal(s, steps)
    ensures Untouched(LaneOf(Run(s, steps), name)) && FreshRead(LaneOf(Run(s, steps), name)).raw == Some(value)
  {
    EnvelopeRoundTrip(value, NextStamp(s.lastStamp, now));
    steps := ThenWrite(s, [], name, value, now);
    var lane := LaneOf(Run(s, steps), name);
    JudgeReturnsTheNewer(lane.backBlob, lane.backStamp, lane.legBlob, lane.legStamp);
  }

  /** A demoted write settles on the spot and can overtake one still in flight. The newer value
      survives exactly when the older write commits, or wrote the same bytes. */
  lemma DemotedWriteOvertakes(s: State, name: string, older: string, newer: string, now: int, commits: bool)
    returns (steps: seq<Step>)
    requires Untouched(LaneOf(s, name)) && Floored(LaneOf(s, name), s.lastStamp) && !s.broken
    ensures steps == [SetItem(name, older), Flush(now, true), ProbeFails, SetItem(name, newer), Flush(now, true),
                      Outcome(name, 0, commits), Settle(name, 0, true)]
    ensures Legal(s, steps)
    ensures var lane := LaneOf(Run(s, steps), name);
            Quiet(lane) && (FreshRead(lane).raw == Some(newer) <==> commits || older == newer)
  {
    var first := NextStamp(s.lastStamp, now);
    EnvelopeRoundTrip(newer, NextStamp(first, now));
    EnvelopeRoundTrip(older, first);
    steps := ThenWrite(s, [], name, older, now);
    steps := Then(s, steps, ProbeFails);
    steps := ThenWrite(s, steps, name, newer, now);
    steps := ThenSettle(s, steps, name, commits);
    var lane := LaneOf(Run(s, steps), name);
    JudgeReturnsTheNewer(lane.backBlob, lane.backStamp, lane.legBlob, lane.legStamp);
  }

  /** The late success of a write older than the removal: its callback deletes the key once more. */
  lemma ThenLateSuccess(s: State, steps: seq<Step>, name: string) returns (longer: seq<Step>)
    requires Legal(s, steps)
    requires var lane := LaneOf(Run(s, steps), name);
             && |lane.writes| == 2 && lane.writes[0].stage == Running && lane.writes[0].generation != lane.generation
             && lane.blobDeletes == 1 && lane.stampDeletes == 1
    ensures longer == steps
        + [Outcome(name, 0, true), DeleteBlob(name, true), DeleteStamp(name, true), Settle(name, 0, true)]
    ensures Legal(s, longer)
    ensures var lane := LaneOf(Run(s, steps), name);
            LaneOf(Run(s, longer), name)
            == ClearLegacy(lane).(writes := [lane.writes[1]], backBlob := None, backStamp := None)
  {
    var lane := LaneOf(Run(s, steps), name);
    longer := Then(s, steps, Outcome(name, 0, true));
    longer := Then(s, longer, DeleteBlob(name, true));
    longer := Then(s, longer, DeleteStamp(name, true));
    assert Removed(LaneOf(Run(s, longer), name).writes, 0) == [lane.writes[1]];
    longer := Then(s, longer, Settle(name, 0, true));
  }

  lemma ThenDeletes(s: State, steps: seq<Step>, name: string) returns (longer: seq<Step>)
    requires Legal(s, steps)
    requires LaneOf(Run(s, steps), name).blobDeletes == 1 && LaneOf(Run(s, steps), name).stampDeletes == 1
    ensures longer == steps + [DeleteBlob(name, true), DeleteStamp(name, true)] && Legal(s, longer)
    ensures Run(s, longer).broken == Run(s, steps).broken
    ensures LaneOf(Run(s, longer), name)
         == LaneOf(Run(s, steps), name).(blobDeletes := 0, stampDeletes := 0, backBlob := None, backStamp := None)
  {
    longer := Then(s, steps, DeleteBlob(name, true));
    longer := Then(s, longer, DeleteStamp(name, true));
  }

  /** A write in flight, a removal, and a write after it. */
  function RemovedBetweenWrites(name: string, older: string, newer: string, now: int): seq<Step> {
    [] + [SetItem(name, older), Flush(now, true)] + [RemoveItem(name)] + [SetItem(name, newer), Flush(now, true)]
  }

  /** The first write commits late, then the second one, and every delete that was issued. */
  function CommitBoth(name: string): seq<Step> {
    [] + [Outcome(name, 0, true), DeleteBlob(name, true), DeleteStamp(name, true), Settle(name, 0, true)]
    + [Outcome(name, 0, true), Settle(name, 0, true)] + [DeleteBlob(name, true), DeleteStamp(name, true)]
  }

  lemma ThenRemoveBetweenWrites(s: State, name: string, older: string, newer: string,
                                now: int) returns (steps: seq<Step>)
    requires Untouched(LaneOf(s, name)) && !s.broken
    ensures steps == RemovedBetweenWrites(name, older, newer, now) && Legal(s, steps)
    ensures var lane := LaneOf(Run(s, steps), name);
            && |lane.writes| == 2 && lane.writes[0].stage == Running && lane.writes[0].generation != lane.generation
            && lane.writes[1].stage == Running && lane.writes[1].generation == lane.generation
            && lane == LaneOf(s, name).(writes := lane.writes, generation := lane.generation, blobDeletes := 1,
                                        stampDeletes := 1,
                                        legBlob := None, legStamp := None)
  {
    steps := ThenWrite(s, [], name, older, now);
    steps := Then(s, steps, RemoveItem(name));
    steps := ThenWrite(s, steps, name, newer, now);
  }

  lemma ThenCommitBoth(s: State, name: string) returns (steps: seq<Step>)
    requires var lane := LaneOf(s, name);
             && |lane.writes| == 2 && lane.writes[0].stage == Running && lane.writes[0].generation != lane.generation
             && lane.writes[1].stage == Running && lane.writes[1].generation == lane.generation
             && lane.blobDeletes == 1 && lane.stampDeletes == 1
    ensures steps == CommitBoth(name) && Legal(s, steps)
    ensures LaneOf(Run(s, steps), name)
         == ClearLegacy(LaneOf(s, name)).(writes := [], blobDeletes := 0, stampDeletes := 0, backBlob := None,
                                          backStamp := None)
  {
    steps := ThenLateSuccess(s, [], name);
    steps := ThenSettle(s, steps, name, true);
    steps := ThenDeletes(s, steps, name);
  }

  /** A write that was in flight at a removal and commits late deletes the key again, and with it a
      write made after the removal: every transaction succeeds, in order of issue, and the value
      flushed last is nowhere. */
  lemma LateSuccessDeletesTheNextWrite(s: State, name: string, older: string, newer: string, now: int)
    returns (steps: seq<Step>)
    requires Untouched(LaneOf(s, name)) && !s.broken
    ensures steps == RemovedBetweenWrites(name, older, newer, now) + CommitBoth(name) && Legal(s, steps)
    ensures Settled(LaneOf(Run(s, steps), name)) && Gone(LaneOf(Run(s, steps), name))
  {
    steps := ThenRemoveBetweenWrites(s, name, older, newer, now);
    var rest := ThenCommitBoth(Run(s, steps), name);
    LegalConcat(s, steps, rest);
    steps := steps + rest;
  }

  /** A copy forward that commits. */
  lemma ThenCopyForward(s: State, steps: seq<Step>, name: string) returns (longer: seq<Step>)
    requires Legal(s, steps)
    requires var lane := LaneOf(Run(s, steps), name);
             && lane.migration.Some? && lane.parked == [] && lane.released == []
             && lane.migration.value == Migration(lane.migration.value.raw, lane.migration.value.stamp, Running, false)
    ensures longer == steps + [MigrationOutcome(name, true), MigrationSettle(name)] && Legal(s, longer)
    ensures var lane := LaneOf(Run(s, steps), name);
            LaneOf(Run(s, longer), name)
            == ClearLegacy(CommitToBacking(lane, lane.migration.value.raw,
                                           lane.migration.value.stamp)).(migration := None)
  {
    longer := Then(s, steps, MigrationOutcome(name, true));
    longer := Then(s, longer, MigrationSettle(name));
  }

  /** Removal between the pick and its continuation: the continuation starts a copy nobody cancels. */
  lemma ThenRemoveUnderThePick(s: State, steps: seq<Step>, name: string, pick: NewestRead) returns (longer: seq<Step>)
    requires Legal(s, steps) && !Run(s, steps).broken
    requires pick.source == FromLegacy && pick.legacyRaw.Some?
    requires var lane := LaneOf(Run(s, steps), name);
             lane.readers == [Picked(pick)] && lane.migration.None?
    ensures longer == steps + [RemoveItem(name), FinishRead(name, 0)] && Legal(s, longer)
    ensures var lane := LaneOf(Run(s, steps), name);
            LaneOf(Run(s, longer), name)
            == IssueDeletes(ClearLegacy(lane), 1).(generation := lane.generation + 1, readers := [],
                 migration := Some(Migration(pick.legacyRaw.value, pick.legacyStamp, Running, false)))
  {
    longer := Then(s, steps, RemoveItem(name));
    assert Removed([Picked(pick)], 0) == [];
    longer := Then(s, longer, FinishRead(name, 0));
  }

  /** A removal between the pick of a read and its continuation; then everything commits. */
  function RemovedUnderThePick(name: string): seq<Step> {
    [] + Pick(name) + [RemoveItem(name), FinishRead(name, 0)] + [DeleteBlob(name, true), DeleteStamp(name, true)]
    + [MigrationOutcome(name, true), MigrationSettle(name)]
  }

  lemma RemovedUnderThePickIsCalm(name: string)
    ensures AllCalm(RemovedUnderThePick(name), name)
  {
  }

  /** A read that picked the fallback copy before a removal copies it into the backing after it. */
  lemma PickedReadOutlivesRemoval(s: State, name: string) returns (steps: seq<Step>)
    requires Untouched(LaneOf(s, name)) && !s.broken
    requires LaneOf(s, name).backBlob.None? && Leg(LaneOf(s, name)).Some?
    ensures steps == RemovedUnderThePick(name) && Legal(s, steps) && AllCalm(steps, name)
    ensures var lane := LaneOf(Run(s, steps), name);
            Settled(lane) && lane.backBlob == Some(Leg(LaneOf(s, name)).value.raw)
  {
    var was := LaneOf(s, name);
    JudgeReturnsTheNewer(was.backBlob, was.backStamp, was.legBlob, was.legStamp);
    steps := ThenPick(s, [], name);
    steps := ThenRemoveUnderThePick(s, steps, name, FreshRead(was));
    steps := ThenDeletes(s, steps, name);
    steps := ThenCopyForward(s, steps, name);
    RemovedUnderThePickIsCalm(name);
  }
}
