/** The newest write survives: over any number of sessions and removals, with any clock, any pattern
    of failing primary writes and with or without the broken latch, a session that starts once the
    last write has landed reads the value flushed last, or nothing if it was removed since.
    Read-repair is the special case of a run without flushes and removals. */
module PersistNewest {
  import opened StampedCopy
  import opened Seqs
  import opened PersistProtocol
  import opened PersistOrder
  import opened PersistDiscipline
  import opened PersistPipeline

  // --- the invariant ----------------------------------------------------------------------------

  function Back(lane: Lane): Option<Copy> {
    BackingCopy(lane.backBlob, lane.backStamp)
  }

  function Leg(lane: Lane): Option<Copy> {
    LegacyCopy(lane.legBlob, lane.legStamp)
  }

  function Winner(lane: Lane): Option<Copy> {
    Newer(Back(lane), Leg(lane))
  }

  function Raw(copy: Option<Copy>): Option<string> {
    if copy.None? then None else Some(copy.value.raw)
  }

  predicate StampAtMost(copy: Option<Copy>, bound: nat) {
    copy.Some? ==> copy.value.stamp <= bound
  }

  predicate OlderThan(copy: Option<Copy>, bound: nat) {
    copy.Some? ==> copy.value.stamp < bound
  }

  function LastCommitted(writes: seq<Write>): Option<Write> {
    if writes == [] then None
    else if writes[|writes| - 1].stage == Committed then Some(writes[|writes| - 1])
    else LastCommitted(writes[..|writes| - 1])
  }

  /** Stamps grow along the queue and outcomes are known for a prefix of it. */
  predicate Queue(writes: seq<Write>, lastStamp: nat, generation: nat) {
    && (forall i :: 0 <= i < |writes| ==> 1 <= writes[i].stamp <= lastStamp && writes[i].generation == generation)
    && (forall i, j :: 0 <= i < j < |writes| ==> writes[i].stamp < writes[j].stamp)
    && (forall i, j :: 0 <= i < j < |writes| && writes[i].stage == Running ==> writes[j].stage == Running)
  }

  /** With no write in flight the newer copy is the value to survive. Otherwise the newest write is,
      the fallback copy is older than all of them, and the backing holds the last one committed or
      something older than all. */
  predicate Values(back: Option<Copy>, leg: Option<Copy>, writes: seq<Write>, started: Option<string>) {
    if writes == [] then Raw(Newer(back, leg)) == started
    else
      && Some(writes[|writes| - 1].raw) == started
      && OlderThan(leg, writes[0].stamp)
      && match LastCommitted(writes)
         case None => OlderThan(back, writes[0].stamp)
         case Some(w) => back == Some(Copy(w.raw, w.stamp))
  }

  /** The copy being moved forward is the winner, and the fallback store holds nothing else. */
  predicate Forwarding(lane: Lane, copy: Copy) {
    Winner(lane) == Some(copy) && (Leg(lane).None? || Leg(lane) == Some(copy))
  }

  predicate ReaderConsistent(lane: Lane, reader: ReadOp, hydrated: bool) {
    match reader
    case Issued => true
    case BackingRead(blob, stamp) =>
      || BackingCopy(blob, stamp) == Back(lane)
      || (hydrated && Back(lane).Some? && Winner(lane) == Back(lane) && (Leg(lane).None? || Leg(lane) == Back(lane)))
    case Picked(read) =>
      && (read.source == FromLegacy && read.legacyRaw.Some? ==>
          Forwarding(lane, Copy(read.legacyRaw.value, read.legacyStamp)))
      && (read.source == FromBacking && read.legacyRaw.Some? ==> Back(lane).Some? && Winner(lane) == Back(lane))
      && (hydrated || Floored(lane, Max(read.backingStamp, read.legacyStamp)))
  }

  /** No copy on disk is stamped above the bound. */
  predicate Floored(lane: Lane, bound: nat) {
    StampAtMost(Back(lane), bound) && StampAtMost(Leg(lane), bound)
  }

  predicate ReadersConsistent(lane: Lane, hydrated: bool) {
    && (forall i :: 0 <= i < |lane.readers| ==> ReaderConsistent(lane, lane.readers[i], hydrated))
    && (lane.readers != [] ==> lane.writes == [])
  }

  predicate MigrationConsistent(lane: Lane, hydrated: bool) {
    lane.migration.Some? ==>
      var m := lane.migration.value;
      && hydrated && lane.writes == []
      && if m.cancelled then Winner(lane) == None
         else
           && Forwarding(lane, Copy(m.raw, m.stamp))
           && (m.stage == Committed ==> Back(lane) == Some(Copy(m.raw, m.stamp)))
  }

  /** Everything about the stores and the work in flight. */
  predicate Core(lane: Lane, lastStamp: nat, started: Option<string>, hydrated: bool) {
    && Queue(lane.writes, lastStamp, lane.generation)
    && (hydrated ==> Floored(lane, lastStamp))
    && Values(Back(lane), Leg(lane), lane.writes, started)
    && MigrationConsistent(lane, hydrated)
    && ReadersConsistent(lane, hydrated)
  }

  /** What waits last is the value flushed last, unless it is a removal. */
  predicate Waiting(lane: Lane, t: Track) {
    && (!Quiet(lane) ==> t.hydrated)
    && (if Waiters(lane) == [] || Last(Waiters(lane)).ParkedRemoval? then t.started == t.latest
        else t.latest == Some(Last(Waiters(lane)).value))
  }

  /** The lane as it is once the removals requested so far have taken effect, and with them the writes
      parked ahead of one. */
  function AfterRemovals(lane: Lane, ahead: nat): Lane
    requires ahead <= |lane.writes|
  {
    if Removing(lane) then lane.(backBlob := None, backStamp := None, writes := LiveWrites(lane, ahead))
    else lane.(writes := LiveWrites(lane, ahead))
  }

  /** What the stores and the writes in flight and waiting amount to is the value flushed last. */
  predicate Holding(lane: Lane, lastStamp: nat, t: Track) {
    t.ahead <= |lane.writes| && Core(AfterRemovals(lane, t.ahead), lastStamp, t.started, t.hydrated) && Waiting(lane, t)
  }

  predicate Inv(lane: Lane, lastStamp: nat, t: Track, ops: seq<Op>) {
    Holding(lane, lastStamp, t) && Pipeline(lane, ops, t.ahead)
  }

  // --- starting a write -------------------------------------------------------------------------

  lemma DemotedWriteKeepsCore(lane: Lane, lastStamp: nat, started: Option<string>, value: string, stamp: nat)
    requires Core(lane, lastStamp, started, true) && lane.writes == [] && lane.readers == [] && lane.migration.None?
    requires stamp > lastStamp
    ensures Core(WriteThrough(lane, value, stamp, true), stamp, Some(value), true)
  {
    EnvelopeRoundTrip(value, stamp);
  }

  lemma LastCommittedAppend(writes: seq<Write>, w: Write)
    requires w.stage != Committed
    ensures LastCommitted(writes + [w]) == LastCommitted(writes)
  {
    assert (writes + [w])[..|writes|] == writes;
  }

  lemma QueueAppend(writes: seq<Write>, lastStamp: nat, w: Write)
    requires Queue(writes, lastStamp, w.generation) && w.stamp > lastStamp && w.stage == Running
    ensures Queue(writes + [w], w.stamp, w.generation)
  {
  }

  lemma ValuesAppend(back: Option<Copy>, leg: Option<Copy>, writes: seq<Write>, started: Option<string>, w: Write)
    requires Values(back, leg, writes, started) && w.stage == Running
    requires writes == [] ==> OlderThan(back, w.stamp) && OlderThan(leg, w.stamp)
    ensures Values(back, leg, writes + [w], Some(w.raw))
  {
    LastCommittedAppend(writes, w);
  }

  lemma QueuedWriteKeepsCore(lane: Lane, lastStamp: nat, started: Option<string>, value: string, stamp: nat)
    requires Core(lane, lastStamp, started, true) && lane.readers == [] && lane.migration.None?
    requires stamp > lastStamp
    ensures var w := Write(value, stamp, lane.generation, Running);
            Core(lane.(writes := lane.writes + [w]), stamp, Some(value), true)
  {
    var w := Write(value, stamp, lane.generation, Running);
    QueueAppend(lane.writes, lastStamp, w);
    ValuesAppend(Back(lane), Leg(lane), lane.writes, started, w);
  }

  lemma LaneAfterStart(s: State, name: string, value: string, now: int, lands: bool, ahead: nat)
    requires ahead <= |LaneOf(s, name).writes| && (s.broken ==> lands)
    ensures var was := AfterRemovals(LaneOf(s, name), ahead);
            var next := LaneOf(StartWrite(s, name, value, now, lands), name);
            var stamp := NextStamp(s.lastStamp, now);
            && ahead <= |next.writes|
            && AfterRemovals(next, ahead) == if s.broken then WriteThrough(was, value, stamp, true)
                                             else was.(writes := was.writes
                                                       + [Write(value, stamp, was.generation, Running)])
  {
    var lane, next := LaneOf(s, name), LaneOf(StartWrite(s, name, value, now, lands), name);
    assert Waiters(next) == Waiters(lane);
    assert !s.broken ==> LiveWrites(next, ahead) == LiveWrites(lane, ahead) + [Last(next.writes)];
  }

  /** A live write starts on the lane, or lands in the fallback when the latch has tripped. */
  lemma StartKeepsCore(s: State, name: string, value: string, now: int, lands: bool, started: Option<string>,
                       ahead: nat)
    requires var lane := LaneOf(s, name);
             && ahead <= |lane.writes| && Core(AfterRemovals(lane, ahead), s.lastStamp, started, true)
             && lane.migration.None? && MayStart(s, name, true, lands)
    ensures var s' := StartWrite(s, name, value, now, lands);
            && ahead <= |LaneOf(s', name).writes|
            && Core(AfterRemovals(LaneOf(s', name), ahead), s'.lastStamp, Some(value), true)
  {
    var was, stamp := AfterRemovals(LaneOf(s, name), ahead), NextStamp(s.lastStamp, now);
    LaneAfterStart(s, name, value, now, lands, ahead);
    if s.broken {
      DemotedWriteKeepsCore(was, s.lastStamp, started, value, stamp);
    } else {
      QueuedWriteKeepsCore(was, s.lastStamp, started, value, stamp);
    }
  }

  // --- settling a write -------------------------------------------------------------------------

  lemma {:induction false} LastCommittedUpdate(writes: seq<Write>, i: nat, stage: Stage)
    requires i < |writes| && (forall j :: i < j < |writes| ==> writes[j].stage == Running) && writes[i].stage == Running
    ensures var done := writes[i := writes[i].(stage := stage)];
            LastCommitted(done) == if stage == Committed then Some(done[i]) else LastCommitted(writes)
    decreases |writes|
  {
    var done := writes[i := writes[i].(stage := stage)];
    if i == |writes| - 1 {
      assert done[..i] == writes[..i];
    } else {
      LastCommittedUpdate(writes[..|writes| - 1], i, stage);
      assert done[..|writes| - 1] == writes[..|writes| - 1][i := done[i]];
    }
  }

  lemma QueueUpdate(writes: seq<Write>, i: nat, stage: Stage, lastStamp: nat, generation: nat)
    requires Queue(writes, lastStamp, generation) && i < |writes| && NoneRunningBefore(writes, i) && stage != Running
    ensures Queue(writes[i := writes[i].(stage := stage)], lastStamp, generation)
  {
  }

  lemma ValuesUpdate(back: Option<Copy>, leg: Option<Copy>, writes: seq<Write>, started: Option<string>, i: nat,
                     commits: bool,
                     lastStamp: nat, generation: nat)
    requires Queue(writes, lastStamp, generation) && Values(back, leg, writes, started)
    requires i < |writes| && writes[i].stage == Running && NoneRunningBefore(writes, i)
    ensures Values(if commits then Some(Copy(writes[i].raw, writes[i].stamp)) else back, leg,
                   writes[i := writes[i].(stage := if commits then Committed else Aborted)], started)
  {
    LastCommittedUpdate(writes, i, if commits then Committed else Aborted);
  }

  lemma OutcomeKeepsCore(lane: Lane, lastStamp: nat, started: Option<string>, hydrated: bool, i: nat, commits: bool)
    requires Core(lane, lastStamp, started, hydrated)
    requires i < |lane.writes| && lane.writes[i].stage == Running && NoneRunningBefore(lane.writes, i)
    requires hydrated
    ensures var w := lane.writes[i];
            var done := lane.(writes := lane.writes[i := w.(stage := if commits then Committed else Aborted)]);
            Core(if commits then CommitToBacking(done, w.raw, w.stamp) else done, lastStamp, started, hydrated)
  {
    QueueUpdate(lane.writes, i, if commits then Committed else Aborted, lastStamp, lane.generation);
    ValuesUpdate(Back(lane), Leg(lane), lane.writes, started, i, commits, lastStamp, lane.generation);
  }

  lemma {:induction false} LastCommittedTail(writes: seq<Write>)
    requires writes != []
    ensures LastCommitted(writes)
         == if LastCommitted(writes[1..]).Some? then LastCommitted(writes[1..])
            else if writes[0].stage == Committed then Some(writes[0]) else None
    decreases |writes|
  {
    if |writes| > 1 {
      LastCommittedTail(writes[..|writes| - 1]);
      assert writes[..|writes| - 1][1..] == writes[1..][..|writes| - 2];
    } else {
      assert writes[..0] == [];
    }
  }

  lemma LastCommittedIsInQueue(writes: seq<Write>)
    ensures var last := LastCommitted(writes); last.Some? ==> last.value in writes
  {
  }

  lemma QueueTail(writes: seq<Write>, lastStamp: nat, generation: nat)
    requires writes != [] && Queue(writes, lastStamp, generation)
    ensures Queue(writes[1..], lastStamp, generation)
  {
  }

  /** Settling the oldest write: a committed one is in the backing, a failed one becomes the
      fallback copy. */
  lemma ValuesTail(back: Option<Copy>, leg: Option<Copy>, writes: seq<Write>, started: Option<string>,
                   lastStamp: nat, generation: nat)
    requires writes != [] && writes[0].stage != Running
    requires Queue(writes, lastStamp, generation) && Values(back, leg, writes, started)
    ensures var w := writes[0];
            Values(back, if w.stage == Committed then leg else Some(Copy(w.raw, w.stamp)), writes[1..], started)
  {
    LastCommittedTail(writes);
    if |writes| > 1 {
      assert writes[1..][0] == writes[1] && writes[0].stamp < writes[1].stamp;
    }
    LastCommittedIsInQueue(writes[1..]);
  }

  lemma SettleKeepsCore(lane: Lane, lastStamp: nat, started: Option<string>)
    requires Core(lane, lastStamp, started, true)
    requires lane.writes != [] && lane.writes[0].stage != Running
    ensures var w := lane.writes[0];
            var rest := lane.(writes := Removed(lane.writes, 0));
            && w.generation == lane.generation
            && Core(if w.stage == Committed then rest
                    else WriteThrough(rest, w.raw, w.stamp, true), lastStamp, started, true)
  {
    var w := lane.writes[0];
    assert Removed(lane.writes, 0) == lane.writes[1..];
    QueueTail(lane.writes, lastStamp, lane.generation);
    ValuesTail(Back(lane), Leg(lane), lane.writes, started, lastStamp, lane.generation);
    EnvelopeRoundTrip(w.raw, w.stamp);
  }

  // --- reading and repairing --------------------------------------------------------------------

  lemma BeginKeepsCore(lane: Lane, lastStamp: nat, started: Option<string>, hydrated: bool)
    requires Core(lane, lastStamp, started, hydrated) && lane.writes == []
    ensures Core(lane.(readers := lane.readers + [Issued]), lastStamp, started, hydrated)
  {
  }

  lemma BackingReadKeepsCore(lane: Lane, lastStamp: nat, started: Option<string>, hydrated: bool, i: nat)
    requires Core(lane, lastStamp, started, hydrated) && i < |lane.readers|
    ensures Core(lane.(readers := lane.readers[i := BackingRead(lane.backBlob, lane.backStamp)]), lastStamp,
                 started, hydrated)
  {
  }

  /** The pick is sound although a migration may have committed since the backing was read. */
  lemma PickKeepsCore(lane: Lane, lastStamp: nat, started: Option<string>, hydrated: bool, i: nat)
    requires Core(lane, lastStamp, started, hydrated)
    requires i < |lane.readers| && lane.readers[i].BackingRead?
    ensures Core(lane.(readers := lane.readers[i := Picked(ReadResult(lane, i, true))]), lastStamp, started, hydrated)
  {
    assert ReaderConsistent(lane, lane.readers[i], hydrated);
    JudgeReturnsTheNewer(lane.readers[i].blob, lane.readers[i].stamp, lane.legBlob, lane.legStamp);
    assert ReaderConsistent(lane, Picked(ReadResult(lane, i, true)), hydrated);
  }

  /** Dropping the losing fallback copy changes neither the winner nor what readers believe. */
  lemma ClearLoserKeepsCore(lane: Lane, lastStamp: nat, started: Option<string>, hydrated: bool)
    requires Core(lane, lastStamp, started, hydrated) && lane.writes == []
    requires Back(lane).Some? && Winner(lane) == Back(lane)
    ensures Core(ClearLegacy(lane), lastStamp, started, hydrated)
  {
    var next := ClearLegacy(lane);
    forall j | 0 <= j < |next.readers| ensures ReaderConsistent(next, next.readers[j], hydrated) {
      assert ReaderConsistent(lane, lane.readers[j], hydrated);
    }
  }

  lemma DropReaderKeepsCore(lane: Lane, lastStamp: nat, started: Option<string>, hydrated: bool, i: nat)
    requires Core(lane, lastStamp, started, hydrated) && i < |lane.readers|
    ensures Core(lane.(readers := Removed(lane.readers, i)), lastStamp, started, hydrated)
  {
    var next := lane.(readers := Removed(lane.readers, i));
    forall j | 0 <= j < |next.readers| ensures ReaderConsistent(next, next.readers[j], hydrated) {
      assert next.readers[j] == lane.readers[if j < i then j else j + 1];
    }
  }

  /** Once a read completes the name is hydrated: the stamps on disk are below the floor. */
  lemma HydrateKeepsCore(lane: Lane, lastStamp: nat, started: Option<string>, hydrated: bool, floor: nat)
    requires Core(lane, lastStamp, started, hydrated) && lane.writes == []
    requires floor >= lastStamp && (hydrated || Floored(lane, floor))
    ensures Core(lane, floor, started, true)
  {
    forall j | 0 <= j < |lane.readers| ensures ReaderConsistent(lane, lane.readers[j], true) {
      assert ReaderConsistent(lane, lane.readers[j], hydrated);
    }
  }

  lemma FinishKeepsCore(s: State, name: string, i: nat, started: Option<string>, hydrated: bool)
    requires var lane := LaneOf(s, name);
             && Core(lane, s.lastStamp, started, hydrated) && Enabled(s, FinishRead(name, i))
    ensures var s' := CompleteRead(s, name, i);
            Core(LaneOf(s', name), s'.lastStamp, started, true)
  {
    var lane := LaneOf(s, name);
    var read := lane.readers[i].read;
    assert ReaderConsistent(lane, lane.readers[i], hydrated);
    var floor := Max(s.lastStamp, Max(read.backingStamp, read.legacyStamp));
    HydrateKeepsCore(lane, s.lastStamp, started, hydrated, floor);
    DropReaderKeepsCore(lane, floor, started, true, i);
    var rest := lane.(readers := Removed(lane.readers, i));
    if read.source == FromLegacy && read.legacyRaw.Some? {
      if !s.broken && lane.migration.None? {
        var next := rest.(migration := Some(Migration(read.legacyRaw.value, read.legacyStamp, Running, false)));
        forall j | 0 <= j < |next.readers| ensures ReaderConsistent(next, next.readers[j], true) {
          assert ReaderConsistent(rest, rest.readers[j], true);
        }
      }
    } else if read.source == FromBacking && read.legacyRaw.Some? {
      ClearLoserKeepsCore(rest, floor, started, true);
    }
  }

  lemma MigrationOutcomeKeepsCore(lane: Lane, lastStamp: nat, started: Option<string>, hydrated: bool, commits: bool)
    requires Core(lane, lastStamp, started, hydrated)
    requires lane.migration.Some? && lane.migration.value.stage == Running && !lane.migration.value.cancelled
    ensures var m := lane.migration.value;
            var done := lane.(migration := Some(m.(stage := if commits then Committed else Aborted)));
            Core(if commits then CommitToBacking(done, m.raw, m.stamp) else done, lastStamp, started, hydrated)
  {
    var m := lane.migration.value;
    var done := lane.(migration := Some(m.(stage := if commits then Committed else Aborted)));
    var next := if commits then CommitToBacking(done, m.raw, m.stamp) else done;
    assert Winner(next) == Winner(lane);
    forall j | 0 <= j < |next.readers| ensures ReaderConsistent(next, next.readers[j], hydrated) {
      assert ReaderConsistent(lane, lane.readers[j], hydrated);
    }
  }

  lemma MigrationSettleKeepsCore(lane: Lane, lastStamp: nat, started: Option<string>, hydrated: bool)
    requires Core(lane, lastStamp, started, hydrated)
    requires lane.migration.Some? && lane.migration.value.stage != Running && !lane.migration.value.cancelled
    ensures var freed := lane.(migration := None, released := lane.released + lane.parked, parked := []);
            Core(if lane.migration.value.stage == Committed then ClearLegacy(freed)
                 else freed, lastStamp, started, hydrated)
  {
    var freed := lane.(migration := None, released := lane.released + lane.parked, parked := []);
    forall j | 0 <= j < |freed.readers| ensures ReaderConsistent(freed, freed.readers[j], hydrated) {
      assert ReaderConsistent(lane, lane.readers[j], hydrated);
    }
    if lane.migration.value.stage == Committed {
      ClearLoserKeepsCore(freed, lastStamp, started, hydrated);
    }
  }

  // --- every step keeps the invariant -----------------------------------------------------------

  predicate CoreOf(s: State, name: string, t: Track) {
    t.ahead <= |LaneOf(s, name).writes|
        && Core(AfterRemovals(LaneOf(s, name), t.ahead), s.lastStamp, t.started, t.hydrated)
  }

  /** More time passing elsewhere is harmless. */
  lemma LaterStampKeepsCore(lane: Lane, lastStamp: nat, later: nat, started: Option<string>, hydrated: bool)
    requires Core(lane, lastStamp, started, hydrated) && later >= lastStamp
    ensures Core(lane, later, started, hydrated)
  {
  }

  /** A session may end between a commit and its callback: the newest write is in the backing and
      older fallback copies lose to it. */
  lemma SessionEndKeepsCore(lane: Lane, lastStamp: nat, started: Option<string>, hydrated: bool)
    requires Core(lane, lastStamp, started, hydrated) && (lane.writes != [] ==> Last(lane.writes).stage == Committed)
    ensures Core(EndSession(lane), 0, started, false)
  {
    assert lane.writes != [] ==> LastCommitted(lane.writes) == Some(Last(lane.writes));
  }

  /** What waits and which deletes are outstanding plays no part in Core. */
  lemma WaitingPlaysNoPart(lane: Lane, lastStamp: nat, started: Option<string>, hydrated: bool,
                           parked: seq<Waiter>, released: seq<Waiter>, blobs: nat, stamps: nat)
    requires Core(lane, lastStamp, started, hydrated)
    ensures Core(lane.(parked := parked, released := released, blobDeletes := blobs, stampDeletes := stamps),
                 lastStamp, started, hydrated)
  {
  }

  lemma FlushKeepsCore(s: State, now: int, lands: bool, name: string, t: Track)
    requires CoreOf(s, name, t) && TidyCopy(LaneOf(s, name))
    requires Enabled(s, Flush(now, lands)) && Disciplined(s, Flush(now, lands), name, t)
    requires s.pending.Some? && s.pending.value.name == name
    ensures CoreOf(Apply(s, Flush(now, lands)), name, Follow(s, Flush(now, lands), name, t))
  {
    var lane, next := LaneOf(s, name), LaneOf(Apply(s, Flush(now, lands)), name);
    var p := s.pending.value;
    if lane.migration.Some? {
      assert Waiters(next) == Waiters(lane) + [ParkedWrite(p.value)];
      assert Removing(next) == Removing(lane);
      WaitingPlaysNoPart(AfterRemovals(lane, t.ahead), s.lastStamp, t.started, t.hydrated,
                         next.parked, lane.released, lane.blobDeletes, lane.stampDeletes);
    } else {
      StartKeepsCore(s.(pending := None), name, p.value, now, lands, t.started, t.ahead);
    }
  }

  /** One waiter less changes nothing that Core sees while the same removals are on their way. */
  lemma ReleasedKeepsCore(s: State, name: string, t: Track)
    requires CoreOf(s, name, t) && LaneOf(s, name).released != [] && LaneOf(s, name).released[0].ParkedWrite?
    ensures CoreOf(Put(s, name, LaneOf(s, name).(released := LaneOf(s, name).released[1..])), name, t)
  {
    var lane := LaneOf(s, name);
    var rest := lane.(released := lane.released[1..]);
    assert Waiters(lane) == [lane.released[0]] + Waiters(rest);
    assert Removing(rest) == Removing(lane);
    WaitingPlaysNoPart(AfterRemovals(lane, t.ahead), s.lastStamp, t.started, t.hydrated,
                       lane.parked, rest.released, lane.blobDeletes, lane.stampDeletes);
  }

  lemma LiveResumeKeepsCore(s: State, step: Step, name: string, t: Track)
    requires CoreOf(s, name, t) && TidyCopy(LaneOf(s, name)) && t.hydrated
    requires step.Resume? && step.name == name && Enabled(s, step) && Disciplined(s, step, name, t)
    requires LaneOf(s, name).released[0].ParkedWrite? && !StartsAhead(LaneOf(s, name))
    ensures CoreOf(Apply(s, step), name, Follow(s, step, name, t))
  {
    var lane := LaneOf(s, name);
    ReleasedKeepsCore(s, name, t);
    StartKeepsCore(Put(s, name, lane.(released := lane.released[1..])), name, lane.released[0].value, step.now,
                   step.lands,
                   t.started, t.ahead);
  }

  /** A write ahead of a removal starts: nothing that will be left changes. */
  lemma AheadResumeKeepsCore(s: State, step: Step, name: string, t: Track)
    requires CoreOf(s, name, t) && Tidy(LaneOf(s, name), t.ahead) && !s.broken
    requires step.Resume? && step.name == name && Enabled(s, step) && StartsAhead(LaneOf(s, name))
    ensures CoreOf(Apply(s, step), name, Follow(s, step, name, t))
  {
    var lane, next := LaneOf(s, name), LaneOf(Apply(s, step), name);
    ResumedLane(s, step, name);
    assert Waiters(lane) == [lane.released[0]] + Waiters(next);
    assert Removing(next) && Removing(lane) && LiveWrites(lane, t.ahead) == [] == LiveWrites(next, t.ahead + 1);
    var was := AfterRemovals(lane, t.ahead);
    assert AfterRemovals(next, t.ahead + 1) == was.(released := next.released);
    WaitingPlaysNoPart(was, s.lastStamp, t.started, t.hydrated, was.parked, next.released, was.blobDeletes,
                       was.stampDeletes);
    LaterStampKeepsCore(was.(released := next.released), s.lastStamp, Apply(s, step).lastStamp, t.started, t.hydrated);
  }

  /** A parked removal issues its deletes: it is on its way before and after. */
  lemma RemovalResumeKeepsCore(s: State, step: Step, name: string, t: Track)
    requires CoreOf(s, name, t)
    requires step.Resume? && step.name == name && Enabled(s, step) && LaneOf(s, name).released[0].ParkedRemoval?
    ensures CoreOf(Apply(s, step), name, Follow(s, step, name, t))
  {
    var lane, next := LaneOf(s, name), LaneOf(Apply(s, step), name);
    assert Waiters(lane)[0] == ParkedRemoval;
    assert Removing(next) && Removing(lane);
    WaitingPlaysNoPart(AfterRemovals(lane, t.ahead), s.lastStamp, t.started, t.hydrated,
                       lane.parked, next.released, next.blobDeletes, next.stampDeletes);
  }

  lemma LaneAfterAheadSettle(s: State, name: string, ahead: nat)
    requires 0 < ahead <= |LaneOf(s, name).writes| && Enabled(s, Settle(name, 0, true))
    requires var w := LaneOf(s, name).writes[0]; w.stage != Aborted && w.generation == LaneOf(s, name).generation
    ensures var lane, next := LaneOf(s, name), LaneOf(Apply(s, Settle(name, 0, true)), name);
            ahead - 1 <= |next.writes| && AfterRemovals(next, ahead - 1) == AfterRemovals(lane, ahead)
    ensures Apply(s, Settle(name, 0, true)).lastStamp == s.lastStamp
  {
    SettledLane(s, Settle(name, 0, true), name);
    assert LaneOf(s, name).writes[1..][ahead - 1..] == LaneOf(s, name).writes[ahead..];
  }

  /** The callback of a write ahead of a removal does nothing. */
  lemma AheadSettleKeepsCore(s: State, name: string, t: Track)
    requires CoreOf(s, name, t) && Tidy(LaneOf(s, name), t.ahead) && t.ahead > 0
    requires Enabled(s, Settle(name, 0, true))
    ensures CoreOf(Apply(s, Settle(name, 0, true)), name, Follow(s, Settle(name, 0, true), name, t))
  {
    LaneAfterAheadSettle(s, name, t.ahead);
  }

  lemma LaneAfterSettle(s: State, name: string)
    requires Enabled(s, Settle(name, 0, true)) && LaneOf(s, name).writes[0].generation == LaneOf(s, name).generation
    ensures var lane := AfterRemovals(LaneOf(s, name), 0);
            var next := AfterRemovals(LaneOf(Apply(s, Settle(name, 0, true)), name), 0);
            var w := lane.writes[0];
            var rest := lane.(writes := Removed(lane.writes, 0));
            next == if w.stage == Committed then rest else WriteThrough(rest, w.raw, w.stamp, true)
    ensures Apply(s, Settle(name, 0, true)).lastStamp == s.lastStamp
  {
  }

  lemma LiveSettleKeepsCore(s: State, name: string, t: Track)
    requires CoreOf(s, name, t) && t.hydrated && t.ahead == 0 && Enabled(s, Settle(name, 0, true))
    ensures CoreOf(Apply(s, Settle(name, 0, true)), name, Follow(s, Settle(name, 0, true), name, t))
  {
    SettleKeepsCore(AfterRemovals(LaneOf(s, name), 0), s.lastStamp, t.started);
    LaneAfterSettle(s, name);
  }

  /** The effect of a write ahead of a removal is covered by the removal. */
  lemma AheadOutcomeKeepsCore(s: State, i: nat, commits: bool, name: string, t: Track)
    requires CoreOf(s, name, t) && Removing(LaneOf(s, name)) && i < t.ahead && Enabled(s, Outcome(name, i, commits))
    ensures CoreOf(Apply(s, Outcome(name, i, commits)), name, t)
  {
    var lane, next := LaneOf(s, name), LaneOf(Apply(s, Outcome(name, i, commits)), name);
    assert Waiters(next) == Waiters(lane) && LiveWrites(next, t.ahead) == LiveWrites(lane, t.ahead);
    assert AfterRemovals(next, t.ahead) == AfterRemovals(lane, t.ahead);
  }

  lemma LaneAfterOutcome(s: State, i: nat, commits: bool, name: string, ahead: nat)
    requires Enabled(s, Outcome(name, i, commits)) && ahead <= i && !Removing(LaneOf(s, name))
    ensures var lane := AfterRemovals(LaneOf(s, name), ahead);
            var next := LaneOf(Apply(s, Outcome(name, i, commits)), name);
            var w := lane.writes[i - ahead];
            var done := lane.(writes := lane.writes[i - ahead := w.(stage := if commits then Committed else Aborted)]);
            ahead <= |next.writes|
            && AfterRemovals(next, ahead) == if commits then CommitToBacking(done, w.raw, w.stamp) else done
  {
    var lane, next := LaneOf(s, name), LaneOf(Apply(s, Outcome(name, i, commits)), name);
    assert LiveWrites(next, ahead) == LiveWrites(lane, ahead)[i - ahead := next.writes[i]];
  }

  lemma LiveOutcomeKeepsCore(s: State, i: nat, commits: bool, name: string, t: Track)
    requires CoreOf(s, name, t) && t.hydrated && !Removing(LaneOf(s, name)) && t.ahead <= i
    requires Enabled(s, Outcome(name, i, commits)) && NoneRunningBefore(LaneOf(s, name).writes, i)
    ensures CoreOf(Apply(s, Outcome(name, i, commits)), name, t)
  {
    LaneAfterOutcome(s, i, commits, name, t.ahead);
    OutcomeKeepsCore(AfterRemovals(LaneOf(s, name), t.ahead), s.lastStamp, t.started, t.hydrated, i - t.ahead, commits);
  }

  lemma LaneAfterCopySettles(s: State, name: string)
    requires Enabled(s, MigrationSettle(name))
    ensures var lane, next := LaneOf(s, name), LaneOf(Apply(s, MigrationSettle(name)), name);
            var freed := lane.(migration := None, released := lane.released + lane.parked, parked := []);
            && next == (if lane.migration.value.stage == Committed && !lane.migration.value.cancelled
                        then ClearLegacy(freed) else freed)
            && Waiters(next) == Waiters(lane)
    ensures Apply(s, MigrationSettle(name)).lastStamp == s.lastStamp
  {
    assert Waiters(LaneOf(Apply(s, MigrationSettle(name)), name)) == Waiters(LaneOf(s, name)) + [];
  }

  lemma CopyKeepsCore(s: State, step: Step, name: string, t: Track)
    requires CoreOf(s, name, t) && !Removing(LaneOf(s, name)) && LaneOf(s, name).writes == []
    requires Enabled(s, step) && (step.MigrationOutcome? || step.MigrationSettle?) && step.name == name
    requires !LaneOf(s, name).migration.value.cancelled
    ensures CoreOf(Apply(s, step), name, t)
  {
    var lane, next := LaneOf(s, name), LaneOf(Apply(s, step), name);
    assert AfterRemovals(lane, t.ahead) == lane;
    if step.MigrationOutcome? {
      assert Waiters(next) == Waiters(lane);
      MigrationOutcomeKeepsCore(lane, s.lastStamp, t.started, t.hydrated, step.commits);
    } else {
      MigrationSettleKeepsCore(lane, s.lastStamp, t.started, t.hydrated);
      LaneAfterCopySettles(s, name);
    }
    assert AfterRemovals(next, t.ahead) == next;
  }

  lemma CancelledKeepsCore(lane: Lane, next: Lane, lastStamp: nat, t: Track)
    requires Core(lane, lastStamp, t.started, t.hydrated) && lane.migration.Some? && lane.migration.value.cancelled
    requires lane.readers == [] && lane.backBlob == None
    requires next == lane.(migration := next.migration, released := next.released, parked := next.parked)
    requires next.migration.Some? ==> next.migration.value.cancelled
    ensures Core(next, lastStamp, t.started, t.hydrated)
  {
  }

  /** A cancelled copy is followed by the removals attached to it, whatever became of it. */
  lemma CancelledStepKeepsCore(s: State, step: Step, name: string, t: Track)
    requires CoreOf(s, name, t) && Tidy(LaneOf(s, name), t.ahead)
    requires Enabled(s, step) && (step.MigrationOutcome? || step.MigrationSettle?) && step.name == name
    requires LaneOf(s, name).migration.value.cancelled
    ensures CoreOf(Apply(s, step), name, t)
  {
    var lane, next := LaneOf(s, name), LaneOf(Apply(s, step), name);
    assert ParkedRemoval in lane.parked && RemovalWaits(lane);
    if step.MigrationSettle? {
      LaneAfterCopySettles(s, name);
    }
    assert Waiters(next) == Waiters(lane) && Removing(lane) && Removing(next);
    CancelledKeepsCore(AfterRemovals(lane, t.ahead), AfterRemovals(next, t.ahead), s.lastStamp, t);
  }

  lemma RemoveKeepsCore(s: State, name: string, t: Track)
    requires LaneOf(s, name).writes == [] && LaneOf(s, name).readers == [] && t.ahead == 0
    ensures CoreOf(Apply(s, RemoveItem(name)), name, Follow(s, RemoveItem(name), name, t))
  {
    var lane, next := LaneOf(s, name), LaneOf(Apply(s, RemoveItem(name)), name);
    assert lane.migration.Some? ==> next.parked[|lane.parked|] == ParkedRemoval && ParkedRemoval in next.parked;
    assert Removing(next) && LiveWrites(next, 0) == [];
  }

  lemma DeleteKeepsCore(s: State, step: Step, name: string, t: Track)
    requires CoreOf(s, name, t) && Tidy(LaneOf(s, name), t.ahead)
    requires Enabled(s, step) && (step.DeleteBlob? || step.DeleteStamp?) && step.name == name && step.commits
    ensures CoreOf(Apply(s, step), name, t)
  {
    var lane, next := LaneOf(s, name), LaneOf(Apply(s, step), name);
    assert Waiters(next) == Waiters(lane);
    WaitingPlaysNoPart(AfterRemovals(lane, t.ahead), s.lastStamp, t.started, t.hydrated,
                       lane.parked, lane.released, next.blobDeletes, next.stampDeletes);
  }

  lemma ReadKeepsCore(s: State, step: Step, name: string, t: Track)
    requires CoreOf(s, name, t) && !Removing(LaneOf(s, name)) && LaneOf(s, name).writes == []
    requires (step.BeginRead? || step.ReadBacking? || step.ReadLegacy?) && step.name == name
    requires Enabled(s, step) && Disciplined(s, step, name, t)
    ensures CoreOf(Apply(s, step), name, t)
  {
    var lane, next := LaneOf(s, name), LaneOf(Apply(s, step), name);
    assert AfterRemovals(lane, t.ahead) == lane && Waiters(next) == Waiters(lane)
        && AfterRemovals(next, t.ahead) == next;
    match step
    case BeginRead(_) => BeginKeepsCore(lane, s.lastStamp, t.started, t.hydrated);
    case ReadBacking(_, i, _) => BackingReadKeepsCore(lane, s.lastStamp, t.started, t.hydrated, i);
    case ReadLegacy(_, i, _) => PickKeepsCore(lane, s.lastStamp, t.started, t.hydrated, i);
  }

  lemma FinishStepKeepsCore(s: State, i: nat, name: string, t: Track)
    requires CoreOf(s, name, t) && !Removing(LaneOf(s, name)) && LaneOf(s, name).writes == []
    requires Enabled(s, FinishRead(name, i))
    ensures CoreOf(Apply(s, FinishRead(name, i)), name, t.(hydrated := true))
  {
    var lane, next := LaneOf(s, name), LaneOf(CompleteRead(s, name, i), name);
    assert AfterRemovals(lane, t.ahead) == lane;
    FinishKeepsCore(s, name, i, t.started, t.hydrated);
    assert Waiters(next) == Waiters(lane) && AfterRemovals(next, t.ahead) == next;
  }

  /** What the dispatch over the steps of a name needs to know about its lane. */
  predicate Ready(s: State, step: Step, name: string, t: Track) {
    && CoreOf(s, name, t) && Waiting(LaneOf(s, name), t) && Tidy(LaneOf(s, name), t.ahead)
    && Enabled(s, step) && Disciplined(s, step, name, t) && Target(s, step) == Some(name)
    && (step.Outcome? ==>
          && NoneRunningBefore(LaneOf(s, name).writes, step.i)
          && (step.i < t.ahead <==> Removing(LaneOf(s, name))))
  }

  lemma OwnStartKeepsCore(s: State, step: Step, name: string, t: Track)
    requires Ready(s, step, name, t) && (step.Flush? || step.Resume?)
    ensures CoreOf(Apply(s, step), name, Follow(s, step, name, t))
  {
    if step.Flush? {
      FlushKeepsCore(s, step.now, step.lands, name, t);
    } else if LaneOf(s, name).released[0].ParkedRemoval? {
      RemovalResumeKeepsCore(s, step, name, t);
    } else if StartsAhead(LaneOf(s, name)) {
      AheadResumeKeepsCore(s, step, name, t);
    } else {
      LiveResumeKeepsCore(s, step, name, t);
    }
  }

  lemma OwnWriteKeepsCore(s: State, step: Step, name: string, t: Track)
    requires Ready(s, step, name, t) && (step.Outcome? || step.Settle?)
    ensures CoreOf(Apply(s, step), name, Follow(s, step, name, t))
  {
    if step.Settle? {
      if t.ahead > 0 {
        AheadSettleKeepsCore(s, name, t);
      } else {
        LiveSettleKeepsCore(s, name, t);
      }
    } else if step.i < t.ahead {
      AheadOutcomeKeepsCore(s, step.i, step.commits, name, t);
    } else {
      LiveOutcomeKeepsCore(s, step.i, step.commits, name, t);
    }
  }

  lemma OwnReadKeepsCore(s: State, step: Step, name: string, t: Track)
    requires Ready(s, step, name, t) && IsReadStep(step)
    ensures CoreOf(Apply(s, step), name, Follow(s, step, name, t))
  {
    if step.FinishRead? {
      FinishStepKeepsCore(s, step.i, name, t);
    } else {
      ReadKeepsCore(s, step, name, t);
    }
  }

  lemma OwnOtherKeepsCore(s: State, step: Step, name: string, t: Track)
    requires Ready(s, step, name, t) && !IsReadStep(step) && !IsWriteStep(step)
    ensures CoreOf(Apply(s, step), name, Follow(s, step, name, t))
  {
    if step.RemoveItem? {
      RemoveKeepsCore(s, name, t);
    } else if step.DeleteBlob? || step.DeleteStamp? {
      DeleteKeepsCore(s, step, name, t);
    } else if LaneOf(s, name).migration.value.cancelled {
      CancelledStepKeepsCore(s, step, name, t);
    } else {
      NothingRemovedBesideACopy(LaneOf(s, name), t.ahead);
      CopyKeepsCore(s, step, name, t);
    }
  }

  lemma NothingRemovedBesideACopy(lane: Lane, ahead: nat)
    requires Tidy(lane, ahead) && lane.migration.Some? && !lane.migration.value.cancelled
    ensures !Removing(lane) && lane.writes == []
  {
    assert Waiters(lane) == [] + lane.parked == lane.parked;
  }

  lemma OtherNameKeepsCore(s: State, step: Step, name: string, t: Track)
    requires CoreOf(s, name, t)
    requires Enabled(s, step) && !step.NewSession? && Target(s, step) != Some(name)
    ensures CoreOf(Apply(s, step), name, t) && Follow(s, step, name, t) == t
  {
    OtherLanesUntouched(s, step, name);
    LaterStampKeepsCore(AfterRemovals(LaneOf(s, name), t.ahead), s.lastStamp, Apply(s, step).lastStamp, t.started,
                        t.hydrated);
  }

  lemma OwnStepKeepsCore(s: State, step: Step, name: string, t: Track)
    requires Ready(s, step, name, t)
    ensures CoreOf(Apply(s, step), name, Follow(s, step, name, t))
  {
    if step.Flush? || step.Resume? {
      OwnStartKeepsCore(s, step, name, t);
    } else if IsWriteStep(step) {
      OwnWriteKeepsCore(s, step, name, t);
    } else if IsReadStep(step) {
      OwnReadKeepsCore(s, step, name, t);
    } else {
      OwnOtherKeepsCore(s, step, name, t);
    }
  }

  /** The callback of a write in flight finds its own generation. */
  lemma CallbacksAreCurrent(lane: Lane, lastStamp: nat, t: Track, ops: seq<Op>)
    requires Inv(lane, lastStamp, t, ops) && lane.writes != []
    ensures lane.writes[0].generation == lane.generation
  {
    assert t.ahead == 0 ==> LiveWrites(lane, 0) == lane.writes;
  }

  lemma StepIsTaken(s: State, step: Step, name: string, t: Track, ops: seq<Op>)
    requires Inv(LaneOf(s, name), s.lastStamp, t, ops)
    requires Enabled(s, step) && Disciplined(s, step, name, t) && InOrder(s, step, name, ops)
    ensures Taken(s, step, name, t, ops)
  {
    if step.Settle? && step.name == name {
      CallbacksAreCurrent(LaneOf(s, name), s.lastStamp, t, ops);
    }
  }

  lemma OwnStepIsReady(s: State, step: Step, name: string, t: Track, ops: seq<Op>)
    requires Inv(LaneOf(s, name), s.lastStamp, t, ops) && Target(s, step) == Some(name)
    requires Taken(s, step, name, t, ops)
    ensures Ready(s, step, name, t)
  {
    if step.Outcome? {
      OutcomeKeepsOrdered(s, step, name, t, ops);
    }
  }

  lemma LaneAfterSession(s: State, name: string, ahead: nat)
    requires Landed(LaneOf(s, name)) && !Removing(LaneOf(s, name)) && ahead <= |LaneOf(s, name).writes|
    ensures var was, next := AfterRemovals(LaneOf(s, name), ahead), LaneOf(Apply(s, NewSession), name);
            && (was.writes != [] ==> Last(was.writes).stage == Committed)
            && AfterRemovals(next, 0) == EndSession(was) && Apply(s, NewSession).lastStamp == 0
  {
    var was, next := AfterRemovals(LaneOf(s, name), ahead), LaneOf(Apply(s, NewSession), name);
    assert was.writes != [] ==> Last(was.writes) == Last(LaneOf(s, name).writes);
    assert Waiters(next) == [] && next.writes == [] && next == EndSession(was);
  }

  lemma NewSessionKeepsCore(s: State, name: string, t: Track)
    requires CoreOf(s, name, t) && Landed(LaneOf(s, name)) && !Removing(LaneOf(s, name))
    ensures CoreOf(Apply(s, NewSession), name, Follow(s, NewSession, name, t))
  {
    var was := AfterRemovals(LaneOf(s, name), t.ahead);
    LaneAfterSession(s, name, t.ahead);
    SessionEndKeepsCore(was, s.lastStamp, t.started, t.hydrated);
    var later, next := Apply(s, NewSession), Follow(s, NewSession, name, t);
    assert next == Track(t.latest, t.started, false, 0) && later.lastStamp == 0;
    assert AfterRemovals(LaneOf(later, name), next.ahead) == EndSession(was);
  }

  lemma StepKeepsCore(s: State, step: Step, name: string, t: Track, ops: seq<Op>)
    requires Inv(LaneOf(s, name), s.lastStamp, t, ops) && Taken(s, step, name, t, ops)
    ensures CoreOf(Apply(s, step), name, Follow(s, step, name, t))
  {
    if step.NewSession? {
      NewSessionKeepsCore(s, name, t);
    } else if Target(s, step) == Some(name) {
      OwnStepIsReady(s, step, name, t, ops);
      OwnStepKeepsCore(s, step, name, t);
    } else {
      OtherNameKeepsCore(s, step, name, t);
    }
  }

  // --- what waits keeps its order ---------------------------------------------------------------

  lemma FlushKeepsWaiting(s: State, step: Step, name: string, t: Track)
    requires Waiting(LaneOf(s, name), t) && Enabled(s, step) && Disciplined(s, step, name, t)
    requires step.Flush? && Target(s, step) == Some(name) && TidyCopy(LaneOf(s, name))
    ensures Waiting(LaneOf(Apply(s, step), name), Follow(s, step, name, t))
  {
    var lane, next := LaneOf(s, name), LaneOf(Apply(s, step), name);
    FlushedLane(s, step, name);
    if lane.migration.Some? {
      assert Waiters(next) == Waiters(lane) + [ParkedWrite(s.pending.value.value)];
    } else {
      assert Waiters(next) == [];
    }
  }

  lemma ResumeKeepsWaiting(s: State, step: Step, name: string, t: Track)
    requires Waiting(LaneOf(s, name), t) && Enabled(s, step)
    requires step.Resume? && step.name == name
    ensures Waiting(LaneOf(Apply(s, step), name), Follow(s, step, name, t))
  {
    var lane, next := LaneOf(s, name), LaneOf(Apply(s, step), name);
    ResumedLane(s, step, name);
    var rest := lane.released[1..] + lane.parked;
    assert Waiters(lane) == [lane.released[0]] + rest && Waiters(next) == rest;
    if rest != [] {
      assert Last(Waiters(lane)) == Last(rest);
      assert Last(rest).ParkedRemoval? ==> Last(rest) in rest;
    } else {
      assert Last(Waiters(lane)) == lane.released[0];
    }
  }

  lemma OthersKeepWaiting(s: State, step: Step, name: string, t: Track)
    requires Waiting(LaneOf(s, name), t) && Enabled(s, step) && Disciplined(s, step, name, t)
    requires Target(s, step) == Some(name) && !step.Flush? && !step.Resume? && !step.RemoveItem?
    requires !step.MigrationSettle?
    ensures Waiting(LaneOf(Apply(s, step), name), Follow(s, step, name, t))
  {
    var lane, next := LaneOf(s, name), LaneOf(Apply(s, step), name);
    assert next.released == lane.released && next.parked == lane.parked && (Quiet(lane) ==> Quiet(next));
  }

  lemma RemovalsKeepWaiting(s: State, step: Step, name: string, t: Track)
    requires Waiting(LaneOf(s, name), t) && Enabled(s, step) && Disciplined(s, step, name, t)
    requires (step.RemoveItem? || step.MigrationSettle?) && step.name == name && TidyCopy(LaneOf(s, name))
    ensures Waiting(LaneOf(Apply(s, step), name), Follow(s, step, name, t))
  {
    var lane, next := LaneOf(s, name), LaneOf(Apply(s, step), name);
    if step.MigrationSettle? {
      LaneAfterCopySettles(s, name);
    } else {
      assert Waiters(next) == if lane.migration.None? then [] else Waiters(lane) + [ParkedRemoval];
    }
  }

  lemma StepKeepsWaiting(s: State, step: Step, name: string, t: Track)
    requires Waiting(LaneOf(s, name), t) && Enabled(s, step) && Disciplined(s, step, name, t)
    requires TidyCopy(LaneOf(s, name))
    ensures Waiting(LaneOf(Apply(s, step), name), Follow(s, step, name, t))
  {
    if step.NewSession? {
      assert Waiters(LaneOf(s, name)) == [] && Waiters(LaneOf(Apply(s, step), name)) == [];
    } else if Target(s, step) != Some(name) {
      OtherLanesUntouched(s, step, name);
      assert Follow(s, step, name, t) == t;
    } else if step.Flush? {
      FlushKeepsWaiting(s, step, name, t);
    } else if step.Resume? {
      ResumeKeepsWaiting(s, step, name, t);
    } else if step.RemoveItem? || step.MigrationSettle? {
      RemovalsKeepWaiting(s, step, name, t);
    } else {
      OthersKeepWaiting(s, step, name, t);
    }
  }

  lemma FollowsAhead(s: State, step: Step, name: string, t: Track)
    requires Enabled(s, step)
    ensures Follow(s, step, name, t).ahead == AheadAfter(s, step, name, t.ahead)
  {
  }

  lemma StepKeepsInv(s: State, step: Step, name: string, t: Track, ops: seq<Op>)
    requires Inv(LaneOf(s, name), s.lastStamp, t, ops)
    requires Enabled(s, step) && Disciplined(s, step, name, t) && InOrder(s, step, name, ops)
    ensures Inv(LaneOf(Apply(s, step), name), Apply(s, step).lastStamp, Follow(s, step, name, t),
                Outstanding(s, step, name, ops))
  {
    StepIsTaken(s, step, name, t, ops);
    StepKeepsCore(s, step, name, t, ops);
    StepKeepsWaiting(s, step, name, t);
    StepKeepsPipeline(s, step, name, t, ops);
    FollowsAhead(s, step, name, t);
  }

  // --- the theorems -----------------------------------------------------------------------------

  lemma {:induction false} InvAlways(s: State, steps: seq<Step>, name: string, t: Track, ops: seq<Op>)
    requires Inv(LaneOf(s, name), s.lastStamp, t, ops)
    requires Legal(s, steps) && DisciplinedRun(s, steps, name, t, ops)
    ensures Inv(LaneOf(Run(s, steps), name), Run(s, steps).lastStamp, FollowRun(s, steps, name, t),
                OutstandingRun(s, steps, name, ops))
    decreases |steps|
  {
    if steps != [] {
      var step := steps[0];
      StepKeepsInv(s, step, name, t, ops);
      InvAlways(Apply(s, step), steps[1..], name, Follow(s, step, name, t), Outstanding(s, step, name, ops));
    }
  }

  /** Whenever the newest write has landed and no removal is on its way, a session that starts there
      reads the value flushed last and not removed, or what the run began with when nothing was
      flushed or removed. */
  lemma NewestWriteSurvives(s: State, steps: seq<Step>, name: string)
    requires Untouched(LaneOf(s, name))
    requires Legal(s, steps) && DisciplinedRun(s, steps, name, StartTrack(LaneOf(s, name)), [])
    ensures var lane := LaneOf(Run(s, steps), name);
            Landed(lane) && !Removing(lane)
            ==> FreshRead(lane).raw == FollowRun(s, steps, name, StartTrack(LaneOf(s, name))).latest
  {
    var start := LaneOf(s, name);
    JudgeReturnsTheNewer(start.backBlob, start.backStamp, start.legBlob, start.legStamp);
    NewestWriteIsRead(s, steps, name, StartTrack(start), []);
  }

  /** The same from any state in which the invariant holds. */
  lemma NewestWriteIsRead(s: State, steps: seq<Step>, name: string, t: Track, ops: seq<Op>)
    requires Inv(LaneOf(s, name), s.lastStamp, t, ops)
    requires Legal(s, steps) && DisciplinedRun(s, steps, name, t, ops)
    ensures var lane := LaneOf(Run(s, steps), name);
            Landed(lane) && !Removing(lane) ==> FreshRead(lane).raw == FollowRun(s, steps, name, t).latest
  {
    InvAlways(s, steps, name, t, ops);
    var end := Run(s, steps);
    if Landed(LaneOf(end, name)) && !Removing(LaneOf(end, name)) {
      LandedIsRead(LaneOf(end, name), end.lastStamp, FollowRun(s, steps, name, t));
    }
  }

  lemma LandedIsRead(lane: Lane, lastStamp: nat, t: Track)
    requires Holding(lane, lastStamp, t) && Landed(lane) && !Removing(lane)
    ensures FreshRead(lane).raw == t.latest
  {
    var view := AfterRemovals(lane, t.ahead);
    assert view.writes != [] ==> Last(view.writes) == Last(lane.writes);
    SessionEndKeepsCore(view, lastStamp, t.started, t.hydrated);
    assert Values(Back(lane), Leg(lane), [], t.started) && Waiters(lane) == [];
    JudgeReturnsTheNewer(lane.backBlob, lane.backStamp, lane.legBlob, lane.legStamp);
  }

  /** A step that only reads, repairs, or concerns other names. */
  predicate RepairStep(s: State, step: Step, name: string) {
    Target(s, step) == Some(name) ==>
      match step
      case BeginRead(_) => true
      case ReadBacking(_, _, ok) => ok
      case ReadLegacy(_, _, ok) => ok
      case FinishRead(_, _) => true
      case MigrationOutcome(_, _) => true
      case MigrationSettle(_) => true
      case _ => false
  }

  predicate RepairRun(s: State, steps: seq<Step>, name: string)
    requires Legal(s, steps)
    decreases |steps|
  {
    steps != [] ==> RepairStep(s, steps[0], name) && RepairRun(Apply(s, steps[0]), steps[1..], name)
  }

  /** What a run of repairs keeps: no write, no removal, and at most the one copy outstanding. */
  predicate Repairing(lane: Lane, ops: seq<Op>) {
    && Quiet(lane) && !Removing(lane)
    && ops == if lane.migration.Some? && lane.migration.value.stage == Running then [CopyOp] else []
  }

  lemma RepairStepIsDisciplined(s: State, step: Step, name: string, t: Track, ops: seq<Op>)
    requires Enabled(s, step) && RepairStep(s, step, name) && Repairing(LaneOf(s, name), ops)
    ensures Disciplined(s, step, name, t) && InOrder(s, step, name, ops)
    ensures Repairing(LaneOf(Apply(s, step), name), Outstanding(s, step, name, ops))
    ensures Follow(s, step, name, t).latest == t.latest
  {
    if !step.NewSession? && Target(s, step) != Some(name) {
      OtherLanesUntouched(s, step, name);
    }
  }

  lemma {:induction false} RepairRunIsDisciplined(s: State, steps: seq<Step>, name: string, t: Track, ops: seq<Op>)
    requires Legal(s, steps) && RepairRun(s, steps, name) && Repairing(LaneOf(s, name), ops)
    ensures DisciplinedRun(s, steps, name, t, ops)
    ensures Quiet(LaneOf(Run(s, steps), name)) && !Removing(LaneOf(Run(s, steps), name))
    ensures FollowRun(s, steps, name, t).latest == t.latest
    decreases |steps|
  {
    if steps != [] {
      RepairStepIsDisciplined(s, steps[0], name, t, ops);
      RepairRunIsDisciplined(Apply(s, steps[0]), steps[1..], name, Follow(s, steps[0], name, t),
                             Outstanding(s, steps[0], name, ops));
    }
  }

  /** Reading and repairing, with any number of overlapping reads, failed or committed copies and
      session ends: at every point a fresh read returns the same bytes, and some store holds them. */
  lemma ReadRepairLosesNothing(s: State, steps: seq<Step>, name: string)
    requires Untouched(LaneOf(s, name))
    requires Legal(s, steps) && RepairRun(s, steps, name)
    ensures var lane := LaneOf(Run(s, steps), name);
            var bytes := FreshRead(LaneOf(s, name)).raw;
            && FreshRead(lane).raw == bytes
            && (bytes.Some? ==> lane.backBlob == bytes || DecodeLegacy(lane.legBlob).raw == bytes)
  {
    RepairRunIsDisciplined(s, steps, name, StartTrack(LaneOf(s, name)), []);
    NewestWriteSurvives(s, steps, name);
  }
}
