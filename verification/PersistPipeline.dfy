/** The order of operations along a disciplined run. What is outstanding falls into two parts: first
    copies, deletes and the writes that were parked ahead of a removal, each of them followed by its
    deletes; then the writes that no removal follows. */
module PersistPipeline {
  import opened StampedCopy
  import opened Seqs
  import opened PersistProtocol
  import opened PersistOrder
  import opened PersistDiscipline

  predicate EndsInDeletes(ops: seq<Op>) {
    |ops| >= 2 && ops[|ops| - 2] == BlobDelete && ops[|ops| - 1] == StampDelete
  }

  /** The last `live` operations are writes, and a write before them has deletes, or a removal that
      waits, behind it. */
  predicate Shape(ops: seq<Op>, live: nat, waits: bool) {
    && live <= |ops|
    && (forall i :: |ops| - live <= i < |ops| ==> ops[i] == WriteOp)
    && (WriteOp in ops[..|ops| - live] ==> waits || EndsInDeletes(ops[..|ops| - live]))
  }

  /** The writes in flight that no removal follows. */
  function LiveWrites(lane: Lane, ahead: nat): seq<Write>
    requires ahead <= |lane.writes|
  {
    lane.writes[ahead..]
  }

  /** Writes ahead of a removal have not failed; no write or read goes on beside a copy; each cell that
      the deletes are through with is empty. */
  predicate Tidy(lane: Lane, ahead: nat) {
    && ahead <= |lane.writes|
    && (RemovalWaits(lane) ==> ahead == |lane.writes|)
    && (forall i :: 0 <= i < ahead ==> lane.writes[i].stage != Aborted && lane.writes[i].generation == lane.generation)
    && (lane.readers != [] ==> Quiet(lane) && !Removing(lane))
    && TidyCopy(lane)
    && (Removing(lane) && !RemovalWaits(lane) ==>
          (lane.blobDeletes == 0 ==> lane.backBlob == None) && (lane.stampDeletes == 0 ==> lane.backStamp == None))
  }

  predicate TidyCopy(lane: Lane) {
    if lane.migration.None? then lane.parked == []
    else
      && lane.writes == [] && lane.released == []
      && (lane.migration.value.cancelled <==> ParkedRemoval in lane.parked)
      && (!lane.migration.value.cancelled ==> lane.blobDeletes == 0 && lane.stampDeletes == 0)
  }

  predicate Pipeline(lane: Lane, ops: seq<Op>, ahead: nat) {
    Matches(ops, lane) && Tidy(lane, ahead) && Shape(ops, CountRunning(LiveWrites(lane, ahead)), RemovalWaits(lane))
  }

  // --- counting -------------------------------------------------------------------------------------

  lemma {:induction false} AllWrites(ops: seq<Op>)
    requires forall i :: 0 <= i < |ops| ==> ops[i] == WriteOp
    ensures Count(ops, WriteOp) == |ops|
  {
    if ops != [] {
      AllWrites(ops[1..]);
    }
  }

  lemma SplitCounts(lane: Lane, ops: seq<Op>, ahead: nat)
    requires Pipeline(lane, ops, ahead)
    ensures var live := CountRunning(LiveWrites(lane, ahead));
            Count(ops[..|ops| - live], WriteOp) == CountRunning(lane.writes[..ahead])
  {
    var live := CountRunning(LiveWrites(lane, ahead));
    var front, back := ops[..|ops| - live], ops[|ops| - live..];
    assert ops == front + back && lane.writes == lane.writes[..ahead] + LiveWrites(lane, ahead);
    CountConcat(front, back, WriteOp);
    AllWrites(back);
    CountRunningConcat(lane.writes[..ahead], LiveWrites(lane, ahead));
  }

  lemma FirstIsIn(ops: seq<Op>, n: nat)
    requires n <= |ops|
    ensures n > 0 ==> ops[0] in ops[..n]
  {
    assert n > 0 ==> ops[..n][0] == ops[0];
  }

  /** A live write takes effect only when all removals before it have. */
  lemma NothingRemovedBehindAWrite(lane: Lane, ops: seq<Op>, ahead: nat, i: nat)
    requires Pipeline(lane, ops, ahead) && ops != [] && ops[0] == WriteOp
    requires ahead <= i < |lane.writes| && NoneRunningBefore(lane.writes, i)
    ensures !Removing(lane) && CountRunning(LiveWrites(lane, ahead)) == |ops|
  {
    SplitCounts(lane, ops, ahead);
    SomeRunning(lane.writes[..ahead]);
    var front := ops[..|ops| - CountRunning(LiveWrites(lane, ahead))];
    CountOccurs(front, WriteOp);
    FirstIsIn(ops, |front|);
    assert forall j :: 0 <= j < |ops| ==> ops[j] == WriteOp;
    CountOccurs(ops, BlobDelete);
    CountOccurs(ops, StampDelete);
  }

  /** Until the writes ahead of a removal have taken effect, so has not the removal. */
  lemma RemovedBehindAWrite(lane: Lane, ops: seq<Op>, ahead: nat, i: nat)
    requires Pipeline(lane, ops, ahead) && i < ahead && lane.writes[i].stage == Running
    ensures RemovalWaits(lane) || (lane.blobDeletes > 0 && lane.stampDeletes > 0)
    ensures CountRunning(LiveWrites(lane, ahead)) < |ops|
  {
    var front := ops[..|ops| - CountRunning(LiveWrites(lane, ahead))];
    SplitCounts(lane, ops, ahead);
    SomeRunning(lane.writes[..ahead]);
    assert lane.writes[..ahead][i].stage == Running;
    CountOccurs(front, WriteOp);
    if !RemovalWaits(lane) {
      assert ops[|front| - 2] == BlobDelete && ops[|front| - 1] == StampDelete;
      CountOccurs(ops, BlobDelete);
      CountOccurs(ops, StampDelete);
    }
  }

  // --- the shape is kept ----------------------------------------------------------------------------

  lemma EndAfterPop(ops: seq<Op>, waits: bool)
    requires ops != [] && (WriteOp in ops ==> waits || EndsInDeletes(ops))
    ensures WriteOp in ops[1..] ==> waits || EndsInDeletes(ops[1..])
  {
    var rest := ops[1..];
    assert forall i :: 0 <= i < |rest| ==> rest[i] == ops[i + 1];
    if WriteOp in rest && !waits {
      var n := |ops|;
      var i :| 0 <= i < |rest| && rest[i] == WriteOp;
      assert ops[n - 2] == BlobDelete && ops[n - 1] == StampDelete && ops[i + 1] == WriteOp;
    }
  }

  lemma ShapeAfterPop(ops: seq<Op>, live: nat, waits: bool)
    requires Shape(ops, live, waits) && ops != []
    ensures live < |ops| ==> Shape(ops[1..], live, waits)
    ensures live == |ops| ==> Shape(ops[1..], live - 1, waits)
  {
    var rest := ops[1..];
    assert forall i :: 0 <= i < |rest| ==> rest[i] == ops[i + 1];
    if live < |ops| {
      var front := ops[..|ops| - live];
      EndAfterPop(front, waits);
      assert rest[..|rest| - live] == front[1..];
    }
  }

  lemma ShapeWithWrite(ops: seq<Op>, live: nat, waits: bool)
    requires Shape(ops, live, waits)
    ensures Shape(ops + [WriteOp], live + 1, waits)
    ensures live == 0 ==> Shape(ops + [WriteOp], 0, true)
  {
    var longer := ops + [WriteOp];
    assert longer[..|longer| - (live + 1)] == ops[..|ops| - live];
  }

  lemma ShapeWithDeletes(ops: seq<Op>, waits: bool)
    ensures Shape(ops + [BlobDelete, StampDelete], 0, waits)
  {
    var longer := ops + [BlobDelete, StampDelete];
    assert longer[..|longer| - 0] == longer;
  }

  lemma ShapeWithCopy(ops: seq<Op>, waits: bool)
    requires WriteOp !in ops
    ensures Shape(ops + [CopyOp], 0, waits)
  {
    var longer := ops + [CopyOp];
    assert longer[..|longer| - 0] == longer && WriteOp !in longer;
  }

  // --- what is handed to the backing ----------------------------------------------------------------

  lemma NothingHanded(lane: Lane, next: Lane, ops: seq<Op>)
    requires |next.writes| <= |lane.writes| && next.blobDeletes <= lane.blobDeletes
    requires lane.migration.Some? || next.migration.None?
    ensures ops + Handed(lane, next) == ops
  {
    assert Handed(lane, next) == [];
  }

  lemma WriteHanded(lane: Lane, next: Lane, ops: seq<Op>)
    requires |next.writes| > |lane.writes| && next.blobDeletes == lane.blobDeletes && lane.migration == next.migration
    ensures ops + Handed(lane, next) == ops + [WriteOp]
  {
    assert Handed(lane, next) == [WriteOp];
  }

  lemma DeletesHanded(lane: Lane, next: Lane, ops: seq<Op>)
    requires next.writes == lane.writes && lane.migration == next.migration && next.blobDeletes == lane.blobDeletes + 1
    ensures ops + Handed(lane, next) == ops + [BlobDelete, StampDelete]
  {
    assert Deletes(1) == [BlobDelete, StampDelete] + Deletes(0);
    assert Handed(lane, next) == [BlobDelete, StampDelete];
  }

  lemma CopyHanded(lane: Lane, next: Lane, ops: seq<Op>)
    requires next.writes == lane.writes && lane.migration.None? && next.migration.Some?
    requires next.blobDeletes == lane.blobDeletes
    ensures ops + Handed(lane, next) == ops + [CopyOp]
  {
    assert Handed(lane, next) == [CopyOp];
  }

  // --- each step ------------------------------------------------------------------------------------

  function NextLane(s: State, step: Step, name: string): Lane
    requires Enabled(s, step)
  {
    LaneOf(Apply(s, step), name)
  }

  /** The step that a disciplined run takes, on a lane in order; its write callbacks are current. */
  predicate Taken(s: State, step: Step, name: string, t: Track, ops: seq<Op>) {
    && Enabled(s, step) && Disciplined(s, step, name, t) && InOrder(s, step, name, ops)
    && Pipeline(LaneOf(s, name), ops, t.ahead)
    && (step.Settle? && step.name == name ==> LaneOf(s, name).writes[step.i].generation == LaneOf(s, name).generation)
  }

  /** Pipeline without Matches, which OrderMatches keeps. */
  predicate Ordered(lane: Lane, ops: seq<Op>, ahead: nat) {
    Tidy(lane, ahead) && Shape(ops, CountRunning(LiveWrites(lane, ahead)), RemovalWaits(lane))
  }

  predicate KeptOrdered(s: State, step: Step, name: string, t: Track, ops: seq<Op>)
    requires Enabled(s, step)
  {
    Ordered(NextLane(s, step, name), Outstanding(s, step, name, ops), AheadAfter(s, step, name, t.ahead))
  }

  /** Reads leave everything in order, also when one starts a copy or drops the fallback. */
  lemma ReadOrdered(lane: Lane, next: Lane, ops: seq<Op>, ahead: nat)
    requires Pipeline(lane, ops, ahead) && Quiet(lane) && !Removing(lane)
    requires next == lane.(readers := next.readers, migration := next.migration, legBlob := next.legBlob,
                           legStamp := next.legStamp)
    requires next.migration == lane.migration
        || (lane.migration.None? && next.migration.Some? && !next.migration.value.cancelled)
    ensures Ordered(next, ops + Handed(lane, next), ahead)
  {
    assert Waiters(next) == Waiters(lane) && LiveWrites(next, ahead) == LiveWrites(lane, ahead) == [];
    if lane.migration.None? && next.migration.Some? {
      CountOccurs(ops, WriteOp);
      CopyHanded(lane, next, ops);
      ShapeWithCopy(ops, RemovalWaits(next));
    } else {
      NothingHanded(lane, next, ops);
    }
  }

  lemma ReadLane(s: State, step: Step, name: string)
    requires Enabled(s, step) && IsReadStep(step) && step.name == name
    ensures var lane, next := LaneOf(s, name), NextLane(s, step, name);
            && next == lane.(readers := next.readers, migration := next.migration, legBlob := next.legBlob,
                             legStamp := next.legStamp)
            && (next.migration == lane.migration
                || (lane.migration.None? && next.migration.Some? && !next.migration.value.cancelled))
  {
  }

  lemma ReadKeepsOrdered(s: State, step: Step, name: string, t: Track, ops: seq<Op>)
    requires Taken(s, step, name, t, ops) && IsReadStep(step) && step.name == name
    ensures KeptOrdered(s, step, name, t, ops)
  {
    var lane, next := LaneOf(s, name), NextLane(s, step, name);
    assert step.BeginRead? || lane.readers != [];
    ReadLane(s, step, name);
    ReadOrdered(lane, next, ops, t.ahead);
  }

  /** A write parks behind the copy in flight. */
  lemma ParkOrdered(lane: Lane, next: Lane, ops: seq<Op>, ahead: nat, value: string)
    requires Pipeline(lane, ops, ahead) && lane.migration.Some? && lane.readers == []
    requires next == lane.(parked := lane.parked + [ParkedWrite(value)])
    ensures Ordered(next, ops + Handed(lane, next), ahead)
  {
    assert Waiters(next) == Waiters(lane) + [ParkedWrite(value)];
    assert RemovalWaits(next) == RemovalWaits(lane);
    NothingHanded(lane, next, ops);
  }

  /** next is lane with a write in flight more, or with a demoted write in the fallback. */
  predicate Started(lane: Lane, next: Lane) {
    && next == lane.(released := next.released, writes := next.writes, legBlob := next.legBlob,
                     legStamp := next.legStamp)
    && (|| next.writes == lane.writes
        || (next.writes != [] && next.writes == lane.writes + [Last(next.writes)]
            && Last(next.writes).stage == Running && Last(next.writes).generation == lane.generation))
  }

  lemma FlushedLane(s: State, step: Step, name: string)
    requires Enabled(s, step) && step.Flush? && Target(s, step) == Some(name)
    ensures var lane, next := LaneOf(s, name), NextLane(s, step, name);
            if lane.migration.Some? then next == lane.(parked := lane.parked + [ParkedWrite(s.pending.value.value)])
            else Started(lane, next) && next.released == lane.released == []
  {
  }

  lemma FlushedWhen(s: State, step: Step, name: string, t: Track, ops: seq<Op>)
    requires Taken(s, step, name, t, ops) && step.Flush? && Target(s, step) == Some(name)
    ensures var lane, next := LaneOf(s, name), NextLane(s, step, name);
            && Pipeline(lane, ops, t.ahead) && lane.readers == []
            && Outstanding(s, step, name, ops) == ops + Handed(lane, next)
            && AheadAfter(s, step, name, t.ahead) == t.ahead
  {
  }

  lemma FlushedOrdered(lane: Lane, next: Lane, ops: seq<Op>, ahead: nat, value: string)
    requires Pipeline(lane, ops, ahead) && lane.readers == []
    requires if lane.migration.Some? then next == lane.(parked := lane.parked + [ParkedWrite(value)])
             else Started(lane, next) && next.released == lane.released == []
    ensures Ordered(next, ops + Handed(lane, next), ahead)
  {
    if lane.migration.Some? {
      ParkOrdered(lane, next, ops, ahead, value);
    } else {
      assert Waiters(lane) == [];
      StartKeepsOrdered(lane, next, ops, ahead);
    }
  }

  lemma FlushKeepsOrdered(s: State, step: Step, name: string, t: Track, ops: seq<Op>)
    requires Taken(s, step, name, t, ops) && step.Flush? && Target(s, step) == Some(name)
    ensures KeptOrdered(s, step, name, t, ops)
  {
    FlushedLane(s, step, name);
    FlushedWhen(s, step, name, t, ops);
    FlushedOrdered(LaneOf(s, name), NextLane(s, step, name), ops, t.ahead, s.pending.value.value);
  }

  /** A live write starts, or a demoted one lands on the spot. */
  lemma StartKeepsOrdered(lane: Lane, next: Lane, ops: seq<Op>, ahead: nat)
    requires Pipeline(lane, ops, ahead) && lane.migration.None? && lane.readers == [] && !RemovalWaits(lane)
    requires Started(lane, next) && (forall w :: w in next.released ==> w in lane.released)
    ensures Ordered(next, ops + Handed(lane, next), ahead)
  {
    var live := LiveWrites(lane, ahead);
    assert RemovalWaits(next) ==> RemovalWaits(lane);
    if next.writes == lane.writes {
      NothingHanded(lane, next, ops);
    } else {
      var w := Last(next.writes);
      assert LiveWrites(next, ahead) == live + [w];
      CountRunningConcat(live, [w]);
      assert [w][1..] == [];
      WriteHanded(lane, next, ops);
      ShapeWithWrite(ops, CountRunning(live), false);
    }
  }

  /** A write parked ahead of a removal starts. */
  lemma StartAheadKeepsOrdered(lane: Lane, next: Lane, ops: seq<Op>, ahead: nat)
    requires Pipeline(lane, ops, ahead) && StartsAhead(lane) && lane.readers == []
    requires Started(lane, next) && next.released == lane.released[1..] && next.writes != lane.writes
    requires next.legBlob == lane.legBlob
    ensures Ordered(next, ops + Handed(lane, next), ahead + 1)
  {
    assert Waiters(lane)[1..] == Waiters(next);
    assert RemovalWaits(next) && RemovalWaits(lane);
    assert LiveWrites(lane, ahead) == [] && LiveWrites(next, ahead + 1) == [];
    WriteHanded(lane, next, ops);
    ShapeWithWrite(ops, 0, true);
  }

  lemma RemovalRunsOrdered(lane: Lane, next: Lane, ops: seq<Op>, ahead: nat)
    requires Pipeline(lane, ops, ahead) && lane.released != [] && lane.released[0].ParkedRemoval? && lane.readers == []
    requires next == lane.(released := lane.released[1..], blobDeletes := lane.blobDeletes + 1,
                           stampDeletes := lane.stampDeletes + 1)
    ensures Ordered(next, ops + Handed(lane, next), ahead)
  {
    assert Waiters(lane) == [ParkedRemoval] + Waiters(next) && ParkedRemoval in Waiters(lane);
    assert LiveWrites(next, ahead) == [];
    DeletesHanded(lane, next, ops);
    ShapeWithDeletes(ops, RemovalWaits(next));
  }

  lemma ResumedLane(s: State, step: Step, name: string)
    requires Enabled(s, step) && step.Resume? && step.name == name
    ensures var lane, next := LaneOf(s, name), NextLane(s, step, name);
            if lane.released[0].ParkedRemoval? then next == IssueDeletes(lane.(released := lane.released[1..]), 1)
            else Started(lane, next) && next.released == lane.released[1..]
                 && (!s.broken ==> next.writes != lane.writes && next.legBlob == lane.legBlob)
  {
  }

  lemma ResumeKeepsOrdered(s: State, step: Step, name: string, t: Track, ops: seq<Op>)
    requires Taken(s, step, name, t, ops) && step.Resume? && step.name == name
    ensures KeptOrdered(s, step, name, t, ops)
  {
    var lane, next := LaneOf(s, name), NextLane(s, step, name);
    ResumedLane(s, step, name);
    assert Waiters(lane) == [lane.released[0]] + (lane.released[1..] + lane.parked);
    if lane.released[0].ParkedRemoval? {
      RemovalRunsOrdered(lane, next, ops, t.ahead);
    } else if StartsAhead(lane) {
      StartAheadKeepsOrdered(lane, next, ops, t.ahead);
    } else {
      StartKeepsOrdered(lane, next, ops, t.ahead);
    }
  }

  /** The callback of the oldest write in flight, which is current. */
  lemma SettleOrdered(lane: Lane, next: Lane, ops: seq<Op>, ahead: nat)
    requires Pipeline(lane, ops, ahead) && lane.writes != [] && lane.writes[0].stage != Running
    requires next == lane.(writes := lane.writes[1..], legBlob := next.legBlob, legStamp := next.legStamp)
    ensures Ordered(next, ops + Handed(lane, next), if ahead > 0 then ahead - 1 else 0)
  {
    assert Waiters(next) == Waiters(lane);
    NothingHanded(lane, next, ops);
    if ahead > 0 {
      assert LiveWrites(next, ahead - 1) == LiveWrites(lane, ahead);
      assert forall i :: 0 <= i < ahead - 1 ==> next.writes[i] == lane.writes[i + 1];
    } else {
      assert LiveWrites(lane, 0) == lane.writes && LiveWrites(next, 0) == lane.writes[1..];
    }
  }

  lemma SettledLane(s: State, step: Step, name: string)
    requires Enabled(s, step) && step.Settle? && step.name == name && step.i == 0
    requires LaneOf(s, name).writes[0].generation == LaneOf(s, name).generation
    ensures var lane, next := LaneOf(s, name), NextLane(s, step, name);
            next == lane.(writes := lane.writes[1..], legBlob := next.legBlob, legStamp := next.legStamp)
    ensures LaneOf(s, name).writes[0].stage == Committed ==>
              NextLane(s, step, name) == LaneOf(s, name).(writes := LaneOf(s, name).writes[1..])
  {
    assert Removed(LaneOf(s, name).writes, 0) == LaneOf(s, name).writes[1..];
  }

  lemma SettleKeepsOrdered(s: State, step: Step, name: string, t: Track, ops: seq<Op>)
    requires Taken(s, step, name, t, ops) && step.Settle? && step.name == name
    ensures KeptOrdered(s, step, name, t, ops)
  {
    SettledLane(s, step, name);
    SettleOrdered(LaneOf(s, name), NextLane(s, step, name), ops, t.ahead);
  }

  lemma OutcomeKeepsOrdered(s: State, step: Step, name: string, t: Track, ops: seq<Op>)
    requires Taken(s, step, name, t, ops) && step.Outcome? && step.name == name
    ensures KeptOrdered(s, step, name, t, ops)
    ensures step.i >= t.ahead ==> !Removing(LaneOf(s, name))
    ensures step.i < t.ahead ==> Removing(LaneOf(s, name))
  {
    var lane, next, i := LaneOf(s, name), NextLane(s, step, name), step.i;
    var live := LiveWrites(lane, t.ahead);
    assert Waiters(next) == Waiters(lane) && next.writes == lane.writes[i := next.writes[i]];
    ShapeAfterPop(ops, CountRunning(live), RemovalWaits(lane));
    if i < t.ahead {
      RemovedBehindAWrite(lane, ops, t.ahead, i);
      assert LiveWrites(next, t.ahead) == live;
    } else {
      NothingRemovedBehindAWrite(lane, ops, t.ahead, i);
      assert LiveWrites(next, t.ahead) == live[i - t.ahead := next.writes[i]];
      CountRunningAround(live, i - t.ahead, next.writes[i]);
    }
  }

  lemma DeleteKeepsOrdered(s: State, step: Step, name: string, t: Track, ops: seq<Op>)
    requires Taken(s, step, name, t, ops) && TakesEffect(step, name) && !step.Outcome?
    ensures KeptOrdered(s, step, name, t, ops)
  {
    var lane, next := LaneOf(s, name), NextLane(s, step, name);
    assert Waiters(next) == Waiters(lane) && next.writes == lane.writes;
    ShapeAfterPop(ops, CountRunning(LiveWrites(lane, t.ahead)), RemovalWaits(lane));
    assert ops[|ops| - 1] == WriteOp || CountRunning(LiveWrites(lane, t.ahead)) == 0;
  }

  lemma ReleaseOrdered(lane: Lane, next: Lane, ops: seq<Op>, ahead: nat)
    requires Pipeline(lane, ops, ahead) && lane.migration.Some? && lane.migration.value.stage != Running
    requires next == lane.(migration := None, released := lane.released + lane.parked, parked := [],
                           legBlob := next.legBlob, legStamp := next.legStamp)
    ensures Ordered(next, ops + Handed(lane, next), ahead)
  {
    assert Waiters(next) == Waiters(lane) + [];
    NothingHanded(lane, next, ops);
  }

  /** A removal is attached to the copy in flight, or issues its deletes at once. */
  lemma RemovalOrdered(lane: Lane, next: Lane, ops: seq<Op>, ahead: nat)
    requires Pipeline(lane, ops, ahead) && lane.writes == [] && lane.readers == [] && lane.released == []
    requires next.writes == [] && next.readers == [] && next.released == []
    requires if lane.migration.None? then
               next.migration.None? && next.parked == lane.parked
               && next.blobDeletes == lane.blobDeletes + 1 && next.stampDeletes == lane.stampDeletes + 1
             else
               next.migration.Some? && next.migration.value.cancelled && next.parked == lane.parked + [ParkedRemoval]
               && next.blobDeletes == lane.blobDeletes
    ensures Ordered(next, ops + Handed(lane, next), ahead)
  {
    assert LiveWrites(next, ahead) == [] && LiveWrites(lane, ahead) == [];
    if lane.migration.Some? {
      assert next.parked[|lane.parked|] == ParkedRemoval && Waiters(next) == [] + next.parked == next.parked;
      NothingHanded(lane, next, ops);
    } else {
      assert Waiters(next) == [];
      DeletesHanded(lane, next, ops);
      ShapeWithDeletes(ops, false);
    }
  }

  lemma RemovalKeepsOrdered(s: State, step: Step, name: string, t: Track, ops: seq<Op>)
    requires Taken(s, step, name, t, ops) && (step.RemoveItem? || step.MigrationSettle?) && step.name == name
    ensures KeptOrdered(s, step, name, t, ops)
  {
    var lane, next := LaneOf(s, name), NextLane(s, step, name);
    if step.MigrationSettle? {
      ReleaseOrdered(lane, next, ops, t.ahead);
    } else {
      RemovalOrdered(lane, next, ops, t.ahead);
    }
  }

  lemma OwnStepKeepsOrdered(s: State, step: Step, name: string, t: Track, ops: seq<Op>)
    requires Taken(s, step, name, t, ops) && Target(s, step) == Some(name)
    ensures KeptOrdered(s, step, name, t, ops)
  {
    match step
    case Flush(_, _) => FlushKeepsOrdered(s, step, name, t, ops);
    case Resume(_, _, _) => ResumeKeepsOrdered(s, step, name, t, ops);
    case Outcome(_, _, _) => OutcomeKeepsOrdered(s, step, name, t, ops);
    case Settle(_, _, _) => SettleKeepsOrdered(s, step, name, t, ops);
    case RemoveItem(_) => RemovalKeepsOrdered(s, step, name, t, ops);
    case MigrationSettle(_) => RemovalKeepsOrdered(s, step, name, t, ops);
    case MigrationOutcome(_, _) => DeleteKeepsOrdered(s, step, name, t, ops);
    case DeleteBlob(_, _) => DeleteKeepsOrdered(s, step, name, t, ops);
    case DeleteStamp(_, _) => DeleteKeepsOrdered(s, step, name, t, ops);
    case _ => ReadKeepsOrdered(s, step, name, t, ops);
  }

  lemma OtherNameKeepsOrdered(s: State, step: Step, name: string, t: Track, ops: seq<Op>)
    requires Taken(s, step, name, t, ops) && !step.NewSession? && Target(s, step) != Some(name)
    ensures KeptOrdered(s, step, name, t, ops)
  {
    OtherLanesUntouched(s, step, name);
    NothingHanded(LaneOf(s, name), LaneOf(s, name), ops);
    AheadOfOthers(s, step, name, t.ahead);
  }

  lemma AheadOfOthers(s: State, step: Step, name: string, ahead: nat)
    requires Enabled(s, step) && !step.NewSession? && Target(s, step) != Some(name)
    ensures AheadAfter(s, step, name, ahead) == ahead && !TakesEffect(step, name)
  {
  }

  lemma StepKeepsPipeline(s: State, step: Step, name: string, t: Track, ops: seq<Op>)
    requires Taken(s, step, name, t, ops)
    ensures Pipeline(NextLane(s, step, name), Outstanding(s, step, name, ops), AheadAfter(s, step, name, t.ahead))
  {
    OrderMatches(s, step, name, ops);
    if step.NewSession? {
      assert Waiters(NextLane(s, step, name)) == [];
    } else if Target(s, step) == Some(name) {
      OwnStepKeepsOrdered(s, step, name, t, ops);
    } else {
      OtherNameKeepsOrdered(s, step, name, t, ops);
    }
  }
}
