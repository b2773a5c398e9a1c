/** The two-store persistence protocol of src/stores/scanPersistStorage.ts as a step system.

    One lane holds everything that belongs to one persist name: its cells in both stores and the
    asynchronous work in flight for it. A step is one uninterrupted piece of the program (the part
    between two awaits) or one move of the environment: the clock, the outcome of a transaction,
    whether a fallback write fits the quota, the end of the session. */
module PersistProtocol {
  import opened Decimal
  import opened StampedCopy
  import opened Seqs

  const BACKING_BROKEN_THRESHOLD := 3

  /** A transaction is running, or its outcome is known but its callback has not run yet. */
  datatype Stage = Running | Committed | Aborted

  datatype Write = Write(raw: string, stamp: nat, generation: nat, stage: Stage)

  datatype Migration = Migration(raw: string, stamp: nat, stage: Stage, cancelled: bool)

  /** What has been attached to the promise of a migration: its reactions run in order of attachment. */
  datatype Waiter = ParkedWrite(value: string) | ParkedRemoval

  datatype ReadOp =
    | Issued
    | BackingRead(blob: Option<string>, stamp: Option<string>)
    | Picked(read: NewestRead)

  datatype Lane = Lane(
    backBlob: Option<string>, backStamp: Option<string>,
    legBlob: Option<string>, legStamp: Option<string>,
    writes: seq<Write>,         // started, callback not run, oldest first
    parked: seq<Waiter>,        // attached to the migration in flight
    released: seq<Waiter>,      // the migration has settled, the reaction has not run
    migration: Option<Migration>,
    generation: nat,
    blobDeletes: nat, stampDeletes: nat,  // backing deletes issued and not settled
    readers: seq<ReadOp>)

  const EMPTY_LANE := Lane(None, None, None, None, [], [], [], None, 0, 0, 0, [])

  datatype Pending = Pending(name: string, value: string)

  datatype State = State(pending: Option<Pending>, lastStamp: nat, broken: bool, failures: nat,
                         lanes: map<string, Lane>)

  datatype Step =
    | SetItem(name: string, value: string)
    | Flush(now: int, lands: bool)
    | Resume(name: string, now: int, lands: bool)
    | Outcome(name: string, i: nat, commits: bool)
    | Settle(name: string, i: nat, lands: bool)
    | BeginRead(name: string)
    | ReadBacking(name: string, i: nat, ok: bool)
    | ReadLegacy(name: string, i: nat, ok: bool)
    | FinishRead(name: string, i: nat)
    | MigrationOutcome(name: string, commits: bool)
    | MigrationSettle(name: string)
    | RemoveItem(name: string)
    | DeleteBlob(name: string, commits: bool)
    | DeleteStamp(name: string, commits: bool)
    | ProbeFails
    | NewSession

  function LaneOf(s: State, name: string): Lane {
    if name in s.lanes then s.lanes[name] else EMPTY_LANE
  }

  function Put(s: State, name: string, lane: Lane): State {
    s.(lanes := s.lanes[name := lane])
  }

  // --- bookkeeping shared by several steps -----------------------------------------------------

  function NextStamp(lastStamp: nat, now: int): nat {
    if now > lastStamp then now else lastStamp + 1
  }

  function RecordFailure(s: State): State {
    if s.broken then s
    else s.(failures := s.failures + 1, broken := s.failures + 1 >= BACKING_BROKEN_THRESHOLD)
  }

  function WriteThrough(lane: Lane, raw: string, stamp: nat, lands: bool): Lane {
    if lands then lane.(legBlob := Some(EncodeLegacy(raw, stamp)), legStamp := None) else lane
  }

  function ClearLegacy(lane: Lane): Lane {
    lane.(legBlob := None, legStamp := None)
  }

  function CommitToBacking(lane: Lane, raw: string, stamp: nat): Lane {
    lane.(backBlob := Some(raw), backStamp := Some(Print(stamp)))
  }

  function IssueDeletes(lane: Lane, n: nat): Lane {
    lane.(blobDeletes := lane.blobDeletes + n, stampDeletes := lane.stampDeletes + n)
  }

  /** The start of a real write: the generation is captured and the stamp taken here. */
  function StartWrite(s: State, name: string, value: string, now: int, lands: bool): State {
    var stamp := NextStamp(s.lastStamp, now);
    var lane := LaneOf(s, name);
    Put(s.(lastStamp := stamp), name,
        if s.broken then WriteThrough(lane, value, stamp, lands)
        else lane.(writes := lane.writes + [Write(value, stamp, lane.generation, Running)]))
  }

  function SettleWrite(s: State, name: string, i: nat, lands: bool): State
    requires i < |LaneOf(s, name).writes|
  {
    var lane := LaneOf(s, name);
    var w := lane.writes[i];
    var rest := lane.(writes := Removed(lane.writes, i));
    var removedSinceStart := lane.generation != w.generation;
    if w.stage == Committed then
      Put(s.(failures := 0), name,
          if removedSinceStart then ClearLegacy(IssueDeletes(rest, 1)) else rest)
    else
      Put(RecordFailure(s), name,
          if removedSinceStart then rest else WriteThrough(rest, w.raw, w.stamp, lands))
  }

  function ReadResult(lane: Lane, i: nat, ok: bool): NewestRead
    requires i < |lane.readers| && lane.readers[i].BackingRead?
  {
    Judge(lane.readers[i].blob, lane.readers[i].stamp,
          if ok then lane.legBlob else None, if ok then lane.legStamp else None)
  }

  function Max(a: nat, b: nat): nat {
    if a > b then a else b
  }

  /** The continuation of `getItem`: floor the stamps, then heal a divergence. */
  function CompleteRead(s: State, name: string, i: nat): State
    requires i < |LaneOf(s, name).readers| && LaneOf(s, name).readers[i].Picked?
  {
    var lane := LaneOf(s, name);
    var read := lane.readers[i].read;
    var rest := lane.(readers := Removed(lane.readers, i));
    var floored := s.(lastStamp := Max(s.lastStamp, Max(read.backingStamp, read.legacyStamp)));
    Put(floored, name,
        if read.source == FromLegacy && read.legacyRaw.Some? then
          if s.broken || lane.migration.Some? then rest
          else rest.(migration := Some(Migration(read.legacyRaw.value, read.legacyStamp, Running, false)))
        else if read.source == FromBacking && read.legacyRaw.Some? then ClearLegacy(rest)
        else rest)
  }

  function SettleMigration(s: State, name: string): State
    requires LaneOf(s, name).migration.Some?
  {
    var lane := LaneOf(s, name);
    var m := lane.migration.value;
    var freed := lane.(migration := None, released := lane.released + lane.parked, parked := []);
    if m.stage == Committed then
      Put(s.(failures := 0), name, if m.cancelled then freed else ClearLegacy(freed))
    else
      Put(RecordFailure(s), name, freed)
  }

  /** The generation moves on and the fallback is cleared. A copy in flight is cancelled and the
      deletes wait for it, behind the writes already parked; without one they are issued at once. */
  function Remove(s: State, name: string): State {
    var lane := LaneOf(s, name);
    var issued := if lane.migration.None? then 1 else 0;
    var migration := if lane.migration.None? then None else Some(lane.migration.value.(cancelled := true));
    var parked := if lane.migration.None? then lane.parked else lane.parked + [ParkedRemoval];
    Put(if s.pending.Some? && s.pending.value.name == name then s.(pending := None) else s, name,
        Lane(lane.backBlob, lane.backStamp, None, None, lane.writes, parked, lane.released, migration,
             lane.generation + 1, lane.blobDeletes + issued, lane.stampDeletes + issued, lane.readers))
  }

  function EndSession(lane: Lane): Lane {
    EMPTY_LANE.(backBlob := lane.backBlob, backStamp := lane.backStamp,
                legBlob := lane.legBlob, legStamp := lane.legStamp)
  }

  // --- the step system -------------------------------------------------------------------------

  /** Promise reactions run before the next task, so no flush happens while one waits to run. */
  predicate Enabled(s: State, step: Step) {
    match step
    case Flush(_, _) => s.pending.Some? ==> LaneOf(s, s.pending.value.name).released == []
    case Resume(n, _, _) => LaneOf(s, n).released != []
    case Outcome(n, i, _) => i < |LaneOf(s, n).writes| && LaneOf(s, n).writes[i].stage == Running
    case Settle(n, i, _) => i < |LaneOf(s, n).writes| && LaneOf(s, n).writes[i].stage != Running
    case ReadBacking(n, i, _) => i < |LaneOf(s, n).readers| && LaneOf(s, n).readers[i].Issued?
    case ReadLegacy(n, i, _) => i < |LaneOf(s, n).readers| && LaneOf(s, n).readers[i].BackingRead?
    case FinishRead(n, i) => i < |LaneOf(s, n).readers| && LaneOf(s, n).readers[i].Picked?
    case MigrationOutcome(n, _) => LaneOf(s, n).migration.Some? && LaneOf(s, n).migration.value.stage == Running
    case MigrationSettle(n) => LaneOf(s, n).migration.Some? && LaneOf(s, n).migration.value.stage != Running
    case DeleteBlob(n, _) => LaneOf(s, n).blobDeletes > 0
    case DeleteStamp(n, _) => LaneOf(s, n).stampDeletes > 0
    case _ => true
  }

  function Apply(s: State, step: Step): State
    requires Enabled(s, step)
  {
    match step
    case SetItem(n, v) => s.(pending := Some(Pending(n, v)))
    case Flush(now, lands) =>
      if s.pending.None? then s
      else
        var p := s.pending.value;
        var taken := s.(pending := None);
        var lane := LaneOf(s, p.name);
        if lane.migration.Some? then Put(taken, p.name, lane.(parked := lane.parked + [ParkedWrite(p.value)]))
        else StartWrite(taken, p.name, p.value, now, lands)
    case Resume(n, now, lands) =>
      var lane := LaneOf(s, n);
      var rest := lane.(released := lane.released[1..]);
      (match lane.released[0]
       case ParkedWrite(value) => StartWrite(Put(s, n, rest), n, value, now, lands)
       case ParkedRemoval => Put(s, n, IssueDeletes(rest, 1)))
    case Outcome(n, i, commits) =>
      var lane := LaneOf(s, n);
      var w := lane.writes[i];
      var done := lane.(writes := lane.writes[i := w.(stage := if commits then Committed else Aborted)]);
      Put(s, n, if commits then CommitToBacking(done, w.raw, w.stamp) else done)
    case Settle(n, i, lands) => SettleWrite(s, n, i, lands)
    case BeginRead(n) =>
      var lane := LaneOf(s, n);
      Put(s, n, lane.(readers := lane.readers + [Issued]))
    case ReadBacking(n, i, ok) =>
      var lane := LaneOf(s, n);
      var pair := if ok then BackingRead(lane.backBlob, lane.backStamp) else BackingRead(None, None);
      Put(s, n, lane.(readers := lane.readers[i := pair]))
    case ReadLegacy(n, i, ok) =>
      var lane := LaneOf(s, n);
      Put(s, n, lane.(readers := lane.readers[i := Picked(ReadResult(lane, i, ok))]))
    case FinishRead(n, i) => CompleteRead(s, n, i)
    case MigrationOutcome(n, commits) =>
      var lane := LaneOf(s, n);
      var m := lane.migration.value;
      var done := lane.(migration := Some(m.(stage := if commits then Committed else Aborted)));
      Put(s, n, if commits then CommitToBacking(done, m.raw, m.stamp) else done)
    case MigrationSettle(n) => SettleMigration(s, n)
    case RemoveItem(n) => Remove(s, n)
    case DeleteBlob(n, commits) =>
      var lane := LaneOf(s, n);
      Put(s, n, lane.(blobDeletes := lane.blobDeletes - 1, backBlob := if commits then None else lane.backBlob))
    case DeleteStamp(n, commits) =>
      var lane := LaneOf(s, n);
      Put(s, n, lane.(stampDeletes := lane.stampDeletes - 1, backStamp := if commits then None else lane.backStamp))
    case ProbeFails => s.(broken := true)
    case NewSession =>
      State(None, 0, false, 0, map n | n in s.lanes :: EndSession(s.lanes[n]))
  }

  /** Every step of the run is enabled where it is taken. */
  predicate Legal(s: State, steps: seq<Step>)
    decreases |steps|
  {
    steps != [] ==> Enabled(s, steps[0]) && Legal(Apply(s, steps[0]), steps[1..])
  }

  function Run(s: State, steps: seq<Step>): State
    requires Legal(s, steps)
    decreases |steps|
  {
    if steps == [] then s else Run(Apply(s, steps[0]), steps[1..])
  }

  /** What a session that starts now would read for the name. */
  function FreshRead(lane: Lane): NewestRead {
    Judge(lane.backBlob, lane.backStamp, lane.legBlob, lane.legStamp)
  }

  lemma {:induction false} LegalConcat(s: State, a: seq<Step>, b: seq<Step>)
    requires Legal(s, a) && Legal(Run(s, a), b)
    ensures Legal(s, a + b) && Run(s, a + b) == Run(Run(s, a), b)
    decreases |a|
  {
    if a == [] {
      assert a + b == b;
    } else {
      LegalConcat(Apply(s, a[0]), a[1..], b);
      assert (a + b)[1..] == a[1..] + b;
    }
  }

  /** Everything attached to a copy that has not run yet, in the order in which it will. */
  function Waiters(lane: Lane): seq<Waiter> {
    lane.released + lane.parked
  }

  /** The lane a step works on; None when it works on none. */
  function Target(s: State, step: Step): Option<string> {
    match step
    case SetItem(_, _) => None
    case Flush(_, _) => if s.pending.Some? then Some(s.pending.value.name) else None
    case ProbeFails => None
    case NewSession => None
    case _ => Some(step.name)
  }

  predicate IsWriteStep(step: Step) {
    step.SetItem? || step.Flush? || step.Resume? || step.Outcome? || step.Settle?
  }

  predicate IsReadStep(step: Step) {
    step.BeginRead? || step.ReadBacking? || step.ReadLegacy? || step.FinishRead?
  }

  /** A step leaves every other name's lane alone and never lowers the last stamp. */
  lemma OtherLanesUntouched(s: State, step: Step, name: string)
    requires Enabled(s, step) && !step.NewSession? && Target(s, step) != Some(name)
    ensures LaneOf(Apply(s, step), name) == LaneOf(s, name)
    ensures Apply(s, step).lastStamp >= s.lastStamp
  {
  }

  lemma OneStep(s: State, step: Step)
    requires Enabled(s, step)
    ensures Legal(s, [step]) && Run(s, [step]) == Apply(s, step)
  {
    var t, rest := Apply(s, step), [step][1..];
    assert rest == [] && Legal(t, rest) && Run(t, rest) == t;
  }

  lemma Then(s: State, steps: seq<Step>, step: Step) returns (longer: seq<Step>)
    requires Legal(s, steps) && Enabled(Run(s, steps), step)
    ensures longer == steps + [step] && Legal(s, longer) && Run(s, longer) == Apply(Run(s, steps), step)
  {
    longer := steps + [step];
    OneStep(Run(s, steps), step);
    LegalConcat(s, steps, [step]);
  }
}
