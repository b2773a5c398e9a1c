/** The order in which the program hands the operations of one name to the backing store. IndexedDB
    runs transactions over one object store in the order of their creation, so a run is in order when
    each write, copy and delete takes effect only after everything issued before it. */
module PersistOrder {
  import opened StampedCopy
  import opened Seqs
  import opened PersistProtocol

  datatype Op = WriteOp | CopyOp | BlobDelete | StampDelete

  function Deletes(n: int): seq<Op> {
    if n <= 0 then [] else [BlobDelete, StampDelete] + Deletes(n - 1)
  }

  /** What a step issued: the lane after it has one write more, a copy it had not, or more deletes. */
  function Handed(lane: Lane, next: Lane): seq<Op> {
    (if |next.writes| > |lane.writes| then [WriteOp] else [])
    + (if lane.migration.None? && next.migration.Some? then [CopyOp] else [])
    + Deletes(next.blobDeletes - lane.blobDeletes)
  }

  predicate TakesEffect(step: Step, name: string) {
    && (step.Outcome? || step.MigrationOutcome? || step.DeleteBlob? || step.DeleteStamp?)
    && step.name == name
  }

  function OpOf(step: Step): Op {
    match step
    case Outcome(_, _, _) => WriteOp
    case MigrationOutcome(_, _) => CopyOp
    case DeleteBlob(_, _) => BlobDelete
    case _ => StampDelete
  }

  /** The operations of the name that have not taken effect after the step. */
  function Outstanding(s: State, step: Step, name: string, ops: seq<Op>): seq<Op>
    requires Enabled(s, step)
  {
    if step.NewSession? then []
    else if TakesEffect(step, name) then (if ops == [] then [] else ops[1..])
    else ops + Handed(LaneOf(s, name), LaneOf(Apply(s, step), name))
  }

  predicate NoneRunningBefore(writes: seq<Write>, i: nat) {
    forall j :: 0 <= j < i && j < |writes| ==> writes[j].stage != Running
  }

  predicate InOrder(s: State, step: Step, name: string, ops: seq<Op>) {
    TakesEffect(step, name) ==>
      && ops != [] && ops[0] == OpOf(step)
      && (step.Outcome? ==> NoneRunningBefore(LaneOf(s, name).writes, step.i))
  }

  // --- the order and the lane agree -------------------------------------------------------------

  function Count(ops: seq<Op>, op: Op): nat {
    if ops == [] then 0 else (if ops[0] == op then 1 else 0) + Count(ops[1..], op)
  }

  function CountRunning(writes: seq<Write>): nat {
    if writes == [] then 0 else (if writes[0].stage == Running then 1 else 0) + CountRunning(writes[1..])
  }

  /** Exactly what the lane has in flight is outstanding. */
  predicate Matches(ops: seq<Op>, lane: Lane) {
    && Count(ops, WriteOp) == CountRunning(lane.writes)
    && Count(ops, CopyOp) == (if lane.migration.Some? && lane.migration.value.stage == Running then 1 else 0)
    && Count(ops, BlobDelete) == lane.blobDeletes
    && Count(ops, StampDelete) == lane.stampDeletes
  }

  lemma {:induction false} CountConcat(a: seq<Op>, b: seq<Op>, op: Op)
    ensures Count(a + b, op) == Count(a, op) + Count(b, op)
  {
    if a == [] {
      assert a + b == b;
    } else {
      CountConcat(a[1..], b, op);
      assert (a + b)[1..] == a[1..] + b;
    }
  }

  lemma {:induction false} CountOccurs(ops: seq<Op>, op: Op)
    ensures Count(ops, op) == 0 <==> op !in ops
  {
    if ops != [] {
      CountOccurs(ops[1..], op);
    }
  }

  lemma {:induction false} CountDeletes(n: int)
    ensures var count := if n < 0 then 0 else n;
            && Count(Deletes(n), BlobDelete) == count && Count(Deletes(n), StampDelete) == count
            && Count(Deletes(n), WriteOp) == 0 && Count(Deletes(n), CopyOp) == 0
    decreases if n < 0 then 0 else n
  {
    if n > 0 {
      CountDeletes(n - 1);
      var pair := [BlobDelete, StampDelete];
      assert pair[1..] == [StampDelete] && [StampDelete][1..] == [];
      forall op: Op ensures Count(Deletes(n), op) == Count(pair, op) + Count(Deletes(n - 1), op) {
        CountConcat(pair, Deletes(n - 1), op);
      }
    }
  }

  lemma {:induction false} CountRunningConcat(a: seq<Write>, b: seq<Write>)
    ensures CountRunning(a + b) == CountRunning(a) + CountRunning(b)
  {
    if a == [] {
      assert a + b == b;
    } else {
      CountRunningConcat(a[1..], b);
      assert (a + b)[1..] == a[1..] + b;
    }
  }

  lemma {:induction false} SomeRunning(writes: seq<Write>)
    ensures CountRunning(writes) == 0 <==> forall i :: 0 <= i < |writes| ==> writes[i].stage != Running
  {
    if writes != [] {
      SomeRunning(writes[1..]);
      assert CountRunning(writes[1..]) == 0 ==> forall i :: 1 <= i < |writes| ==> writes[i] == writes[1..][i - 1];
      if forall i :: 0 <= i < |writes| ==> writes[i].stage != Running {
        assert writes[0].stage != Running;
      }
    }
  }

  function CountOne(write: Write): nat {
    if write.stage == Running then 1 else 0
  }

  lemma CountRunningAround(writes: seq<Write>, i: nat, w: Write)
    requires i < |writes|
    ensures CountRunning(writes[i := w]) == CountRunning(writes) - CountOne(writes[i]) + CountOne(w)
    ensures CountRunning(Removed(writes, i)) == CountRunning(writes) - CountOne(writes[i])
  {
    var front, back := writes[..i], writes[i + 1..];
    assert writes == front + ([writes[i]] + back) && writes[i := w] == front + ([w] + back);
    CountRunningConcat(front, [writes[i]] + back);
    CountRunningConcat(front, [w] + back);
    CountRunningConcat(front, back);
    assert ([writes[i]] + back)[1..] == back && ([w] + back)[1..] == back;
  }

  lemma CountHanded(lane: Lane, next: Lane, op: Op)
    ensures var deletes := if next.blobDeletes > lane.blobDeletes then next.blobDeletes - lane.blobDeletes else 0;
            Count(Handed(lane, next), op)
            == match op
               case WriteOp => if |next.writes| > |lane.writes| then 1 else 0
               case CopyOp => if lane.migration.None? && next.migration.Some? then 1 else 0
               case _ => deletes
  {
    var a := if |next.writes| > |lane.writes| then [WriteOp] else [];
    var b := if lane.migration.None? && next.migration.Some? then [CopyOp] else [];
    var n := next.blobDeletes - lane.blobDeletes;
    CountConcat(a + b, Deletes(n), op);
    CountConcat(a, b, op);
    CountDeletes(n);
    assert a != [] ==> a[1..] == [];
    assert b != [] ==> b[1..] == [];
  }

  /** A step that issues and does not take effect moves the lane by what it issued. */
  predicate Grows(lane: Lane, next: Lane) {
    && CountRunning(next.writes) == CountRunning(lane.writes) + (if |next.writes| > |lane.writes| then 1 else 0)
    && next.blobDeletes - lane.blobDeletes == next.stampDeletes - lane.stampDeletes >= 0
    && (next.migration.Some? && next.migration.value.stage == Running
        <==> || (lane.migration.Some? && lane.migration.value.stage == Running)
             || (lane.migration.None? && next.migration.Some?))
  }

  lemma StartGrows(s: State, step: Step, name: string)
    requires Enabled(s, step) && (step.Flush? || step.Resume?) && Target(s, step) == Some(name)
    ensures Grows(LaneOf(s, name), LaneOf(Apply(s, step), name))
  {
    var lane, next := LaneOf(s, name), LaneOf(Apply(s, step), name);
    if |next.writes| > |lane.writes| {
      var w := next.writes[|lane.writes|];
      assert next.writes == lane.writes + [w] && w.stage == Running;
      CountRunningConcat(lane.writes, [w]);
      assert [w][1..] == [];
    }
  }

  lemma SettleGrows(s: State, name: string, i: nat, lands: bool)
    requires Enabled(s, Settle(name, i, lands))
    ensures Grows(LaneOf(s, name), LaneOf(Apply(s, Settle(name, i, lands)), name))
  {
    var lane, next := LaneOf(s, name), LaneOf(SettleWrite(s, name, i, lands), name);
    assert next.writes == Removed(lane.writes, i) && next.migration == lane.migration;
    CountRunningAround(lane.writes, i, lane.writes[i]);
  }

  lemma OtherGrows(s: State, step: Step, name: string)
    requires Enabled(s, step) && Target(s, step) == Some(name)
    requires !TakesEffect(step, name) && !step.Flush? && !step.Resume? && !step.Settle?
    ensures Grows(LaneOf(s, name), LaneOf(Apply(s, step), name))
  {
  }

  lemma IssuingKeepsMatches(lane: Lane, next: Lane, ops: seq<Op>)
    requires Matches(ops, lane) && Grows(lane, next)
    ensures Matches(ops + Handed(lane, next), next)
  {
    forall op: Op ensures Count(ops + Handed(lane, next), op) == Count(ops, op) + Count(Handed(lane, next), op) {
      CountConcat(ops, Handed(lane, next), op);
    }
    CountHanded(lane, next, WriteOp);
    CountHanded(lane, next, CopyOp);
    CountHanded(lane, next, BlobDelete);
    CountHanded(lane, next, StampDelete);
  }

  lemma EffectKeepsMatches(s: State, step: Step, name: string, ops: seq<Op>)
    requires Enabled(s, step) && TakesEffect(step, name) && InOrder(s, step, name, ops) && Matches(ops, LaneOf(s, name))
    ensures Matches(ops[1..], LaneOf(Apply(s, step), name))
  {
    var lane, next := LaneOf(s, name), LaneOf(Apply(s, step), name);
    if step.Outcome? {
      CountRunningAround(lane.writes, step.i, next.writes[step.i]);
    }
  }

  /** Along every run in order, exactly what the lane has in flight is outstanding. */
  lemma OrderMatches(s: State, step: Step, name: string, ops: seq<Op>)
    requires Enabled(s, step) && InOrder(s, step, name, ops) && Matches(ops, LaneOf(s, name))
    ensures Matches(Outstanding(s, step, name, ops), LaneOf(Apply(s, step), name))
  {
    var lane, next := LaneOf(s, name), LaneOf(Apply(s, step), name);
    if step.NewSession? {
    } else if TakesEffect(step, name) {
      EffectKeepsMatches(s, step, name, ops);
    } else {
      if Target(s, step) != Some(name) {
        OtherLanesUntouched(s, step, name);
      } else if step.Flush? || step.Resume? {
        StartGrows(s, step, name);
      } else if step.Settle? {
        SettleGrows(s, name, step.i, step.lands);
      } else {
        OtherGrows(s, step, name);
      }
      IssuingKeepsMatches(lane, next, ops);
    }
  }
}
