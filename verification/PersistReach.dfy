/** Runs that go on with what is in flight for one name: it is not written again, the session does not
    end, its deletes succeed, and its backing operations take effect in the order of issue. In a clean
    run all its transactions commit and the latch does not trip. */
module PersistReach {
  import opened StampedCopy
  import opened Seqs
  import opened PersistProtocol
  import opened PersistOrder
  import opened PersistRemoval

  predicate Commits(step: Step, name: string) {
    match step
    case Outcome(n, _, commits) => n == name ==> commits
    case MigrationOutcome(n, commits) => n == name ==> commits
    case _ => true
  }

  predicate Allowed(p: Point, step: Step, name: string, clean: bool) {
    Calm(step, name) && InOrder(p.s, step, name, p.ops) && (clean ==> !p.s.broken && Commits(step, name))
  }

  /** A state together with the operations of the name that have not taken effect. */
  datatype Point = Point(s: State, ops: seq<Op>)

  function StepFrom(p: Point, step: Step, name: string): Point
    requires Enabled(p.s, step)
  {
    Point(Apply(p.s, step), Outstanding(p.s, step, name, p.ops))
  }

  ghost predicate Moves(p: Point, q: Point, name: string, clean: bool) {
    exists step :: Enabled(p.s, step) && Allowed(p, step, name, clean) && q == StepFrom(p, step, name)
  }

  ghost predicate Path(points: seq<Point>, name: string, clean: bool) {
    points != [] && forall i :: 0 <= i < |points| - 1 ==> Moves(points[i], points[i + 1], name, clean)
  }

  ghost predicate Reaches(p: Point, q: Point, name: string, clean: bool) {
    exists points :: Path(points, name, clean) && points[0] == p && Last(points) == q
  }

  /** What is reached is reached by a calm run of the protocol. */
  lemma {:induction false} PathIsCalm(points: seq<Point>, name: string, clean: bool) returns (steps: seq<Step>)
    requires Path(points, name, clean)
    ensures Legal(points[0].s, steps) && Run(points[0].s, steps) == Last(points).s && AllCalm(steps, name)
    decreases |points|
  {
    steps := [];
    if |points| > 1 {
      var p, q := points[0], points[1];
      assert Moves(p, q, name, clean);
      var step :| Enabled(p.s, step) && Allowed(p, step, name, clean) && q == StepFrom(p, step, name);
      var rest := PathIsCalm(points[1..], name, clean);
      steps := [step] + rest;
      assert steps[1..] == rest;
    }
  }

  lemma Stays(p: Point, name: string, clean: bool)
    ensures Reaches(p, p, name, clean)
  {
    assert Path([p], name, clean);
  }

  lemma GoesOn(p: Point, q: Point, r: Point, name: string, clean: bool)
    requires Reaches(p, q, name, clean) && Reaches(q, r, name, clean)
    ensures Reaches(p, r, name, clean)
  {
    var a :| Path(a, name, clean) && a[0] == p && Last(a) == q;
    var b :| Path(b, name, clean) && b[0] == q && Last(b) == r;
    var c := a + b[1..];
    forall i | 0 <= i < |c| - 1 ensures Moves(c[i], c[i + 1], name, clean) {
      assert i < |a| - 1 ==> Moves(a[i], a[i + 1], name, clean);
      assert i >= |a| - 1 ==> Moves(b[i - (|a| - 1)], b[i - (|a| - 1) + 1], name, clean);
    }
    assert Path(c, name, clean) && c[0] == p && Last(c) == r;
  }

  lemma Goes(p: Point, step: Step, name: string, clean: bool)
    requires Enabled(p.s, step) && Allowed(p, step, name, clean)
    ensures Reaches(p, StepFrom(p, step, name), name, clean)
  {
    assert Moves(p, StepFrom(p, step, name), name, clean);
    assert Path([p, StepFrom(p, step, name)], name, clean);
  }

  lemma ThenGoes(p: Point, q: Point, step: Step, name: string, clean: bool)
    requires Reaches(p, q, name, clean) && Enabled(q.s, step) && Allowed(q, step, name, clean)
    ensures Reaches(p, StepFrom(q, step, name), name, clean)
  {
    Goes(q, step, name, clean);
    GoesOn(p, q, StepFrom(q, step, name), name, clean);
  }

  function LaneAt(p: Point, name: string): Lane {
    LaneOf(p.s, name)
  }

  predicate InStep(p: Point, name: string) {
    Matches(p.ops, LaneAt(p, name))
  }

  lemma StepKeepsInStep(p: Point, step: Step, name: string, clean: bool)
    requires Enabled(p.s, step) && Allowed(p, step, name, clean) && InStep(p, name)
    ensures InStep(StepFrom(p, step, name), name)
  {
    OrderMatches(p.s, step, name, p.ops);
  }

  // --- the failure count can be cleared -------------------------------------------------------------

  lemma {:induction false} FreshName(names: set<string>) returns (unused: string)
    ensures forall n :: n in names ==> |n| < |unused|
    decreases |names|
  {
    unused := "x";
    if names != {} {
      var n :| n in names;
      var longer := FreshName(names - {n});
      unused := longer + n + "x";
      assert |unused| == |longer| + |n| + 1;
    }
  }

  lemma OtherNameStep(p: Point, step: Step, name: string, clean: bool)
    requires Enabled(p.s, step) && !step.NewSession? && Target(p.s, step) != Some(name) && Calm(step, name)
    requires clean ==> !p.s.broken
    ensures Allowed(p, step, name, clean)
    ensures StepFrom(p, step, name) == Point(Apply(p.s, step), p.ops)
    ensures LaneOf(Apply(p.s, step), name) == LaneAt(p, name)
  {
    OtherLanesUntouched(p.s, step, name);
    var lane := LaneAt(p, name);
    assert Handed(lane, lane) == [];
    assert p.ops + [] == p.ops;
  }

  lemma StartElsewhere(p: Point, name: string, other: string, clean: bool) returns (q: Point)
    requires !p.s.broken && other !in p.s.lanes && other != name
    ensures Reaches(p, q, name, clean) && !q.s.broken && q.ops == p.ops && LaneAt(q, name) == LaneAt(p, name)
    ensures |LaneAt(q, other).writes| == 1 && LaneAt(q, other).writes[0].stage == Running
    ensures LaneAt(q, other).writes[0].generation == LaneAt(q, other).generation
  {
    assert LaneAt(p, other) == EMPTY_LANE;
    OtherNameStep(p, SetItem(other, ""), name, clean);
    Goes(p, SetItem(other, ""), name, clean);
    var r := StepFrom(p, SetItem(other, ""), name);
    OtherNameStep(r, Flush(0, true), name, clean);
    ThenGoes(p, r, Flush(0, true), name, clean);
    q := StepFrom(r, Flush(0, true), name);
  }

  lemma CommitElsewhere(p: Point, name: string, other: string, clean: bool) returns (q: Point)
    requires !p.s.broken && other != name
    requires |LaneAt(p, other).writes| == 1 && LaneAt(p, other).writes[0].stage == Running
    requires LaneAt(p, other).writes[0].generation == LaneAt(p, other).generation
    ensures Reaches(p, q, name, clean) && q.ops == p.ops && LaneAt(q, name) == LaneAt(p, name)
    ensures !q.s.broken && q.s.failures == 0
  {
    OtherNameStep(p, Outcome(other, 0, true), name, clean);
    Goes(p, Outcome(other, 0, true), name, clean);
    var r := StepFrom(p, Outcome(other, 0, true), name);
    OtherNameStep(r, Settle(other, 0, true), name, clean);
    ThenGoes(p, r, Settle(other, 0, true), name, clean);
    q := StepFrom(r, Settle(other, 0, true), name);
  }

  /** A write of some other name that commits clears the failure count. */
  lemma ClearFailures(p: Point, name: string, clean: bool) returns (q: Point)
    requires clean ==> !p.s.broken
    ensures Reaches(p, q, name, clean) && q.ops == p.ops && LaneAt(q, name) == LaneAt(p, name)
    ensures q.s.broken == p.s.broken && (p.s.broken || q.s.failures == 0)
  {
    q := p;
    Stays(p, name, clean);
    if !p.s.broken {
      var other := FreshName(p.s.lanes.Keys + {name});
      assert other != name && other !in p.s.lanes.Keys;
      q := StartElsewhere(p, name, other, clean);
      var r := CommitElsewhere(q, name, other, clean);
      GoesOn(p, q, r, name, clean);
      q := r;
    }
  }
}
