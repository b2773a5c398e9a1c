/** When the primary store is given up for the rest of a session, and what a write then does. */
module PersistLatch {
  import Decimal
  import opened StampedCopy
  import opened Seqs
  import opened PersistProtocol

  /** What one step tells about the primary store. */
  datatype Signal = Worked | Failed | Unusable | NextSession | Silent

  function Told(stage: Stage): Signal {
    if stage == Committed then Worked else Failed
  }

  /** The callback of a write or of a copy tells how its transaction ended; a startup probe tells only
      that the store is unusable. */
  function SignalOf(s: State, step: Step): Signal
    requires Enabled(s, step)
  {
    match step
    case Settle(name, i, _) => Told(LaneOf(s, name).writes[i].stage)
    case MigrationSettle(name) => Told(LaneOf(s, name).migration.value.stage)
    case ProbeFails => Unusable
    case NewSession => NextSession
    case _ => Silent
  }

  function Signals(s: State, steps: seq<Step>): seq<Signal>
    requires Legal(s, steps)
    decreases |steps|
  {
    if steps == [] then [] else [SignalOf(s, steps[0])] + Signals(Apply(s, steps[0]), steps[1..])
  }

  /** The failures in a row at the end: since the last success and the start of the session. */
  function Streak(signals: seq<Signal>): nat {
    if signals == [] then 0
    else
      match Last(signals)
      case Failed => Streak(Front(signals)) + 1
      case Silent => Streak(Front(signals))
      case Unusable => Streak(Front(signals))
      case _ => 0
  }

  /** At some moment of the present session the store was unusable, or three failures stood in a row. */
  ghost predicate GivenUp(signals: seq<Signal>) {
    exists n :: 0 < n <= |signals| && Warns(signals[..n]) && SameSession(signals, n)
  }

  predicate Warns(signals: seq<Signal>) {
    signals != [] && (Last(signals) == Unusable || Streak(signals) >= 3)
  }

  predicate SameSession(signals: seq<Signal>, n: nat) {
    forall m :: n <= m < |signals| ==> signals[m] != NextSession
  }

  lemma OneSignal(signals: seq<Signal>, x: Signal)
    ensures GivenUp(signals + [x]) <==> (x != NextSession && GivenUp(signals)) || Warns(signals + [x])
  {
    var more := signals + [x];
    if GivenUp(more) {
      var n :| 0 < n <= |more| && Warns(more[..n]) && SameSession(more, n);
      assert n <= |signals| ==> more[..n] == signals[..n];
      assert n > |signals| ==> more[..n] == more;
      if n <= |signals| {
        assert more[|signals|] == x;
        forall m | n <= m < |signals| ensures signals[m] != NextSession {
          assert more[m] == signals[m];
        }
      }
    }
    if Warns(more) {
      assert more[..|more|] == more;
    }
    if x != NextSession && GivenUp(signals) {
      var n :| 0 < n <= |signals| && Warns(signals[..n]) && SameSession(signals, n);
      assert more[..n] == signals[..n];
      forall m | n <= m < |more| ensures more[m] != NextSession {
        assert m < |signals| ==> more[m] == signals[m];
      }
    }
  }

  /** The latch and the count of failures after what was told so far. */
  ghost predicate Heard(s: State, signals: seq<Signal>) {
    && (s.broken <==> GivenUp(signals))
    && (!s.broken ==> s.failures == Streak(signals) < 3)
  }

  lemma StepHears(s: State, step: Step, signals: seq<Signal>)
    requires Enabled(s, step) && Heard(s, signals)
    ensures Heard(Apply(s, step), signals + [SignalOf(s, step)])
  {
    var x := SignalOf(s, step);
    OneSignal(signals, x);
    assert Front(signals + [x]) == signals && Last(signals + [x]) == x;
  }

  lemma {:induction false} RunHears(s: State, signals: seq<Signal>, steps: seq<Step>)
    requires Legal(s, steps) && Heard(s, signals)
    ensures Heard(Run(s, steps), signals + Signals(s, steps))
    decreases |steps|
  {
    if steps == [] {
      assert signals + [] == signals;
    } else {
      var x, rest := SignalOf(s, steps[0]), Signals(Apply(s, steps[0]), steps[1..]);
      StepHears(s, steps[0], signals);
      RunHears(Apply(s, steps[0]), signals + [x], steps[1..]);
      assert signals + ([x] + rest) == signals + [x] + rest;
    }
  }

  /** In every run, over any number of sessions: the primary store is given up exactly when, in the
      present session, the probe has failed or three writes or copies in a row have. */
  lemma {:induction false} LatchTripsExactly(s: State, steps: seq<Step>)
    requires Legal(s, steps) && !s.broken && s.failures == 0
    ensures Run(s, steps).broken <==> GivenUp(Signals(s, steps))
  {
    RunHears(s, [], steps);
    assert [] + Signals(s, steps) == Signals(s, steps);
  }

  /** What a flush does when no copy is in flight: the value gets a stamp above every one before, the
      clock's if that is one; it is handed to the primary store, or, once that is given up, put into the
      fallback as one envelope, if it fits there. */
  lemma FlushStartsExactly(s: State, now: int, lands: bool)
    requires Enabled(s, Flush(now, lands)) && s.pending.Some? && LaneOf(s, s.pending.value.name).migration.None?
    ensures var t, p := Apply(s, Flush(now, lands)), s.pending.value;
            var lane, next := LaneOf(s, p.name), LaneOf(t, p.name);
            && t.pending == None && t.lastStamp > s.lastStamp && (now > s.lastStamp ==> t.lastStamp == now)
            && t.broken == s.broken && t.failures == s.failures
            && if !s.broken then next == lane.(writes := lane.writes
                                                 + [Write(p.value, t.lastStamp, lane.generation, Running)])
               else if lands then next == lane.(legBlob := Some("sisv1:" + Decimal.Print(t.lastStamp) + ":" + p.value),
                                                legStamp := None)
               else next == lane
  {
  }
}
