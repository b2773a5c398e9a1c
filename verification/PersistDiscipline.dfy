/** What the environment and the caller owe a name for its newest value to survive, and the history
    that says which value that is. */
module PersistDiscipline {
  import opened StampedCopy
  import opened Seqs
  import opened PersistProtocol
  import opened PersistOrder

  /** No write of the name is in flight, and nothing waits. */
  predicate Quiet(lane: Lane) {
    lane.writes == [] && lane.parked == [] && lane.released == []
  }

  /** Every value flushed has reached a store: nothing waits, and of the writes in flight the newest
      is known to have committed. */
  predicate Landed(lane: Lane) {
    && lane.parked == [] && lane.released == []
    && (lane.writes != [] ==> Last(lane.writes).stage == Committed)
  }

  predicate RemovalWaits(lane: Lane) {
    ParkedRemoval in Waiters(lane)
  }

  /** A removal has not taken effect in the backing yet. */
  predicate Removing(lane: Lane) {
    lane.blobDeletes > 0 || lane.stampDeletes > 0 || RemovalWaits(lane)
  }

  /** The next reaction starts a write that was parked ahead of a removal. */
  predicate StartsAhead(lane: Lane) {
    && lane.released != [] && lane.released[0].ParkedWrite?
    && ParkedRemoval in lane.released[1..] + lane.parked
  }

  /** A write of the name may start: the session knows the stamps on disk, no read of the name is in
      flight, and a demoted write (which settles on the spot) does not overtake one in flight. */
  predicate MayStart(s: State, name: string, hydrated: bool, lands: bool) {
    hydrated && LaneOf(s, name).readers == [] && (s.broken ==> lands && LaneOf(s, name).writes == [])
  }

  /** History of one name: the value flushed last and not removed since; the value started last and not
      removed; whether this session knows the stamps on disk (it has completed a read of the name, or
      removed it); and how many of the writes in flight were parked ahead of a removal. */
  datatype Track = Track(latest: Option<string>, started: Option<string>, hydrated: bool, ahead: nat)

  /** Operations of the name take effect in the order of issue and its callbacks run in that order.
      The key is read only when quiet and its reads succeed; a failed write's fallback lands; deletes
      succeed; at a removal no write or read is in flight and no reaction is due; a write parked ahead
      of a removal starts before the latch trips and commits; a session ends only when the newest write
      has landed and the last removal has taken effect. */
  predicate Disciplined(s: State, step: Step, name: string, t: Track) {
    match step
    case Flush(_, lands) =>
      s.pending.Some? && s.pending.value.name == name ==> MayStart(s, name, t.hydrated, lands)
    case Resume(n, _, lands) =>
      n == name ==> if StartsAhead(LaneOf(s, name)) then !s.broken else MayStart(s, name, t.hydrated, lands)
    case Outcome(n, i, commits) => n == name && i < t.ahead ==> commits
    case Settle(n, i, lands) => n == name ==> i == 0 && lands
    case BeginRead(n) => n == name ==> Quiet(LaneOf(s, name)) && !Removing(LaneOf(s, name))
    case ReadBacking(n, _, ok) => n == name ==> ok
    case ReadLegacy(n, _, ok) => n == name ==> ok
    case RemoveItem(n) =>
      n == name ==> var lane := LaneOf(s, name); lane.writes == [] && lane.readers == [] && lane.released == []
    case DeleteBlob(n, commits) => n == name ==> commits
    case DeleteStamp(n, commits) => n == name ==> commits
    case NewSession => Landed(LaneOf(s, name)) && !Removing(LaneOf(s, name))
    case _ => true
  }

  function AheadAfter(s: State, step: Step, name: string, ahead: nat): nat {
    match step
    case Resume(n, _, _) => if n == name && StartsAhead(LaneOf(s, name)) then ahead + 1 else ahead
    case Settle(n, _, _) => if n == name && ahead > 0 then ahead - 1 else ahead
    case NewSession => 0
    case _ => ahead
  }

  /** A removal forgets the value flushed last, also one that is still parked. */
  function Follow(s: State, step: Step, name: string, t: Track): Track
    requires Enabled(s, step)
  {
    var ahead := AheadAfter(s, step, name, t.ahead);
    match step
    case Flush(_, _) =>
      if s.pending.Some? && s.pending.value.name == name then
        var v := Some(s.pending.value.value);
        Track(v, if LaneOf(s, name).migration.Some? then t.started else v, t.hydrated, ahead)
      else t
    case Resume(n, _, _) =>
      var lane := LaneOf(s, n);
      if n == name && lane.released[0].ParkedWrite? && !StartsAhead(lane) then
        t.(started := Some(lane.released[0].value))
      else t.(ahead := ahead)
    case FinishRead(n, _) => if n == name then t.(hydrated := true) else t
    case RemoveItem(n) => if n == name then Track(None, None, true, ahead) else t
    case NewSession => Track(t.latest, t.started, false, ahead)
    case _ => t.(ahead := ahead)
  }

  predicate DisciplinedRun(s: State, steps: seq<Step>, name: string, t: Track, ops: seq<Op>)
    requires Legal(s, steps)
    decreases |steps|
  {
    steps != [] ==>
      && Disciplined(s, steps[0], name, t) && InOrder(s, steps[0], name, ops)
      && DisciplinedRun(Apply(s, steps[0]), steps[1..], name, Follow(s, steps[0], name, t),
                        Outstanding(s, steps[0], name, ops))
  }

  function OutstandingRun(s: State, steps: seq<Step>, name: string, ops: seq<Op>): seq<Op>
    requires Legal(s, steps)
    decreases |steps|
  {
    if steps == [] then ops
    else OutstandingRun(Apply(s, steps[0]), steps[1..], name, Outstanding(s, steps[0], name, ops))
  }

  function FollowRun(s: State, steps: seq<Step>, name: string, t: Track): Track
    requires Legal(s, steps)
    decreases |steps|
  {
    if steps == [] then t else FollowRun(Apply(s, steps[0]), steps[1..], name, Follow(s, steps[0], name, t))
  }

  /** A session start as far as one name goes: nothing of it is in flight; the stores are arbitrary. */
  predicate Untouched(lane: Lane) {
    && Quiet(lane) && lane.migration.None? && lane.readers == []
    && lane.blobDeletes == 0 && lane.stampDeletes == 0
  }

  function StartTrack(lane: Lane): Track {
    Track(FreshRead(lane).raw, FreshRead(lane).raw, false, 0)
  }
}
