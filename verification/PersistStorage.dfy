/** The wrapper object itself: closures over mutable variables, one method for each uninterrupted
    piece of the program. Every method is proved to take exactly its step of the protocol, so the
    theorems about runs of the protocol are theorems about runs of this object. */
module PersistStorage {
  import opened StampedCopy
  import P = PersistProtocol

  /** The lane once a removal has been noted: its generation, and the deletes issued or attached to the
      copy in flight. */
  function Noted(lane: P.Lane): P.Lane {
    if lane.migration.Some? then
      lane.(generation := lane.generation + 1, migration := Some(lane.migration.value.(cancelled := true)),
            parked := lane.parked + [P.ParkedRemoval])
    else
      lane.(generation := lane.generation + 1, blobDeletes := lane.blobDeletes + 1,
            stampDeletes := lane.stampDeletes + 1)
  }

  /** The removal step in the order in which the object takes it. */
  lemma RemoveInSteps(s: P.State, name: string)
    ensures P.Remove(s, name)
         == P.Put(if s.pending.Some? && s.pending.value.name == name then s.(pending := None) else s, name,
                  P.ClearLegacy(Noted(P.LaneOf(s, name))))
  {
  }

  class AsyncPersistStorage {
    var pendingName: Option<string>
    var pendingValue: Option<string>
    var hasPending: bool
    var scheduled: bool
    var backingBroken: bool
    var consecutiveWriteFailures: nat
    var lastStamp: nat
    var lanes: map<string, P.Lane>

    /** A value waits exactly when its name does, and then a flush is scheduled. */
    ghost predicate Valid()
      reads this
    {
      (hasPending <==> pendingName.Some?) && (hasPending <==> pendingValue.Some?) && (hasPending ==> scheduled)
    }

    ghost function Model(): P.State
      reads this
      requires Valid()
    {
      P.State(if hasPending then Some(P.Pending(pendingName.value, pendingValue.value)) else None,
              lastStamp, backingBroken, consecutiveWriteFailures, lanes)
    }

    constructor (stores: map<string, P.Lane>)
      ensures Valid() && Model() == P.State(None, 0, false, 0, stores)
    {
      pendingName, pendingValue, hasPending, scheduled := None, None, false, false;
      backingBroken, consecutiveWriteFailures, lastStamp, lanes := false, 0, 0, stores;
    }

    method Lane(name: string) returns (lane: P.Lane)
      requires Valid()
      ensures lane == P.LaneOf(Model(), name)
    {
      lane := P.EMPTY_LANE;
      if name in lanes {
        lane := lanes[name];
      }
    }

    method NextStamp(now: int) returns (stamp: nat)
      requires Valid()
      modifies this`lastStamp
      ensures Valid() && stamp > old(lastStamp) && Model() == old(Model()).(lastStamp := stamp)
      ensures stamp == P.NextStamp(old(lastStamp), now)
    {
      if now > lastStamp {
        lastStamp := now;
      } else {
        lastStamp := lastStamp + 1;
      }
      stamp := lastStamp;
    }

    method RecordWriteFailure()
      requires Valid()
      modifies this`backingBroken, this`consecutiveWriteFailures
      ensures Valid() && Model() == P.RecordFailure(old(Model()))
    {
      if backingBroken {
        return;
      }
      consecutiveWriteFailures := consecutiveWriteFailures + 1;
      if consecutiveWriteFailures < P.BACKING_BROKEN_THRESHOLD {
        return;
      }
      backingBroken := true;
    }

    method WriteThroughToLegacy(name: string, raw: string, stamp: nat, lands: bool)
      requires Valid()
      modifies this`lanes
      ensures Valid()
      ensures Model() == P.Put(old(Model()), name, P.WriteThrough(P.LaneOf(old(Model()), name), raw, stamp, lands))
    {
      var lane := Lane(name);
      if lands {
        lane := lane.(legBlob := Some(EncodeLegacy(raw, stamp)));
        lane := lane.(legStamp := None);
      }
      lanes := lanes[name := lane];
    }

    method RemoveFromLegacy(name: string)
      requires Valid()
      modifies this`lanes
      ensures Valid() && Model() == P.Put(old(Model()), name, P.ClearLegacy(P.LaneOf(old(Model()), name)))
    {
      var lane := Lane(name);
      lanes := lanes[name := lane.(legBlob := None, legStamp := None)];
    }

    method SetItem(name: string, value: string)
      requires Valid()
      modifies this`pendingName, this`pendingValue, this`hasPending, this`scheduled
      ensures Valid() && scheduled && Model() == P.Apply(old(Model()), P.SetItem(name, value))
    {
      pendingName := Some(name);
      pendingValue := Some(value);
      hasPending := true;
      scheduled := true;
    }

    /** The body of `write` inside `doWrite`. */
    method StartWrite(name: string, value: string, now: int, lands: bool)
      requires Valid()
      modifies this`lastStamp, this`lanes
      ensures Valid() && Model() == P.StartWrite(old(Model()), name, value, now, lands)
    {
      var lane := Lane(name);
      var generation := lane.generation;
      var stamp := NextStamp(now);
      if backingBroken {
        WriteThroughToLegacy(name, value, stamp, lands);
      } else {
        lanes := lanes[name := lane.(writes := lane.writes + [P.Write(value, stamp, generation, P.Running)])];
      }
    }

    method Flush(now: int, lands: bool)
      requires Valid() && P.Enabled(Model(), P.Flush(now, lands))
      modifies this
      ensures Valid() && !scheduled && Model() == P.Apply(old(Model()), P.Flush(now, lands))
    {
      scheduled := false;
      if !hasPending {
        return;
      }
      var name, value := pendingName.value, pendingValue.value;
      hasPending := false;
      pendingName := None;
      pendingValue := None;
      var lane := Lane(name);
      if lane.migration.Some? {
        lanes := lanes[name := lane.(parked := lane.parked + [P.ParkedWrite(value)])];
      } else {
        StartWrite(name, value, now, lands);
      }
    }

    method RemoveFromBacking(name: string)
      requires Valid()
      modifies this`lanes
      ensures Valid() && Model() == P.Put(old(Model()), name, P.IssueDeletes(P.LaneOf(old(Model()), name), 1))
    {
      var lane := Lane(name);
      lanes := lanes[name := lane.(blobDeletes := lane.blobDeletes + 1, stampDeletes := lane.stampDeletes + 1)];
    }

    /** The next reaction to a settled migration: a parked write starts, a parked removal issues its deletes. */
    method Resume(name: string, now: int, lands: bool)
      requires Valid() && P.Enabled(Model(), P.Resume(name, now, lands))
      modifies this`lastStamp, this`lanes
      ensures Valid() && Model() == P.Apply(old(Model()), P.Resume(name, now, lands))
    {
      var lane := Lane(name);
      lanes := lanes[name := lane.(released := lane.released[1..])];
      match lane.released[0]
      case ParkedWrite(value) =>
        StartWrite(name, value, now, lands);
      case ParkedRemoval =>
        RemoveFromBacking(name);
    }

    /** The `then` callback of a write: a removal in the meantime is carried out once more. */
    method WriteCommitted(name: string, i: nat)
      requires Valid() && P.Enabled(Model(), P.Settle(name, i, false))
      requires P.LaneOf(Model(), name).writes[i].stage == P.Committed
      modifies this`consecutiveWriteFailures, this`lanes
      ensures Valid() && Model() == P.SettleWrite(old(Model()), name, i, false)
    {
      var lane := Lane(name);
      var w := lane.writes[i];
      lane := lane.(writes := lane.writes[..i] + lane.writes[i + 1..]);
      consecutiveWriteFailures := 0;
      if lane.generation != w.generation {
        lane := lane.(blobDeletes := lane.blobDeletes + 1, stampDeletes := lane.stampDeletes + 1);
        lane := lane.(legBlob := None, legStamp := None);
      }
      lanes := lanes[name := lane];
    }

    /** The `catch` callback of a write: the failing value is written through, unless it was removed. */
    method WriteFailed(name: string, i: nat, lands: bool)
      requires Valid() && P.Enabled(Model(), P.Settle(name, i, lands))
      requires P.LaneOf(Model(), name).writes[i].stage == P.Aborted
      modifies this`backingBroken, this`consecutiveWriteFailures, this`lanes
      ensures Valid() && Model() == P.SettleWrite(old(Model()), name, i, lands)
    {
      var lane := Lane(name);
      var w := lane.writes[i];
      lane := lane.(writes := lane.writes[..i] + lane.writes[i + 1..]);
      RecordWriteFailure();
      lanes := lanes[name := lane];
      if lane.generation != w.generation {
        return;
      }
      WriteThroughToLegacy(name, w.raw, w.stamp, lands);
      assert lanes == old(lanes)[name := P.WriteThrough(lane, w.raw, w.stamp, lands)];
    }

    method SettleWrite(name: string, i: nat, lands: bool)
      requires Valid() && P.Enabled(Model(), P.Settle(name, i, lands))
      modifies this`backingBroken, this`consecutiveWriteFailures, this`lanes
      ensures Valid() && Model() == P.Apply(old(Model()), P.Settle(name, i, lands))
    {
      var lane := Lane(name);
      if lane.writes[i].stage == P.Committed {
        WriteCommitted(name, i);
      } else {
        WriteFailed(name, i, lands);
      }
    }

    method StartMigration(name: string, raw: string, sourceStamp: nat)
      requires Valid()
      modifies this`lanes
      ensures Valid()
      ensures var was := P.LaneOf(old(Model()), name);
              Model() == if backingBroken || was.migration.Some? then old(Model())
                         else P.Put(old(Model()), name,
                                    was.(migration := Some(P.Migration(raw, sourceStamp, P.Running, false))))
    {
      if backingBroken {
        return;
      }
      var lane := Lane(name);
      if lane.migration.Some? {
        return;
      }
      lanes := lanes[name := lane.(migration := Some(P.Migration(raw, sourceStamp, P.Running, false)))];
    }

    /** The part of `getItem` after the reader returned. */
    method FinishGetItem(name: string, i: nat) returns (raw: Option<string>)
      requires Valid() && P.Enabled(Model(), P.FinishRead(name, i))
      modifies this`lastStamp, this`lanes
      ensures Valid() && Model() == P.Apply(old(Model()), P.FinishRead(name, i))
      ensures var read := P.LaneOf(old(Model()), name).readers[i].read;
              raw == if read.source == FromLegacy then read.legacyRaw else read.backingRaw
    {
      var lane := Lane(name);
      var read := lane.readers[i].read;
      lanes := lanes[name := lane.(readers := lane.readers[..i] + lane.readers[i + 1..])];
      lastStamp := P.Max(lastStamp, P.Max(read.backingStamp, read.legacyStamp));
      if read.source == FromLegacy {
        if read.legacyRaw.Some? {
          StartMigration(name, read.legacyRaw.value, read.legacyStamp);
        }
        return read.legacyRaw;
      }
      if read.source == FromBacking && read.legacyRaw.Some? {
        RemoveFromLegacy(name);
      }
      raw := read.backingRaw;
    }

    /** The callbacks of a migration and the release of what was attached to it. */
    method SettleMigration(name: string)
      requires Valid() && P.Enabled(Model(), P.MigrationSettle(name))
      modifies this`backingBroken, this`consecutiveWriteFailures, this`lanes
      ensures Valid() && Model() == P.Apply(old(Model()), P.MigrationSettle(name))
    {
      var lane := Lane(name);
      var m := lane.migration.value;
      lanes := lanes[name := lane.(migration := None, released := lane.released + lane.parked, parked := [])];
      if m.stage == P.Committed {
        consecutiveWriteFailures := 0;
        if !m.cancelled {
          RemoveFromLegacy(name);
        }
      } else {
        RecordWriteFailure();
      }
    }

    method CancelPending(name: string)
      requires Valid()
      modifies this`pendingName, this`pendingValue, this`hasPending
      ensures Valid()
      ensures Model() == if old(Model()).pending.Some? && old(Model()).pending.value.name == name
                         then old(Model()).(pending := None) else old(Model())
    {
      if pendingName == Some(name) {
        hasPending := false;
        pendingName := None;
        pendingValue := None;
      }
    }

    method NoteRemoval(name: string)
      requires Valid()
      modifies this`lanes
      ensures Valid() && Model() == P.Put(old(Model()), name, Noted(P.LaneOf(old(Model()), name)))
    {
      var lane := Lane(name);
      lane := lane.(generation := lane.generation + 1);
      if lane.migration.Some? {
        lane := lane.(migration := Some(lane.migration.value.(cancelled := true)),
                      parked := lane.parked + [P.ParkedRemoval]);
      } else {
        lane := lane.(blobDeletes := lane.blobDeletes + 1, stampDeletes := lane.stampDeletes + 1);
      }
      lanes := lanes[name := lane];
    }

    method RemoveItem(name: string)
      requires Valid()
      modifies this`pendingName, this`pendingValue, this`hasPending, this`lanes
      ensures Valid() && Model() == P.Apply(old(Model()), P.RemoveItem(name))
    {
      RemoveInSteps(Model(), name);
      CancelPending(name);
      NoteRemoval(name);
      RemoveFromLegacy(name);
      assert lanes == old(lanes)[name := P.ClearLegacy(Noted(P.LaneOf(old(Model()), name)))];
    }
  }
}
