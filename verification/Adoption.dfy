/** Adopting the signed-out blob into a user's own slot: a bounded copy loop that may delete the
    source only after the copy. Models src/stores/scanPersistNamespace.ts. */
module Adoption {
  import opened StampedCopy

  const LEGACY_KEY := "sis-scan-v1"
  const ADOPT_SOURCE_RECHECKS := 3

  /** uid "" stands for a missing uid. */
  function PersistKeyForUid(uid: string): string {
    if uid == "" then LEGACY_KEY else "sis-scan-" + uid
  }

  // --- normalization -----------------------------------------------------------------------------

  datatype Delta = Absent | Number(n: int) | NotANumber(json: string)

  datatype Row = NotAnObject(json: string) | Row(quantityDelta: Delta, rest: string)

  /** A parsed blob: its scan feed, when it has one, and everything else. */
  datatype Document = Document(feed: Option<seq<Row>>, rest: string)

  /** JSON.parse, None when it throws, and JSON.stringify. */
  datatype Json = Json(parse: string -> Option<Document>, stringify: Document -> string)

  /** What is printed reads back, and no JSON text starts like an envelope. */
  ghost predicate Faithful(json: Json) {
    forall d :: json.parse(json.stringify(d)) == Some(d) && !(LEGACY_ENVELOPE_PREFIX <= json.stringify(d))
  }

  function NormalRow(row: Row): Row {
    if row.Row? && row.quantityDelta == Number(0) then Row(Number(1), row.rest) else row
  }

  function NormalRows(feed: seq<Row>): seq<Row> {
    if feed == [] then [] else [NormalRow(feed[0])] + NormalRows(feed[1..])
  }

  function NormalDocument(d: Document): Document {
    if d.feed.None? then d else d.(feed := Some(NormalRows(d.feed.value)))
  }

  function Normalized(json: Json, raw: string): Option<string> {
    var parsed := json.parse(raw);
    if parsed.None? then None else Some(json.stringify(NormalDocument(parsed.value)))
  }

  /** The loop of `normalizeAdoptedBlob`, which edits the parsed rows in place. */
  method NormalizeRows(feed: array<Row>)
    modifies feed
    ensures feed[..] == NormalRows(old(feed[..]))
  {
    ghost var was := feed[..];
    for i := 0 to feed.Length
      invariant feed[i..] == was[i..]
      invariant feed[..i] == NormalRows(was[..i])
    {
      assert was[..i + 1] == was[..i] + [was[i]];
      assert feed[i..][0] == was[i..][0];
      NormalRowsConcat(was[..i], [was[i]]);
      if feed[i].Row? && feed[i].quantityDelta == Number(0) {
        feed[i] := Row(Number(1), feed[i].rest);
      }
    }
    assert was[..feed.Length] == was && feed[..feed.Length] == feed[..];
  }

  lemma {:induction false} NormalRowsConcat(a: seq<Row>, b: seq<Row>)
    ensures NormalRows(a + b) == NormalRows(a) + NormalRows(b)
  {
    if a == [] {
      assert a + b == b;
    } else {
      assert (a + b)[1..] == a[1..] + b;
      NormalRowsConcat(a[1..], b);
    }
  }

  /** Normalization replaces exactly the literal zeros by ones, so every row counts. */
  lemma {:induction false} NormalRowsAt(feed: seq<Row>, i: nat)
    requires i < |feed|
    ensures |NormalRows(feed)| == |feed|
    ensures NormalRows(feed)[i]
         == if feed[i].Row? && feed[i].quantityDelta == Number(0) then Row(Number(1), feed[i].rest) else feed[i]
  {
    if |feed| > 1 {
      NormalRowsAt(feed[1..], if i > 0 then i - 1 else 0);
    }
  }

  lemma {:induction false} NormalRowsTwice(feed: seq<Row>)
    ensures NormalRows(NormalRows(feed)) == NormalRows(feed)
  {
    if feed != [] {
      NormalRowsTwice(feed[1..]);
      assert NormalRows(feed)[1..] == NormalRows(feed[1..]);
    }
  }

  lemma NormalizationIsIdempotent(json: Json, raw: string)
    requires Faithful(json) && Normalized(json, raw).Some?
    ensures Normalized(json, Normalized(json, raw).value) == Normalized(json, raw)
  {
    var d := json.parse(raw).value;
    if d.feed.Some? {
      NormalRowsTwice(d.feed.value);
    }
    assert NormalDocument(NormalDocument(d)) == NormalDocument(d);
    assert json.parse(json.stringify(NormalDocument(d))) == Some(NormalDocument(d));
  }

  /** The copy reads back as the source does: the same document, row for row, with a literal zero delta
      made one. */
  predicate KeepsScans(json: Json, raw: string, copy: string) {
    var was, now := json.parse(raw), json.parse(copy);
    && was.Some? && now.Some?
    && now.value.rest == was.value.rest && (now.value.feed.None? <==> was.value.feed.None?)
    && (was.value.feed.Some? ==>
          var rows, kept := was.value.feed.value, now.value.feed.value;
          && |kept| == |rows|
          && forall i :: 0 <= i < |rows| ==>
               kept[i] == if rows[i].Row? && rows[i].quantityDelta == Number(0) then Row(Number(1), rows[i].rest)
                          else rows[i])
  }

  /** A blob is normalized exactly when it parses, and the normalized blob keeps every scan. */
  lemma NormalizedKeepsScans(json: Json, raw: string)
    requires Faithful(json)
    ensures Normalized(json, raw).None? <==> json.parse(raw).None?
    ensures Normalized(json, raw).Some? ==> KeepsScans(json, raw, Normalized(json, raw).value)
  {
    if json.parse(raw).Some? {
      var d := json.parse(raw).value;
      assert json.parse(json.stringify(NormalDocument(d))) == Some(NormalDocument(d));
      if d.feed.Some? {
        var rows := d.feed.value;
        NormalRowsKeepCount(rows);
        forall i | 0 <= i < |rows|
          ensures NormalRows(rows)[i] == if rows[i].Row? && rows[i].quantityDelta == Number(0)
                                         then Row(Number(1), rows[i].rest) else rows[i]
        {
          NormalRowsAt(rows, i);
        }
      }
    }
  }

  lemma {:induction false} NormalRowsKeepCount(feed: seq<Row>)
    ensures |NormalRows(feed)| == |feed|
  {
    if feed != [] {
      NormalRowsKeepCount(feed[1..]);
    }
  }

  // --- the copy loop ----------------------------------------------------------------------------

  /** The four cells a key owns. */
  datatype Slot = Slot(backBlob: Option<string>, backStamp: Option<string>, legBlob: Option<string>,
                       legStamp: Option<string>)

  function ReadSlot(slot: Slot): Option<string> {
    Judge(slot.backBlob, slot.backStamp, slot.legBlob, slot.legStamp).raw
  }

  /** Where one copy landed: in IndexedDB, in localStorage after IndexedDB failed or was missing, or nowhere. */
  datatype Landing = Backed | FellBack | Nowhere

  function Written(slot: Slot, blob: string, landing: Landing): Slot {
    match landing
    case Backed => slot.(backBlob := Some(blob))
    case FellBack => slot.(legBlob := Some(blob))
    case Nowhere => slot
  }

  datatype Ending = SameKey | AlreadyAdopted | NothingToAdopt | Unreadable | CopyFailed | Adopted

  datatype Outcome = Outcome(ending: Ending, slot: Slot, copies: nat)

  /** The run from one attempt on. read(n) is what the n-th read of the source returns and
      landing(n) where the n-th copy lands: other tabs and the stores decide. */
  function AttemptFrom(json: Json, slot: Slot, attempt: nat, read: nat -> Option<string>,
                       landing: nat -> Landing): Outcome
    decreases ADOPT_SOURCE_RECHECKS + 1 - attempt
  {
    var copied := read(2 * attempt);
    if copied.None? then Outcome(NothingToAdopt, slot, attempt)
    else
      var normalized := Normalized(json, copied.value);
      if normalized.None? then Outcome(Unreadable, slot, attempt)
      else if landing(attempt) == Nowhere then Outcome(CopyFailed, slot, attempt)
      else
        var next := Written(slot, normalized.value, landing(attempt));
        var sourceNow := read(2 * attempt + 1);
        if sourceNow.None? || sourceNow == copied || attempt >= ADOPT_SOURCE_RECHECKS then
          Outcome(Adopted, next, attempt + 1)
        else AttemptFrom(json, next, attempt + 1, read, landing)
  }

  function Adopt(json: Json, uid: string, slot: Slot, read: nat -> Option<string>, landing: nat -> Landing): Outcome {
    if PersistKeyForUid(uid) == LEGACY_KEY then Outcome(SameKey, slot, 0)
    else if ReadSlot(slot).Some? then Outcome(AlreadyAdopted, slot, 0)
    else AttemptFrom(json, slot, 0, read, landing)
  }

  /** What the adoption changes: the target's cells, and whether the source has been removed. */
  class Adopter {
    var target: Slot
    var sourceRemoved: bool

    constructor (target: Slot)
      ensures this.target == target && !sourceRemoved
    {
      this.target, sourceRemoved := target, false;
    }

    /** failed: both stores refused the copy and the error propagates. */
    method WriteAdoptedBlob(normalized: string, landing: Landing) returns (failed: bool)
      modifies this`target
      ensures failed <==> landing == Nowhere
      ensures target == Written(old(target), normalized, landing)
    {
      if landing == Backed {
        target := target.(backBlob := Some(normalized));
        return false;
      }
      if landing == FellBack {
        target := target.(legBlob := Some(normalized));
        return false;
      }
      failed := true;
    }

    method MigrateLegacyBlobOnceAsync(json: Json, uid: string, read: nat -> Option<string>, landing: nat -> Landing)
      returns (ending: Ending, ghost copies: nat)
      requires !sourceRemoved
      modifies this
      ensures Outcome(ending, target, copies) == Adopt(json, uid, old(target), read, landing)
      ensures sourceRemoved <==> ending == Adopted
    {
      copies := 0;
      if PersistKeyForUid(uid) == LEGACY_KEY {
        return SameKey, 0;
      }
      if ReadSlot(target).Some? {
        return AlreadyAdopted, 0;
      }
      var attempt := 0;
      while true
        invariant attempt <= ADOPT_SOURCE_RECHECKS && copies == attempt && !sourceRemoved
        invariant AttemptFrom(json, target, attempt, read, landing) == AttemptFrom(json, old(target), 0, read, landing)
        decreases ADOPT_SOURCE_RECHECKS - attempt
      {
        var copied := read(2 * attempt);
        if copied.None? {
          return NothingToAdopt, copies;
        }
        var normalized := Normalized(json, copied.value);
        if normalized.None? {
          return Unreadable, copies;
        }
        var failed := WriteAdoptedBlob(normalized.value, landing(attempt));
        if failed {
          return CopyFailed, copies;
        }
        copies := copies + 1;
        var sourceNow := read(2 * attempt + 1);
        if sourceNow.None? || sourceNow == copied {
          break;
        }
        if attempt >= ADOPT_SOURCE_RECHECKS {
          break;
        }
        attempt := attempt + 1;
      }
      sourceRemoved := true;
      ending := Adopted;
    }
  }

  // --- what an adoption guarantees -----------------------------------------------------------------

  /** The copy of attempt n is in the slot, and the source is what it was, gone, or the bound is spent. */
  predicate CopyLanded(json: Json, slot: Slot, n: nat, read: nat -> Option<string>, landing: nat -> Landing) {
    && n <= ADOPT_SOURCE_RECHECKS && read(2 * n).Some? && landing(n) != Nowhere
    && Normalized(json, read(2 * n).value).Some?
    && (landing(n) == Backed ==> slot.backBlob == Normalized(json, read(2 * n).value))
    && (landing(n) == FellBack ==> slot.legBlob == Normalized(json, read(2 * n).value))
    && (read(2 * n + 1).None? || read(2 * n + 1) == read(2 * n) || n == ADOPT_SOURCE_RECHECKS)
  }

  lemma {:induction false} AttemptLanded(json: Json, slot: Slot, attempt: nat, read: nat -> Option<string>,
                                         landing: nat -> Landing)
    requires attempt <= ADOPT_SOURCE_RECHECKS
    ensures var r := AttemptFrom(json, slot, attempt, read, landing);
            && attempt <= r.copies <= ADOPT_SOURCE_RECHECKS + 1
            && (r.ending == Adopted ==> r.copies > attempt && CopyLanded(json, r.slot, r.copies - 1, read, landing))
            && (r.ending == CopyFailed ==> landing(r.copies) == Nowhere)
            && r.slot.backStamp == slot.backStamp && r.slot.legStamp == slot.legStamp
    decreases ADOPT_SOURCE_RECHECKS - attempt
  {
    var copied := read(2 * attempt);
    if copied.Some? && Normalized(json, copied.value).Some? && landing(attempt) != Nowhere {
      var next := Written(slot, Normalized(json, copied.value).value, landing(attempt));
      var sourceNow := read(2 * attempt + 1);
      if !(sourceNow.None? || sourceNow == copied || attempt >= ADOPT_SOURCE_RECHECKS) {
        AttemptLanded(json, next, attempt + 1, read, landing);
      }
    }
  }

  /** The store that copy n went to holds every scan of what attempt n read. */
  predicate ScansLanded(json: Json, slot: Slot, n: nat, read: nat -> Option<string>, landing: nat -> Landing) {
    var cell := if landing(n) == Backed then slot.backBlob else slot.legBlob;
    landing(n) != Nowhere && read(2 * n).Some? && cell.Some? && KeepsScans(json, read(2 * n).value, cell.value)
  }

  /** Whatever other tabs do to the source and wherever copies land: the source is removed only after
      a copy of what was last read, with every scan of it, is in the slot and the re-read source equals
      that copy's origin, is gone, or the bound is spent; a copy that lands nowhere leaves the source;
      at most four copies are made. */
  lemma AdoptionNeverDestroysTheOnlyCopy(json: Json, uid: string, slot: Slot, read: nat -> Option<string>,
                                         landing: nat -> Landing)
    ensures var r := Adopt(json, uid, slot, read, landing);
            && r.copies <= 4
            && (r.ending == Adopted ==> r.copies > 0 && CopyLanded(json, r.slot, r.copies - 1, read, landing))
            && (r.ending == Adopted && Faithful(json) ==> ScansLanded(json, r.slot, r.copies - 1, read, landing))
            && (r.ending == CopyFailed ==> landing(r.copies) == Nowhere)
  {
    AttemptLanded(json, slot, 0, read, landing);
    var r := Adopt(json, uid, slot, read, landing);
    if r.ending == Adopted && Faithful(json) {
      NormalizedKeepsScans(json, read(2 * (r.copies - 1)).value);
    }
  }

  /** Different users have different keys, and none has the signed-out key; except that the user id "v1"
      has the signed-out key itself. */
  lemma UsersHaveTheirOwnKeys(a: string, b: string)
    ensures PersistKeyForUid(a) == PersistKeyForUid(b) <==> a == b || (a in {"", "v1"} && b in {"", "v1"})
  {
    var head := "sis-scan-";
    assert LEGACY_KEY == head + "v1";
    assert (head + a)[|head|..] == a && (head + b)[|head|..] == b && (head + "v1")[|head|..] == "v1";
  }

  /** Attempt i can copy what it reads: there is a source, it parses, and the copy lands. */
  predicate Copies(json: Json, i: nat, read: nat -> Option<string>, landing: nat -> Landing) {
    read(2 * i).Some? && json.parse(read(2 * i).value).Some? && landing(i) != Nowhere
  }

  /** After copy i the source is there and reads differently. */
  predicate ChangedBehind(i: nat, read: nat -> Option<string>) {
    read(2 * i + 1).Some? && read(2 * i + 1) != read(2 * i)
  }

  /** n attempts have copied and found the source changed behind them. */
  predicate Overtaken(json: Json, n: nat, read: nat -> Option<string>, landing: nat -> Landing) {
    forall i: nat :: i < n ==> Copies(json, i, read, landing) && ChangedBehind(i, read)
  }

  /** How the attempts end, after n that were overtaken: the last one copies and settles, or finds no
      source, an unreadable one, or nowhere to copy to. */
  predicate EndsAt(json: Json, ending: Ending, n: nat, read: nat -> Option<string>, landing: nat -> Landing) {
    match ending
    case Adopted => Copies(json, n, read, landing) && (n == 3 || !ChangedBehind(n, read))
    case NothingToAdopt => read(2 * n).None?
    case Unreadable => read(2 * n).Some? && json.parse(read(2 * n).value).None?
    case CopyFailed => read(2 * n).Some? && json.parse(read(2 * n).value).Some? && landing(n) == Nowhere
    case _ => false
  }

  lemma {:induction false} AttemptsEnd(json: Json, slot: Slot, n: nat, read: nat -> Option<string>,
                                       landing: nat -> Landing)
    requires n <= 3 && Overtaken(json, n, read, landing)
    ensures var r := AttemptFrom(json, slot, n, read, landing);
            var last := if r.ending == Adopted then r.copies - 1 else r.copies;
            0 <= last <= 3 && Overtaken(json, last, read, landing) && EndsAt(json, r.ending, last, read, landing)
    decreases 3 - n
  {
    if Copies(json, n, read, landing) && n < 3 && ChangedBehind(n, read) {
      AttemptsEnd(json, Written(slot, Normalized(json, read(2 * n).value).value, landing(n)), n + 1, read, landing);
    }
  }

  /** Exactly how every adoption ends: not at all for the signed-out user or into a slot that holds a
      blob; else after some attempts that were overtaken, at most three, in one that copied a source that
      then stood still or was the fourth, or that had nothing, nothing readable, or no place to copy to. */
  lemma AdoptionEndsExactly(json: Json, uid: string, slot: Slot, read: nat -> Option<string>, landing: nat -> Landing)
    ensures var r := Adopt(json, uid, slot, read, landing);
            if uid in {"", "v1"} then r == Outcome(SameKey, slot, 0)
            else if slot.backBlob.Some? || slot.legBlob.Some? then r == Outcome(AlreadyAdopted, slot, 0)
            else
              var last := if r.ending == Adopted then r.copies - 1 else r.copies;
              0 <= last <= 3 && Overtaken(json, last, read, landing) && EndsAt(json, r.ending, last, read, landing)
  {
    UsersHaveTheirOwnKeys(uid, "");
    JudgeReturnsTheNewer(slot.backBlob, slot.backStamp, slot.legBlob, slot.legStamp);
    AttemptsEnd(json, slot, 0, read, landing);
  }

  /** A second adoption changes nothing, whatever happens around it. */
  lemma SecondAdoptionIsANoOp(json: Json, uid: string, slot: Slot, read: nat -> Option<string>, landing: nat -> Landing,
                              read2: nat -> Option<string>, landing2: nat -> Landing)
    requires Adopt(json, uid, slot, read, landing).ending == Adopted
    ensures var r := Adopt(json, uid, slot, read, landing);
            Adopt(json, uid, r.slot, read2, landing2) == Outcome(AlreadyAdopted, r.slot, 0)
  {
    AttemptLanded(json, slot, 0, read, landing);
  }

  // --- which copy the user then sees ---------------------------------------------------------------

  /** The last attempt before n whose copy landed there. */
  function LastIn(store: Landing, n: nat, landing: nat -> Landing): (m: Option<nat>)
    ensures m.Some? ==> m.value < n && landing(m.value) == store
    ensures m.None? ==> forall i: nat :: i < n ==> landing(i) != store
  {
    if n == 0 then None else if landing(n - 1) == store then Some(n - 1) else LastIn(store, n - 1, landing)
  }

  function CopyOf(json: Json, m: Option<nat>, read: nat -> Option<string>): Option<string> {
    if m.Some? && read(2 * m.value).Some? then Normalized(json, read(2 * m.value).value) else None
  }

  /** The slot after n copies into a slot without a blob. */
  predicate Holds(json: Json, slot: Slot, n: nat, read: nat -> Option<string>, landing: nat -> Landing) {
    && slot.backBlob == CopyOf(json, LastIn(Backed, n, landing), read)
    && slot.legBlob == CopyOf(json, LastIn(FellBack, n, landing), read)
    && (forall i: nat :: i < n ==> read(2 * i).Some? && Normalized(json, read(2 * i).value).Some?)
  }

  lemma {:induction false} AttemptsHold(json: Json, slot: Slot, attempt: nat, read: nat -> Option<string>,
                                        landing: nat -> Landing)
    requires attempt <= ADOPT_SOURCE_RECHECKS && Holds(json, slot, attempt, read, landing)
    ensures var r := AttemptFrom(json, slot, attempt, read, landing); Holds(json, r.slot, r.copies, read, landing)
    decreases ADOPT_SOURCE_RECHECKS - attempt
  {
    var copied := read(2 * attempt);
    if copied.Some? && Normalized(json, copied.value).Some? && landing(attempt) != Nowhere {
      var next := Written(slot, Normalized(json, copied.value).value, landing(attempt));
      assert Holds(json, next, attempt + 1, read, landing);
      var sourceNow := read(2 * attempt + 1);
      if !(sourceNow.None? || sourceNow == copied || attempt >= ADOPT_SOURCE_RECHECKS) {
        AttemptsHold(json, next, attempt + 1, read, landing);
      }
    }
  }

  /** No earlier copy of this adoption sits in the other store, or the stamps left there rank it lower. */
  predicate LastCopyWins(slot: Slot, copies: nat, landing: nat -> Landing)
    requires copies > 0
  {
    if landing(copies - 1) == Backed then
      LastIn(FellBack, copies, landing).None? || ParseStamp(slot.legStamp) <= ParseStamp(slot.backStamp)
    else
      LastIn(Backed, copies, landing).None? || ParseStamp(slot.legStamp) > ParseStamp(slot.backStamp)
  }

  /** The user's next session reads the last copy exactly when that condition holds; otherwise it
      reads the last copy in the other store, made from an older state of the source that is gone.
      Copies carry no stamp, so a copy that falls back after an earlier one reached IndexedDB loses. */
  lemma LastCopyIsReadExactly(json: Json, uid: string, slot: Slot, read: nat -> Option<string>, landing: nat -> Landing)
    requires Faithful(json) && Adopt(json, uid, slot, read, landing).ending == Adopted
    ensures var r := Adopt(json, uid, slot, read, landing);
            var n := r.copies - 1;
            && n >= 0 && landing(n) != Nowhere
            && var other := LastIn(if landing(n) == Backed then FellBack else Backed, r.copies, landing);
            && (LastCopyWins(slot, r.copies, landing) ==> ReadSlot(r.slot) == CopyOf(json, Some(n), read))
            && (!LastCopyWins(slot, r.copies, landing) ==>
                  other.Some? && other.value < n && ReadSlot(r.slot) == CopyOf(json, other, read))
  {
    AttemptLanded(json, slot, 0, read, landing);
    EmptySlot(slot);
    AttemptsHold(json, slot, 0, read, landing);
    var r := Adopt(json, uid, slot, read, landing);
    var n := r.copies - 1;
    assert LastIn(landing(n), r.copies, landing) == Some(n);
    if r.slot.legBlob.Some? {
      var m := LastIn(FellBack, r.copies, landing).value;
      PlainBlob(json, json.parse(read(2 * m).value).value);
    }
  }

  lemma EmptySlot(slot: Slot)
    requires ReadSlot(slot).None?
    ensures slot.backBlob == None && slot.legBlob == None
  {
  }

  /** A normalized copy is not mistaken for an envelope. */
  lemma PlainBlob(json: Json, d: Document)
    requires Faithful(json)
    ensures var text := json.stringify(NormalDocument(d)); DecodeLegacy(Some(text)) == Decoded(Some(text), None)
  {
    assert json.parse(json.stringify(NormalDocument(d))) == Some(NormalDocument(d));
  }
}
