/** The stamped copies of a persisted blob and the one rule that picks the newest of two.
    Models the pure part of src/stores/scanPersistStorage.ts. */
module StampedCopy {
  import opened Decimal

  datatype Option<+T> = None | Some(value: T)

  const LEGACY_ENVELOPE_PREFIX := "sisv1:"

  /** A stamp cell that is missing or not a positive number has stamp 0, "oldest". */
  function ParseStamp(cell: Option<string>): nat {
    match cell
    case None => 0
    case Some(s) => if s != [] && AllDigits(s) then ValueOf(s) else 0
  }

  /** Blob and stamp as one value of the fallback store. */
  function EncodeLegacy(raw: string, stamp: nat): string {
    LEGACY_ENVELOPE_PREFIX + Print(stamp) + ":" + raw
  }

  /** `indexOf`: the first position of c in s, or -1. */
  function IndexOf(s: string, c: char): (i: int)
    ensures -1 <= i < |s|
    ensures i == -1 ==> c !in s
    ensures i >= 0 ==> s[i] == c && c !in s[..i]
  {
    if s == [] then -1
    else if s[0] == c then 0
    else
      var rest := IndexOf(s[1..], c);
      assert rest >= 0 ==> s[..rest + 1] == [s[0]] + s[1..][..rest];
      if rest == -1 then -1 else rest + 1
  }

  /** stamp None means "not an envelope": the age is in the sibling stamp cell. */
  datatype Decoded = Decoded(raw: Option<string>, stamp: Option<nat>)

  function DecodeLegacy(stored: Option<string>): Decoded {
    match stored
    case None => Decoded(None, None)
    case Some(text) =>
      if !(LEGACY_ENVELOPE_PREFIX <= text) then Decoded(stored, None)
      else
        var rest := text[|LEGACY_ENVELOPE_PREFIX|..];
        var sep := IndexOf(rest, ':');
        if sep == -1 then Decoded(stored, None)
        else
          var stamp := ParseStamp(Some(rest[..sep]));
          if stamp == 0 then Decoded(stored, None)
          else Decoded(Some(rest[sep + 1..]), Some(stamp))
  }

  /** An envelope comes back exactly when its stamp is at least 1; an envelope of stamp 0 is read
      as a plain blob, prefix and all. */
  lemma EnvelopeRoundTrip(raw: string, stamp: nat)
    ensures DecodeLegacy(Some(EncodeLegacy(raw, stamp)))
         == if stamp >= 1 then Decoded(Some(raw), Some(stamp)) else Decoded(Some(EncodeLegacy(raw, stamp)), None)
  {
    EnvelopeReads(Print(stamp), raw);
  }

  /** Up to its first colon an envelope must hold a numeral above zero, else it is a plain blob. */
  lemma EnvelopeReads(numeral: string, raw: string)
    requires ':' !in numeral
    ensures var text := "sisv1:" + numeral + ":" + raw;
            DecodeLegacy(Some(text)) == if numeral != "" && AllDigits(numeral) && ValueOf(numeral) > 0
                                        then Decoded(Some(raw), Some(ValueOf(numeral))) else Decoded(Some(text), None)
  {
    var text := "sisv1:" + numeral + ":" + raw;
    var rest := text[|LEGACY_ENVELOPE_PREFIX|..];
    assert rest == numeral + ":" + raw;
    var sep := IndexOf(rest, ':');
    assert rest[..|numeral|] == numeral && rest[|numeral|] == ':';
    assert sep == |numeral|;
    assert rest[..sep] == numeral && rest[sep + 1..] == raw;
  }

  /** Any text that is no envelope is a plain blob as it stands: none is discarded. */
  lemma NothingIsDiscarded(text: string) returns (numeral: string, raw: string)
    ensures DecodeLegacy(Some(text)) == Decoded(Some(text), None)
         || (':' !in numeral && text == "sisv1:" + numeral + ":" + raw)
  {
    numeral, raw := "", "";
    if LEGACY_ENVELOPE_PREFIX <= text {
      var rest := text[|LEGACY_ENVELOPE_PREFIX|..];
      var sep := IndexOf(rest, ':');
      if sep >= 0 {
        numeral, raw := rest[..sep], rest[sep + 1..];
        assert rest == numeral + ":" + raw;
        assert text == "sisv1:" + (numeral + ":" + raw) == "sisv1:" + numeral + ":" + raw;
      }
    }
  }

  datatype Source = FromBacking | FromLegacy | FromNeither

  datatype NewestRead = NewestRead(raw: Option<string>, source: Source,
                                   backingRaw: Option<string>, legacyRaw: Option<string>,
                                   backingStamp: nat, legacyStamp: nat)

  /** The newest-wins comparison on the four cells a key owns. */
  function Judge(backBlob: Option<string>, backStamp: Option<string>,
                 legBlob: Option<string>, legStamp: Option<string>): NewestRead {
    var backingStamp := ParseStamp(backStamp);
    var decoded := DecodeLegacy(legBlob);
    match decoded.raw
    case None =>
      NewestRead(backBlob, if backBlob.None? then FromNeither else FromBacking, backBlob, None, backingStamp, 0)
    case Some(legacyRaw) =>
      var legacyStamp := if decoded.stamp.Some? then decoded.stamp.value else ParseStamp(legStamp);
      if backBlob.None? then
        NewestRead(decoded.raw, FromLegacy, None, decoded.raw, backingStamp, legacyStamp)
      else
        var legacyWins := legacyStamp > backingStamp;
        NewestRead(if legacyWins then decoded.raw else backBlob,
                   if legacyWins then FromLegacy else FromBacking,
                   backBlob, decoded.raw, backingStamp, legacyStamp)
  }

  /** A blob with its age. */
  datatype Copy = Copy(raw: string, stamp: nat)

  function BackingCopy(blob: Option<string>, stamp: Option<string>): Option<Copy> {
    if blob.None? then None else Some(Copy(blob.value, ParseStamp(stamp)))
  }

  function LegacyCopy(blob: Option<string>, stamp: Option<string>): Option<Copy> {
    var decoded := DecodeLegacy(blob);
    if decoded.raw.None? then None
    else Some(Copy(decoded.raw.value, if decoded.stamp.Some? then decoded.stamp.value else ParseStamp(stamp)))
  }

  /** Reference definition: the strictly newer copy, the backing on a tie. */
  function Newer(backing: Option<Copy>, legacy: Option<Copy>): Option<Copy> {
    if legacy.None? then backing
    else if backing.None? || legacy.value.stamp > backing.value.stamp then legacy
    else backing
  }

  /** The reader returns the bytes of the newer copy and names the store they came from. */
  lemma JudgeReturnsTheNewer(backBlob: Option<string>, backStamp: Option<string>,
                             legBlob: Option<string>, legStamp: Option<string>)
    ensures var read := Judge(backBlob, backStamp, legBlob, legStamp);
            var b := BackingCopy(backBlob, backStamp);
            var l := LegacyCopy(legBlob, legStamp);
            && read.raw == (if Newer(b, l).None? then None else Some(Newer(b, l).value.raw))
            && (read.source == FromLegacy
                <==> l.Some? && Newer(b, l) == l && (b.None? || l.value.stamp > b.value.stamp))
            && (read.source == FromBacking <==> b.Some? && (l.None? || l.value.stamp <= b.value.stamp))
            && (l.Some? ==> read.legacyRaw == Some(l.value.raw) && read.legacyStamp == l.value.stamp)
            && (l.None? ==> read.legacyRaw == None && read.legacyStamp == 0)
            && (b.Some? ==> read.backingRaw == Some(b.value.raw) && read.backingStamp == b.value.stamp)
  {
  }
}
