/** Review-decision keys: one key for each semantic payload, the same key on every retry.
    Models src/review/reviewDecisionVersion.ts and `buildIdempotencyKey`. */
module ReviewDecision {
  import opened Canonical
  import opened Fingerprint

  function Join(parts: seq<string>, separator: string): string {
    if parts == [] then ""
    else if |parts| == 1 then parts[0]
    else parts[0] + separator + Join(parts[1..], separator)
  }

  function BuildIdempotencyKey(businessId: string, sessionId: string, scanEventId: string, operation: string): string {
    Join([businessId, sessionId, scanEventId, operation], ":")
  }

  function Without(fields: seq<Field>, key: string): seq<Field> {
    if fields == [] then []
    else if fields[0].key == key then Without(fields[1..], key)
    else [fields[0]] + Without(fields[1..], key)
  }

  /** `{ ...record, key: value }`: a known key keeps its place. */
  function With(fields: seq<Field>, key: string, value: Value): seq<Field> {
    if fields == [] then [Field(key, value)]
    else if fields[0].key == key then [Field(key, value)] + fields[1..]
    else [fields[0]] + With(fields[1..], key, value)
  }

  datatype Review = Review(businessId: string, sessionId: string, id: string, rest: seq<Field>)

  /** The review as the record it is. */
  function Fields(review: Review): seq<Field> {
    [Field("businessId", Text(review.businessId)), Field("sessionId", Text(review.sessionId)),
     Field("id", Text(review.id))]
    + review.rest
  }

  predicate ValidReview(review: Review) {
    WellFormed(Record(Fields(review)))
  }

  /** Everything but the two transport fields. */
  function SemanticPayload(review: Review, decisionUpdatedAt: string): Value {
    Record(Without(Without(With(Fields(review), "decisionUpdatedAt", Text(decisionUpdatedAt)), "idempotencyKey"),
                   "syncStatus"))
  }

  function DecisionKey(review: Review, decisionUpdatedAt: string): string {
    BuildIdempotencyKey(review.businessId, review.sessionId,
                        review.id + ":review:" + StableFingerprint(SemanticPayload(review, decisionUpdatedAt)),
                        "SAVE_UNKNOWN_SCAN")
  }

  function VersionReviewDecision(review: Review, decisionUpdatedAt: string): Review {
    review.(rest := With(With(With(review.rest, "decisionUpdatedAt", Text(decisionUpdatedAt)), "syncStatus",
                              Text("pending")),
                         "idempotencyKey", Text(DecisionKey(review, decisionUpdatedAt))))
  }

  // --- well-formedness --------------------------------------------------------------------------

  predicate HasKey(fields: seq<Field>, key: string) {
    exists i :: 0 <= i < |fields| && fields[i].key == key
  }

  lemma {:induction false} WithoutShape(fields: seq<Field>, key: string)
    requires WellFormed(Record(fields))
    ensures WellFormed(Record(Without(fields, key))) && !HasKey(Without(fields, key), key)
    ensures forall k :: HasKey(Without(fields, key), k) ==> HasKey(fields, k)
  {
    if fields != [] {
      var tail := fields[1..];
      assert WellFormed(Record(tail));
      WithoutShape(tail, key);
      forall k | HasKey(tail, k) ensures HasKey(fields, k) {
        var i :| 0 <= i < |tail| && tail[i].key == k;
        assert fields[i + 1].key == k;
      }
      var rest := Without(tail, key);
      forall i | 0 <= i < |rest| ensures rest[i].key != fields[0].key {
        assert HasKey(rest, rest[i].key);
      }
    }
  }

  lemma {:induction false} WithShape(fields: seq<Field>, key: string, value: Value)
    requires WellFormed(Record(fields)) && WellFormed(value)
    ensures WellFormed(Record(With(fields, key, value)))
    ensures forall k :: HasKey(With(fields, key, value), k) ==> k == key || HasKey(fields, k)
  {
    if fields != [] {
      var tail := fields[1..];
      assert WellFormed(Record(tail));
      WithShape(tail, key, value);
      forall k | HasKey(tail, k) ensures HasKey(fields, k) {
        var i :| 0 <= i < |tail| && tail[i].key == k;
        assert fields[i + 1].key == k;
      }
      if fields[0].key == key {
        var next := [Field(key, value)] + tail;
        forall k | HasKey(next, k) ensures k == key || HasKey(fields, k) {
          var i :| 0 <= i < |next| && next[i].key == k;
          assert i > 0 ==> fields[i].key == k;
        }
      } else {
        var rest := With(tail, key, value);
        forall i | 0 <= i < |rest| ensures rest[i].key != fields[0].key {
          assert HasKey(rest, rest[i].key);
          if HasKey(tail, rest[i].key) {
            var j :| 0 <= j < |tail| && tail[j].key == rest[i].key;
          }
        }
        var next := [fields[0]] + rest;
        forall k | HasKey(next, k) ensures k == key || HasKey(fields, k) {
          var i :| 0 <= i < |next| && next[i].key == k;
          assert i > 0 ==> HasKey(rest, k);
          assert fields[0].key == fields[0].key && (i == 0 ==> HasKey(fields, k));
        }
      }
    }
  }

  lemma PayloadWellFormed(review: Review, decisionUpdatedAt: string)
    requires ValidReview(review)
    ensures WellFormed(SemanticPayload(review, decisionUpdatedAt))
  {
    var stamped := With(Fields(review), "decisionUpdatedAt", Text(decisionUpdatedAt));
    WithShape(Fields(review), "decisionUpdatedAt", Text(decisionUpdatedAt));
    WithoutShape(stamped, "idempotencyKey");
    WithoutShape(Without(stamped, "idempotencyKey"), "syncStatus");
  }

  // --- the key is the payload ---------------------------------------------------------------------

  lemma KeyShape(a: string, b: string, c: string, d: string)
    ensures BuildIdempotencyKey(a, b, c, d) == a + ":" + b + ":" + c + (":" + d)
  {
    var l := [a, b, c, d];
    assert l[1..] == [b, c, d] && [b, c, d][1..] == [c, d] && [c, d][1..] == [d];
    assert Join([c, d], ":") == c + ":" + d;
    assert Join([b, c, d], ":") == b + ":" + (c + ":" + d);
    assert Join(l, ":") == a + ":" + (b + ":" + (c + ":" + d));
    assert a + ":" + (b + ":" + (c + ":" + d)) == a + ":" + b + ":" + c + (":" + d);
  }

  lemma CancelEnds(head: string, x: string, y: string, tail: string)
    requires head + x + tail == head + y + tail
    ensures x == y
  {
    var l, r := head + x + tail, head + y + tail;
    assert |x| == |y|;
    assert x == l[|head|..|head| + |x|] && y == r[|head|..|head| + |y|];
  }

  function KeyHead(review: Review): string {
    review.businessId + ":" + review.sessionId + ":" + review.id + ":review:"
  }

  lemma DecisionKeyShape(review: Review, t: string)
    ensures DecisionKey(review, t)
         == KeyHead(review) + StableFingerprint(SemanticPayload(review, t)) + ":SAVE_UNKNOWN_SCAN"
  {
    var x := StableFingerprint(SemanticPayload(review, t));
    KeyShape(review.businessId, review.sessionId, review.id + ":review:" + x, "SAVE_UNKNOWN_SCAN");
    assert ":" + "SAVE_UNKNOWN_SCAN" == ":SAVE_UNKNOWN_SCAN";
    assert review.businessId + ":" + review.sessionId + ":" + (review.id + ":review:" + x) == KeyHead(review) + x;
  }

  /** Reviews that share business, session and id get the same decision key exactly when their
      payloads agree, up to key order, apart from the two transport fields. */
  lemma SameKeySamePayload(r: Review, t: string, s: Review, u: string)
    requires ValidReview(r) && ValidReview(s)
    requires r.businessId == s.businessId && r.sessionId == s.sessionId && r.id == s.id
    ensures DecisionKey(r, t) == DecisionKey(s, u) <==> Equal(SemanticPayload(r, t), SemanticPayload(s, u))
  {
    DecisionKeyShape(r, t);
    DecisionKeyShape(s, u);
    var x, y := StableFingerprint(SemanticPayload(r, t)), StableFingerprint(SemanticPayload(s, u));
    if DecisionKey(r, t) == DecisionKey(s, u) {
      CancelEnds(KeyHead(r), x, y, ":SAVE_UNKNOWN_SCAN");
    }
    PayloadWellFormed(r, t);
    PayloadWellFormed(s, u);
    FingerprintIsLossless(SemanticPayload(r, t), SemanticPayload(s, u));
  }

  /** The four parts are joined without escaping: parts that contain the separator can collide. */
  lemma PartsWithSeparatorsCollide(a: string, b: string, c: string, d: string, operation: string)
    ensures BuildIdempotencyKey(a + ":" + b, c, d, operation) == BuildIdempotencyKey(a, b + ":" + c, d, operation)
  {
    KeyShape(a + ":" + b, c, d, operation);
    KeyShape(a, b + ":" + c, d, operation);
    assert a + ":" + b + ":" + c == a + ":" + (b + ":" + c);
  }

  // --- which texts are read in one way only -------------------------------------------------------

  predicate Plain(part: string) {
    ':' !in part
  }

  lemma FirstSeparator(x: string, rest: string, y: string, other: string)
    requires Plain(x) && Plain(y) && x + ":" + rest == y + ":" + other
    ensures x == y && rest == other
  {
    var l, r := x + ":" + rest, y + ":" + other;
    assert l[|x|] == ':' && r[|y|] == ':';
    assert forall i :: 0 <= i < |x| ==> l[i] == x[i];
    assert forall i :: 0 <= i < |y| ==> r[i] == y[i];
    assert x == l[..|x|] && y == r[..|y|];
    assert rest == l[|x| + 1..] && other == r[|y| + 1..];
  }

  lemma LastSeparator(rest: string, x: string, other: string, y: string)
    requires Plain(x) && Plain(y) && rest + (":" + x) == other + (":" + y)
    ensures x == y && rest == other
  {
    var l, r := rest + (":" + x), other + (":" + y);
    assert l[|rest|] == ':' && r[|other|] == ':';
    assert forall i :: |rest| < i < |l| ==> l[i] == x[i - |rest| - 1];
    assert forall i :: |other| < i < |r| ==> r[i] == y[i - |other| - 1];
    assert rest == l[..|rest|] && other == r[..|other|];
    assert x == l[|rest| + 1..] && y == r[|other| + 1..];
  }

  lemma KeyNests(a: string, b: string, c: string, d: string)
    ensures BuildIdempotencyKey(a, b, c, d) == a + ":" + (b + ":" + (c + (":" + d)))
  {
    KeyShape(a, b, c, d);
    assert a + ":" + b + ":" + c + (":" + d) == a + ":" + (b + ":" + (c + (":" + d)));
  }

  /** With no separator in business, session and operation, whatever the third part holds: equal keys
      come from equal parts only. */
  lemma KeyNamesItsParts(a: string, b: string, c: string, d: string, e: string, f: string, g: string, h: string)
    requires Plain(a) && Plain(b) && Plain(d) && Plain(e) && Plain(f) && Plain(h)
    ensures BuildIdempotencyKey(a, b, c, d) == BuildIdempotencyKey(e, f, g, h) <==> a == e && b == f && c == g && d == h
  {
    KeyNests(a, b, c, d);
    KeyNests(e, f, g, h);
    if BuildIdempotencyKey(a, b, c, d) == BuildIdempotencyKey(e, f, g, h) {
      FirstSeparator(a, b + ":" + (c + (":" + d)), e, f + ":" + (g + (":" + h)));
      FirstSeparator(b, c + (":" + d), f, g + (":" + h));
      LastSeparator(c, d, g, h);
    }
  }

  function Separators(text: string): nat {
    if text == "" then 0 else (if text[0] == ':' then 1 else 0) + Separators(text[1..])
  }

  lemma {:induction false} SeparatorsConcat(x: string, y: string)
    ensures Separators(x + y) == Separators(x) + Separators(y)
  {
    if x == "" {
      assert x + y == y;
    } else {
      SeparatorsConcat(x[1..], y);
      assert (x + y)[1..] == x[1..] + y;
    }
  }

  lemma {:induction false} PlainHasNone(text: string)
    ensures Separators(text) == 0 <==> Plain(text)
  {
    if text != "" {
      PlainHasNone(text[1..]);
    }
  }

  lemma KeySeparators(a: string, b: string, c: string, d: string)
    ensures Separators(BuildIdempotencyKey(a, b, c, d)) == 3 + Separators(a) + Separators(b) + Separators(c)
        + Separators(d)
  {
    KeyNests(a, b, c, d);
    assert Separators(":") == 1;
    SeparatorsConcat(":", d);
    SeparatorsConcat(c, ":" + d);
    SeparatorsConcat(b + ":", c + (":" + d));
    SeparatorsConcat(b, ":");
    SeparatorsConcat(a + ":", b + ":" + (c + (":" + d)));
    SeparatorsConcat(a, ":");
  }

  lemma SplitHere(part: string) returns (x: string, y: string)
    requires !Plain(part)
    ensures part == x + ":" + y
  {
    var i :| 0 <= i < |part| && part[i] == ':';
    x, y := part[..i], part[i + 1..];
  }

  ghost predicate HasSecondReading(a: string, b: string, c: string, d: string) {
    exists e, f, g, h :: BuildIdempotencyKey(e, f, g, h) == BuildIdempotencyKey(a, b, c, d)
                         && (e != a || f != b || g != c || h != d)
  }

  /** A separator inside a part can be taken for the one behind or before that part. */
  lemma SecondReading(a: string, b: string, c: string, d: string)
    requires !Plain(a) || !Plain(b) || !Plain(c) || !Plain(d)
    ensures HasSecondReading(a, b, c, d)
  {
    KeyNests(a, b, c, d);
    if !Plain(a) {
      var x, y := SplitHere(a);
      PartsWithSeparatorsCollide(x, y, b, c, d);
      assert BuildIdempotencyKey(x, y + ":" + b, c, d) == BuildIdempotencyKey(a, b, c, d) && |x| < |a|;
    } else if !Plain(b) {
      var x, y := SplitHere(b);
      KeyNests(a, x, y + ":" + c, d);
      assert x + ":" + (y + ":" + c + (":" + d)) == x + ":" + y + ":" + (c + (":" + d));
      assert BuildIdempotencyKey(a, x, y + ":" + c, d) == BuildIdempotencyKey(a, b, c, d) && |x| < |b|;
    } else if !Plain(c) {
      var x, y := SplitHere(c);
      KeyNests(a, b, x, y + ":" + d);
      assert x + (":" + (y + ":" + d)) == x + ":" + y + (":" + d);
      assert BuildIdempotencyKey(a, b, x, y + ":" + d) == BuildIdempotencyKey(a, b, c, d) && |x| < |c|;
    } else {
      var x, y := SplitHere(d);
      KeyNests(a, b, c + ":" + x, y);
      assert c + ":" + x + (":" + y) == c + (":" + (x + ":" + y));
      assert BuildIdempotencyKey(a, b, c + ":" + x, y) == BuildIdempotencyKey(a, b, c, d) && |y| < |d|;
    }
  }

  /** A key can be read as other parts exactly when its text holds more than the three separators it
      was joined with. */
  lemma KeyIsAmbiguousExactly(a: string, b: string, c: string, d: string)
    ensures HasSecondReading(a, b, c, d) <==> Separators(BuildIdempotencyKey(a, b, c, d)) > 3
  {
    KeySeparators(a, b, c, d);
    PlainHasNone(a);
    PlainHasNone(b);
    PlainHasNone(c);
    PlainHasNone(d);
    if Separators(BuildIdempotencyKey(a, b, c, d)) > 3 {
      SecondReading(a, b, c, d);
    } else if HasSecondReading(a, b, c, d) {
      var e, f, g, h :| BuildIdempotencyKey(e, f, g, h) == BuildIdempotencyKey(a, b, c, d)
                        && (e != a || f != b || g != c || h != d);
      KeySeparators(e, f, g, h);
      PlainHasNone(e);
      PlainHasNone(f);
      PlainHasNone(h);
      KeyNamesItsParts(a, b, c, d, e, f, g, h);
    }
  }

  lemma ReviewPart(id: string, x: string, other: string, y: string)
    requires Plain(id) && Plain(other)
    ensures id + ":review:" + x == other + ":review:" + y <==> id == other && x == y
  {
    assert id + ":review:" + x == id + ":" + ("review:" + x) && other + ":review:" + y == other + ":" + ("review:" + y);
    if id + ":review:" + x == other + ":review:" + y {
      FirstSeparator(id, "review:" + x, other, "review:" + y);
      assert x == ("review:" + x)[7..] && y == ("review:" + y)[7..];
    }
  }

  /** Over all reviews whose ids hold no separator: equal decision keys mean the same business, session
      and review, and payloads that agree up to key order apart from the two transport fields. */
  lemma SameKeySameReview(r: Review, t: string, s: Review, u: string)
    requires ValidReview(r) && ValidReview(s)
    requires Plain(r.businessId) && Plain(r.sessionId) && Plain(r.id)
    requires Plain(s.businessId) && Plain(s.sessionId) && Plain(s.id)
    ensures DecisionKey(r, t) == DecisionKey(s, u)
       <==> && r.businessId == s.businessId && r.sessionId == s.sessionId && r.id == s.id
            && Equal(SemanticPayload(r, t), SemanticPayload(s, u))
  {
    var x, y := StableFingerprint(SemanticPayload(r, t)), StableFingerprint(SemanticPayload(s, u));
    KeyNamesItsParts(r.businessId, r.sessionId, r.id + ":review:" + x, "SAVE_UNKNOWN_SCAN",
                     s.businessId, s.sessionId, s.id + ":review:" + y, "SAVE_UNKNOWN_SCAN");
    ReviewPart(r.id, x, s.id, y);
    PayloadWellFormed(r, t);
    PayloadWellFormed(s, u);
    FingerprintIsLossless(SemanticPayload(r, t), SemanticPayload(s, u));
  }

  // --- a retry keeps the key ----------------------------------------------------------------------

  predicate Holds(fields: seq<Field>, key: string, value: Value) {
    fields != [] && if fields[0].key == key then fields[0].value == value else Holds(fields[1..], key, value)
  }

  lemma {:induction false} WithHolds(fields: seq<Field>, key: string, value: Value)
    ensures Holds(With(fields, key, value), key, value)
    ensures Holds(fields, key, value) ==> With(fields, key, value) == fields
  {
    if fields != [] && fields[0].key != key {
      WithHolds(fields[1..], key, value);
    }
  }

  lemma {:induction false} WithKeepsOthers(fields: seq<Field>, key: string, value: Value, other: string, w: Value)
    requires Holds(fields, key, value) && other != key
    ensures Holds(With(fields, other, w), key, value)
  {
    if fields[0].key != key && fields[0].key != other {
      WithKeepsOthers(fields[1..], key, value, other, w);
    }
  }

  lemma {:induction false} WithoutUndoesWith(fields: seq<Field>, key: string, value: Value)
    ensures Without(With(fields, key, value), key) == Without(fields, key)
  {
    if fields != [] && fields[0].key != key {
      WithoutUndoesWith(fields[1..], key, value);
    }
  }

  lemma {:induction false} WithoutCommutes(fields: seq<Field>, key: string, value: Value, other: string)
    requires key != other
    ensures Without(With(fields, key, value), other) == With(Without(fields, other), key, value)
  {
    if fields != [] && fields[0].key != key {
      WithoutCommutes(fields[1..], key, value, other);
    }
  }

  lemma {:induction false} PastPrefix(prefix: seq<Field>, rest: seq<Field>, key: string, value: Value)
    requires !HasKey(prefix, key)
    ensures With(prefix + rest, key, value) == prefix + With(rest, key, value)
    ensures Without(prefix + rest, key) == prefix + Without(rest, key)
  {
    if prefix != [] {
      var tail := prefix[1..];
      assert prefix[0].key != key;
      forall i | 0 <= i < |tail| ensures tail[i].key != key {
        assert tail[i] == prefix[i + 1];
      }
      PastPrefix(tail, rest, key, value);
      assert (prefix + rest)[1..] == tail + rest;
    } else {
      assert prefix + rest == rest;
    }
  }

  lemma PayloadShape(review: Review, t: string)
    ensures var ids := Fields(review.(rest := []));
            SemanticPayload(review, t)
            == Record(ids + Without(Without(With(review.rest, "decisionUpdatedAt", Text(t)), "idempotencyKey"),
                                    "syncStatus"))
  {
    var ids := Fields(review.(rest := []));
    assert |"decisionUpdatedAt"| == 17 && |"idempotencyKey"| == 14 && |"syncStatus"| == 10;
    assert |"businessId"| == 10 && |"sessionId"| == 9 && |"id"| == 2 && "businessId"[0] != "syncStatus"[0];
    assert Fields(review) == ids + review.rest;
    var stamped := With(review.rest, "decisionUpdatedAt", Text(t));
    PastPrefix(ids, review.rest, "decisionUpdatedAt", Text(t));
    PastPrefix(ids, stamped, "idempotencyKey", Null);
    PastPrefix(ids, Without(stamped, "idempotencyKey"), "syncStatus", Null);
  }

  /** Versioning a review that already carries its version gives the same key, whatever the
      transport fields say by then: a retry never mints a new identity. */
  lemma RetryKeepsTheKey(review: Review, t: string, status: string, key: string)
    ensures var versioned := VersionReviewDecision(review, t);
            DecisionKey(versioned.(rest := With(With(versioned.rest, "syncStatus", Text(status)), "idempotencyKey",
                                                Text(key))), t)
            == DecisionKey(review, t)
  {
    var stamped := With(review.rest, "decisionUpdatedAt", Text(t));
    TransportFieldsAreDropped(review, stamped, t, Text("pending"), Text(DecisionKey(review, t)));
    var versioned := VersionReviewDecision(review, t);
    TransportFieldsAreDropped(versioned, versioned.rest, t, Text(status), Text(key));
    var again := versioned.(rest := With(With(versioned.rest, "syncStatus", Text(status)), "idempotencyKey",
                                         Text(key)));
    PayloadShape(review, t);
    PayloadShape(again, t);
    assert Fields(again.(rest := [])) == Fields(review.(rest := []));
    WithoutUndoesTransport(stamped, Text("pending"), Text(DecisionKey(review, t)));
    assert SemanticPayload(again, t) == SemanticPayload(review, t);
  }

  lemma WithoutUndoesTransport(fields: seq<Field>, status: Value, key: Value)
    ensures Without(Without(With(With(fields, "syncStatus", status), "idempotencyKey", key), "idempotencyKey"),
                    "syncStatus")
         == Without(Without(fields, "idempotencyKey"), "syncStatus")
  {
    assert |"idempotencyKey"| == 14 && |"syncStatus"| == 10;
    WithoutUndoesWith(With(fields, "syncStatus", status), "idempotencyKey", key);
    WithoutCommutes(fields, "syncStatus", status, "idempotencyKey");
    WithoutUndoesWith(Without(fields, "idempotencyKey"), "syncStatus", status);
  }

  lemma TransportFieldsAreDropped(review: Review, fields: seq<Field>, t: string, status: Value, key: Value)
    requires Holds(fields, "decisionUpdatedAt", Text(t)) || fields == With(review.rest, "decisionUpdatedAt", Text(t))
    ensures var next := With(With(fields, "syncStatus", status), "idempotencyKey", key);
            && Holds(next, "decisionUpdatedAt", Text(t))
            && Without(Without(With(next, "decisionUpdatedAt", Text(t)), "idempotencyKey"), "syncStatus")
               == Without(Without(fields, "idempotencyKey"), "syncStatus")
  {
    assert |"decisionUpdatedAt"| == 17 && |"idempotencyKey"| == 14 && |"syncStatus"| == 10;
    WithHolds(review.rest, "decisionUpdatedAt", Text(t));
    var synced := With(fields, "syncStatus", status);
    WithKeepsOthers(fields, "decisionUpdatedAt", Text(t), "syncStatus", status);
    WithKeepsOthers(synced, "decisionUpdatedAt", Text(t), "idempotencyKey", key);
    WithHolds(With(synced, "idempotencyKey", key), "decisionUpdatedAt", Text(t));
    WithoutUndoesWith(synced, "idempotencyKey", key);
    WithoutCommutes(fields, "syncStatus", status, "idempotencyKey");
    WithoutUndoesWith(Without(fields, "idempotencyKey"), "syncStatus", status);
  }
}
