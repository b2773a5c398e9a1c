/** Which decode decisions are verified, on which route and with what confidence, said of the answers and
    the evidence one by one. */
module DecodeRoutes {
  import opened StampedCopy
  import opened EvidenceTrust
  import opened DecodeTrust

  // --- the answers that count -----------------------------------------------------------------------------

  predicate Names(c: Checks, p: Params, i: nat) {
    i < |p.results| && c.identity(p.results[i], p.code) != ""
  }

  /** The position of the next answer that names a product, the number of answers when there is none. */
  function Next(c: Checks, p: Params, from: nat): (i: nat)
    ensures from <= |p.results| ==> from <= i <= |p.results|
    ensures i < |p.results| ==> Names(c, p, i)
    ensures forall j :: from <= j < i ==> !Names(c, p, j)
    decreases |p.results| - from
  {
    if from >= |p.results| || Names(c, p, from) then from else Next(c, p, from + 1)
  }

  function AnswerAt(p: Params, i: nat): Option<Answer> {
    if i < |p.results| then Some(p.results[i]) else None
  }

  function First(c: Checks, p: Params): Option<Answer> {
    AnswerAt(p, Next(c, p, 0))
  }

  function Second(c: Checks, p: Params): Option<Answer> {
    AnswerAt(p, Next(c, p, Next(c, p, 0) + 1))
  }

  lemma {:induction false} PresentFrom(c: Checks, p: Params, from: nat)
    requires from <= |p.results|
    ensures var i, present := Next(c, p, from), Present(c, p.results[from..], p.code);
            if i == |p.results| then present == []
            else present == [p.results[i]] + Present(c, p.results[i + 1..], p.code)
    decreases |p.results| - from
  {
    if from < |p.results| {
      assert p.results[from..][1..] == p.results[from + 1..];
      if !Names(c, p, from) {
        PresentFrom(c, p, from + 1);
      }
    }
  }

  /** The decision looks at the first two answers that name a product. */
  lemma PresentIsNamed(c: Checks, p: Params)
    ensures var present := Present(c, p.results, p.code);
            && First(c, p) == (if |present| > 0 then Some(present[0]) else None)
            && Second(c, p) == (if |present| > 1 then Some(present[1]) else None)
            && forall x :: x in present <==> exists i: nat :: Names(c, p, i) && p.results[i] == x
  {
    assert p.results[0..] == p.results;
    PresentFrom(c, p, 0);
    var i := Next(c, p, 0);
    if i < |p.results| {
      PresentFrom(c, p, i + 1);
    }
    PresentMembers(c, p, 0);
  }

  lemma {:induction false} PresentMembers(c: Checks, p: Params, from: nat)
    requires from <= |p.results|
    ensures forall x :: x in Present(c, p.results[from..], p.code)
                   <==> exists i: nat :: from <= i && Names(c, p, i) && p.results[i] == x
    decreases |p.results| - from
  {
    if from < |p.results| {
      assert p.results[from..][1..] == p.results[from + 1..];
      PresentMembers(c, p, from + 1);
    }
  }

  // --- confidence and evidence ----------------------------------------------------------------------------

  /** Some named answer reaches the threshold, or the threshold asks for nothing. */
  ghost predicate Reaches(c: Checks, p: Params, threshold: real) {
    threshold <= 0.0 || exists i: nat :: Names(c, p, i) && p.results[i].confidence >= threshold
  }

  lemma {:induction false} MaxReaches(answers: seq<Answer>, threshold: real)
    ensures MaxConfidence(answers) >= threshold
       <==> threshold <= 0.0 || exists x :: x in answers && x.confidence >= threshold
    decreases |answers|
  {
    if answers != [] {
      MaxReaches(answers[..|answers| - 1], threshold);
      assert answers == answers[..|answers| - 1] + [answers[|answers| - 1]];
    }
  }

  lemma MaxOfNamed(c: Checks, p: Params, threshold: real)
    ensures MaxConfidence(Present(c, p.results, p.code)) >= threshold <==> Reaches(c, p, threshold)
  {
    PresentIsNamed(c, p);
    MaxReaches(Present(c, p.results, p.code), threshold);
  }

  /** i is the first of the strongest results. */
  ghost predicate BestAt(evidences: seq<EvidenceResult>, i: nat) {
    && i < |evidences|
    && (forall j :: 0 <= j < |evidences| ==> Rank(evidences[j].strength) <= Rank(evidences[i].strength))
    && (forall j :: 0 <= j < i ==> Rank(evidences[j].strength) < Rank(evidences[i].strength))
  }

  lemma {:induction false} StrongestAt(evidences: seq<EvidenceResult>) returns (i: nat)
    ensures evidences == [] ==> Strongest(evidences) == NOT_FOUND
    ensures evidences != [] ==> BestAt(evidences, i) && Strongest(evidences) == evidences[i]
    decreases |evidences|
  {
    i := 0;
    if |evidences| > 1 {
      var n := |evidences| - 1;
      var front := evidences[..n];
      i := StrongestAt(front);
      forall j | 0 <= j < n ensures Rank(evidences[j].strength) <= Rank(front[i].strength) {
        assert evidences[j] == front[j];
      }
      forall j | 0 <= j < i ensures Rank(evidences[j].strength) < Rank(front[i].strength) {
        assert evidences[j] == front[j];
      }
      if Rank(evidences[n].strength) > Rank(front[i].strength) {
        i := n;
      }
    }
  }

  ghost predicate BestVerified(p: Params) {
    exists i: nat :: BestAt(p.evidences, i) && p.evidences[i].verified
  }

  ghost predicate StrongEvidence(p: Params) {
    exists i: nat :: BestAt(p.evidences, i) && p.evidences[i].verified && p.evidences[i].strength != NoEvidence
  }

  lemma BestOnlyOnce(evidences: seq<EvidenceResult>, i: nat, j: nat)
    requires BestAt(evidences, i) && BestAt(evidences, j)
    ensures i == j
  {
    var x, y := evidences[i], evidences[j];
    assert Rank(x.strength) == Rank(y.strength);
  }

  lemma BestIsStrongest(p: Params)
    ensures BestVerified(p) <==> Strongest(p.evidences).verified
    ensures StrongEvidence(p) <==> IsStrong(Strongest(p.evidences))
  {
    var i := StrongestAt(p.evidences);
    if p.evidences != [] {
      forall j: nat | BestAt(p.evidences, j) ensures j == i {
        BestOnlyOnce(p.evidences, i, j);
      }
    }
  }

  // --- the routes -------------------------------------------------------------------------------------------

  predicate Public(p: Params) {
    p.codeType in {UpcA, Ean13, Gtin14}
  }

  function Compared(c: Checks, p: Params): CrossDecision {
    c.crossCheck(First(c, p), Second(c, p)).decision
  }

  /** An answer, alone or agreeing with the next one, with evidence fit for the code's type. */
  ghost predicate BySource(c: Checks, p: Params) {
    && Compared(c, p) in {SingleProvider, Agree} && Reaches(c, p, p.confidenceThreshold)
    && if Public(p) then StrongEvidence(p) else p.allowNonPublicAutoCount && BestVerified(p)
  }

  ghost predicate PublicTire(c: Checks, p: Params) {
    && Public(p) && p.tireScan && First(c, p).Some?
    && c.tireContext(First(c, p).value) && c.countableTire(First(c, p).value)
  }

  ghost predicate InFamily(c: Checks, p: Params) {
    First(c, p).Some? && p.code != "" && c.inPrefixFamily(p.code, First(c, p).value.brand)
  }

  /** A tire whose barcode belongs to its brand's family, or that a second read of the page confirmed. */
  ghost predicate ByTire(c: Checks, p: Params) {
    PublicTire(c, p) && StrongEvidence(p) && (InFamily(c, p) || First(c, p).value.corroboratedByModel)
  }

  /** A tire of the brand's family whose size two sources agree on; no evidence for the code is needed. */
  ghost predicate BySize(c: Checks, p: Params) {
    && PublicTire(c, p) && InFamily(c, p) && First(c, p).value.sizeAgreement
    && Reaches(c, p, p.confidenceThreshold)
  }

  ghost predicate Vetoed(p: Params) {
    p.brandPrefixConflict && !StrongEvidence(p)
  }

  ghost predicate VerifiedBy(c: Checks, p: Params) {
    && First(c, p).Some? && Compared(c, p) != Conflict && !Vetoed(p)
    && (BySource(c, p) || ByTire(c, p) || BySize(c, p))
  }

  /** The status of every decision: conflicting exactly when the first two answers conflict, verified
      exactly on one of three routes that the brand prefix does not veto, else suggested exactly when
      some answer names a product. */
  lemma StatusExactly(c: Checks, p: Params)
    ensures var d := DecideDecode(c, p);
            && (d.status == Conflicting <==> Compared(c, p) == Conflict)
            && (d.status == Verified <==> VerifiedBy(c, p))
            && (d.status == Suggested <==> Compared(c, p) != Conflict && !VerifiedBy(c, p) && First(c, p).Some?)
            && (d.status == NeedsReview <==> Compared(c, p) != Conflict && First(c, p).None?)
  {
    PresentIsNamed(c, p);
    MaxOfNamed(c, p, p.confidenceThreshold);
    BestIsStrongest(p);
  }

  /** The route a verified decision reports, and whether the app itself read the exact code: on every
      route but the size agreement. */
  lemma RouteExactly(c: Checks, p: Params)
    requires VerifiedBy(c, p)
    ensures var d := DecideDecode(c, p);
            && d.corroborationPath.Some?
            && (d.exactCodeEvidenceVerifiedByApp <==> BySource(c, p) || ByTire(c, p))
            && match d.corroborationPath.value
               case TwoAiAgreement => Public(p) && BySource(c, p) && Compared(c, p) == Agree
               case SingleSource => Public(p) && BySource(c, p) && Compared(c, p) == SingleProvider
               case NonPublicTrustedSource => !Public(p) && BySource(c, p)
               case DeterministicPrefix => !BySource(c, p) && ByTire(c, p) && InFamily(c, p)
               case PageFetchModelAgreement => !BySource(c, p) && ByTire(c, p) && !InFamily(c, p)
               case InternetTwoSourceSize => !BySource(c, p) && !ByTire(c, p) && BySize(c, p)
  {
    PresentIsNamed(c, p);
    MaxOfNamed(c, p, p.confidenceThreshold);
    BestIsStrongest(p);
  }

  lemma UnverifiedReportsNothing(c: Checks, p: Params)
    requires !VerifiedBy(c, p)
    ensures DecideDecode(c, p).corroborationPath == None && !DecideDecode(c, p).exactCodeEvidenceVerifiedByApp
  {
    StatusExactly(c, p);
    VerifiedRestsOnTheApp(c, p);
  }

  /** The page the app fetched is on a trusted shop's host, and the brand prefix agrees. */
  ghost predicate FetchedFromTrusted(c: Checks, p: Params) {
    && !p.brandPrefixConflict
    && exists i: nat, u :: BestAt(p.evidences, i) && p.evidences[i].strength == FetchedSource
        && u in p.evidences[i].matchedSources && c.trustedProductHost(u)
  }

  lemma FetchedIsStrongest(c: Checks, p: Params)
    ensures FetchedFromTrusted(c, p)
       <==> !p.brandPrefixConflict && Strongest(p.evidences).strength == FetchedSource
            && exists u :: u in Strongest(p.evidences).matchedSources && c.trustedProductHost(u)
  {
    var i := StrongestAt(p.evidences);
    forall j: nat | BestAt(p.evidences, j) ensures j == i {
      BestOnlyOnce(p.evidences, i, j);
    }
  }

  /** How sure every decision is, as the levels it reaches. A verified one reaches a level when some named
      answer or the comparison does, or, up to 0.95, when the app fetched a trusted page. A suggested one
      keeps six tenths of that, and at least 0.2. */
  lemma ConfidenceExactly(c: Checks, p: Params, level: real)
    ensures var d, compared := DecideDecode(c, p), c.crossCheck(First(c, p), Second(c, p)).confidence;
            match d.status
            case Conflicting => d.confidence == compared
            case NeedsReview => d.confidence == 0.0
            case Suggested =>
              d.confidence >= 0.6 * level <==> Reaches(c, p, level) || compared >= level || 0.6 * level <= 0.2
            case Verified =>
              d.confidence >= level
              <==> || (level <= 1.0 && (Reaches(c, p, level) || compared >= level))
                   || (level <= 0.95 && d.exactCodeEvidenceVerifiedByApp && FetchedFromTrusted(c, p))
  {
    PresentIsNamed(c, p);
    MaxOfNamed(c, p, level);
    FetchedIsStrongest(c, p);
  }

  lemma EvidenceStrengthIsTheBest(c: Checks, p: Params, i: nat)
    requires BestAt(p.evidences, i)
    ensures DecideDecode(c, p).evidenceStrength == p.evidences[i].strength
  {
    var k := StrongestAt(p.evidences);
    BestOnlyOnce(p.evidences, i, k);
  }

  // --- what follows -----------------------------------------------------------------------------------------

  lemma SameAnswers(c: Checks, p: Params, q: Params, from: nat)
    requires p.results == q.results && p.code == q.code
    ensures Next(c, p, from) == Next(c, q, from)
    decreases |p.results| - from
  {
    if from < |p.results| {
      SameAnswers(c, p, q, from + 1);
    }
  }

  lemma SameRoutes(c: Checks, p: Params, q: Params)
    requires p.results == q.results && p.code == q.code && p.codeType == q.codeType && p.tireScan == q.tireScan
    requires p.confidenceThreshold == q.confidenceThreshold
    ensures First(c, p) == First(c, q) && Second(c, p) == Second(c, q)
    ensures Reaches(c, p, p.confidenceThreshold) <==> Reaches(c, q, p.confidenceThreshold)
    ensures PublicTire(c, p) <==> PublicTire(c, q)
    ensures InFamily(c, p) <==> InFamily(c, q)
  {
    SameAnswers(c, p, q, 0);
    SameAnswers(c, p, q, Next(c, p, 0) + 1);
    assert forall i: nat :: Names(c, p, i) <==> Names(c, q, i);
  }

  /** Evidence can only help: what is verified stays verified when the best evidence becomes strong,
      whatever it was before. */
  lemma StrongEvidenceKeepsVerified(c: Checks, p: Params, q: Params)
    requires q == p.(evidences := q.evidences)
    requires DecideDecode(c, p).status == Verified && StrongEvidence(q)
    ensures DecideDecode(c, q).status == Verified
  {
    StatusExactly(c, p);
    StatusExactly(c, q);
    SameRoutes(c, p, q);
  }

  /** A conflict with the brand prefix is decisive exactly where the app found no strong evidence. */
  lemma PrefixConflictMattersExactly(c: Checks, p: Params)
    ensures DecideDecode(c, p.(brandPrefixConflict := true)).status == Verified
       <==> DecideDecode(c, p.(brandPrefixConflict := false)).status == Verified && StrongEvidence(p)
  {
    var q, r := p.(brandPrefixConflict := true), p.(brandPrefixConflict := false);
    StatusExactly(c, q);
    StatusExactly(c, r);
    SameRoutes(c, q, r);
  }

  // --- normalization -----------------------------------------------------------------------------------------

  /** Normalization keeps what the answer says of the product, clamps its confidence into 0 to 1, drops
      its claim of a size agreement, and sends it to review exactly when it asks for that or is not sure
      enough; no answer at all names nothing. */
  lemma NormalizedExactly(raw: Option<Raw>, level: real)
    requires 0.0 < level <= 1.0
    ensures var r := NormalizeResult(raw);
            match raw
            case None => r.productName == "" && r.brand == "" && r.confidence == 0.0 && r.needsHumanReview
            case Some(x) =>
              && r.productName == x.productName && r.brand == x.brand && !r.sizeAgreement
              && (r.corroboratedByModel <==> x.corroboratedByModel)
              && (r.exactCodeEvidence <==> x.exactCodeEvidence)
              && (r.confidence >= level <==> x.confidence.Some? && x.confidence.value >= level)
              && 0.0 <= r.confidence <= 1.0
              && (r.needsHumanReview
                  <==> x.needsHumanReview || x.confidence.None? || x.confidence.value < 0.85)
  {
  }
}
