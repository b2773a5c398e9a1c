/** From provider answers to a counted scan: normalization, the decision, the auto-count gate.
    Models src/decoding/provider.ts, `decideDecode` of src/decoding/decode.ts and
    src/stores/scanGates.ts; name checks, tire checks and the cross check are inputs. */
module DecodeTrust {
  import opened StampedCopy
  import opened EvidenceTrust

  /** An answer as a provider sends it; sizeAgreement and corroboratedByModel may be claimed by it. */
  datatype Raw = Raw(productName: string, brand: string, confidence: Option<real>, sizeAgreement: bool,
                     corroboratedByModel: bool,
                     exactCodeEvidence: bool, needsHumanReview: bool)

  datatype Answer = Answer(productName: string, brand: string, confidence: real, sizeAgreement: bool,
                           corroboratedByModel: bool,
                           exactCodeEvidence: bool, needsHumanReview: bool)

  const EMPTY_ANSWER := Answer("", "", 0.0, false, false, false, true)

  function Max(a: real, b: real): real {
    if a >= b then a else b
  }

  function Min(a: real, b: real): real {
    if a <= b then a else b
  }

  function NormalizeResult(raw: Option<Raw>): Answer {
    match raw
    case None => EMPTY_ANSWER
    case Some(r) =>
      var confidence := if r.confidence.Some? then Max(0.0, Min(1.0, r.confidence.value)) else 0.0;
      Answer(r.productName, r.brand, confidence, false, r.corroboratedByModel, r.exactCodeEvidence,
             confidence < 0.85 || r.needsHumanReview)
  }

  datatype CrossDecision = Conflict | Agree | SingleProvider | Weak

  datatype CrossCheck = CrossCheck(decision: CrossDecision, confidence: real)

  /** The checks whose word lists and tables are not part of this model. */
  datatype Checks = Checks(
    identity: (Answer, string) -> string,
    crossCheck: (Option<Answer>, Option<Answer>) -> CrossCheck,
    tireContext: Answer -> bool,
    countableTire: Answer -> bool,
    inPrefixFamily: (string, string) -> bool,
    trustedProductHost: string -> bool)

  /** code "" stands for a missing code. */
  datatype Params = Params(codeType: CodeType, results: seq<Answer>, evidences: seq<EvidenceResult>,
                           confidenceThreshold: real,
                           code: string, tireScan: bool, brandPrefixConflict: bool, allowNonPublicAutoCount: bool)

  datatype Path = TwoAiAgreement | SingleSource | DeterministicPrefix | PageFetchModelAgreement | InternetTwoSourceSize
                | NonPublicTrustedSource

  datatype Status = Verified | Suggested | NeedsReview | Conflicting

  datatype Decision = Decision(status: Status, confidence: real, evidenceStrength: Strength,
                               exactCodeEvidenceVerifiedByApp: bool, corroborationPath: Option<Path>)

  const MIN_SUGGESTION_CONFIDENCE := 0.2

  predicate IsPublicBarcode(t: CodeType) {
    t == UpcA || t == Ean13 || t == Gtin14
  }

  function Present(c: Checks, results: seq<Answer>, code: string): (r: seq<Answer>)
    ensures forall x :: x in r ==> x in results
  {
    if results == [] then []
    else (if c.identity(results[0], code) != "" then [results[0]] else []) + Present(c, results[1..], code)
  }

  function MaxConfidence(answers: seq<Answer>): real {
    if answers == [] then 0.0 else Max(MaxConfidence(answers[..|answers| - 1]), answers[|answers| - 1].confidence)
  }

  function DecideDecode(c: Checks, p: Params): Decision {
    var present := Present(c, p.results, p.code);
    var a := if |present| > 0 then Some(present[0]) else None;
    var b := if |present| > 1 then Some(present[1]) else None;
    var cc := c.crossCheck(a, b);
    var best := Strongest(p.evidences);
    var strong := IsStrong(best);
    var prefixBlocks := p.brandPrefixConflict && !strong;
    var public := IsPublicBarcode(p.codeType);
    var maxConfidence := MaxConfidence(present);
    var passes := maxConfidence >= p.confidenceThreshold;
    if cc.decision == Conflict then Decision(Conflicting, cc.confidence, best.strength, false, None)
    else
      var oneOrAgreeing := cc.decision == SingleProvider || cc.decision == Agree;
      var canVerify := public && strong && a.Some? && passes && !prefixBlocks && cc.decision == Agree;
      var singleSource := public && strong && a.Some? && passes && !prefixBlocks && oneOrAgreeing;
      var nonPublic := p.allowNonPublicAutoCount && !public && best.verified && a.Some? && passes && !prefixBlocks
          && oneOrAgreeing;
      var tire := p.tireScan && public && a.Some? && c.tireContext(a.value) && c.countableTire(a.value);
      var inFamily := a.Some? && p.code != "" && c.inPrefixFamily(p.code, a.value.brand);
      var tireCorroborated := tire && strong && inFamily;
      var pageFetch := tire && strong && a.value.corroboratedByModel;
      var twoSourceSize := tire && passes && a.value.sizeAgreement && inFamily;
      if !prefixBlocks && (canVerify || singleSource || tireCorroborated || pageFetch || twoSourceSize
                           || nonPublic) then
        var path := if canVerify then TwoAiAgreement else if singleSource then SingleSource
                    else if tireCorroborated then DeterministicPrefix else if pageFetch then PageFetchModelAgreement
                    else if twoSourceSize then InternetTwoSourceSize else NonPublicTrustedSource;
        var exact := canVerify || singleSource || tireCorroborated || pageFetch || nonPublic;
        var computed := Min(1.0, Max(maxConfidence, cc.confidence));
        var trustedFetch := best.strength == FetchedSource && exact && !p.brandPrefixConflict
                            && exists u :: u in best.matchedSources && c.trustedProductHost(u);
        Decision(Verified, if trustedFetch then Max(computed, 0.95) else computed, best.strength, exact, Some(path))
      else if a.Some? then
        Decision(Suggested, Max(Max(maxConfidence * 0.6, cc.confidence * 0.6), MIN_SUGGESTION_CONFIDENCE),
                 best.strength, false, None)
      else Decision(NeedsReview, 0.0, best.strength, false, None)
  }

  predicate DecodeCorroborated(d: Decision) {
    d.exactCodeEvidenceVerifiedByApp || d.corroborationPath == Some(InternetTwoSourceSize)
  }

  datatype Gate = Allowed | NoUsableName | NoTireIdentity | ContextConflict | LowConfidence | NotCorroborated

  function CanAutoCount(decision: Option<Decision>, nameUsable: bool, tireOk: bool, contextConflict: bool): Gate {
    var confidence := if decision.Some? then decision.value.confidence else 0.0;
    if !nameUsable then NoUsableName
    else if !tireOk then NoTireIdentity
    else if contextConflict then ContextConflict
    else if confidence < 0.8 then LowConfidence
    else if decision.Some? && decision.value.status == Verified && DecodeCorroborated(decision.value) then Allowed
    else NotCorroborated
  }

  // --- no self-claim becomes a count -------------------------------------------------------------------

  /** A verified decision rests on evidence the verifier accepted, or on the size agreement of its first
      answer, which only the app may set. */
  lemma VerifiedRestsOnTheApp(c: Checks, p: Params)
    ensures var d, best := DecideDecode(c, p), Strongest(p.evidences);
            && (d.status == Verified ==>
                  || best.verified
                  || (d.corroborationPath == Some(InternetTwoSourceSize)
                      && Present(c, p.results, p.code)[0].sizeAgreement))
            && (d.exactCodeEvidenceVerifiedByApp ==> d.status == Verified && best.verified)
            && (d.corroborationPath.Some? ==> d.status == Verified)
  {
  }

  predicate Normalized(results: seq<Answer>, raws: seq<Option<Raw>>) {
    |results| == |raws| && forall i :: 0 <= i < |raws| ==> results[i] == NormalizeResult(raws[i])
  }

  lemma NormalizedNeverAgreesOnSize(results: seq<Answer>, raws: seq<Option<Raw>>)
    requires Normalized(results, raws)
    ensures forall r :: r in results ==>
        !r.sizeAgreement && 0.0 <= r.confidence <= 1.0 && (r.confidence < 0.85 ==> r.needsHumanReview)
  {
  }

  /** The evidence is what the app's verifier made of the fetched page and of the chunks, snippets and
      URLs of each provider's answer. */
  predicate VerifiedByApp(w: Words, evidences: seq<EvidenceResult>, code: string, t: CodeType,
                          sources: seq<ProviderEvidence>) {
    |evidences| == |sources| && forall i :: 0 <= i < |sources| ==> evidences[i] == Verify(w, code, t, sources[i])
  }

  lemma VerifiedIsBacked(w: Words, evidences: seq<EvidenceResult>, code: string, t: CodeType,
                         sources: seq<ProviderEvidence>)
    requires VerifiedByApp(w, evidences, code, t, sources) && Strongest(evidences).verified
    ensures exists i :: 0 <= i < |sources| && Backed(w, code, t, sources[i])
  {
    StrongestIsOne(evidences);
    var i :| 0 <= i < |evidences| && evidences[i] == Strongest(evidences);
    VerifiedExactlyWhenBacked(w, code, t, sources[i]);
  }

  /** The gate's whole verdict on a decision of the decoder: a scan is counted exactly when its name is
      usable, its tire identity holds, its context does not conflict, the confidence is at least 0.8, and
      the app verified the exact code or two sources agreed on the size. The first check that fails names
      the refusal. */
  lemma CountedExactly(c: Checks, p: Params, nameUsable: bool, tireOk: bool, contextConflict: bool)
    ensures var d := DecideDecode(c, p);
            var gate := CanAutoCount(Some(d), nameUsable, tireOk, contextConflict);
            && (gate == Allowed
                <==> && nameUsable && tireOk && !contextConflict && d.confidence >= 0.8
                     && (d.exactCodeEvidenceVerifiedByApp || d.corroborationPath == Some(InternetTwoSourceSize)))
            && (gate == NoUsableName <==> !nameUsable)
            && (gate == NoTireIdentity <==> nameUsable && !tireOk)
            && (gate == ContextConflict <==> nameUsable && tireOk && contextConflict)
            && (gate == LowConfidence <==> nameUsable && tireOk && !contextConflict && d.confidence < 0.8)
  {
    VerifiedRestsOnTheApp(c, p);
  }

  /** Whatever decision the gate is given, from the decoder or not: without one nothing is counted, and
      only a verified one that the app backs is. */
  lemma AllowedExactly(decision: Option<Decision>, nameUsable: bool, tireOk: bool, contextConflict: bool)
    ensures CanAutoCount(decision, nameUsable, tireOk, contextConflict) == Allowed
       <==> && nameUsable && tireOk && !contextConflict && decision.Some? && decision.value.confidence >= 0.8
            && decision.value.status == Verified
            && (decision.value.exactCodeEvidenceVerifiedByApp
                || decision.value.corroborationPath == Some(InternetTwoSourceSize))
  {
  }

  /** Whatever providers claim of themselves, in any number of answers: a verified decision, and a
      scan the gate lets through, always has evidence text or a trusted URL that the app's own search
      found to hold a variant of the code; and what is let through has passed all four refusals. */
  lemma NoSelfClaimIsCounted(w: Words, c: Checks, p: Params, raws: seq<Option<Raw>>, sources: seq<ProviderEvidence>,
                             scanned: string,
                             nameUsable: bool, tireOk: bool, contextConflict: bool)
    requires Normalized(p.results, raws) && VerifiedByApp(w, p.evidences, scanned, p.codeType, sources)
    ensures var d := DecideDecode(c, p);
            var allowed := CanAutoCount(Some(d), nameUsable, tireOk, contextConflict) == Allowed;
            && (d.status == Verified || allowed ==>
                  exists i :: 0 <= i < |sources| && Backed(w, scanned, p.codeType, sources[i]))
            && (allowed ==> nameUsable && tireOk && !contextConflict && d.confidence >= 0.8)
  {
    var d := DecideDecode(c, p);
    CountedExactly(c, p, nameUsable, tireOk, contextConflict);
    VerifiedRestsOnTheApp(c, p);
    if d.status == Verified {
      NormalizedNeverAgreesOnSize(p.results, raws);
      var present := Present(c, p.results, p.code);
      assert present != [] ==> present[0] in p.results;
      VerifiedIsBacked(w, p.evidences, scanned, p.codeType, sources);
    }
  }

  /** Without normalization the size-agreement claim alone is enough: a tire answer of a known brand
      is verified and counted with no evidence at all. */
  lemma UnnormalizedClaimIsCounted(c: Checks, p: Params, a: Answer)
    requires p.results == [a] && a.sizeAgreement && c.identity(a, p.code) != "" && a.confidence >= 0.8
    requires p.evidences == [] && p.tireScan && IsPublicBarcode(p.codeType) && p.code != "" && !p.brandPrefixConflict
    requires c.tireContext(a) && c.countableTire(a) && c.inPrefixFamily(p.code, a.brand)
    requires a.confidence >= p.confidenceThreshold && c.crossCheck(Some(a), None).decision != Conflict
    ensures CanAutoCount(Some(DecideDecode(c, p)), true, true, false) == Allowed
  {
    assert p.results[1..] == [];
    assert Present(c, p.results, p.code) == [a];
    assert [a][..0] == [];
    assert MaxConfidence([a]) == Max(0.0, a.confidence);
  }
}
