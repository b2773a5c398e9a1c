/** App-side evidence for a scanned code. Models src/decoding/evidenceVerifier.ts; the word lists and
    the list of trusted hosts are inputs. */
module EvidenceTrust {
  import opened StampedCopy
  import opened Text
  import opened BarcodeVariants

  datatype CodeType = UpcA | Ean13 | Gtin14 | NumericSku | OtherType(name: string)

  datatype Strength = NoEvidence | UrlOnly | Snippet | GroundingChunk | FetchedSource

  /** fetchedSourceText "" stands for a missing page. */
  datatype ProviderEvidence = ProviderEvidence(fetchedSourceText: string, groundingChunks: seq<string>,
                                               sourceSnippets: seq<string>, sourceUrls: seq<string>)

  datatype EvidenceResult = EvidenceResult(verified: bool, strength: Strength, matchedCode: string,
                                           matchedSources: seq<string>)

  const NOT_FOUND := EvidenceResult(false, NoEvidence, "", [])

  datatype Words = Words(upper: string -> string, invalidating: string -> bool, recycled: string -> bool,
                         trustedHost: string -> bool)

  function Collapsed(text: string): string {
    if text == "" then "" else (if Blank(text[0]) || text[0] == '-' then "" else [text[0]]) + Collapsed(text[1..])
  }

  predicate WordChar(c: char, numeric: bool) {
    '0' <= c <= '9' || (!numeric && 'A' <= c <= 'Z')
  }

  predicate StandsAt(text: string, code: string, i: nat, numeric: bool) {
    && i + |code| <= |text| && text[i..i + |code|] == code
    && (i > 0 ==> !WordChar(text[i - 1], numeric))
    && (i + |code| < |text| ==> !WordChar(text[i + |code|], numeric))
  }

  /** The code is in the text as a token of its own. */
  predicate Standalone(text: string, code: string, numeric: bool) {
    exists i: nat :: i <= |text| && StandsAt(text, code, i, numeric)
  }

  predicate MatchInText(w: Words, text: string, code: string, numeric: bool) {
    text != "" && code != ""
    && if numeric then Standalone(Collapsed(text), code, true) else Standalone(w.upper(text), w.upper(code), false)
  }

  predicate IsNumeric(t: CodeType) {
    !t.OtherType?
  }

  function Candidates(code: string, t: CodeType): set<string> {
    if IsNumeric(t) then Variants(Trim(code)) else {Trim(code)}
  }

  predicate Matches(w: Words, text: string, code: string, t: CodeType) {
    exists c :: c in Candidates(code, t) && MatchInText(w, text, c, IsNumeric(t))
  }

  datatype Channel = Channel(strength: Strength, texts: seq<string>)

  /** From strongest to weakest. */
  function Channels(e: ProviderEvidence): seq<Channel> {
    [Channel(FetchedSource, if e.fetchedSourceText == "" then [] else [e.fetchedSourceText]),
     Channel(GroundingChunk, e.groundingChunks), Channel(Snippet, e.sourceSnippets), Channel(UrlOnly, e.sourceUrls)]
  }

  predicate Counts(w: Words, text: string, code: string, t: CodeType, strength: Strength) {
    Matches(w, text, code, t) && (strength == UrlOnly || (!w.invalidating(text) && !w.recycled(text)))
  }

  function Matched(w: Words, texts: seq<string>, code: string, t: CodeType, strength: Strength): (r: seq<string>)
    ensures forall x :: x in r <==> x in texts && Counts(w, x, code, t, strength)
  {
    if texts == [] then []
    else (if Counts(w, texts[0], code, t, strength) then [texts[0]] else []) + Matched(w, texts[1..], code, t, strength)
  }

  function ResultOf(w: Words, code: string, strength: Strength, matched: seq<string>): EvidenceResult {
    EvidenceResult(strength != UrlOnly || exists u :: u in matched && w.trustedHost(u), strength, Trim(code), matched)
  }

  function FirstMatch(w: Words, code: string, t: CodeType, channels: seq<Channel>): EvidenceResult {
    if channels == [] then NOT_FOUND
    else
      var matched := Matched(w, channels[0].texts, code, t, channels[0].strength);
      if matched == [] then FirstMatch(w, code, t, channels[1..]) else ResultOf(w, code, channels[0].strength, matched)
  }

  function Verify(w: Words, code: string, t: CodeType, e: ProviderEvidence): EvidenceResult {
    FirstMatch(w, code, t, Channels(e))
  }

  method VerifyEvidence(w: Words, code: string, t: CodeType, e: ProviderEvidence) returns (r: EvidenceResult)
    ensures r == Verify(w, code, t, e)
  {
    var tiers := Channels(e);
    for i := 0 to |tiers|
      invariant FirstMatch(w, code, t, tiers[i..]) == Verify(w, code, t, e)
    {
      assert tiers[i..][0] == tiers[i] && tiers[i..][1..] == tiers[i + 1..];
      var matched := Matched(w, tiers[i].texts, code, t, tiers[i].strength);
      if matched == [] {
        continue;
      }
      if tiers[i].strength == UrlOnly {
        var verified := exists u :: u in matched && w.trustedHost(u);
        return EvidenceResult(verified, UrlOnly, Trim(code), matched);
      }
      return EvidenceResult(true, tiers[i].strength, Trim(code), matched);
    }
    r := NOT_FOUND;
  }

  /** Prose that holds the code and neither denies it nor lists several products for it. */
  predicate ProseHolds(w: Words, code: string, t: CodeType, texts: seq<string>) {
    exists i :: 0 <= i < |texts| && Supports(w, texts[i], code, t)
  }

  predicate Supports(w: Words, text: string, code: string, t: CodeType) {
    Matches(w, text, code, t) && !w.invalidating(text) && !w.recycled(text)
  }

  predicate TrustedUrlHolds(w: Words, code: string, t: CodeType, urls: seq<string>) {
    exists u :: u in urls && Matches(w, u, code, t) && w.trustedHost(u)
  }

  function Prose(e: ProviderEvidence): seq<string> {
    (if e.fetchedSourceText == "" then [] else [e.fetchedSourceText]) + e.groundingChunks + e.sourceSnippets
  }

  /** A variant of the code is in the page the app fetched, in a grounding chunk or a snippet that came
      with the provider's answer, or in a trusted URL that came with it. */
  predicate Backed(w: Words, code: string, t: CodeType, e: ProviderEvidence) {
    ProseHolds(w, code, t, Prose(e)) || TrustedUrlHolds(w, code, t, e.sourceUrls)
  }

  lemma MatchedExactly(w: Words, code: string, t: CodeType, texts: seq<string>, strength: Strength)
    requires strength != UrlOnly
    ensures Matched(w, texts, code, t, strength) != [] <==> ProseHolds(w, code, t, texts)
  {
    var m := Matched(w, texts, code, t, strength);
    if m != [] {
      assert m[0] in m;
      var i :| 0 <= i < |texts| && texts[i] == m[0];
      assert Supports(w, texts[i], code, t);
    }
    if ProseHolds(w, code, t, texts) {
      var i :| 0 <= i < |texts| && Supports(w, texts[i], code, t);
      assert texts[i] in m;
    }
  }

  lemma ProseConcat(w: Words, code: string, t: CodeType, a: seq<string>, b: seq<string>)
    ensures ProseHolds(w, code, t, a + b) <==> ProseHolds(w, code, t, a) || ProseHolds(w, code, t, b)
  {
    if ProseHolds(w, code, t, a) {
      var i :| 0 <= i < |a| && Supports(w, a[i], code, t);
      assert (a + b)[i] == a[i];
    }
    if ProseHolds(w, code, t, b) {
      var i :| 0 <= i < |b| && Supports(w, b[i], code, t);
      assert (a + b)[|a| + i] == b[i];
    }
    if ProseHolds(w, code, t, a + b) {
      var i :| 0 <= i < |a + b| && Supports(w, (a + b)[i], code, t);
      assert i >= |a| ==> Supports(w, b[i - |a|], code, t);
    }
  }

  lemma UrlsExactly(w: Words, code: string, t: CodeType, urls: seq<string>)
    ensures var m := Matched(w, urls, code, t, UrlOnly);
            (exists u :: u in m && w.trustedHost(u)) <==> TrustedUrlHolds(w, code, t, urls)
  {
  }

  /** The verifier says yes exactly when some text or trusted URL backs the code. */
  lemma VerifiedExactlyWhenBacked(w: Words, code: string, t: CodeType, e: ProviderEvidence)
    ensures Verify(w, code, t, e).verified <==> Backed(w, code, t, e)
    ensures FromVerifier(Verify(w, code, t, e))
  {
    var fetched := if e.fetchedSourceText == "" then [] else [e.fetchedSourceText];
    var rest := [Channel(GroundingChunk, e.groundingChunks), Channel(Snippet, e.sourceSnippets),
                 Channel(UrlOnly, e.sourceUrls)];
    assert Channels(e) == [Channel(FetchedSource, fetched)] + rest;
    ProseFirst(w, code, t, Channel(FetchedSource, fetched), rest);
    ProseFirst(w, code, t, rest[0], rest[1..]);
    ProseFirst(w, code, t, rest[1], rest[2..]);
    assert rest[1..][1..] == rest[2..] && rest == [rest[0]] + rest[1..] && rest[1..] == [rest[1]] + rest[2..];
    UrlsOnly(w, code, t, e.sourceUrls);
    assert rest[2..] == [Channel(UrlOnly, e.sourceUrls)];
    ProseConcat(w, code, t, fetched, e.groundingChunks);
    ProseConcat(w, code, t, fetched + e.groundingChunks, e.sourceSnippets);
  }

  /** A prose channel decides when it holds the code, else the channels after it do. */
  lemma ProseFirst(w: Words, code: string, t: CodeType, c: Channel, rest: seq<Channel>)
    requires c.strength != UrlOnly && c.strength != NoEvidence
    ensures var r := FirstMatch(w, code, t, [c] + rest);
            if ProseHolds(w, code, t, c.texts) then r.verified && r.strength == c.strength
            else r == FirstMatch(w, code, t, rest)
  {
    MatchedExactly(w, code, t, c.texts, c.strength);
    assert ([c] + rest)[1..] == rest;
  }

  lemma UrlsOnly(w: Words, code: string, t: CodeType, urls: seq<string>)
    ensures var r := FirstMatch(w, code, t, [Channel(UrlOnly, urls)]);
            (r.verified <==> TrustedUrlHolds(w, code, t, urls)) && FromVerifier(r)
                && (r.verified ==> r.strength == UrlOnly)
  {
    UrlsExactly(w, code, t, urls);
    var c := [Channel(UrlOnly, urls)];
    assert c[1..] == [] && FirstMatch(w, code, t, []) == NOT_FOUND;
  }

  // --- the strongest of several ----------------------------------------------------------------------

  function Rank(s: Strength): nat {
    match s
    case NoEvidence => 0
    case UrlOnly => 1
    case Snippet => 2
    case GroundingChunk => 3
    case FetchedSource => 4
  }

  /** `reduce`: a later result replaces the best only when it ranks higher. */
  function Strongest(results: seq<EvidenceResult>): EvidenceResult {
    if results == [] then NOT_FOUND
    else if |results| == 1 then results[0]
    else
      var best, r := Strongest(results[..|results| - 1]), results[|results| - 1];
      if Rank(r.strength) > Rank(best.strength) then r else best
  }

  predicate IsStrong(r: EvidenceResult) {
    r.verified && r.strength != NoEvidence
  }

  /** What the verifier returns: prose is verified, nothing found is not. */
  predicate FromVerifier(r: EvidenceResult) {
    r.strength != UrlOnly ==> (r.verified <==> r.strength != NoEvidence)
  }

  lemma {:induction false} StrongestIsOne(results: seq<EvidenceResult>)
    ensures results != [] ==> Strongest(results) in results
    ensures forall r :: r in results ==> Rank(r.strength) <= Rank(Strongest(results).strength)
    decreases |results|
  {
    if |results| > 1 {
      StrongestIsOne(results[..|results| - 1]);
      assert results == results[..|results| - 1] + [results[|results| - 1]];
    }
  }

  /** The first result that found anything. */
  function FirstFound(results: seq<EvidenceResult>): Option<EvidenceResult> {
    if results == [] then None
    else if results[0].strength != NoEvidence then Some(results[0])
    else FirstFound(results[1..])
  }

  lemma {:induction false} FirstFoundAppend(a: seq<EvidenceResult>, r: EvidenceResult)
    ensures FirstFound(a + [r]) == if FirstFound(a).Some? then FirstFound(a) else FirstFound([r])
    decreases |a|
  {
    if a == [] {
      assert a + [r] == [r];
    } else {
      assert (a + [r])[1..] == a[1..] + [r];
      FirstFoundAppend(a[1..], r);
    }
  }

  lemma {:induction false} WeakestCase(results: seq<EvidenceResult>)
    requires Rank(Strongest(results).strength) <= 1
    ensures FirstFound(results) == if Strongest(results).strength == UrlOnly then Some(Strongest(results)) else None
    decreases |results|
  {
    if |results| > 1 {
      var front, r := results[..|results| - 1], results[|results| - 1];
      assert results == front + [r];
      WeakestCase(front);
      FirstFoundAppend(front, r);
    } else if |results| == 1 {
      assert results[1..] == [];
    }
  }

  /** The best of several results is strong exactly when one of them is verified prose, or the first
      one that found anything at all is a verified URL: among URLs an untrusted one that comes first
      hides every trusted one after it. */
  lemma StrongExactly(results: seq<EvidenceResult>)
    requires forall r :: r in results ==> FromVerifier(r)
    ensures IsStrong(Strongest(results))
       <==> (exists r :: r in results && r.verified && Rank(r.strength) >= 2)
            || (FirstFound(results).Some? && FirstFound(results).value.verified)
  {
    StrongestIsOne(results);
    var best := Strongest(results);
    if Rank(best.strength) <= 1 {
      WeakestCase(results);
    }
    FirstFoundIsOne(results);
  }

  lemma {:induction false} FirstFoundIsOne(results: seq<EvidenceResult>)
    ensures FirstFound(results).Some? ==>
        FirstFound(results).value in results && FirstFound(results).value.strength != NoEvidence
  {
    if results != [] && results[0].strength == NoEvidence {
      FirstFoundIsOne(results[1..]);
    }
  }
}
