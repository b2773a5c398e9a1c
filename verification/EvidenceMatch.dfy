/** What it takes for a text to hold a code, said of the text as it stands, and which channel of an answer
    the verifier reports. */
module EvidenceMatch {
  import opened StampedCopy
  import opened Text
  import opened BarcodeVariants
  import opened EvidenceTrust

  // --- numeric codes: blanks and hyphens are ignored ------------------------------------------------------

  predicate Separator(c: char) {
    Blank(c) || c == '-'
  }

  predicate Digit(c: char) {
    '0' <= c <= '9'
  }

  /** The text writes out the code, with any number of separators before, between and after. */
  predicate Spells(text: string, code: string) {
    if text == "" then code == ""
    else if Separator(text[0]) then Spells(text[1..], code)
    else code != "" && code[0] == text[0] && Spells(text[1..], code[1..])
  }

  /** The first character that is not a separator is a digit. */
  predicate DigitFollows(text: string) {
    text != "" && if Separator(text[0]) then DigitFollows(text[1..]) else Digit(text[0])
  }

  /** The last character that is not a separator is a digit. */
  predicate DigitPrecedes(text: string) {
    text != "" && var n := |text| - 1; if Separator(text[n]) then DigitPrecedes(text[..n]) else Digit(text[n])
  }

  /** From i up to j the text writes out the code, with no digit next to it. */
  predicate HoldsBetween(text: string, code: string, i: nat, j: nat)
    requires i <= j <= |text|
  {
    Spells(text[i..j], code) && !DigitPrecedes(text[..i]) && !DigitFollows(text[j..])
  }

  predicate HoldsDigits(text: string, code: string) {
    exists i: nat, j: nat :: i <= j <= |text| && HoldsBetween(text, code, i, j)
  }

  lemma {:induction false} SpellsIsCollapsed(text: string, code: string)
    ensures Spells(text, code) <==> Collapsed(text) == code
  {
    if text != "" {
      if Separator(text[0]) {
        SpellsIsCollapsed(text[1..], code);
      } else if code != "" {
        SpellsIsCollapsed(text[1..], code[1..]);
        assert code == [code[0]] + code[1..];
        var rest := Collapsed(text[1..]);
        assert ([text[0]] + rest)[1..] == rest;
      }
    }
  }

  lemma {:induction false} CollapsedConcat(a: string, b: string)
    ensures Collapsed(a + b) == Collapsed(a) + Collapsed(b)
  {
    if a == "" {
      assert a + b == b;
    } else {
      assert (a + b)[1..] == a[1..] + b;
      CollapsedConcat(a[1..], b);
    }
  }

  lemma {:induction false} FollowsIsFirst(text: string)
    ensures DigitFollows(text) <==> Collapsed(text) != "" && Digit(Collapsed(text)[0])
  {
    if text != "" && Separator(text[0]) {
      FollowsIsFirst(text[1..]);
    }
  }

  lemma {:induction false} PrecedesIsLast(text: string)
    ensures DigitPrecedes(text) <==> Collapsed(text) != "" && Digit(Collapsed(text)[|Collapsed(text)| - 1])
  {
    if text != "" {
      var n := |text| - 1;
      assert text == text[..n] + [text[n]];
      CollapsedConcat(text[..n], [text[n]]);
      assert [text[n]][1..] == "";
      if Separator(text[n]) {
        PrecedesIsLast(text[..n]);
      }
    }
  }

  /** Every position in the collapsed text is reached from a position in the text. */
  lemma {:induction false} PositionOf(text: string, at: nat) returns (i: nat)
    requires at <= |Collapsed(text)|
    ensures i <= |text| && |Collapsed(text[..i])| == at
    decreases |text|
  {
    i := |text|;
    assert text[..i] == text;
    if at < |Collapsed(text)| {
      var front := text[..i - 1];
      assert text == front + [text[i - 1]];
      CollapsedConcat(front, [text[i - 1]]);
      i := PositionOf(front, at);
      assert front[..i] == text[..i];
    }
  }

  lemma SplitAt(text: string, i: nat)
    requires i <= |text|
    ensures var all, at := Collapsed(text), |Collapsed(text[..i])|;
            at <= |all| && Collapsed(text[..i]) == all[..at] && Collapsed(text[i..]) == all[at..]
  {
    CollapsedConcat(text[..i], text[i..]);
    assert text == text[..i] + text[i..];
  }

  lemma SliceTwice(s: string, at: nat, n: nat)
    requires at + n <= |s|
    ensures s[at..][..n] == s[at..at + n]
    ensures s[at..][n..] == s[at + n..]
  {
  }

  /** A span of the text is a span of the collapsed text. */
  lemma SpanIs(text: string, i: nat, j: nat)
    requires i <= j <= |text|
    ensures var all, at, n := Collapsed(text), |Collapsed(text[..i])|, |Collapsed(text[i..j])|;
            at + n <= |all| && Collapsed(text[..i]) == all[..at] && Collapsed(text[i..j]) == all[at..at + n]
            && Collapsed(text[j..]) == all[at + n..]
  {
    SplitAt(text, i);
    SliceTwice(text, i, j - i);
    SplitAt(text[i..], j - i);
    SliceTwice(Collapsed(text), |Collapsed(text[..i])|, |Collapsed(text[i..j])|);
  }

  lemma StandsExactly(text: string, code: string, i: nat, j: nat)
    requires i <= j <= |text|
    ensures HoldsBetween(text, code, i, j)
       <==> Collapsed(text[i..j]) == code && StandsAt(Collapsed(text), code, |Collapsed(text[..i])|, true)
  {
    SpanIs(text, i, j);
    SpellsIsCollapsed(text[i..j], code);
    PrecedesIsLast(text[..i]);
    FollowsIsFirst(text[j..]);
  }

  /** Every span of the collapsed text is that of some span of the text. */
  lemma SpanOf(text: string, at: nat, n: nat) returns (i: nat, j: nat)
    requires at + n <= |Collapsed(text)|
    ensures i <= j <= |text| && |Collapsed(text[..i])| == at && |Collapsed(text[i..j])| == n
  {
    i := PositionOf(text, at);
    SplitAt(text, i);
    var k := PositionOf(text[i..], n);
    j := i + k;
    SliceTwice(text, i, k);
  }

  lemma StandaloneHolds(text: string, code: string, at: nat)
    requires StandsAt(Collapsed(text), code, at, true)
    ensures HoldsDigits(text, code)
  {
    var i, j := SpanOf(text, at, |code|);
    SpanIs(text, i, j);
    StandsExactly(text, code, i, j);
    assert HoldsBetween(text, code, i, j);
  }

  /** A text holds a numeric code exactly when some variant of it that is not empty is written out
      in the text, separators aside, with no further digit on either side. */
  lemma NumericMatchExactly(w: Words, text: string, code: string, t: CodeType)
    requires !t.OtherType?
    ensures Matches(w, text, code, t)
       <==> text != "" && exists v :: v in Variants(Trim(code)) && v != "" && HoldsDigits(text, v)
  {
    forall v ensures Standalone(Collapsed(text), v, true) <==> HoldsDigits(text, v) {
      if Standalone(Collapsed(text), v, true) {
        var at: nat :| at <= |Collapsed(text)| && StandsAt(Collapsed(text), v, at, true);
        StandaloneHolds(text, v, at);
      }
      if HoldsDigits(text, v) {
        var i: nat, j: nat :| i <= j <= |text| && HoldsBetween(text, v, i, j);
        StandsExactly(text, v, i, j);
        SpanIs(text, i, j);
      }
    }
    assert forall v :: MatchInText(w, text, v, true) <==> text != "" && v != "" && HoldsDigits(text, v);
    assert Candidates(code, t) == Variants(Trim(code)) && IsNumeric(t);
  }

  // --- other codes: the text as it is, upper-cased --------------------------------------------------------

  predicate LetterOrDigit(c: char) {
    Digit(c) || 'A' <= c <= 'Z'
  }

  /** The word is in the text between two parts that leave no letter or digit next to it. */
  predicate Frames(text: string, word: string, before: string, after: string) {
    && text == before + word + after
    && (before != "" ==> !LetterOrDigit(before[|before| - 1]))
    && (after != "" ==> !LetterOrDigit(after[0]))
  }

  lemma StandingFrames(text: string, word: string, i: nat)
    requires StandsAt(text, word, i, false)
    ensures Frames(text, word, text[..i], text[i + |word|..])
  {
    var after := text[i + |word|..];
    assert after != "" ==> after[0] == text[i + |word|];
    assert text == text[..i] + text[i..i + |word|] + after;
  }

  lemma FramesStand(text: string, word: string, before: string, after: string)
    requires Frames(text, word, before, after)
    ensures StandsAt(text, word, |before|, false)
  {
    assert text[|before|..|before| + |word|] == word;
    assert after != "" ==> text[|before| + |word|] == after[0];
  }

  /** Any other code, blanks around it aside, is held where its upper-case form is in the upper-case
      text with no letter or digit on either side. */
  lemma OtherMatchExactly(w: Words, text: string, code: string, t: CodeType)
    requires t.OtherType?
    ensures Matches(w, text, code, t)
       <==> text != "" && Trim(code) != ""
            && exists before, after :: Frames(w.upper(text), w.upper(Trim(code)), before, after)
  {
    var all, own := w.upper(text), w.upper(Trim(code));
    if Standalone(all, own, false) {
      var i: nat :| i <= |all| && StandsAt(all, own, i, false);
      StandingFrames(all, own, i);
    }
    if before, after :| Frames(all, own, before, after) {
      FramesStand(all, own, before, after);
      assert |before| <= |all|;
    }
    assert Candidates(code, t) == {Trim(code)} && !IsNumeric(t);
    assert Matches(w, text, code, t) <==> MatchInText(w, text, Trim(code), false);
  }

  // --- which channel the verifier reports -------------------------------------------------------------------

  function TextsOf(e: ProviderEvidence, s: Strength): seq<string> {
    match s
    case NoEvidence => []
    case UrlOnly => e.sourceUrls
    case Snippet => e.sourceSnippets
    case GroundingChunk => e.groundingChunks
    case FetchedSource => if e.fetchedSourceText == "" then [] else [e.fetchedSourceText]
  }

  /** The text holds the code; prose must not deny it either, or list several products for it. */
  predicate Witnesses(w: Words, code: string, t: CodeType, s: Strength, text: string) {
    Matches(w, text, code, t) && (s != UrlOnly ==> !w.invalidating(text) && !w.recycled(text))
  }

  /** Finding nothing takes no text at all. */
  predicate Holds(w: Words, code: string, t: CodeType, e: ProviderEvidence, s: Strength) {
    s == NoEvidence || exists x :: x in TextsOf(e, s) && Witnesses(w, code, t, s, x)
  }

  ghost predicate Reports(w: Words, code: string, t: CodeType, e: ProviderEvidence, r: EvidenceResult) {
    && Holds(w, code, t, e, r.strength)
    && (forall x :: x in r.matchedSources <==> x in TextsOf(e, r.strength) && Witnesses(w, code, t, r.strength, x))
    && r.matchedCode == (if r.strength == NoEvidence then "" else Trim(code))
  }

  lemma ChannelDecides(w: Words, code: string, t: CodeType, e: ProviderEvidence, s: Strength, rest: seq<Channel>)
    requires s != NoEvidence
    ensures var r := FirstMatch(w, code, t, [Channel(s, TextsOf(e, s))] + rest);
            if Holds(w, code, t, e, s) then r.strength == s && Reports(w, code, t, e, r)
            else r == FirstMatch(w, code, t, rest)
  {
    var channels := [Channel(s, TextsOf(e, s))] + rest;
    assert channels[1..] == rest;
    var matched := Matched(w, TextsOf(e, s), code, t, s);
    assert matched != [] ==> matched[0] in matched;
  }

  lemma ProseDecides(w: Words, code: string, t: CodeType, e: ProviderEvidence)
    ensures var r, urls := Verify(w, code, t, e), [Channel(UrlOnly, TextsOf(e, UrlOnly))];
            if Holds(w, code, t, e, FetchedSource) then r.strength == FetchedSource && Reports(w, code, t, e, r)
            else if Holds(w, code, t, e, GroundingChunk) then r.strength == GroundingChunk && Reports(w, code, t, e, r)
            else if Holds(w, code, t, e, Snippet) then r.strength == Snippet && Reports(w, code, t, e, r)
            else r == FirstMatch(w, code, t, urls)
  {
    var urls := [Channel(UrlOnly, TextsOf(e, UrlOnly))];
    var snippets := [Channel(Snippet, TextsOf(e, Snippet))] + urls;
    var chunks := [Channel(GroundingChunk, TextsOf(e, GroundingChunk))] + snippets;
    assert Channels(e) == [Channel(FetchedSource, TextsOf(e, FetchedSource))] + chunks;
    ChannelDecides(w, code, t, e, FetchedSource, chunks);
    ChannelDecides(w, code, t, e, GroundingChunk, snippets);
    ChannelDecides(w, code, t, e, Snippet, urls);
  }

  lemma NothingLeft(w: Words, code: string, t: CodeType, e: ProviderEvidence)
    ensures var r := FirstMatch(w, code, t, [Channel(UrlOnly, TextsOf(e, UrlOnly))]);
            r.strength == (if Holds(w, code, t, e, UrlOnly) then UrlOnly else NoEvidence) && Reports(w, code, t, e, r)
  {
    var urls := [Channel(UrlOnly, TextsOf(e, UrlOnly))];
    assert urls == urls + [];
    ChannelDecides(w, code, t, e, UrlOnly, []);
  }

  /** The verifier reports the strongest channel that holds the code, with exactly the texts in it that
      do, under the order in which the best of several results is chosen afterwards. */
  lemma StrongestChannelIsReported(w: Words, code: string, t: CodeType, e: ProviderEvidence, s: Strength)
    ensures var r := Verify(w, code, t, e);
            && Reports(w, code, t, e, r)
            && (Holds(w, code, t, e, s) && s != r.strength ==> Rank(s) < Rank(r.strength))
  {
    ProseDecides(w, code, t, e);
    NothingLeft(w, code, t, e);
  }
}
