/** What the columns of a sheet propose, said of the heuristics' answers, and when a mapping is accepted. */
module ColumnSignals {
  import opened StampedCopy
  import opened ColumnMapping

  /** The k-th content signal is the column's best: it clears 0.7, none is higher, none before it as high. */
  predicate BestSignal(s: Signals, k: nat) {
    && k < |s.fractions| && s.fractions[k].score >= 0.7
    && (forall j :: 0 <= j < |s.fractions| ==> s.fractions[j].score <= s.fractions[k].score)
    && (forall j :: 0 <= j < k ==> s.fractions[j].score < s.fractions[k].score)
  }

  predicate NoSignal(s: Signals) {
    forall j :: 0 <= j < |s.fractions| ==> s.fractions[j].score < 0.7
  }

  /** The guess from the header and the best content signal name the same field. */
  ghost predicate Agreed(s: Signals, field: Field) {
    && s.fuzzy.Some? && s.fuzzy.value.field == field
    && exists k: nat :: BestSignal(s, k) && s.fractions[k].field == field
  }

  ghost predicate Certain(s: Signals, field: Field) {
    s.exact == Some(field) || (s.exact == None && Agreed(s, field))
  }

  /** A field the column only suggests, with its score. */
  ghost predicate Suggests(s: Signals, field: Field, score: real) {
    && s.exact == None && (forall f :: !Agreed(s, f))
    && (s.fuzzy == Some(Guess(field, score))
        || exists k: nat :: BestSignal(s, k) && s.fractions[k] == Guess(field, score))
  }

  lemma {:induction false} ContentIsBest(fractions: seq<Guess>)
    ensures var content, s := Content(fractions), Signals(None, None, fractions);
            && (content.None? <==> NoSignal(s))
            && (content.Some? ==> exists k: nat :: BestSignal(s, k) && fractions[k] == content.value)
    decreases |fractions|
  {
    if fractions != [] {
      var n := |fractions| - 1;
      var front, g := fractions[..n], fractions[n];
      ContentIsBest(front);
      var s, before := Signals(None, None, fractions), Signals(None, None, front);
      assert forall j :: 0 <= j < n ==> fractions[j] == front[j];
      if Content(front).Some? {
        var k: nat :| BestSignal(before, k) && front[k] == Content(front).value;
        assert BestSignal(s, if g.score > front[k].score then n else k);
      } else if g.score >= 0.7 {
        assert BestSignal(s, n);
      }
    }
  }

  lemma BestIsUnique(s: Signals, j: nat, k: nat)
    requires BestSignal(s, j) && BestSignal(s, k)
    ensures j == k
  {
    assert s.fractions[j].score <= s.fractions[k].score && s.fractions[k].score <= s.fractions[j].score;
  }

  lemma ContentExactly(s: Signals, g: Guess)
    ensures Content(s.fractions) == Some(g) <==> exists k: nat :: BestSignal(s, k) && s.fractions[k] == g
  {
    ContentIsBest(s.fractions);
    forall j: nat | BestSignal(s, j) ensures Content(s.fractions) == Some(s.fractions[j]) {
      assert !NoSignal(Signals(None, None, s.fractions));
      var k: nat :| BestSignal(Signals(None, None, s.fractions), k) && s.fractions[k] == Content(s.fractions).value;
      assert BestSignal(s, k);
      BestIsUnique(s, j, k);
    }
    forall k: nat | BestSignal(Signals(None, None, s.fractions), k) ensures BestSignal(s, k) {
    }
  }

  /** What one column proposes, by the content signal that was found for it. */
  lemma OneColumn(index: nat, s: Signals, content: Option<Guess>, p: Proposal)
    requires content == Content(s.fractions)
    ensures p in ColumnProposals(index, s)
       <==> p.index == index
            && var both := s.fuzzy.Some? && content.Some? && s.fuzzy.value.field == content.value.field;
            match p.tier
            case High =>
              && p.score == 1.0
              && (s.exact == Some(p.field) || (s.exact.None? && both && s.fuzzy.value.field == p.field))
            case Medium =>
              && s.exact.None? && !both
              && (s.fuzzy == Some(Guess(p.field, p.score)) || content == Some(Guess(p.field, p.score)))
  {
    var own := ColumnProposals(index, s);
    assert |own| <= 2;
    assert p in own <==> (|own| > 0 && own[0] == p) || (|own| > 1 && own[1] == p);
  }

  lemma {:induction false} ProposalsAreColumns(columns: seq<Signals>, p: Proposal)
    ensures p in Proposals(columns)
       <==> p.index < |columns| && p in ColumnProposals(p.index, columns[p.index])
    decreases |columns|
  {
    if columns != [] {
      var n := |columns| - 1;
      var front, last := Proposals(columns[..n]), ColumnProposals(n, columns[n]);
      assert Proposals(columns) == front + last;
      ProposalsAreColumns(columns[..n], p);
      OneColumn(n, columns[n], Content(columns[n].fractions), p);
      assert p in front + last <==> p in front || p in last;
    }
  }

  lemma AgreedExactly(s: Signals, field: Field)
    ensures Agreed(s, field) <==> && s.fuzzy.Some? && s.fuzzy.value.field == field
                                  && Content(s.fractions).Some? && Content(s.fractions).value.field == field
  {
    if Agreed(s, field) {
      var k: nat :| BestSignal(s, k) && s.fractions[k].field == field;
      ContentExactly(s, s.fractions[k]);
    }
    if Content(s.fractions).Some? {
      ContentExactly(s, Content(s.fractions).value);
    }
  }

  /** What is proposed, exactly: for each column its certain field with tier HIGH and score 1, or, where
      nothing is certain, the header's guess and the best content signal with tier MEDIUM. */
  lemma {:induction false} ProposedExactly(columns: seq<Signals>, p: Proposal)
    ensures p in Proposals(columns)
       <==> p.index < |columns|
            && match p.tier
               case High => p.score == 1.0 && Certain(columns[p.index], p.field)
               case Medium => Suggests(columns[p.index], p.field, p.score)
  {
    ProposalsAreColumns(columns, p);
    if p.index < |columns| {
      var s := columns[p.index];
      OneColumn(p.index, s, Content(s.fractions), p);
      NothingAgreed(s);
      AgreedExactly(s, p.field);
      ContentExactly(s, Guess(p.field, p.score));
    }
  }

  lemma NothingAgreed(s: Signals)
    ensures (forall f :: !Agreed(s, f))
       <==> !(s.fuzzy.Some? && Content(s.fractions).Some?
              && s.fuzzy.value.field == Content(s.fractions).value.field)
  {
    forall f ensures Agreed(s, f) <==> && s.fuzzy.Some? && s.fuzzy.value.field == f
                                       && Content(s.fractions).Some? && Content(s.fractions).value.field == f {
      AgreedExactly(s, f);
    }
    if s.fuzzy.Some? {
      assert Agreed(s, s.fuzzy.value.field) || Content(s.fractions).None?
          || Content(s.fractions).value.field != s.fuzzy.value.field;
    }
  }

  /** A mapping set by hand is accepted exactly when no column serves two fields, every column is in the
      file, and part number, barcode or name is mapped, and the quantity is. */
  lemma AcceptedExactly(headers: nat, mapping: map<Field, nat>)
    ensures ValidateManualMapping(headers, mapping) == Ok
       <==> && (forall f, g :: f in mapping && g in mapping && mapping[f] == mapping[g] ==> f == g)
            && (forall f :: f in mapping ==> mapping[f] < headers)
            && mapping.Keys * {PartNumber, Barcode, Name} != {} && Quantity in mapping
    ensures ValidateManualMapping(headers, mapping) == DuplicateColumn
       <==> exists f, g :: f in mapping && g in mapping && f != g && mapping[f] == mapping[g]
    ensures ValidateManualMapping(headers, mapping) == NoQuantity ==>
        && Quantity !in mapping && mapping.Keys * {PartNumber, Barcode, Name} != {}
        && forall f :: f in mapping ==> mapping[f] < headers
    ensures ValidateManualMapping(headers, mapping) == OutsideFile ==>
        exists f :: f in mapping && mapping[f] >= headers
    ensures ValidateManualMapping(headers, mapping) == NoIdentity ==>
        mapping.Keys !! {PartNumber, Barcode, Name} && forall f :: f in mapping ==> mapping[f] < headers
  {
    var own := mapping.Keys * {PartNumber, Barcode, Name};
    assert PartNumber in own <==> PartNumber in mapping;
    assert Barcode in own <==> Barcode in mapping;
    assert Name in own <==> Name in mapping;
    if own != {} {
      var f :| f in own;
    }
  }

  /** A field is mapped with tier HIGH exactly when its column is certain of it. */
  lemma {:induction false} TierExactly(columns: seq<Signals>, f: Field)
    requires f in Greedy(Ordered(Proposals(columns))).mapping
    ensures var a := Greedy(Ordered(Proposals(columns)));
            a.mapping[f] < |columns| && f in a.tiers && (a.tiers[f] == High <==> Certain(columns[a.mapping[f]], f))
  {
    var ps := Proposals(columns);
    var os := Ordered(ps);
    OrderedKeeps(ps);
    GreedySound(os);
    assert Justified(Greedy(os), f, os);
    var i :| 0 <= i < |os| && os[i].field == f && Accepted(Greedy(os), os[i]);
    SameElements(os, ps, os[i]);
    ProposedExactly(columns, os[i]);
    assert Certain(columns[os[i].index], f) ==> !Suggests(columns[os[i].index], f, os[i].score);
  }

  lemma {:induction false} TieredAreMapped(columns: seq<Signals>)
    ensures var a := Greedy(Ordered(Proposals(columns))); a.tiers.Keys == a.mapping.Keys
  {
    OrderedKeeps(Proposals(columns));
    GreedySound(Ordered(Proposals(columns)));
  }

  /** Overall confidence is high exactly when a header matched by name, an identity and the quantity were
      found, and no field rests on a mere suggestion. */
  lemma {:induction false} HighExactly(columns: seq<Signals>, anyExactHeader: bool)
    ensures var r := Infer(columns, anyExactHeader);
            r.high <==> && anyExactHeader && Quantity in r.assignment.mapping
                        && (PartNumber in r.assignment.mapping || Barcode in r.assignment.mapping
                            || Name in r.assignment.mapping)
                        && forall f :: f in r.assignment.mapping ==>
                             r.assignment.mapping[f] < |columns| && Certain(columns[r.assignment.mapping[f]], f)
  {
    var a := Greedy(Ordered(Proposals(columns)));
    TieredAreMapped(columns);
    forall f | f in a.mapping
      ensures a.mapping[f] < |columns| && (a.tiers[f] == High <==> Certain(columns[a.mapping[f]], f))
    {
      TierExactly(columns, f);
    }
    assert forall f :: f in a.tiers <==> f in a.mapping;
  }
}
