/** Which column of an uploaded sheet means which field: proposals, greedy assignment, validation.
    Models src/import/columnIntelligence.ts; the header and value heuristics are inputs. */
module ColumnMapping {
  import opened StampedCopy

  datatype Field = PartNumber | Brand | Model | Size | Quantity | Uom | Barcode | Name | Category

  datatype Tier = High | Medium

  datatype Guess = Guess(field: Field, score: real)

  /** What the heuristics say of one column; fractions lists the content signals in their order. */
  datatype Signals = Signals(exact: Option<Field>, fuzzy: Option<Guess>, fractions: seq<Guess>)

  datatype Proposal = Proposal(index: nat, field: Field, score: real, tier: Tier)

  const CONTENT_MAJORITY := 0.7

  /** The first content signal that clears the majority with the highest fraction. */
  function Content(fractions: seq<Guess>): Option<Guess> {
    if fractions == [] then None
    else
      var best, g := Content(fractions[..|fractions| - 1]), fractions[|fractions| - 1];
      if g.score >= CONTENT_MAJORITY && (best.None? || g.score > best.value.score) then Some(g) else best
  }

  function ColumnProposals(index: nat, s: Signals): seq<Proposal> {
    var content := Content(s.fractions);
    if s.exact.Some? then [Proposal(index, s.exact.value, 1.0, High)]
    else if s.fuzzy.Some? && content.Some? && s.fuzzy.value.field == content.value.field then
      [Proposal(index, s.fuzzy.value.field, 1.0, High)]
    else
      (if s.fuzzy.Some? then [Proposal(index, s.fuzzy.value.field, s.fuzzy.value.score, Medium)] else [])
      + (if content.Some? then [Proposal(index, content.value.field, content.value.score, Medium)] else [])
  }

  function Proposals(columns: seq<Signals>): seq<Proposal> {
    if columns == [] then []
    else Proposals(columns[..|columns| - 1]) + ColumnProposals(|columns| - 1, columns[|columns| - 1])
  }

  /** p ranks at least as high as q. */
  predicate AtLeast(p: Proposal, q: Proposal) {
    if p.tier == q.tier then p.score >= q.score else p.tier == High
  }

  /** Stable, highest rank first. */
  function Insert(p: Proposal, sorted: seq<Proposal>): seq<Proposal> {
    if sorted == [] || !AtLeast(sorted[0], p) then [p] + sorted
    else [sorted[0]] + Insert(p, sorted[1..])
  }

  function Ordered(proposals: seq<Proposal>): seq<Proposal> {
    if proposals == [] then [] else Insert(proposals[|proposals| - 1], Ordered(proposals[..|proposals| - 1]))
  }

  datatype Assignment = Assignment(mapping: map<Field, nat>, tiers: map<Field, Tier>, usedColumns: set<nat>)

  const UNASSIGNED := Assignment(map[], map[], {})

  predicate Free(a: Assignment, p: Proposal) {
    p.field !in a.mapping && p.index !in a.usedColumns
  }

  function Accept(a: Assignment, p: Proposal): Assignment {
    Assignment(a.mapping[p.field := p.index], a.tiers[p.field := p.tier], a.usedColumns + {p.index})
  }

  function Greedy(ordered: seq<Proposal>): Assignment {
    if ordered == [] then UNASSIGNED
    else
      var a, p := Greedy(ordered[..|ordered| - 1]), ordered[|ordered| - 1];
      if Free(a, p) then Accept(a, p) else a
  }

  datatype Inference = Inference(assignment: Assignment, high: bool)

  predicate HasIdentity(mapping: map<Field, nat>) {
    PartNumber in mapping || Barcode in mapping || Name in mapping
  }

  function Infer(columns: seq<Signals>, anyExactHeader: bool): Inference {
    var a := Greedy(Ordered(Proposals(columns)));
    Inference(a, anyExactHeader && HasIdentity(a.mapping) && Quantity in a.mapping && forall f :: f in a.tiers ==>
              a.tiers[f] == High)
  }

  datatype Verdict = Ok | DuplicateColumn | OutsideFile | NoIdentity | NoQuantity

  function ValidateManualMapping(headers: nat, mapping: map<Field, nat>): Verdict {
    if exists f, g :: f in mapping && g in mapping && f != g && mapping[f] == mapping[g] then DuplicateColumn
    else if exists f :: f in mapping && mapping[f] >= headers then OutsideFile
    else if !HasIdentity(mapping) then NoIdentity
    else if Quantity !in mapping then NoQuantity
    else Ok
  }

  method BestContent(fractions: seq<Guess>) returns (content: Option<Guess>)
    ensures content == Content(fractions)
  {
    content := None;
    for i := 0 to |fractions|
      invariant content == Content(fractions[..i])
    {
      assert fractions[..i + 1][..i] == fractions[..i];
      var fraction := fractions[i].score;
      if fraction >= CONTENT_MAJORITY && (content.None? || fraction > content.value.score) {
        content := Some(fractions[i]);
      }
    }
    assert fractions[..|fractions|] == fractions;
  }

  method ProposeColumns(columns: seq<Signals>) returns (proposals: seq<Proposal>)
    ensures proposals == Proposals(columns)
  {
    proposals := [];
    for i := 0 to |columns|
      invariant proposals == Proposals(columns[..i])
    {
      assert columns[..i + 1][..i] == columns[..i];
      var s := columns[i];
      if s.exact.Some? {
        proposals := proposals + [Proposal(i, s.exact.value, 1.0, High)];
        continue;
      }
      var content := BestContent(s.fractions);
      if s.fuzzy.Some? && content.Some? && s.fuzzy.value.field == content.value.field {
        proposals := proposals + [Proposal(i, s.fuzzy.value.field, 1.0, High)];
        continue;
      }
      ghost var before := proposals;
      if s.fuzzy.Some? {
        proposals := proposals + [Proposal(i, s.fuzzy.value.field, s.fuzzy.value.score, Medium)];
      }
      if content.Some? {
        proposals := proposals + [Proposal(i, content.value.field, content.value.score, Medium)];
      }
      assert proposals == before + ColumnProposals(i, s);
    }
    assert columns[..|columns|] == columns;
  }

  method InferColumnMapping(columns: seq<Signals>, anyExactHeader: bool) returns (r: Inference)
    ensures r == Infer(columns, anyExactHeader)
  {
    var proposals := ProposeColumns(columns);
    var ordered := Ordered(proposals);
    var a := UNASSIGNED;
    for i := 0 to |ordered|
      invariant a == Greedy(ordered[..i])
    {
      assert ordered[..i + 1][..i] == ordered[..i];
      var p := ordered[i];
      if p.field in a.mapping {
        continue;
      }
      if p.index in a.usedColumns {
        continue;
      }
      a := Accept(a, p);
    }
    assert ordered[..|ordered|] == ordered;
    var allHigh := forall f :: f in a.tiers ==> a.tiers[f] == High;
    r := Inference(a, anyExactHeader && HasIdentity(a.mapping) && Quantity in a.mapping && allHigh);
  }

  // --- the order ----------------------------------------------------------------------------------

  predicate Descending(ps: seq<Proposal>) {
    forall i, j :: 0 <= i < j < |ps| ==> AtLeast(ps[i], ps[j])
  }

  lemma {:induction false} InsertKeeps(p: Proposal, sorted: seq<Proposal>)
    requires Descending(sorted)
    ensures Descending(Insert(p, sorted)) && multiset(Insert(p, sorted)) == multiset(sorted) + multiset{p}
    decreases |sorted|
  {
    if sorted == [] {
    } else if AtLeast(sorted[0], p) {
      InsertKeeps(p, sorted[1..]);
      assert sorted == [sorted[0]] + sorted[1..];
      var r := Insert(p, sorted[1..]);
      forall i | 0 <= i < |r| ensures AtLeast(sorted[0], r[i]) {
        assert r[i] in multiset(r);
        if r[i] != p {
          assert r[i] in sorted[1..];
        }
      }
    } else {
      assert sorted == [sorted[0]] + sorted[1..];
      forall i | 0 <= i < |sorted| ensures AtLeast(p, sorted[i]) {
      }
    }
  }

  /** Sorting keeps every proposal and ranks them from high to low. */
  lemma {:induction false} OrderedKeeps(ps: seq<Proposal>)
    ensures Descending(Ordered(ps)) && multiset(Ordered(ps)) == multiset(ps)
    decreases |ps|
  {
    if ps != [] {
      OrderedKeeps(ps[..|ps| - 1]);
      InsertKeeps(ps[|ps| - 1], Ordered(ps[..|ps| - 1]));
      assert ps == ps[..|ps| - 1] + [ps[|ps| - 1]];
    }
  }

  // --- the assignment -------------------------------------------------------------------------------

  predicate Accepted(a: Assignment, p: Proposal) {
    p.field in a.mapping && a.mapping[p.field] == p.index && p.field in a.tiers && a.tiers[p.field] == p.tier
  }

  predicate Injective(mapping: map<Field, nat>) {
    forall f, g :: f in mapping && g in mapping && f != g ==> mapping[f] != mapping[g]
  }

  /** Every assigned field was proposed for its column, with its tier. */
  predicate Justified(a: Assignment, f: Field, ps: seq<Proposal>) {
    exists i :: 0 <= i < |ps| && ps[i].field == f && Accepted(a, ps[i])
  }

  /** p was accepted, or lost its field or its column to an accepted one ranked at least as high. */
  predicate Fair(a: Assignment, p: Proposal, ps: seq<Proposal>) {
    || (p.field in a.mapping && a.mapping[p.field] == p.index)
    || exists i :: 0 <= i < |ps| && Accepted(a, ps[i]) && AtLeast(ps[i], p)
        && (ps[i].field == p.field || ps[i].index == p.index)
  }

  predicate Sound(a: Assignment, ps: seq<Proposal>) {
    && Injective(a.mapping) && a.tiers.Keys == a.mapping.Keys
    && (forall f :: f in a.mapping ==> Justified(a, f, ps) && a.mapping[f] in a.usedColumns)
    && (forall c :: c in a.usedColumns ==> Uses(a, c))
    && (forall i :: 0 <= i < |ps| ==> Fair(a, ps[i], ps))
  }

  predicate Uses(a: Assignment, c: nat) {
    exists f :: f in a.mapping && a.mapping[f] == c
  }

  lemma JustifiedGrows(a: Assignment, b: Assignment, f: Field, ps: seq<Proposal>, p: Proposal)
    requires Justified(a, f, ps) && (b == a || (Free(a, p) && b == Accept(a, p)))
    ensures Justified(b, f, ps + [p])
  {
    var i :| 0 <= i < |ps| && ps[i].field == f && Accepted(a, ps[i]);
    assert (ps + [p])[i] == ps[i];
  }

  lemma FairGrows(a: Assignment, b: Assignment, q: Proposal, ps: seq<Proposal>, p: Proposal)
    requires Fair(a, q, ps) && (b == a || (Free(a, p) && b == Accept(a, p)))
    ensures Fair(b, q, ps + [p])
  {
    if !(q.field in a.mapping && a.mapping[q.field] == q.index) {
      var i :| 0 <= i < |ps| && Accepted(a, ps[i]) && AtLeast(ps[i], q)
          && (ps[i].field == q.field || ps[i].index == q.index);
      assert (ps + [p])[i] == ps[i];
    }
  }

  /** A proposal that is not free lost to one that came before it. */
  lemma LosesFairly(a: Assignment, ps: seq<Proposal>, p: Proposal)
    requires Sound(a, ps) && !Free(a, p) && forall i :: 0 <= i < |ps| ==> AtLeast(ps[i], p)
    ensures Fair(a, p, ps + [p])
  {
    var f: Field;
    if p.field in a.mapping {
      f := p.field;
    } else {
      assert Uses(a, p.index);
      f :| f in a.mapping && a.mapping[f] == p.index;
    }
    assert Justified(a, f, ps);
    var i :| 0 <= i < |ps| && ps[i].field == f && Accepted(a, ps[i]);
    assert (ps + [p])[i] == ps[i];
  }

  lemma UsesGrows(a: Assignment, p: Proposal, c: nat)
    requires Free(a, p) && (Uses(a, c) || c == p.index)
    ensures Uses(Accept(a, p), c)
  {
    var b := Accept(a, p);
    if c == p.index {
      assert p.field in b.mapping && b.mapping[p.field] == c;
    } else {
      var f :| f in a.mapping && a.mapping[f] == c;
      assert f in b.mapping && b.mapping[f] == c;
    }
  }

  lemma AcceptSound(a: Assignment, ps: seq<Proposal>, p: Proposal)
    requires Sound(a, ps) && Free(a, p)
    ensures Sound(Accept(a, p), ps + [p])
  {
    var b := Accept(a, p);
    forall f | f in b.mapping ensures Justified(b, f, ps + [p]) {
      if f == p.field {
        assert (ps + [p])[|ps|] == p;
      } else {
        JustifiedGrows(a, b, f, ps, p);
      }
    }
    forall c | c in b.usedColumns ensures Uses(b, c) {
      UsesGrows(a, p, c);
    }
    forall i | 0 <= i < |ps| ensures Fair(b, ps[i], ps + [p]) {
      FairGrows(a, b, ps[i], ps, p);
    }
  }

  lemma SkipSound(a: Assignment, ps: seq<Proposal>, p: Proposal)
    requires Sound(a, ps) && !Free(a, p) && forall i :: 0 <= i < |ps| ==> AtLeast(ps[i], p)
    ensures Sound(a, ps + [p])
  {
    LosesFairly(a, ps, p);
    forall f | f in a.mapping ensures Justified(a, f, ps + [p]) {
      JustifiedGrows(a, a, f, ps, p);
    }
    forall i | 0 <= i < |ps| ensures Fair(a, ps[i], ps + [p]) {
      FairGrows(a, a, ps[i], ps, p);
    }
  }

  lemma {:induction false} GreedySound(ps: seq<Proposal>)
    requires Descending(ps)
    ensures Sound(Greedy(ps), ps)
    decreases |ps|
  {
    if ps != [] {
      var front, p := ps[..|ps| - 1], ps[|ps| - 1];
      GreedySound(front);
      assert ps == front + [p];
      if Free(Greedy(front), p) {
        AcceptSound(Greedy(front), front, p);
      } else {
        SkipSound(Greedy(front), front, p);
      }
    }
  }

  lemma SameElements(ps: seq<Proposal>, qs: seq<Proposal>, p: Proposal)
    requires multiset(ps) == multiset(qs) && p in ps
    ensures p in qs
  {
    assert p in multiset(ps);
  }

  /** No column is given to two fields, and there is no blocking proposal: each one was accepted, or
      its field or its column went to a proposal ranked at least as high. */
  lemma AssignmentIsStable(columns: seq<Signals>, p: Proposal)
    requires p in Proposals(columns)
    ensures var a := Greedy(Ordered(Proposals(columns)));
            && Injective(a.mapping)
            && (forall f :: f in a.mapping ==> Justified(a, f, Ordered(Proposals(columns))))
            && Fair(a, p, Ordered(Proposals(columns)))
  {
    var ps := Proposals(columns);
    OrderedKeeps(ps);
    GreedySound(Ordered(ps));
    SameElements(ps, Ordered(ps), p);
  }

  // --- tiers ------------------------------------------------------------------------------------------

  /** A column with a HIGH proposal makes no other. */
  lemma {:induction false} HighIsAlone(columns: seq<Signals>, p: Proposal, q: Proposal)
    requires p in Proposals(columns) && q in Proposals(columns)
    ensures p.index < |columns|
    ensures p.tier == High && p.index == q.index ==> p == q
    decreases |columns|
  {
    var front, last := columns[..|columns| - 1], ColumnProposals(|columns| - 1, columns[|columns| - 1]);
    assert forall r :: r in last ==> r.index == |columns| - 1;
    if p in Proposals(front) {
      HighIsAlone(front, p, p);
      if q in Proposals(front) {
        HighIsAlone(front, p, q);
      }
    } else if q in Proposals(front) {
      HighIsAlone(front, q, q);
    }
  }

  /** A field that some column proposes with HIGH tier ends up mapped with HIGH tier: only another
      HIGH proposal for the same field can have taken it. */
  lemma HighStaysHigh(columns: seq<Signals>, p: Proposal)
    requires p in Proposals(columns) && p.tier == High
    ensures var a := Greedy(Ordered(Proposals(columns)));
            p.field in a.mapping && p.field in a.tiers && a.tiers[p.field] == High
  {
    var ps := Proposals(columns);
    var os := Ordered(ps);
    var a := Greedy(os);
    OrderedKeeps(ps);
    GreedySound(os);
    AssignmentIsStable(columns, p);
    if p.field in a.mapping && a.mapping[p.field] == p.index {
      assert Justified(a, p.field, os);
      var i :| 0 <= i < |os| && os[i].field == p.field && Accepted(a, os[i]);
      SameElements(os, ps, os[i]);
      HighIsAlone(columns, p, os[i]);
    } else {
      var i :| 0 <= i < |os| && Accepted(a, os[i]) && AtLeast(os[i], p)
          && (os[i].field == p.field || os[i].index == p.index);
      SameElements(os, ps, os[i]);
      HighIsAlone(columns, p, os[i]);
    }
  }

  // --- confidence ---------------------------------------------------------------------------------------

  /** The mapping it infers is accepted by the manual check exactly when it has an identity column
      and a quantity column; so overall confidence "high" is always accepted. */
  lemma InferredMappingIsValidExactly(columns: seq<Signals>, anyExactHeader: bool)
    ensures var r := Infer(columns, anyExactHeader);
            && (ValidateManualMapping(|columns|, r.assignment.mapping) == Ok
                <==> HasIdentity(r.assignment.mapping) && Quantity in r.assignment.mapping)
            && (r.high ==> ValidateManualMapping(|columns|, r.assignment.mapping) == Ok)
  {
    AssignedColumnsExist(columns);
    ValidExactly(|columns|, Greedy(Ordered(Proposals(columns))).mapping);
  }

  lemma ValidExactly(headers: nat, mapping: map<Field, nat>)
    requires Injective(mapping) && forall f :: f in mapping ==> mapping[f] < headers
    ensures ValidateManualMapping(headers, mapping) == Ok <==> HasIdentity(mapping) && Quantity in mapping
  {
  }

  lemma AssignedColumnsExist(columns: seq<Signals>)
    ensures var a := Greedy(Ordered(Proposals(columns)));
            Injective(a.mapping) && forall f :: f in a.mapping ==> a.mapping[f] < |columns|
  {
    var ps := Proposals(columns);
    var os := Ordered(ps);
    OrderedKeeps(ps);
    GreedySound(os);
    forall f | f in Greedy(os).mapping ensures Greedy(os).mapping[f] < |columns| {
      assert Justified(Greedy(os), f, os);
      var i :| 0 <= i < |os| && os[i].field == f && Accepted(Greedy(os), os[i]);
      SameElements(os, ps, os[i]);
      HighIsAlone(columns, os[i], os[i]);
    }
  }
}
