/** What every import plan guarantees: one owner for a code, complete products, and refreshes in which
    the last non-empty cell wins and an empty one blanks nothing. */
module ImportTheorems {
  import opened StampedCopy
  import opened ImportPlan

  // --- codes ----------------------------------------------------------------------------------------

  predicate Distinct(xs: seq<string>) {
    forall i, j :: 0 <= i < j < |xs| ==> xs[i] != xs[j]
  }

  /** The codes of a list of aliases are new to the catalog and remembered as seen. */
  predicate Sound(ctx: Context, codes: seq<string>, seen: map<string, string>) {
    && Distinct(codes)
    && (forall i :: 0 <= i < |codes| ==> codes[i] in seen && codes[i] != "" && OwnerOf(ctx, codes[i]) == "")
    && (forall k :: k in seen ==> k in codes)
  }

  predicate SoundRow(ctx: Context, before: seq<string>, st: RowState, productId: string) {
    && Sound(ctx, before + CleanCodes(st.aliases), st.plan.seen)
    && (forall i :: 0 <= i < |st.aliases| ==> st.aliases[i].productId == productId)
  }

  lemma SoundAppend(ctx: Context, codes: seq<string>, seen: map<string, string>, code: string, productId: string)
    requires Sound(ctx, codes, seen) && code !in seen && code != "" && OwnerOf(ctx, code) == ""
    ensures Sound(ctx, codes + [code], seen[code := productId])
  {
    forall i | 0 <= i < |codes| ensures codes[i] != code {
      assert codes[i] in seen;
    }
  }

  lemma CleanCodesAppend(aliases: seq<Alias>, a: Alias)
    ensures CleanCodes(aliases + [a]) == CleanCodes(aliases) + [a.cleanCode]
  {
  }

  lemma CleanCodesConcat(a: seq<Alias>, b: seq<Alias>)
    ensures CleanCodes(a + b) == CleanCodes(a) + CleanCodes(b)
  {
  }

  lemma SoundStep(ctx: Context, before: seq<string>, st: RowState, raw: string, productId: string, across: bool)
    requires SoundRow(ctx, before, st, productId)
    ensures SoundRow(ctx, before, CodeStep(ctx, st, raw, productId, across), productId)
  {
    var code := ctx.rules.clean(raw);
    if code != "" && code !in st.plan.seen && OwnerOf(ctx, code) == "" {
      var next := CodeStep(ctx, st, raw, productId, across);
      var alias := next.aliases[|st.aliases|];
      CleanCodesAppend(st.aliases, alias);
      SoundAppend(ctx, before + CleanCodes(st.aliases), st.plan.seen, code, productId);
      assert before + CleanCodes(st.aliases) + [code] == before + (CleanCodes(st.aliases) + [code]);
    }
  }

  lemma {:induction false} SoundCodes(ctx: Context, before: seq<string>, st: RowState, codes: seq<string>,
                                      productId: string, across: bool)
    requires SoundRow(ctx, before, st, productId)
    ensures SoundRow(ctx, before, Codes(ctx, st, codes, productId, across), productId)
  {
    if codes != [] {
      SoundCodes(ctx, before, st, codes[..|codes| - 1], productId, across);
      SoundStep(ctx, before, Codes(ctx, st, codes[..|codes| - 1], productId, across), codes[|codes| - 1], productId,
                across);
    }
  }

  // --- what one code leaves alone ---------------------------------------------------------------------

  lemma {:induction false} CodesKeep(ctx: Context, st: RowState, codes: seq<string>, productId: string, across: bool)
    ensures var t := Codes(ctx, st, codes, productId, across);
            && t.plan.products == st.plan.products && t.plan.aliases == st.plan.aliases && t.plan.byId == st.plan.byId
            && t.plan.ids >= st.plan.ids
    decreases |codes|
  {
    if codes != [] {
      CodesKeep(ctx, st, codes[..|codes| - 1], productId, across);
    }
  }

  // --- products and their aliases -----------------------------------------------------------------------

  function AliasesOf(aliases: seq<Alias>, productId: string): seq<string> {
    if aliases == [] then []
    else AliasesOf(aliases[..|aliases| - 1], productId)
         + if aliases[|aliases| - 1].productId == productId then [aliases[|aliases| - 1].cleanCode] else []
  }

  lemma {:induction false} AliasesOfConcat(a: seq<Alias>, b: seq<Alias>, productId: string)
    ensures AliasesOf(a + b, productId) == AliasesOf(a, productId) + AliasesOf(b, productId)
    decreases |b|
  {
    if b == [] {
      assert a + b == a;
    } else {
      assert (a + b)[..|a + b| - 1] == a + b[..|b| - 1];
      AliasesOfConcat(a, b[..|b| - 1], productId);
    }
  }

  lemma {:induction false} AliasesOfAll(b: seq<Alias>, productId: string, other: string)
    requires forall i :: 0 <= i < |b| ==> b[i].productId == productId
    ensures AliasesOf(b, productId) == CleanCodes(b)
    ensures other != productId ==> AliasesOf(b, other) == []
    decreases |b|
  {
    if b != [] {
      AliasesOfAll(b[..|b| - 1], productId, other);
      CleanCodesAppend(b[..|b| - 1], b[|b| - 1]);
      assert b[..|b| - 1] + [b[|b| - 1]] == b;
    }
  }

  /** No two calls of the id factory return the same id. */
  ghost predicate Injective(idFactory: nat -> string) {
    forall m: nat, n: nat :: idFactory(m) == idFactory(n) ==> m == n
  }

  predicate Minted(ctx: Context, id: string, n: nat) {
    exists k: nat :: k < n && id == ProductId(ctx, k)
  }

  lemma MintedLater(ctx: Context, id: string, n: nat, m: nat)
    requires Minted(ctx, id, n) && n <= m
    ensures Minted(ctx, id, m)
  {
    var k: nat :| k < n && id == ProductId(ctx, k);
    assert k < m;
  }

  lemma FreshId(ctx: Context, id: string, n: nat)
    requires Injective(ctx.idFactory) && Minted(ctx, id, n)
    ensures id != ProductId(ctx, n)
  {
    var k: nat :| k < n && id == ProductId(ctx, k);
    var head := "prod-import-";
    assert (head + ctx.idFactory(k))[|head|..] == ctx.idFactory(k);
    assert (head + ctx.idFactory(n))[|head|..] == ctx.idFactory(n);
  }

  /** Every new product lists exactly its alias codes, at least one, and every new alias belongs to
      a new product. */
  ghost predicate Complete(ctx: Context, p: Plan) {
    && (forall i :: 0 <= i < |p.products| ==>
          p.products[i].aliases != [] && AliasesOf(p.aliases, p.products[i].id) == p.products[i].aliases
          && Minted(ctx, p.products[i].id, p.ids))
    && (forall i, j :: 0 <= i < j < |p.products| ==> p.products[i].id != p.products[j].id)
    && (forall i :: 0 <= i < |p.aliases| ==> OfAProduct(p.products, p.aliases[i]))
  }

  predicate OfAProduct(products: seq<Product>, a: Alias) {
    exists j :: 0 <= j < |products| && products[j].id == a.productId
  }

  lemma CompleteLater(ctx: Context, p: Plan, q: Plan)
    requires Complete(ctx, p) && q.products == p.products && q.aliases == p.aliases && q.ids >= p.ids
    ensures Complete(ctx, q)
  {
    forall i | 0 <= i < |p.products| ensures Minted(ctx, p.products[i].id, q.ids) {
      MintedLater(ctx, p.products[i].id, p.ids, q.ids);
    }
  }

  /** A product with its aliases joins a complete plan. */
  lemma CompleteAppend(ctx: Context, p: Plan, n: nat, product: Product, aliases: seq<Alias>)
    requires Complete(ctx, p.(ids := n)) && n < p.ids && Injective(ctx.idFactory)
    requires product.id == ProductId(ctx, n) && aliases != [] && product.aliases == CleanCodes(aliases)
    requires forall i :: 0 <= i < |aliases| ==> aliases[i].productId == product.id
    ensures Complete(ctx, p.(products := p.products + [product], aliases := p.aliases + aliases))
  {
    var q := p.(products := p.products + [product], aliases := p.aliases + aliases);
    forall i | 0 <= i < |q.products|
      ensures q.products[i].aliases != [] && AliasesOf(q.aliases, q.products[i].id) == q.products[i].aliases
      ensures Minted(ctx, q.products[i].id, p.ids)
      ensures i < |p.products| ==> q.products[i].id != product.id
    {
      if i < |p.products| {
        OldProduct(ctx, p, n, product.id, aliases, i);
      } else {
        NobodyYet(ctx, p, n);
        AliasesOfConcat(p.aliases, aliases, product.id);
        AliasesOfAll(aliases, product.id, product.id);
      }
    }
    forall i | 0 <= i < |q.aliases| ensures OfAProduct(q.products, q.aliases[i]) {
      if i < |p.aliases| {
        assert OfAProduct(p.products, p.aliases[i]);
        var j :| 0 <= j < |p.products| && p.products[j].id == p.aliases[i].productId;
        assert q.products[j] == p.products[j];
      } else {
        assert q.products[|p.products|] == product;
      }
    }
  }

  lemma {:induction false} OldProduct(ctx: Context, p: Plan, n: nat, id: string, aliases: seq<Alias>, i: nat)
    requires Complete(ctx, p.(ids := n)) && n < p.ids && Injective(ctx.idFactory) && id == ProductId(ctx, n)
    requires forall j :: 0 <= j < |aliases| ==> aliases[j].productId == id
    requires i < |p.products|
    ensures p.products[i].id != id && AliasesOf(p.aliases + aliases, p.products[i].id) == p.products[i].aliases
    ensures Minted(ctx, p.products[i].id, p.ids)
  {
    FreshId(ctx, p.products[i].id, n);
    MintedLater(ctx, p.products[i].id, n, p.ids);
    AliasesOfConcat(p.aliases, aliases, p.products[i].id);
    AliasesOfAll(aliases, id, p.products[i].id);
  }

  lemma NobodyYet(ctx: Context, p: Plan, n: nat)
    requires Complete(ctx, p.(ids := n)) && Injective(ctx.idFactory)
    ensures AliasesOf(p.aliases, ProductId(ctx, n)) == []
  {
    forall i | 0 <= i < |p.aliases| ensures p.aliases[i].productId != ProductId(ctx, n) {
      assert OfAProduct(p.products, p.aliases[i]);
      var j :| 0 <= j < |p.products| && p.products[j].id == p.aliases[i].productId;
      FreshId(ctx, p.products[j].id, n);
    }
    NoneOf(p.aliases, ProductId(ctx, n));
  }

  lemma {:induction false} NoneOf(aliases: seq<Alias>, productId: string)
    requires forall i :: 0 <= i < |aliases| ==> aliases[i].productId != productId
    ensures AliasesOf(aliases, productId) == []
    decreases |aliases|
  {
    if aliases != [] {
      NoneOf(aliases[..|aliases| - 1], productId);
    }
  }

  // --- refreshes ------------------------------------------------------------------------------------------

  /** The row's codes belong to this one existing product and to no other. */
  predicate RowRefreshes(ctx: Context, row: Row, id: string) {
    Touched(ctx, CellsOf(ctx.rules, row).codes) == {id}
  }

  predicate SomeRowRefreshes(ctx: Context, rows: seq<Row>, id: string)
    decreases |rows|
  {
    rows != [] && (RowRefreshes(ctx, rows[|rows| - 1], id) || SomeRowRefreshes(ctx, rows[..|rows| - 1], id))
  }

  /** The last non-empty cell among the rows that refresh the product, or the original. */
  function LastCell(ctx: Context, rows: seq<Row>, id: string, cell: Cells -> string, original: string): string
    decreases |rows|
  {
    if rows == [] then original
    else
      var last := rows[|rows| - 1];
      if RowRefreshes(ctx, last, id) && cell(CellsOf(ctx.rules, last)) != "" then cell(CellsOf(ctx.rules, last))
      else LastCell(ctx, rows[..|rows| - 1], id, cell, original)
  }

  const NAME := (c: Cells) => c.name
  const BRAND := (c: Cells) => c.brand
  const CATEGORY := (c: Cells) => c.category
  const SPECS := (c: Cells) => c.specsShort
  const LOCATION := (c: Cells) => c.location

  /** The product with its descriptive fields refreshed, each from its own last cell. */
  function FinalProduct(ctx: Context, rows: seq<Row>, was: Product): Product {
    was.(name := LastCell(ctx, rows, was.id, NAME, was.name), brand := LastCell(ctx, rows, was.id, BRAND, was.brand),
         category := LastCell(ctx, rows, was.id, CATEGORY, was.category),
         specsShort := LastCell(ctx, rows, was.id, SPECS, was.specsShort),
         location := LastCell(ctx, rows, was.id, LOCATION, was.location))
  }

  lemma FinalStep(ctx: Context, rows: seq<Row>, was: Product)
    requires rows != []
    ensures var before, last := FinalProduct(ctx, rows[..|rows| - 1], was), rows[|rows| - 1];
            FinalProduct(ctx, rows, was)
            == if RowRefreshes(ctx, last, was.id) then Refreshed(before, CellsOf(ctx.rules, last)) else before
  {
  }

  lemma {:induction false} UnrefreshedCell(ctx: Context, rows: seq<Row>, id: string, cell: Cells -> string,
                                           original: string)
    requires !SomeRowRefreshes(ctx, rows, id)
    ensures LastCell(ctx, rows, id, cell, original) == original
    decreases |rows|
  {
    if rows != [] {
      UnrefreshedCell(ctx, rows[..|rows| - 1], id, cell, original);
    }
  }

  lemma UnrefreshedStays(ctx: Context, rows: seq<Row>, was: Product)
    requires !SomeRowRefreshes(ctx, rows, was.id)
    ensures FinalProduct(ctx, rows, was) == was
  {
    UnrefreshedCell(ctx, rows, was.id, NAME, was.name);
    UnrefreshedCell(ctx, rows, was.id, BRAND, was.brand);
    UnrefreshedCell(ctx, rows, was.id, CATEGORY, was.category);
    UnrefreshedCell(ctx, rows, was.id, SPECS, was.specsShort);
    UnrefreshedCell(ctx, rows, was.id, LOCATION, was.location);
  }

  lemma {:induction false} RefreshAllExactly(byId: map<string, Product>, ids: seq<string>, c: Cells)
    ensures RefreshAll(byId, ids, c).Keys == byId.Keys
    ensures forall id :: id in byId ==>
        RefreshAll(byId, ids, c)[id] == if id in ids then Refreshed(byId[id], c) else byId[id]
    decreases |ids|
  {
    if ids != [] {
      var front, pid := ids[..|ids| - 1], ids[|ids| - 1];
      RefreshAllExactly(byId, front, c);
      assert ids == front + [pid];
      forall id | id in byId
        ensures RefreshAll(byId, ids, c)[id] == if id in ids then Refreshed(byId[id], c) else byId[id] {
        assert id in ids <==> id in front || id == pid;
      }
    }
  }

  // --- which products a row refreshes -----------------------------------------------------------------------

  predicate Touches(ctx: Context, raw: string, id: string) {
    ctx.rules.clean(raw) != "" && OwnerOf(ctx, ctx.rules.clean(raw)) == id && id != "" && id in ctx.products
  }

  predicate SomeTouches(ctx: Context, codes: seq<string>, id: string) {
    exists i :: 0 <= i < |codes| && Touches(ctx, codes[i], id)
  }

  lemma {:induction false} TouchedExactly(ctx: Context, codes: seq<string>, id: string)
    ensures id in Touched(ctx, codes) <==> SomeTouches(ctx, codes, id)
  {
    if codes != [] {
      TouchedExactly(ctx, codes[1..], id);
      if SomeTouches(ctx, codes[1..], id) {
        var i :| 0 <= i < |codes[1..]| && Touches(ctx, codes[1..][i], id);
        assert Touches(ctx, codes[i + 1], id);
      }
      if SomeTouches(ctx, codes, id) && !Touches(ctx, codes[0], id) {
        var i :| 0 <= i < |codes| && Touches(ctx, codes[i], id);
        assert Touches(ctx, codes[1..][i - 1], id);
      }
    }
  }

  /** Codes of the file that are seen already belong to no product of the catalog. */
  lemma RefreshingStep(ctx: Context, before: seq<string>, st: RowState, raw: string, productId: string,
                       across: bool, id: string)
    requires SoundRow(ctx, before, st, productId)
    ensures id in CodeStep(ctx, st, raw, productId, across).refreshing
       <==> id in st.refreshing || (!across && Touches(ctx, raw, id))
  {
    var code := ctx.rules.clean(raw);
    if code in st.plan.seen {
      var codes := before + CleanCodes(st.aliases);
      assert code in codes;
      var i :| 0 <= i < |codes| && codes[i] == code;
      assert OwnerOf(ctx, code) == "";
    }
  }

  lemma {:induction false} RefreshingExactly(ctx: Context, before: seq<string>, st: RowState, codes: seq<string>,
                                             productId: string,
                                             across: bool, id: string)
    requires SoundRow(ctx, before, st, productId) && st.refreshing == []
    ensures id in Codes(ctx, st, codes, productId, across).refreshing <==> !across && SomeTouches(ctx, codes, id)
    decreases |codes|
  {
    if codes != [] {
      var front, raw := codes[..|codes| - 1], codes[|codes| - 1];
      RefreshingExactly(ctx, before, st, front, productId, across, id);
      SoundCodes(ctx, before, st, front, productId, across);
      RefreshingStep(ctx, before, Codes(ctx, st, front, productId, across), raw, productId, across, id);
      assert codes == front + [raw];
      SomeTouchesAppend(ctx, front, raw, id);
    }
  }

  lemma SomeTouchesAppend(ctx: Context, codes: seq<string>, raw: string, id: string)
    ensures SomeTouches(ctx, codes + [raw], id) <==> SomeTouches(ctx, codes, id) || Touches(ctx, raw, id)
  {
    var all := codes + [raw];
    assert all[|codes|] == raw;
    if SomeTouches(ctx, codes, id) {
      var i :| 0 <= i < |codes| && Touches(ctx, codes[i], id);
      assert Touches(ctx, all[i], id);
    }
    if SomeTouches(ctx, all, id) && !Touches(ctx, raw, id) {
      var i :| 0 <= i < |all| && Touches(ctx, all[i], id);
      assert Touches(ctx, codes[i], id);
    }
  }

  lemma OnlyMember<T>(s: set<T>, x: T)
    ensures x in s && |s| <= 1 <==> s == {x}
  {
    if x in s && |s| <= 1 {
      assert |s - {x}| == 0;
      assert s == (s - {x}) + {x};
    }
  }

  /** A row refreshes exactly the one product all its owned codes belong to. */
  lemma WorkedRefreshes(ctx: Context, p: Plan, row: Row, id: string)
    requires Sound(ctx, CleanCodes(p.aliases), p.seen)
    ensures id in Worked(ctx, p, CellsOf(ctx.rules, row)).refreshing <==> RowRefreshes(ctx, row, id)
  {
    var c := CellsOf(ctx.rules, row);
    var start := RowState(p.(conflicts := p.conflicts + c.conflicts, ids := p.ids + 1), [], []);
    assert CleanCodes(p.aliases) + CleanCodes([]) == CleanCodes(p.aliases);
    RefreshingExactly(ctx, CleanCodes(p.aliases), start, c.codes, ProductId(ctx, p.ids),
                      |Touched(ctx, c.codes)| > 1, id);
    TouchedExactly(ctx, c.codes, id);
    OnlyMember(Touched(ctx, c.codes), id);
  }

  predicate Named(refreshed: seq<Refresh>, id: string) {
    exists i :: 0 <= i < |refreshed| && refreshed[i].productId == id
  }

  predicate Extends(a: seq<Refresh>, b: seq<Refresh>) {
    |a| <= |b| && b[..|a|] == a
  }

  /** The row names exactly the products it refreshes, and only existing ones. */
  predicate Naming(ctx: Context, before: seq<Refresh>, st: RowState) {
    && Extends(before, st.plan.refreshed)
    && (forall i :: 0 <= i < |st.refreshing| ==> Named(st.plan.refreshed, st.refreshing[i]))
    && (forall i :: |before| <= i < |st.plan.refreshed| ==>
          st.plan.refreshed[i].productId in st.refreshing && st.plan.refreshed[i].productId in ctx.products)
  }

  lemma NamedAppend(refreshed: seq<Refresh>, r: Refresh, id: string)
    ensures Named(refreshed + [r], id) <==> Named(refreshed, id) || r.productId == id
  {
    if Named(refreshed, id) {
      var i :| 0 <= i < |refreshed| && refreshed[i].productId == id;
      assert (refreshed + [r])[i].productId == id;
    }
    if r.productId == id {
      assert (refreshed + [r])[|refreshed|].productId == id;
    }
  }

  lemma NamingStep(ctx: Context, before: seq<Refresh>, st: RowState, raw: string, productId: string, across: bool)
    requires Naming(ctx, before, st)
    ensures Naming(ctx, before, CodeStep(ctx, st, raw, productId, across))
  {
    var code := ctx.rules.clean(raw);
    var owner := OwnerOf(ctx, code);
    var t := CodeStep(ctx, st, raw, productId, across);
    if t.plan.refreshed != st.plan.refreshed {
      assert t.plan.refreshed == st.plan.refreshed + [Refresh(code, owner)];
      forall i | 0 <= i < |t.refreshing| ensures Named(t.plan.refreshed, t.refreshing[i]) {
        NamedAppend(st.plan.refreshed, Refresh(code, owner), t.refreshing[i]);
      }
    }
  }

  lemma {:induction false} NamingCodes(ctx: Context, before: seq<Refresh>, st: RowState, codes: seq<string>,
                                       productId: string, across: bool)
    requires Naming(ctx, before, st)
    ensures Naming(ctx, before, Codes(ctx, st, codes, productId, across))
    decreases |codes|
  {
    if codes != [] {
      NamingCodes(ctx, before, st, codes[..|codes| - 1], productId, across);
      NamingStep(ctx, before, Codes(ctx, st, codes[..|codes| - 1], productId, across), codes[|codes| - 1],
                 productId, across);
    }
  }

  /** The catalog of the plan is the old one with its fields refreshed, and `refreshed` names exactly
      the products that some row refreshes. */
  ghost predicate Fresh(ctx: Context, rows: seq<Row>, p: Plan) {
    && p.byId.Keys == ctx.products.Keys
    && (forall id :: id in ctx.products ==> p.byId[id] == FinalProduct(ctx, rows, ctx.products[id]))
    && (forall id :: Named(p.refreshed, id) <==> SomeRowRefreshes(ctx, rows, id))
  }

  // --- whole plans ------------------------------------------------------------------------------------------

  ghost predicate Inv(ctx: Context, p: Plan) {
    Sound(ctx, CleanCodes(p.aliases), p.seen) && Complete(ctx, p)
  }

  lemma WorkedSound(ctx: Context, p: Plan, c: Cells)
    requires Sound(ctx, CleanCodes(p.aliases), p.seen)
    ensures SoundRow(ctx, CleanCodes(p.aliases), Worked(ctx, p, c), ProductId(ctx, p.ids))
    ensures var st := Worked(ctx, p, c);
            && st.plan.products == p.products && st.plan.aliases == p.aliases && st.plan.byId == p.byId
                 && st.plan.ids > p.ids
  {
    var start := RowState(p.(conflicts := p.conflicts + c.conflicts, ids := p.ids + 1), [], []);
    var across := |Touched(ctx, c.codes)| > 1;
    assert CleanCodes(p.aliases) + CleanCodes([]) == CleanCodes(p.aliases);
    SoundCodes(ctx, CleanCodes(p.aliases), start, c.codes, ProductId(ctx, p.ids), across);
    CodesKeep(ctx, start, c.codes, ProductId(ctx, p.ids), across);
  }

  lemma FinishKeepsCodes(ctx: Context, before: seq<Alias>, st: RowState, c: Cells, productId: string)
    requires SoundRow(ctx, CleanCodes(before), st, productId) && st.plan.aliases == before
    ensures var q := FinishRow(ctx, st, c, productId); Sound(ctx, CleanCodes(q.aliases), q.seen)
  {
    CleanCodesConcat(before, st.aliases);
    assert st.aliases == [] ==> before + st.aliases == before;
  }

  lemma RowKeepsCodes(ctx: Context, p: Plan, row: Row)
    requires Sound(ctx, CleanCodes(p.aliases), p.seen)
    ensures Sound(ctx, CleanCodes(RowStep(ctx, p, row).aliases), RowStep(ctx, p, row).seen)
  {
    var c := CellsOf(ctx.rules, row);
    WorkedSound(ctx, p, c);
    FinishKeepsCodes(ctx, p.aliases, Worked(ctx, p, c), c, ProductId(ctx, p.ids));
  }

  lemma FinishKeepsProducts(ctx: Context, p: Plan, st: RowState, c: Cells)
    requires Complete(ctx, p) && Injective(ctx.idFactory)
    requires SoundRow(ctx, CleanCodes(p.aliases), st, ProductId(ctx, p.ids))
    requires st.plan.products == p.products && st.plan.aliases == p.aliases && st.plan.ids > p.ids
    ensures Complete(ctx, FinishRow(ctx, st, c, ProductId(ctx, p.ids)))
  {
    var q := st.plan.(byId := RefreshAll(st.plan.byId, st.refreshing, c));
    CompleteLater(ctx, p, q.(ids := p.ids));
    if st.aliases == [] {
      CompleteLater(ctx, p, q);
    } else {
      CompleteAppend(ctx, q, p.ids, NewProduct(ctx, ProductId(ctx, p.ids), c, CleanCodes(st.aliases)), st.aliases);
    }
  }

  lemma RowKeepsProducts(ctx: Context, p: Plan, row: Row)
    requires Sound(ctx, CleanCodes(p.aliases), p.seen) && Complete(ctx, p) && Injective(ctx.idFactory)
    ensures Complete(ctx, RowStep(ctx, p, row))
  {
    var c := CellsOf(ctx.rules, row);
    if c.codes == [] {
      CompleteLater(ctx, p, RowStep(ctx, p, row));
    } else {
      WorkedSound(ctx, p, c);
      FinishKeepsProducts(ctx, p, Worked(ctx, p, c), c);
    }
  }

  lemma WorkedNames(ctx: Context, p: Plan, c: Cells)
    ensures Naming(ctx, p.refreshed, Worked(ctx, p, c)) && Worked(ctx, p, c).plan.byId == p.byId
  {
    var start := RowState(p.(conflicts := p.conflicts + c.conflicts, ids := p.ids + 1), [], []);
    var across := |Touched(ctx, c.codes)| > 1;
    NamingCodes(ctx, p.refreshed, start, c.codes, ProductId(ctx, p.ids), across);
    CodesKeep(ctx, start, c.codes, ProductId(ctx, p.ids), across);
  }

  lemma NamingExactly(ctx: Context, before: seq<Refresh>, st: RowState, id: string)
    requires Naming(ctx, before, st)
    ensures Named(st.plan.refreshed, id) <==> Named(before, id) || id in st.refreshing
  {
    var after := st.plan.refreshed;
    if Named(before, id) {
      NamedExtends(before, after, id);
    }
    if Named(after, id) {
      var i :| 0 <= i < |after| && after[i].productId == id;
      assert i < |before| ==> before[i] == after[..|before|][i];
    }
  }

  lemma RowNames(ctx: Context, rows: seq<Row>, p: Plan, id: string)
    requires rows != [] && Sound(ctx, CleanCodes(p.aliases), p.seen)
    requires Named(p.refreshed, id) <==> SomeRowRefreshes(ctx, rows[..|rows| - 1], id)
    ensures Named(RowStep(ctx, p, rows[|rows| - 1]).refreshed, id) <==> SomeRowRefreshes(ctx, rows, id)
  {
    var row := rows[|rows| - 1];
    var c := CellsOf(ctx.rules, row);
    RowById(ctx, p, row);
    WorkedNames(ctx, p, c);
    WorkedRefreshes(ctx, p, row, id);
    NamingExactly(ctx, p.refreshed, Worked(ctx, p, c), id);
  }

  lemma FinishRefreshes(ctx: Context, st: RowState, c: Cells, productId: string)
    ensures var q := FinishRow(ctx, st, c, productId);
            q.byId == RefreshAll(st.plan.byId, st.refreshing, c) && q.refreshed == st.plan.refreshed
  {
  }

  lemma RowById(ctx: Context, p: Plan, row: Row)
    ensures var c := CellsOf(ctx.rules, row);
            && RowStep(ctx, p, row).byId == RefreshAll(p.byId, Worked(ctx, p, c).refreshing, c)
            && RowStep(ctx, p, row).refreshed == Worked(ctx, p, c).plan.refreshed
  {
    var c := CellsOf(ctx.rules, row);
    WorkedNames(ctx, p, c);
    FinishRefreshes(ctx, Worked(ctx, p, c), c, ProductId(ctx, p.ids));
  }

  lemma RowRefreshesById(ctx: Context, p: Plan, row: Row, id: string)
    requires Sound(ctx, CleanCodes(p.aliases), p.seen) && id in p.byId
    ensures var q := RowStep(ctx, p, row);
            && q.byId.Keys == p.byId.Keys
            && q.byId[id] == if RowRefreshes(ctx, row, id) then Refreshed(p.byId[id], CellsOf(ctx.rules, row))
                 else p.byId[id]
  {
    var c := CellsOf(ctx.rules, row);
    RowById(ctx, p, row);
    WorkedRefreshes(ctx, p, row, id);
    RefreshAllExactly(p.byId, Worked(ctx, p, c).refreshing, c);
  }

  lemma RowKeysStay(ctx: Context, p: Plan, row: Row)
    ensures RowStep(ctx, p, row).byId.Keys == p.byId.Keys
  {
    var c := CellsOf(ctx.rules, row);
    RowById(ctx, p, row);
    RefreshAllExactly(p.byId, Worked(ctx, p, c).refreshing, c);
  }

  lemma {:induction false} RowsFresh(ctx: Context, rows: seq<Row>)
    requires Keyed(ctx.products)
    ensures Sound(ctx, CleanCodes(Rows(ctx, rows).aliases), Rows(ctx, rows).seen) && Fresh(ctx, rows, Rows(ctx, rows))
    decreases |rows|
  {
    if rows != [] {
      var front, row := rows[..|rows| - 1], rows[|rows| - 1];
      var p := Rows(ctx, front);
      RowsFresh(ctx, front);
      RowKeepsCodes(ctx, p, row);
      RowKeysStay(ctx, p, row);
      forall id | id in ctx.products
        ensures RowStep(ctx, p, row).byId[id] == FinalProduct(ctx, rows, ctx.products[id])
      {
        RowRefreshesById(ctx, p, row, id);
        FinalStep(ctx, rows, ctx.products[id]);
      }
      forall id ensures Named(RowStep(ctx, p, row).refreshed, id) <==> SomeRowRefreshes(ctx, rows, id) {
        RowNames(ctx, rows, p, id);
      }
    }
  }

  lemma NamedExtends(a: seq<Refresh>, b: seq<Refresh>, id: string)
    requires Extends(a, b) && Named(a, id)
    ensures Named(b, id)
  {
    var i :| 0 <= i < |a| && a[i].productId == id;
    assert b[..|a|][i] == b[i];
  }

  lemma {:induction false} RowsKeep(ctx: Context, rows: seq<Row>)
    requires Injective(ctx.idFactory)
    ensures Inv(ctx, Rows(ctx, rows))
    decreases |rows|
  {
    if rows != [] {
      var p, row := Rows(ctx, rows[..|rows| - 1]), rows[|rows| - 1];
      RowsKeep(ctx, rows[..|rows| - 1]);
      RowKeepsCodes(ctx, p, row);
      RowKeepsProducts(ctx, p, row);
    }
  }

  lemma {:induction false} OwnersAreLast(aliases: seq<ExistingAlias>, i: nat)
    requires i < |aliases| && aliases[i].approved && aliases[i].cleanCode != ""
    requires forall j :: 0 <= j < |aliases| && aliases[j].approved ==> aliases[j].productId != ""
    ensures aliases[i].cleanCode in OwnerMap(aliases) && OwnerMap(aliases)[aliases[i].cleanCode] != ""
    decreases |aliases|
  {
    if i < |aliases| - 1 {
      OwnersAreLast(aliases[..|aliases| - 1], i);
    }
  }

  /** In every plan the new alias codes are pairwise distinct, no approved alias of the catalog
      already has one of them, every new product lists exactly its alias codes and has at least
      one, and every new alias belongs to a new product. */
  lemma NoCodeGetsTwoOwners(rules: Rules, businessId: string, idFactory: nat -> string, products: seq<Product>,
                            aliases: seq<ExistingAlias>, rows: seq<Row>)
    requires Injective(idFactory)
    requires forall j :: 0 <= j < |aliases| && aliases[j].approved ==> aliases[j].productId != ""
    ensures var ctx := ContextOf(rules, businessId, idFactory, products, aliases);
            var p := Rows(ctx, rows);
            && Distinct(CleanCodes(p.aliases)) && Complete(ctx, p)
            && (forall i, j :: 0 <= i < |p.aliases| && 0 <= j < |aliases| && aliases[j].approved ==>
                  p.aliases[i].cleanCode != aliases[j].cleanCode)
  {
    var ctx := ContextOf(rules, businessId, idFactory, products, aliases);
    RowsKeep(ctx, rows);
    var p := Rows(ctx, rows);
    forall i, j | 0 <= i < |p.aliases| && 0 <= j < |aliases| && aliases[j].approved
      ensures p.aliases[i].cleanCode != aliases[j].cleanCode
    {
      assert CleanCodes(p.aliases)[i] != "" && OwnerOf(ctx, CleanCodes(p.aliases)[i]) == "";
      if aliases[j].cleanCode != "" {
        OwnersAreLast(aliases, j);
      }
    }
  }

  // --- the refreshed products ---------------------------------------------------------------------------------

  lemma {:induction false} OnceIsNamed(refreshed: seq<Refresh>, id: string)
    ensures Distinct(Once(refreshed)) && (id in Once(refreshed) <==> Named(refreshed, id))
    decreases |refreshed|
  {
    if refreshed != [] {
      var front, r := refreshed[..|refreshed| - 1], refreshed[|refreshed| - 1];
      OnceIsNamed(front, id);
      OnceIsNamed(front, r.productId);
      assert front + [r] == refreshed;
      NamedAppend(front, r, id);
    }
  }

  lemma {:induction false} LookedAll(ids: seq<string>, byId: map<string, Product>)
    requires forall i :: 0 <= i < |ids| ==> ids[i] in byId
    ensures |Looked(ids, byId)| == |ids| && forall i :: 0 <= i < |ids| ==> Looked(ids, byId)[i] == byId[ids[i]]
    decreases |ids|
  {
    if ids != [] {
      LookedAll(ids[..|ids| - 1], byId);
    }
  }

  ghost predicate Keyed(products: map<string, Product>) {
    forall id :: id in products ==> products[id].id == id
  }

  lemma {:induction false} ProductMapKeyed(products: seq<Product>)
    ensures Keyed(ProductMap(products))
    decreases |products|
  {
    if products != [] {
      ProductMapKeyed(products[..|products| - 1]);
    }
  }

  /** r holds the refreshed form of exactly the products that some row refreshes, each once. */
  ghost predicate HoldsRefreshed(ctx: Context, rows: seq<Row>, r: seq<Product>) {
    && (forall i :: 0 <= i < |r| ==> r[i].id in ctx.products && r[i] == FinalProduct(ctx, rows, ctx.products[r[i].id]))
    && (forall i, j :: 0 <= i < j < |r| ==> r[i].id != r[j].id)
    && (forall id :: ListsId(r, id) <==> SomeRowRefreshes(ctx, rows, id))
  }

  predicate ListsId(r: seq<Product>, id: string) {
    exists j :: 0 <= j < |r| && r[j].id == id
  }

  lemma {:induction false} RefreshedAreOld(ctx: Context, rows: seq<Row>, id: string)
    requires SomeRowRefreshes(ctx, rows, id)
    ensures id in ctx.products
    decreases |rows|
  {
    var last := rows[|rows| - 1];
    if RowRefreshes(ctx, last, id) {
      TouchedExactly(ctx, CellsOf(ctx.rules, last).codes, id);
    } else {
      RefreshedAreOld(ctx, rows[..|rows| - 1], id);
    }
  }

  lemma NamedAreHeld(ctx: Context, rows: seq<Row>, p: Plan)
    requires Fresh(ctx, rows, p) && Keyed(ctx.products)
    ensures HoldsRefreshed(ctx, rows, RefreshedProducts(p.refreshed, p.byId))
  {
    var ids := Once(p.refreshed);
    forall i | 0 <= i < |ids| ensures ids[i] in ctx.products {
      OnceIsNamed(p.refreshed, ids[i]);
      RefreshedAreOld(ctx, rows, ids[i]);
    }
    LookedAll(ids, p.byId);
    var r := RefreshedProducts(p.refreshed, p.byId);
    assert forall i :: 0 <= i < |r| ==> r[i].id == ids[i];
    OnceIsNamed(p.refreshed, "");
    forall id ensures ListsId(r, id) <==> SomeRowRefreshes(ctx, rows, id) {
      OnceIsNamed(p.refreshed, id);
      if id in ids {
        var j :| 0 <= j < |ids| && ids[j] == id;
        assert r[j].id == id;
      }
    }
  }

  /** refreshedProducts holds exactly the existing products that are the only owner some row's codes
      point to, each once. Each descriptive field is the last non-empty cell of those rows, or the
      original where there is none; everything else of every product is unchanged. */
  lemma RefreshesTakeTheLastCell(rules: Rules, businessId: string, idFactory: nat -> string, products: seq<Product>,
                                 aliases: seq<ExistingAlias>, rows: seq<Row>)
    ensures var ctx := ContextOf(rules, businessId, idFactory, products, aliases);
            var p := Rows(ctx, rows);
            && HoldsRefreshed(ctx, rows, RefreshedProducts(p.refreshed, p.byId))
            && p.byId.Keys == ctx.products.Keys
            && (forall id :: id in ctx.products ==>
                  p.byId[id] == if SomeRowRefreshes(ctx, rows, id) then FinalProduct(ctx, rows, ctx.products[id])
                                else ctx.products[id])
  {
    var ctx := ContextOf(rules, businessId, idFactory, products, aliases);
    var p := Rows(ctx, rows);
    ProductMapKeyed(products);
    RowsFresh(ctx, rows);
    NamedAreHeld(ctx, rows, p);
    forall id | id in ctx.products && !SomeRowRefreshes(ctx, rows, id) ensures p.byId[id] == ctx.products[id] {
      UnrefreshedStays(ctx, rows, ctx.products[id]);
    }
  }
}
