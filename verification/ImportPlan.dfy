/** The catalog import plan of src/import/csvImport.ts: products and approved aliases from parsed
    rows, without ever giving a code two owners. */
module ImportPlan {
  import opened StampedCopy
  import opened Text

  /** A parsed row: header to trimmed cell. */
  type Row = map<string, string>

  datatype ExistingAlias = ExistingAlias(cleanCode: string, productId: string, approved: bool)

  datatype Product = Product(id: string, businessId: string, name: string, brand: string, category: string,
                             specsShort: string,
                             location: string, sku: string, barcode: string, gtin: string, upc: string, ean: string,
                             vendorCodes: seq<string>, aliases: seq<string>)

  datatype Alias = Alias(id: string, businessId: string, productId: string, rawCodeExample: string, cleanCode: string,
                         idempotencyKey: string)

  datatype Conflict = Conflict(code: string, reason: string)

  datatype Refresh = Refresh(code: string, productId: string)

  /** Scan cleaning and barcode grading, whose tables are not part of this model. */
  datatype Rules = Rules(
    clean: string -> string,
    gtinShaped: string -> bool,
    rejection: (string, string) -> Option<string>,   // barcode and part number to the reason it is rejected
    placeholder: string -> Option<string>)           // barcode to the reason it is a placeholder

  /** Everything a run of the import only reads. */
  datatype Context = Context(rules: Rules, businessId: string, idFactory: nat -> string,
                             owner: map<string, string>, products: map<string, Product>)

  /** Everything it builds; ids counts the calls of the id factory. */
  datatype Plan = Plan(products: seq<Product>, aliases: seq<Alias>, duplicates: seq<string>, conflicts: seq<Conflict>,
                       refreshed: seq<Refresh>, byId: map<string, Product>, seen: map<string, string>, ids: nat)

  function Pick(row: Row, keys: seq<string>): string {
    if keys == [] then ""
    else if keys[0] in row && row[keys[0]] != "" then row[keys[0]]
    else Pick(row, keys[1..])
  }

  function SplitCodes(raw: string, part: string): seq<string>
    decreases |raw|
  {
    if raw == "" then [part]
    else if raw[0] == '|' || raw[0] == ';' then [part] + SplitCodes(raw[1..], "")
    else SplitCodes(raw[1..], part + [raw[0]])
  }

  function TrimmedNonEmpty(parts: seq<string>): seq<string> {
    if parts == [] then []
    else (if Trim(parts[0]) == "" then [] else [Trim(parts[0])]) + TrimmedNonEmpty(parts[1..])
  }

  function VendorCodes(row: Row): seq<string> {
    var raw := Pick(row, ["vendor_codes", "vendor", "vendor_code"]);
    if raw == "" then [] else TrimmedNonEmpty(SplitCodes(raw, ""))
  }

  // --- the trust gate on barcodes -----------------------------------------------------------------

  datatype Gated = Gated(value: string, conflicts: seq<Conflict>, rejected: set<string>)

  function GateStrict(rules: Rules, value: string, field: string, sku: string): Gated {
    if value == "" then Gated(value, [], {})
    else
      var reason := rules.rejection(value, sku);
      if reason.Some? then Gated("", [Conflict(value, "barcode rejected: " + reason.value + " (" + field + ")")],
                                 {value})
      else Gated(value, [], {})
  }

  function GatePhysicalLabel(rules: Rules, value: string, sku: string): Gated {
    if value == "" || !rules.gtinShaped(value) then
      var reason := if value == "" then None else rules.placeholder(value);
      if reason.Some? then Gated("", [Conflict(value, "barcode rejected: " + reason.value + " (barcode)")], {value})
      else Gated(value, [], {})
    else GateStrict(rules, value, "barcode", sku)
  }

  /** The cells of a row as the import reads them, gated. */
  datatype Cells = Cells(name: string, brand: string, category: string, specsShort: string, location: string,
                         sku: string, barcode: string, gtin: string, upc: string, ean: string, vendorCodes: seq<string>,
                         conflicts: seq<Conflict>, codes: seq<string>)

  function Kept(codes: seq<string>, rejected: set<string>): seq<string> {
    if codes == [] then []
    else (if codes[0] == "" || codes[0] in rejected then [] else [codes[0]]) + Kept(codes[1..], rejected)
  }

  function CellsOf(rules: Rules, row: Row): Cells {
    var sku := Pick(row, ["sku", "primary_sku"]);
    var vendorCodes := VendorCodes(row);
    var gtin := GateStrict(rules, Pick(row, ["gtin"]), "gtin", sku);
    var upc := GateStrict(rules, Pick(row, ["upc"]), "upc", sku);
    var ean := GateStrict(rules, Pick(row, ["ean"]), "ean", sku);
    var barcode := GatePhysicalLabel(rules, Pick(row, ["barcode", "primary_barcode"]), sku);
    var rejected := gtin.rejected + upc.rejected + ean.rejected + barcode.rejected;
    Cells(Pick(row, ["name", "product_name"]), Pick(row, ["brand"]), Pick(row, ["category"]),
          Pick(row, ["specs", "specs_short"]), Pick(row, ["location"]),
          sku, barcode.value, gtin.value, upc.value, ean.value, vendorCodes,
          gtin.conflicts + upc.conflicts + ean.conflicts + barcode.conflicts,
          Kept([sku, barcode.value, gtin.value, upc.value, ean.value] + vendorCodes, rejected))
  }

  // --- one row ------------------------------------------------------------------------------------

  function OwnerOf(ctx: Context, code: string): string {
    if code in ctx.owner then ctx.owner[code] else ""
  }

  /** The different existing products that the codes of a row already belong to. */
  function Touched(ctx: Context, codes: seq<string>): set<string> {
    if codes == [] then {}
    else
      var code := ctx.rules.clean(codes[0]);
      var owner := OwnerOf(ctx, code);
      (if code != "" && owner != "" && owner in ctx.products then {owner} else {}) + Touched(ctx, codes[1..])
  }

  /** The row in progress: its new aliases and the existing products it refreshes. */
  datatype RowState = RowState(plan: Plan, aliases: seq<Alias>, refreshing: seq<string>)

  function CodeStep(ctx: Context, st: RowState, raw: string, productId: string, acrossProducts: bool): RowState {
    var p := st.plan;
    var code := ctx.rules.clean(raw);
    var owner := OwnerOf(ctx, code);
    if code == "" then st
    else if code in p.seen then
      if p.seen[code] == productId then st.(plan := p.(duplicates := p.duplicates + [code]))
      else st.(plan := p.(conflicts := p.conflicts
                          + [Conflict(code, "code appears for more than one product in the file")]))
    else if owner != "" then
      if !acrossProducts && owner in ctx.products then
        if owner in st.refreshing then st
        else st.(plan := p.(refreshed := p.refreshed + [Refresh(code, owner)]), refreshing := st.refreshing + [owner])
      else st.(plan := p.(conflicts := p.conflicts + [Conflict(code, "code already maps to product " + owner)]))
    else
      var alias := Alias("alias-import-" + ctx.idFactory(p.ids), ctx.businessId, productId, raw, code,
                         ctx.businessId + "::import::" + code);
      st.(plan := p.(seen := p.seen[code := productId], ids := p.ids + 1), aliases := st.aliases + [alias])
  }

  function Codes(ctx: Context, st: RowState, codes: seq<string>, productId: string, acrossProducts: bool): RowState {
    if codes == [] then st
    else CodeStep(ctx, Codes(ctx, st, codes[..|codes| - 1], productId, acrossProducts), codes[|codes| - 1],
                  productId, acrossProducts)
  }

  /** Only cells that are present overwrite a field. */
  function Refreshed(p: Product, c: Cells): Product {
    p.(name := OrElse(c.name, p.name), brand := OrElse(c.brand, p.brand), category := OrElse(c.category, p.category),
       specsShort := OrElse(c.specsShort, p.specsShort), location := OrElse(c.location, p.location))
  }

  function RefreshAll(byId: map<string, Product>, ids: seq<string>, c: Cells): map<string, Product> {
    if ids == [] then byId
    else
      var rest := RefreshAll(byId, ids[..|ids| - 1], c);
      var pid := ids[|ids| - 1];
      if pid in rest then rest[pid := Refreshed(rest[pid], c)] else rest
  }

  function CleanCodes(aliases: seq<Alias>): (r: seq<string>)
    ensures |r| == |aliases| && forall i :: 0 <= i < |aliases| ==> r[i] == aliases[i].cleanCode
  {
    seq(|aliases|, i requires 0 <= i < |aliases| => aliases[i].cleanCode)
  }

  function NewProduct(ctx: Context, id: string, c: Cells, codes: seq<string>): Product
    requires codes != []
  {
    Product(id, ctx.businessId, OrElse(c.name, codes[0]), c.brand, c.category, c.specsShort, c.location,
            c.sku, c.barcode, c.gtin, c.upc, c.ean, c.vendorCodes, codes)
  }

  function ProductId(ctx: Context, ids: nat): string {
    "prod-import-" + ctx.idFactory(ids)
  }

  /** The row after its codes; it has taken one id. */
  function Worked(ctx: Context, plan: Plan, c: Cells): RowState {
    Codes(ctx, RowState(plan.(conflicts := plan.conflicts + c.conflicts, ids := plan.ids + 1), [], []), c.codes,
          ProductId(ctx, plan.ids), |Touched(ctx, c.codes)| > 1)
  }

  function NoCode(plan: Plan, c: Cells): Plan {
    plan.(conflicts := plan.conflicts + c.conflicts
                       + [Conflict(OrElse(c.name, "(row)"),
                                   "no scannable code (sku/barcode/gtin/upc/ean/vendor) in row")])
  }

  function RowStep(ctx: Context, plan: Plan, row: Row): Plan {
    var c := CellsOf(ctx.rules, row);
    if c.codes == [] then NoCode(plan, c) else FinishRow(ctx, Worked(ctx, plan, c), c, ProductId(ctx, plan.ids))
  }

  function FinishRow(ctx: Context, st: RowState, c: Cells, productId: string): Plan {
    var q := st.plan.(byId := RefreshAll(st.plan.byId, st.refreshing, c));
    if st.aliases == [] then q
    else q.(products := q.products + [NewProduct(ctx, productId, c, CleanCodes(st.aliases))],
            aliases := q.aliases + st.aliases)
  }

  function Rows(ctx: Context, rows: seq<Row>): Plan {
    if rows == [] then Plan([], [], [], [], [], ctx.products, map[], 0)
    else RowStep(ctx, Rows(ctx, rows[..|rows| - 1]), rows[|rows| - 1])
  }

  // --- the loops ----------------------------------------------------------------------------------

  function OwnerMap(aliases: seq<ExistingAlias>): map<string, string> {
    if aliases == [] then map[]
    else
      var rest, a := OwnerMap(aliases[..|aliases| - 1]), aliases[|aliases| - 1];
      if a.approved && a.cleanCode != "" then rest[a.cleanCode := a.productId] else rest
  }

  function ProductMap(products: seq<Product>): map<string, Product> {
    if products == [] then map[]
    else ProductMap(products[..|products| - 1])[products[|products| - 1].id := products[|products| - 1]]
  }

  function ContextOf(rules: Rules, businessId: string, idFactory: nat -> string,
                     products: seq<Product>, aliases: seq<ExistingAlias>): Context {
    Context(rules, businessId, idFactory, OwnerMap(aliases), ProductMap(products))
  }

  /** The products named in `refreshed`, each once, in the order they were first named. */
  function RefreshedProducts(refreshed: seq<Refresh>, byId: map<string, Product>): seq<Product> {
    Looked(Once(refreshed), byId)
  }

  function Once(refreshed: seq<Refresh>): seq<string> {
    if refreshed == [] then []
    else
      var rest, id := Once(refreshed[..|refreshed| - 1]), refreshed[|refreshed| - 1].productId;
      if id in rest then rest else rest + [id]
  }

  function Looked(ids: seq<string>, byId: map<string, Product>): seq<Product> {
    if ids == [] then []
    else Looked(ids[..|ids| - 1], byId) + if ids[|ids| - 1] in byId then [byId[ids[|ids| - 1]]] else []
  }

  method ScanCodes(ctx: Context, start: RowState, codes: seq<string>, productId: string,
                   acrossProducts: bool) returns (st: RowState)
    ensures st == Codes(ctx, start, codes, productId, acrossProducts)
  {
    st := start;
    for i := 0 to |codes|
      invariant st == Codes(ctx, start, codes[..i], productId, acrossProducts)
    {
      assert codes[..i + 1][..i] == codes[..i];
      st := CodeStep(ctx, st, codes[i], productId, acrossProducts);
    }
    assert codes[..|codes|] == codes;
  }

  method RefreshProducts(byId: map<string, Product>, ids: seq<string>, c: Cells) returns (r: map<string, Product>)
    ensures r == RefreshAll(byId, ids, c)
  {
    r := byId;
    for i := 0 to |ids|
      invariant r == RefreshAll(byId, ids[..i], c)
    {
      assert ids[..i + 1][..i] == ids[..i];
      if ids[i] in r {
        r := r[ids[i] := Refreshed(r[ids[i]], c)];
      }
    }
    assert ids[..|ids|] == ids;
  }

  /** The body of the row loop. */
  method ImportRow(ctx: Context, before: Plan, row: Row) returns (plan: Plan)
    ensures plan == RowStep(ctx, before, row)
  {
    var c := CellsOf(ctx.rules, row);
    plan := before.(conflicts := before.conflicts + c.conflicts);
    if c.codes == [] {
      plan := plan.(conflicts := plan.conflicts
        + [Conflict(OrElse(c.name, "(row)"), "no scannable code (sku/barcode/gtin/upc/ean/vendor) in row")]);
      return;
    }
    var acrossProducts := |Touched(ctx, c.codes)| > 1;
    var productId := ProductId(ctx, plan.ids);
    var st := ScanCodes(ctx, RowState(plan.(ids := plan.ids + 1), [], []), c.codes, productId, acrossProducts);
    var byId := RefreshProducts(st.plan.byId, st.refreshing, c);
    plan := st.plan.(byId := byId);
    if st.aliases == [] {
      return;
    }
    plan := plan.(products := plan.products + [NewProduct(ctx, productId, c, CleanCodes(st.aliases))],
                  aliases := plan.aliases + st.aliases);
  }

  method BuildProductImport(rules: Rules, rows: seq<Row>, existingProducts: seq<Product>,
                            existingAliases: seq<ExistingAlias>,
                            businessId: string, idFactory: nat -> string)
    returns (plan: Plan, refreshedProducts: seq<Product>)
    ensures plan == Rows(ContextOf(rules, businessId, idFactory, existingProducts, existingAliases), rows)
    ensures refreshedProducts == RefreshedProducts(plan.refreshed, plan.byId)
  {
    var owner: map<string, string> := map[];
    for i := 0 to |existingAliases|
      invariant owner == OwnerMap(existingAliases[..i])
    {
      assert existingAliases[..i + 1][..i] == existingAliases[..i];
      var a := existingAliases[i];
      if a.approved && a.cleanCode != "" {
        owner := owner[a.cleanCode := a.productId];
      }
    }
    assert existingAliases[..|existingAliases|] == existingAliases;
    var ctx := Context(rules, businessId, idFactory, owner, ProductMap(existingProducts));
    plan := Plan([], [], [], [], [], ctx.products, map[], 0);
    for i := 0 to |rows|
      invariant plan == Rows(ctx, rows[..i])
    {
      assert rows[..i + 1][..i] == rows[..i];
      plan := ImportRow(ctx, plan, rows[i]);
    }
    assert rows[..|rows|] == rows;
    refreshedProducts := RefreshedProducts(plan.refreshed, plan.byId);
  }
}
