/** The entities of the catalog: a product family, its SKUs, and what the database columns can hold. */
module CatalogModel {
  import opened Common

  type Uuid = int

  /** A URL with the verdict of the URL parser: an http or https scheme and a host. */
  datatype Url = Url(text: string, parses: bool)

  datatype Lifecycle = Draft | Ready | Published

  /** The attributes of a product, in a payload or in a row. */
  datatype ProductContent = ProductContent(
    code: string, name: string, description: Option<string>, productType: Option<string>, brand: string,
    hsn: Option<string>, gst: real, fabric: Option<string>, care: Option<string>, setComposition: Option<string>,
    media: seq<Url>, sizeChart: Option<Url>, videos: seq<Url>, tags: seq<string>)

  datatype Prices = Prices(mrp: real, selling: real, cost: real)

  datatype Packaging = Packaging(length: real, breadth: real, height: real, weight: real)

  /** The attributes of a SKU, in a payload or in a row. */
  datatype SkuContent = SkuContent(
    skuId: string, colour: Option<string>, size: Option<string>, sizeType: Option<string>, pack: Option<string>,
    prices: Prices, packaging: Packaging, media: seq<Url>)

  datatype SkuInput = SkuInput(id: Option<Uuid>, content: SkuContent)

  datatype Product = Product(content: ProductContent, state: Lifecycle)

  datatype Sku = Sku(parent: Uuid, content: SkuContent)

  // ---------------------------------------------------------------- identifiers

  predicate IdChar(c: char) { 'A' <= c <= 'Z' || '0' <= c <= '9' }

  /** Upper-case alphanumeric groups separated by single hyphens. */
  predicate Identifier(s: string) {
    && s != [] && s[0] != '-' && s[|s| - 1] != '-'
    && (forall i :: 0 <= i < |s| ==> IdChar(s[i]) || s[i] == '-')
    && (forall i :: 0 < i < |s| ==> s[i - 1] != '-' || s[i] != '-')
  }

  /** The service's pattern ends in a `$` that also matches before a final newline. */
  predicate LaxIdentifier(s: string) {
    Identifier(s) || (s != [] && s[|s| - 1] == '\n' && Identifier(s[..|s| - 1]))
  }

  // ---------------------------------------------------------------- numeric columns

  /** A NUMERIC(_, 2) column rounds half away from zero. */
  function Cents(x: real): real {
    if x >= 0.0 then (x * 100.0 + 0.5).Floor as real / 100.0 else -((-x * 100.0 + 0.5).Floor as real / 100.0)
  }

  /** A NUMERIC(_, 3) column. */
  function Grams(x: real): real {
    if x >= 0.0 then (x * 1000.0 + 0.5).Floor as real / 1000.0 else -((-x * 1000.0 + 0.5).Floor as real / 1000.0)
  }

  function StoredPrices(p: Prices): Prices { Prices(Cents(p.mrp), Cents(p.selling), Cents(p.cost)) }

  function StoredPackaging(p: Packaging): Packaging {
    Packaging(Cents(p.length), Cents(p.breadth), Cents(p.height), Grams(p.weight))
  }

  function StoredSku(c: SkuContent): SkuContent {
    c.(prices := StoredPrices(c.prices), packaging := StoredPackaging(c.packaging))
  }

  lemma RoundingTwice(x: real)
    ensures Cents(Cents(x)) == Cents(x)
  {
    if x >= 0.0 { WholeCents((x * 100.0 + 0.5).Floor); } else { WholeCents((-x * 100.0 + 0.5).Floor); }
  }

  lemma WholeCents(k: nat)
    ensures Cents(k as real / 100.0) == k as real / 100.0
    ensures Cents(-(k as real / 100.0)) == -(k as real / 100.0)
  {
    assert (k as real / 100.0) * 100.0 == k as real;
    assert (k as real + 0.5).Floor == k;
  }

  /** Rounding is to the nearest whole paisa, halves away from zero. */
  lemma RoundingIsNearest(x: real) returns (paise: int)
    ensures Cents(x) == paise as real / 100.0
    ensures x >= 0.0 ==> -0.005 < Cents(x) - x <= 0.005
    ensures Cents(-x) == -Cents(x)
  {
    paise := if x >= 0.0 then (x * 100.0 + 0.5).Floor else -((-x * 100.0 + 0.5).Floor);
    assert (0.0 * 100.0 + 0.5).Floor == 0;
  }

  lemma GramsAreNearest(x: real)
    ensures x >= 0.0 ==> -0.0005 < Grams(x) - x <= 0.0005
    ensures Grams(-x) == -Grams(x)
  {
    assert (0.0 * 1000.0 + 0.5).Floor == 0;
  }

  lemma StoredPricesAreExact(p: Prices)
    ensures StoredPrices(StoredPrices(p)) == StoredPrices(p)
  {
    RoundingTwice(p.mrp);
    RoundingTwice(p.selling);
    RoundingTwice(p.cost);
  }

  // ---------------------------------------------------------------- constraints of the tables

  predicate AtMost(s: Option<string>, n: nat) { s.Some? ==> |s.value| <= n }

  predicate StorableProduct(c: ProductContent) {
    && Identifier(c.code) && 5 <= |c.code| < 25
    && |c.name| >= 5 && |c.brand| <= 64 && AtMost(c.productType, 128)
    && (c.hsn.Some? ==> 4 <= |c.hsn.value| <= 10)
    && 0.0 <= c.gst < 100.0
  }

  predicate StorablePrices(p: Prices) {
    && p.mrp > 0.0 && p.selling > 0.0 && p.cost > 0.0 && p.selling <= p.mrp
    && p.mrp < 100000000.0 && p.cost < 100000000.0
  }

  predicate StorablePackaging(p: Packaging) {
    && 1.0 <= p.length <= 50.0 && 1.0 <= p.breadth <= 50.0 && 1.0 <= p.height <= 50.0
    && 0.050 <= p.weight <= 10.000
  }

  /** The constraints are checked on the rounded values. */
  predicate StorableSku(c: SkuContent) {
    && Identifier(c.skuId) && 5 <= |c.skuId| <= 10
    && AtMost(c.colour, 64) && AtMost(c.size, 64) && AtMost(c.pack, 64)
    && (c.sizeType.Some? ==> c.sizeType.value in {"size", "variant"})
    && StorablePrices(StoredPrices(c.prices)) && StorablePackaging(StoredPackaging(c.packaging))
  }
}
