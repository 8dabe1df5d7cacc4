/** The deterministic validation rules, and the readiness gate that the lifecycle must agree with. */
module CatalogValidation {
  import opened Common
  import opened CatalogModel

  datatype ErrorCode = SyntaxError | PricingViolation | PhysicalViolation | TaxViolation | SkuRepeated | Incomplete

  datatype ValidationError = ValidationError(code: ErrorCode, field: string)

  type Errors = seq<ValidationError>

  /** The one thing that is only warned about: a SKU that sells below its cost. */
  datatype Warning = LossLeader(cost: real, selling: real)

  function When(broken: bool, code: ErrorCode, field: string): Errors {
    if broken then [ValidationError(code, field)] else []
  }

  // ================================================================ the rules, stated outright

  predicate ValidSkuId(s: string) { 5 <= |s| <= 10 && LaxIdentifier(s) }

  predicate ValidProductCode(s: string) { 5 <= |s| < 25 && LaxIdentifier(s) }

  predicate ValidPrices(p: Prices) { p.mrp > 0.0 && p.selling > 0.0 && p.cost > 0.0 && p.selling <= p.mrp }

  predicate ValidPackaging(p: Packaging) { StorablePackaging(p) }

  predicate ValidUrl(u: Url) { u.text == "" || u.parses }

  predicate ValidUrls(urls: seq<Url>) { forall i :: 0 <= i < |urls| ==> ValidUrl(urls[i]) }

  predicate Digits(s: string) { s != [] && forall i :: 0 <= i < |s| ==> '0' <= s[i] <= '9' }

  /** At least four characters, digits only; the pattern also lets a final newline through. */
  predicate ValidHsn(s: string) {
    |s| >= 4 && (Digits(s) || (s[|s| - 1] == '\n' && Digits(s[..|s| - 1])))
  }

  predicate ValidGst(gst: real) { gst == 0.0 || gst == 5.0 || gst == 12.0 || gst == 18.0 || gst == 28.0 }

  /** The white space that `str.strip` removes. */
  predicate Space(c: char) {
    || '\t' <= c <= '\r' || '\U{1C}' <= c <= ' ' || c == '\U{85}' || c == '\U{A0}' || c == '\U{1680}'
    || '\U{2000}' <= c <= '\U{200A}' || c == '\U{2028}' || c == '\U{2029}' || c == '\U{202F}' || c == '\U{205F}'
    || c == '\U{3000}'
  }

  /** The text without leading and trailing white space. */
  function Strip(s: string): (r: string)
    ensures |r| <= |s|
  {
    if s == [] then []
    else if Space(s[0]) then Strip(s[1..])
    else if Space(s[|s| - 1]) then Strip(s[..|s| - 1])
    else s
  }

  predicate AllSpace(s: string) { forall i :: 0 <= i < |s| ==> Space(s[i]) }

  /** Stripping removes white space at both ends, all of it, and nothing else. */
  lemma {:induction false} StripsExactlyTheSpace(s: string) returns (before: string, after: string)
    ensures s == before + Strip(s) + after && AllSpace(before) && AllSpace(after)
    ensures Strip(s) != [] ==> !Space(Strip(s)[0]) && !Space(Strip(s)[|Strip(s)| - 1])
    decreases |s|
  {
    before, after := [], [];
    if s != [] && Space(s[0]) {
      before, after := StripsExactlyTheSpace(s[1..]);
      before := SpaceInFront(s, before, Strip(s), after);
    } else if s != [] && Space(s[|s| - 1]) {
      before, after := StripsExactlyTheSpace(s[..|s| - 1]);
      after := SpaceBehind(s, before, Strip(s), after);
    }
  }

  lemma SpaceInFront(s: string, before: string, middle: string, after: string) returns (longer: string)
    requires s != [] && Space(s[0]) && s[1..] == before + middle + after && AllSpace(before)
    ensures s == longer + middle + after && AllSpace(longer)
  {
    longer := [s[0]] + before;
    assert s == [s[0]] + s[1..];
  }

  lemma SpaceBehind(s: string, before: string, middle: string, after: string) returns (longer: string)
    requires s != [] && Space(s[|s| - 1]) && s[..|s| - 1] == before + middle + after && AllSpace(after)
    ensures s == before + middle + longer && AllSpace(longer)
  {
    longer := after + [s[|s| - 1]];
    assert s == s[..|s| - 1] + [s[|s| - 1]];
  }

  predicate Present(s: Option<string>) { s.Some? && Strip(s.value) != [] }

  predicate SkuValid(c: SkuContent) {
    && ValidSkuId(c.skuId) && ValidPrices(c.prices) && ValidPackaging(c.packaging) && ValidUrls(c.media)
    && (c.sizeType.Some? ==> c.sizeType.value in {"size", "variant"})
  }

  predicate ProductValid(c: ProductContent) {
    && ValidProductCode(c.code) && |Strip(c.name)| >= 5
    && ValidGst(c.gst) && (c.hsn.Some? ==> ValidHsn(c.hsn.value))
    && ValidUrls(c.media) && (c.sizeChart.Some? ==> ValidUrl(c.sizeChart.value)) && ValidUrls(c.videos)
  }

  predicate DistinctSkuIds(skus: seq<SkuContent>) {
    forall i, j :: 0 <= i < j < |skus| ==> skus[i].skuId != skus[j].skuId
  }

  predicate AllValid(skus: seq<SkuContent>) { forall i :: 0 <= i < |skus| ==> SkuValid(skus[i]) }

  predicate FamilyValid(product: ProductContent, skus: seq<SkuContent>) {
    ProductValid(product) && DistinctSkuIds(skus) && AllValid(skus)
  }

  predicate HasImage(media: seq<Url>) { exists i :: 0 <= i < |media| && Strip(media[i].text) != [] }

  predicate ProductReady(c: ProductContent) { ProductValid(c) && Present(c.description) && Present(c.productType) }

  predicate SkuReady(c: SkuContent) { SkuValid(c) && HasImage(c.media) }

  predicate AllReady(skus: seq<SkuContent>) { forall i :: 0 <= i < |skus| ==> SkuReady(skus[i]) }

  /** A family that may be READY: complete product, and at least one SKU, each complete with an image. */
  predicate FamilyReady(product: ProductContent, skus: seq<SkuContent>) {
    ProductReady(product) && skus != [] && DistinctSkuIds(skus) && AllReady(skus)
  }

  // ================================================================ the reports, as they are built

  function PricingErrors(p: Prices): Errors {
    When(p.mrp <= 0.0, PricingViolation, "mrp") + When(p.selling <= 0.0, PricingViolation, "selling_price")
    + When(p.cost <= 0.0, PricingViolation, "cost_price")
    + When(p.mrp > 0.0 && p.selling > 0.0 && p.selling > p.mrp, PricingViolation, "selling_price")
  }

  function PricingWarnings(p: Prices): seq<Warning> { if p.cost > p.selling then [LossLeader(p.cost, p.selling)] else [] }

  /** One warning for each loss leader, in the order of the payload. */
  function FamilyWarnings(skus: seq<SkuContent>): seq<Warning> {
    if skus == [] then [] else FamilyWarnings(skus[..|skus| - 1]) + PricingWarnings(skus[|skus| - 1].prices)
  }

  function DimensionErrors(p: Packaging): Errors {
    When(!(1.0 <= p.length <= 50.0), PhysicalViolation, "packaging_length_cm")
    + When(!(1.0 <= p.breadth <= 50.0), PhysicalViolation, "packaging_breadth_cm")
    + When(!(1.0 <= p.height <= 50.0), PhysicalViolation, "packaging_height_cm")
    + When(!(0.050 <= p.weight <= 10.000), PhysicalViolation, "packaging_weight_kg")
  }

  function UrlErrors(urls: seq<Url>, field: string): Errors {
    if urls == [] then []
    else UrlErrors(urls[..|urls| - 1], field) + When(!ValidUrl(urls[|urls| - 1]), SyntaxError, field)
  }

  function SkuErrors(c: SkuContent): Errors {
    When(!ValidSkuId(c.skuId), SyntaxError, "sku_id") + PricingErrors(c.prices) + DimensionErrors(c.packaging)
    + UrlErrors(c.media, "sku_media_urls")
    + When(c.sizeType.Some? && c.sizeType.value !in {"size", "variant"}, SyntaxError, "size_type")
  }

  function ProductErrors(c: ProductContent): Errors {
    When(!ValidProductCode(c.code), SyntaxError, "product_code") + When(|Strip(c.name)| < 5, SyntaxError, "name")
    + When(!ValidGst(c.gst), TaxViolation, "gst_percentage")
    + When(c.hsn.Some? && !ValidHsn(c.hsn.value), TaxViolation, "hsn_code")
    + UrlErrors(c.media, "product_media_urls")
    + When(c.sizeChart.Some? && !ValidUrl(c.sizeChart.value), SyntaxError, "size_chart_url")
    + UrlErrors(c.videos, "video_urls")
  }

  predicate Repeats(skus: seq<SkuContent>, skuId: string) { exists i :: 0 <= i < |skus| && skus[i].skuId == skuId }

  function SiblingErrors(skus: seq<SkuContent>): Errors {
    if skus == [] then []
    else
      var n := |skus| - 1;
      SiblingErrors(skus[..n]) + (When(Repeats(skus[..n], skus[n].skuId), SkuRepeated, "sku_id") + SkuErrors(skus[n]))
  }

  function FamilyErrors(product: ProductContent, skus: seq<SkuContent>): Errors {
    ProductErrors(product) + SiblingErrors(skus)
  }

  function SkuCompleteness(c: SkuContent): Errors {
    When(!HasImage(c.media), Incomplete, "sku_media_urls") + When(c.prices.mrp <= 0.0, Incomplete, "mrp")
    + When(c.prices.selling <= 0.0, Incomplete, "selling_price") + When(c.prices.cost <= 0.0, Incomplete, "cost_price")
  }

  function CompletenessErrors(skus: seq<SkuContent>): Errors {
    if skus == [] then [] else CompletenessErrors(skus[..|skus| - 1]) + SkuCompleteness(skus[|skus| - 1])
  }

  function ProductCompleteness(product: ProductContent): Errors {
    When(|Strip(product.name)| < 5, Incomplete, "name") + When(!Present(product.description), Incomplete, "description")
    + When(!Present(product.productType), Incomplete, "product_type")
  }

  function GateErrors(product: ProductContent, skus: seq<SkuContent>): Errors {
    FamilyErrors(product, skus) + When(skus == [], Incomplete, "skus") + ProductCompleteness(product)
    + CompletenessErrors(skus)
  }

  // ================================================================ each error stands for its broken rule

  predicate Has(errors: Errors, code: ErrorCode, field: string) { ValidationError(code, field) in errors }

  lemma PricingErrorTable(p: Prices, e: ValidationError)
    ensures e in PricingErrors(p) <==>
      || (e == ValidationError(PricingViolation, "mrp") && p.mrp <= 0.0)
      || (e == ValidationError(PricingViolation, "selling_price") && (p.selling <= 0.0 || (p.mrp > 0.0 && p.selling > p.mrp)))
      || (e == ValidationError(PricingViolation, "cost_price") && p.cost <= 0.0)
  {
  }

  lemma DimensionErrorTable(p: Packaging, e: ValidationError)
    ensures e in DimensionErrors(p) <==>
      || (e == ValidationError(PhysicalViolation, "packaging_length_cm") && !(1.0 <= p.length <= 50.0))
      || (e == ValidationError(PhysicalViolation, "packaging_breadth_cm") && !(1.0 <= p.breadth <= 50.0))
      || (e == ValidationError(PhysicalViolation, "packaging_height_cm") && !(1.0 <= p.height <= 50.0))
      || (e == ValidationError(PhysicalViolation, "packaging_weight_kg") && !(0.050 <= p.weight <= 10.000))
  {
  }

  /** One error for each malformed URL. */
  lemma {:induction false} UrlErrorTable(urls: seq<Url>, field: string)
    ensures forall e :: e in UrlErrors(urls, field) ==> e == ValidationError(SyntaxError, field)
    ensures |UrlErrors(urls, field)| == MalformedUrls(urls)
  {
    if urls != [] { UrlErrorTable(urls[..|urls| - 1], field); }
  }

  function MalformedUrls(urls: seq<Url>): nat {
    if urls == [] then 0 else MalformedUrls(urls[..|urls| - 1]) + if ValidUrl(urls[|urls| - 1]) then 0 else 1
  }

  lemma UrlsAreReported(urls: seq<Url>, field: string)
    ensures Has(UrlErrors(urls, field), SyntaxError, field) <==> !ValidUrls(urls)
  {
    UrlErrorTable(urls, field);
    UrlReport(urls, field);
    var errors := UrlErrors(urls, field);
    if errors != [] { assert errors[0] in errors; }
  }

  /** A SKU is reported for each rule it breaks, under the rule's code and field. */
  lemma SkuErrorTable(c: SkuContent, e: ValidationError)
    ensures e in SkuErrors(c) <==>
      || (e == ValidationError(SyntaxError, "sku_id") && !ValidSkuId(c.skuId))
      || e in PricingErrors(c.prices) || e in DimensionErrors(c.packaging)
      || (e == ValidationError(SyntaxError, "sku_media_urls") && !ValidUrls(c.media))
      || (e == ValidationError(SyntaxError, "size_type") && c.sizeType.Some? && c.sizeType.value !in {"size", "variant"})
  {
    UrlErrorTable(c.media, "sku_media_urls");
    UrlsAreReported(c.media, "sku_media_urls");
  }

  /** A product is reported for each rule it breaks. */
  lemma ProductErrorTable(c: ProductContent, e: ValidationError)
    ensures e in ProductErrors(c) <==>
      || (e == ValidationError(SyntaxError, "product_code") && !ValidProductCode(c.code))
      || (e == ValidationError(SyntaxError, "name") && |Strip(c.name)| < 5)
      || (e == ValidationError(TaxViolation, "gst_percentage") && !ValidGst(c.gst))
      || (e == ValidationError(TaxViolation, "hsn_code") && c.hsn.Some? && !ValidHsn(c.hsn.value))
      || (e == ValidationError(SyntaxError, "product_media_urls") && !ValidUrls(c.media))
      || (e == ValidationError(SyntaxError, "size_chart_url") && c.sizeChart.Some? && !ValidUrl(c.sizeChart.value))
      || (e == ValidationError(SyntaxError, "video_urls") && !ValidUrls(c.videos))
  {
    UrlErrorTable(c.media, "product_media_urls");
    UrlErrorTable(c.videos, "video_urls");
    UrlsAreReported(c.media, "product_media_urls");
    UrlsAreReported(c.videos, "video_urls");
  }

  lemma ProductCompletenessTable(product: ProductContent, e: ValidationError)
    ensures e in ProductCompleteness(product) <==>
      || (e == ValidationError(Incomplete, "name") && |Strip(product.name)| < 5)
      || (e == ValidationError(Incomplete, "description") && !Present(product.description))
      || (e == ValidationError(Incomplete, "product_type") && !Present(product.productType))
  {
  }

  lemma SkuCompletenessTable(c: SkuContent)
    ensures Has(SkuCompleteness(c), Incomplete, "sku_media_urls") <==> !HasImage(c.media)
  {
  }

  /** Some SKU without an image is reported. */
  lemma {:induction false} MissingImagesAreReported(skus: seq<SkuContent>)
    ensures Has(CompletenessErrors(skus), Incomplete, "sku_media_urls") <==> exists i :: 0 <= i < |skus| && !HasImage(skus[i].media)
  {
    if skus != [] {
      MissingImagesAreReported(skus[..|skus| - 1]);
      SkuCompletenessTable(skus[|skus| - 1]);
      ImagelessSnoc(skus);
    }
  }

  lemma ImagelessSnoc(skus: seq<SkuContent>)
    requires skus != []
    ensures var n := |skus| - 1;
            (exists i :: 0 <= i < |skus| && !HasImage(skus[i].media))
            <==> (exists i :: 0 <= i < n && !HasImage(skus[..n][i].media)) || !HasImage(skus[n].media)
  {
    var n := |skus| - 1;
    if i :| 0 <= i < n && !HasImage(skus[..n][i].media) { assert skus[..n][i] == skus[i]; }
    if i :| 0 <= i < |skus| && !HasImage(skus[i].media) { assert i < n ==> skus[..n][i] == skus[i]; }
  }

  // ================================================================ a report is empty exactly when the rules hold

  lemma {:induction false} UrlReport(urls: seq<Url>, field: string)
    ensures UrlErrors(urls, field) == [] <==> ValidUrls(urls)
  {
    if urls != [] {
      var n := |urls| - 1;
      UrlReport(urls[..n], field);
      assert ValidUrls(urls) <==> ValidUrls(urls[..n]) && ValidUrl(urls[n]);
    }
  }

  lemma SkuReport(c: SkuContent)
    ensures SkuErrors(c) == [] <==> SkuValid(c)
  {
    UrlReport(c.media, "sku_media_urls");
  }

  lemma ProductReport(c: ProductContent)
    ensures ProductErrors(c) == [] <==> ProductValid(c)
  {
    UrlReport(c.media, "product_media_urls");
    UrlReport(c.videos, "video_urls");
  }

  lemma {:induction false} SiblingReport(skus: seq<SkuContent>)
    ensures SiblingErrors(skus) == [] <==> DistinctSkuIds(skus) && AllValid(skus)
  {
    if skus != [] {
      var n := |skus| - 1;
      SiblingReport(skus[..n]);
      SkuReport(skus[n]);
      DistinctSnoc(skus);
      assert AllValid(skus) <==> AllValid(skus[..n]) && SkuValid(skus[n]);
      BothEmpty(When(Repeats(skus[..n], skus[n].skuId), SkuRepeated, "sku_id"), SkuErrors(skus[n]));
    }
  }

  lemma BothEmpty(a: Errors, b: Errors)
    ensures a + b == [] <==> a == [] && b == []
  {
  }

  lemma DistinctSnoc(skus: seq<SkuContent>)
    requires skus != []
    ensures var n := |skus| - 1; DistinctSkuIds(skus) <==> DistinctSkuIds(skus[..n]) && !Repeats(skus[..n], skus[n].skuId)
  {
  }

  /** The payload report is empty exactly for a valid family. */
  lemma FamilyReport(product: ProductContent, skus: seq<SkuContent>)
    ensures FamilyErrors(product, skus) == [] <==> FamilyValid(product, skus)
  {
    ProductReport(product);
    SiblingReport(skus);
  }

  lemma SkuCompletenessReport(c: SkuContent)
    requires SkuValid(c)
    ensures SkuCompleteness(c) == [] <==> SkuReady(c)
  {
  }

  lemma AllReadySnoc(skus: seq<SkuContent>)
    requires skus != []
    ensures AllReady(skus) <==> AllReady(skus[..|skus| - 1]) && SkuReady(skus[|skus| - 1])
  {
  }

  lemma {:induction false} CompletenessReport(skus: seq<SkuContent>)
    requires AllValid(skus)
    ensures CompletenessErrors(skus) == [] <==> AllReady(skus)
  {
    if skus != [] {
      var n := |skus| - 1;
      CompletenessReport(skus[..n]);
      SkuCompletenessReport(skus[n]);
      BothEmpty(CompletenessErrors(skus[..n]), SkuCompleteness(skus[n]));
      AllReadySnoc(skus);
    }
  }

  /** The readiness gate opens exactly for a ready family. */
  lemma GateReport(product: ProductContent, skus: seq<SkuContent>)
    ensures GateErrors(product, skus) == [] <==> FamilyReady(product, skus)
  {
    FamilyReport(product, skus);
    if FamilyErrors(product, skus) == [] { CompletenessReport(skus); }
  }

  /** A family is warned about exactly for the SKUs that sell below their cost. */
  lemma {:induction false} WarningsAreLossLeaders(skus: seq<SkuContent>)
    ensures FamilyWarnings(skus) == [] <==> forall i :: 0 <= i < |skus| ==> skus[i].prices.cost <= skus[i].prices.selling
    ensures |FamilyWarnings(skus)| <= |skus|
  {
    if skus != [] { WarningsAreLossLeaders(skus[..|skus| - 1]); }
  }

  // ================================================================ storing keeps the rules

  lemma StoredSkuKeepsTheRules(c: SkuContent)
    requires SkuValid(c) && StorableSku(c)
    ensures SkuValid(StoredSku(c)) && (SkuReady(c) ==> SkuReady(StoredSku(c)))
  {
  }

  // ================================================================ the report builders

  method ValidatePricing(p: Prices) returns (errors: Errors, warnings: seq<Warning>)
    ensures errors == PricingErrors(p) && warnings == PricingWarnings(p)
    ensures errors == [] <==> ValidPrices(p)
    ensures warnings == [] <==> p.cost <= p.selling
  {
    errors, warnings := [], [];
    if p.mrp <= 0.0 { errors := errors + [ValidationError(PricingViolation, "mrp")]; }
    if p.selling <= 0.0 { errors := errors + [ValidationError(PricingViolation, "selling_price")]; }
    if p.cost <= 0.0 { errors := errors + [ValidationError(PricingViolation, "cost_price")]; }
    if p.mrp > 0.0 && p.selling > 0.0 && p.selling > p.mrp {
      errors := errors + [ValidationError(PricingViolation, "selling_price")];
    }
    if p.cost > p.selling { warnings := [LossLeader(p.cost, p.selling)]; }
  }

  method ValidateUrls(urls: seq<Url>, field: string) returns (errors: Errors)
    ensures errors == UrlErrors(urls, field)
    ensures errors == [] <==> ValidUrls(urls)
  {
    errors := [];
    for i := 0 to |urls|
      invariant errors == UrlErrors(urls[..i], field)
    {
      assert urls[..i + 1][..i] == urls[..i];
      if !ValidUrl(urls[i]) { errors := errors + [ValidationError(SyntaxError, field)]; }
    }
    assert urls[..|urls|] == urls;
    UrlReport(urls, field);
  }

  method ValidateSkuInput(c: SkuContent) returns (errors: Errors, warnings: seq<Warning>)
    ensures errors == SkuErrors(c) && warnings == PricingWarnings(c.prices)
    ensures errors == [] <==> SkuValid(c)
  {
    errors := if ValidSkuId(c.skuId) then [] else [ValidationError(SyntaxError, "sku_id")];
    var pricing;
    pricing, warnings := ValidatePricing(c.prices);
    var urls := ValidateUrls(c.media, "sku_media_urls");
    errors := errors + pricing + DimensionErrors(c.packaging) + urls;
    if c.sizeType.Some? && c.sizeType.value !in {"size", "variant"} {
      errors := errors + [ValidationError(SyntaxError, "size_type")];
    }
    SkuReport(c);
  }

  lemma OneMoreSibling(skus: seq<SkuContent>, i: nat)
    requires i < |skus|
    ensures SiblingErrors(skus[..i + 1])
         == SiblingErrors(skus[..i]) + (When(Repeats(skus[..i], skus[i].skuId), SkuRepeated, "sku_id") + SkuErrors(skus[i]))
    ensures FamilyWarnings(skus[..i + 1]) == FamilyWarnings(skus[..i]) + PricingWarnings(skus[i].prices)
    ensures forall id :: Repeats(skus[..i + 1], id) <==> Repeats(skus[..i], id) || id == skus[i].skuId
  {
    assert skus[..i + 1][..i] == skus[..i] && skus[..i + 1][i] == skus[i];
    RepeatsSnoc(skus[..i], skus[i]);
    assert skus[..i + 1] == skus[..i] + [skus[i]];
  }

  method ValidateSiblings(skus: seq<SkuContent>) returns (errors: Errors, warnings: seq<Warning>)
    ensures errors == SiblingErrors(skus) && warnings == FamilyWarnings(skus)
  {
    errors, warnings := [], [];
    var seen: set<string> := {};
    for i := 0 to |skus|
      invariant errors == SiblingErrors(skus[..i]) && warnings == FamilyWarnings(skus[..i])
      invariant forall id :: id in seen <==> Repeats(skus[..i], id)
    {
      OneMoreSibling(skus, i);
      var repeated := When(skus[i].skuId in seen, SkuRepeated, "sku_id");
      var report, warned := ValidateSkuInput(skus[i]);
      errors, warnings := errors + (repeated + report), warnings + warned;
      seen := seen + {skus[i].skuId};
    }
    assert skus[..|skus|] == skus;
  }

  method ValidateProductFamilyPayload(product: ProductContent, skus: seq<SkuContent>) returns (errors: Errors, warnings: seq<Warning>)
    ensures errors == FamilyErrors(product, skus) && warnings == FamilyWarnings(skus)
    ensures errors == [] <==> FamilyValid(product, skus)
  {
    var siblings;
    siblings, warnings := ValidateSiblings(skus);
    errors := ProductErrors(product) + siblings;
    FamilyReport(product, skus);
  }

  lemma RepeatsSnoc(skus: seq<SkuContent>, c: SkuContent)
    ensures forall id :: Repeats(skus + [c], id) <==> Repeats(skus, id) || id == c.skuId
  {
    forall id | Repeats(skus, id) || id == c.skuId ensures Repeats(skus + [c], id) {
      if Repeats(skus, id) {
        var i :| 0 <= i < |skus| && skus[i].skuId == id;
        assert (skus + [c])[i] == skus[i];
      } else {
        assert (skus + [c])[|skus|] == c;
      }
    }
  }

  method ValidateCompleteness(skus: seq<SkuContent>) returns (errors: Errors)
    ensures errors == CompletenessErrors(skus)
  {
    errors := [];
    for i := 0 to |skus|
      invariant errors == CompletenessErrors(skus[..i])
    {
      assert skus[..i + 1][..i] == skus[..i] && skus[..i + 1][i] == skus[i];
      errors := errors + SkuCompleteness(skus[i]);
    }
    assert skus[..|skus|] == skus;
  }

  method ValidateReadinessGate(product: ProductContent, skus: seq<SkuContent>) returns (errors: Errors, warnings: seq<Warning>)
    ensures errors == GateErrors(product, skus) && warnings == FamilyWarnings(skus)
    ensures errors == [] <==> FamilyReady(product, skus)
  {
    errors, warnings := ValidateProductFamilyPayload(product, skus);
    errors := errors + When(skus == [], Incomplete, "skus") + ProductCompleteness(product);
    var rows := ValidateCompleteness(skus);
    errors := errors + rows;
    GateReport(product, skus);
  }
}
