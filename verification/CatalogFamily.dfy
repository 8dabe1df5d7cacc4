/** Resolution of a payload's SKUs against the registry, and the family aggregate the readiness gate judges. */
module CatalogFamily {
  import opened Common
  import opened CatalogModel
  import opened CatalogValidation
  import opened CatalogStore

  datatype Rejection =
    | Invalid(errors: Errors)
    | GateClosed
    | ProductNotFound
    | CodeCollision
    | SkuCollision
    | CrossProduct
    | TargetNotAllowed
    | IdempotencyConflict
    | RefusedByDatabase

  // ================================================================ resolution

  /** Parent membership first, then the permanent reservation of the SKU id. */
  function ResolveOne(shelf: Shelf, parent: Uuid, s: SkuInput): Result<SkuInput, Rejection> {
    if Known(shelf.skus, s) && shelf.skus[s.id.value].parent != parent then Err(CrossProduct)
    else if s.content.skuId !in shelf.ids then Ok(s)
    else
      var owner := shelf.ids[s.content.skuId];
      if s.id.Some? then if s.id.value != owner then Err(SkuCollision) else Ok(s)
      else if owner in shelf.skus && shelf.skus[owner].parent != parent then Err(CrossProduct)
      else if owner in shelf.skus && shelf.skus[owner].content.skuId != s.content.skuId then Err(SkuCollision)
      else Ok(s.(id := Some(owner)))
  }

  function Resolve(shelf: Shelf, parent: Uuid, skus: seq<SkuInput>): Result<seq<SkuInput>, Rejection> {
    if skus == [] then Ok([])
    else
      var n := |skus| - 1;
      match Resolve(shelf, parent, skus[..n])
      case Err(r) => Err(r)
      case Ok(done) =>
        match ResolveOne(shelf, parent, skus[n])
        case Err(r) => Err(r)
        case Ok(s) => Ok(done + [s])
  }

  function Contents(skus: seq<SkuInput>): (contents: seq<SkuContent>)
    ensures |contents| == |skus|
    ensures forall i :: 0 <= i < |skus| ==> contents[i] == skus[i].content
  {
    if skus == [] then [] else Contents(skus[..|skus| - 1]) + [skus[|skus| - 1].content]
  }

  /** Every input that survives resolution may be written: it meets no other row's id, and no other parent's row. */
  lemma {:induction false} ResolvedInputsAreCleared(shelf: Shelf, parent: Uuid, skus: seq<SkuInput>)
    requires Reserved(shelf.skus, shelf.ids)
    ensures var r := Resolve(shelf, parent, skus);
            r.Ok? ==> AllCleared(shelf, parent, r.value) && Contents(r.value) == Contents(skus)
  {
    if skus != [] {
      var n := |skus| - 1;
      ResolvedInputsAreCleared(shelf, parent, skus[..n]);
      var r := Resolve(shelf, parent, skus);
      if r.Ok? {
        assert r.value[..n] == Resolve(shelf, parent, skus[..n]).value;
        assert Cleared(shelf, parent, r.value[n]);
      }
    }
  }

  lemma {:induction false} ResolutionErrors(shelf: Shelf, parent: Uuid, skus: seq<SkuInput>)
    ensures var r := Resolve(shelf, parent, skus); r.Err? ==> r.error == SkuCollision || r.error == CrossProduct
  {
    if skus != [] { ResolutionErrors(shelf, parent, skus[..|skus| - 1]); }
  }

  /** Some row of this product has this SKU id now. */
  ghost predicate IsCurrentIdOf(skus: map<Uuid, Sku>, parent: Uuid, skuId: string) {
    exists row :: row in skus && skus[row].parent == parent && skus[row].content.skuId == skuId
  }

  /**
   An input that can be saved under this product. An internal id of an existing row must be one of its rows. The SKU
   id must be unreserved, or reserved to the internal id given, or, without an internal id, be current in this product.
   */
  ghost predicate Acceptable(shelf: Shelf, parent: Uuid, s: SkuInput) {
    && (s.id.Some? && s.id.value in shelf.skus ==> shelf.skus[s.id.value].parent == parent)
    && (|| s.content.skuId !in shelf.ids
        || s.id == Some(shelf.ids[s.content.skuId])
        || (s.id.None? && IsCurrentIdOf(shelf.skus, parent, s.content.skuId)))
  }

  ghost predicate AllAcceptable(shelf: Shelf, parent: Uuid, skus: seq<SkuInput>) {
    forall i :: 0 <= i < |skus| ==> Acceptable(shelf, parent, skus[i])
  }

  /** An accepted input with the internal id it stands for. */
  ghost predicate Identifies(shelf: Shelf, given: SkuInput, resolved: SkuInput) {
    && resolved.content == given.content
    && (given.id.Some? ==> resolved.id == given.id)
    && (given.id.None? && given.content.skuId in shelf.ids ==> resolved.id == Some(shelf.ids[given.content.skuId]))
    && (given.id.None? && given.content.skuId !in shelf.ids ==> resolved.id == None)
  }

  /** The input names a row of another product, by its internal id or by a SKU id reserved to one. */
  predicate NamesAnotherProduct(shelf: Shelf, parent: Uuid, s: SkuInput) {
    || (s.id.Some? && s.id.value in shelf.skus && shelf.skus[s.id.value].parent != parent)
    || (s.id.None? && s.content.skuId in shelf.ids && shelf.ids[s.content.skuId] in shelf.skus
        && shelf.skus[shelf.ids[s.content.skuId]].parent != parent)
  }

  lemma OneVerdict(shelf: Shelf, parent: Uuid, s: SkuInput)
    requires Reserved(shelf.skus, shelf.ids)
    ensures var r := ResolveOne(shelf, parent, s);
            && (r.Ok? <==> Acceptable(shelf, parent, s))
            && (r.Ok? ==> Identifies(shelf, s, r.value))
            && (r.Err? ==> r.error == if NamesAnotherProduct(shelf, parent, s) then CrossProduct else SkuCollision)
  {
  }

  /** The first unacceptable input, and the reason it gives. */
  ghost predicate FirstRejection(shelf: Shelf, parent: Uuid, skus: seq<SkuInput>, i: nat, reason: Rejection) {
    && i < |skus| && AllAcceptable(shelf, parent, skus[..i]) && !Acceptable(shelf, parent, skus[i])
    && reason == if NamesAnotherProduct(shelf, parent, skus[i]) then CrossProduct else SkuCollision
  }

  /**
   Resolution succeeds exactly when every input is acceptable. Each input then keeps its content and its internal
   id, and one without an internal id gets the id its SKU id is reserved to. Otherwise the first unacceptable
   input gives the reason.
   */
  lemma {:induction false} ResolutionVerdict(shelf: Shelf, parent: Uuid, skus: seq<SkuInput>)
    requires Reserved(shelf.skus, shelf.ids)
    ensures var r := Resolve(shelf, parent, skus);
            && (r.Ok? <==> AllAcceptable(shelf, parent, skus))
            && (r.Ok? ==> |r.value| == |skus| && forall i :: 0 <= i < |skus| ==> Identifies(shelf, skus[i], r.value[i]))
            && (r.Err? ==> exists i: nat :: FirstRejection(shelf, parent, skus, i, r.error))
  {
    if skus != [] {
      var n := |skus| - 1;
      ResolutionVerdict(shelf, parent, skus[..n]);
      OneVerdict(shelf, parent, skus[n]);
      var before := Resolve(shelf, parent, skus[..n]);
      if before.Err? {
        var i: nat :| FirstRejection(shelf, parent, skus[..n], i, before.error);
        assert FirstRejection(shelf, parent, skus[..n], i, before.error);
        assert skus[..n][..i] == skus[..i];
        assert FirstRejection(shelf, parent, skus, i, before.error);
      } else if ResolveOne(shelf, parent, skus[n]).Err? {
        assert FirstRejection(shelf, parent, skus, n, ResolveOne(shelf, parent, skus[n]).error);
      }
    }
  }

  /** A SKU id that its holder has given up is never accepted for a new SKU. */
  lemma RetiredIdsAreNotReused(shelf: Shelf, parent: Uuid, c: SkuContent)
    requires Reserved(shelf.skus, shelf.ids) && c.skuId in shelf.ids
    requires shelf.skus[shelf.ids[c.skuId]].content.skuId != c.skuId
    ensures ResolveOne(shelf, parent, SkuInput(None, c)).Err?
    ensures forall id :: id != shelf.ids[c.skuId] ==> ResolveOne(shelf, parent, SkuInput(Some(id), c)).Err?
  {
  }

  // ================================================================ the family aggregate

  predicate IsCurrent(skus: map<Uuid, Sku>, ids: map<string, Uuid>, parent: Uuid, k: string) {
    k in ids && ids[k] in skus && skus[ids[k]].parent == parent && skus[ids[k]].content.skuId == k
  }

  /** The persisted rows of a product, by current SKU id. */
  function FamilyById(skus: map<Uuid, Sku>, ids: map<string, Uuid>, parent: Uuid): map<string, SkuContent> {
    map k | k in ids && IsCurrent(skus, ids, parent, k) :: skus[ids[k]].content
  }

  /** Payload SKUs laid over the persisted ones: merged where the SKU id is current, unmerged otherwise. */
  function MergeFamily(family: map<string, SkuContent>, skus: seq<SkuInput>): map<string, SkuContent> {
    if skus == [] then family
    else
      var n := |skus| - 1;
      var before, c := MergeFamily(family, skus[..n]), skus[n].content;
      before[c.skuId := if c.skuId in before then MergeSku(before[c.skuId], c) else c]
  }

  ghost predicate MapReady(product: ProductContent, family: map<string, SkuContent>) {
    ProductReady(product) && family.Keys != {} && forall k :: k in family ==> SkuReady(family[k])
  }

  ghost predicate Keyed(family: map<string, SkuContent>) { forall k :: k in family ==> family[k].skuId == k }

  /** The rows of a map, in some order. */
  ghost predicate Lists(rows: seq<SkuContent>, family: map<string, SkuContent>) {
    && DistinctSkuIds(rows)
    && (forall i :: 0 <= i < |rows| ==> rows[i].skuId in family && family[rows[i].skuId] == rows[i])
    && (forall k :: k in family ==> Repeats(rows, k))
  }

  /** The verdict of the gate does not depend on the order in which the rows are listed. */
  lemma GateJudgesTheMap(product: ProductContent, rows: seq<SkuContent>, family: map<string, SkuContent>)
    requires Lists(rows, family)
    ensures GateErrors(product, rows) == [] <==> MapReady(product, family)
  {
    GateReport(product, rows);
    if AllReady(rows) {
      forall k | k in family ensures SkuReady(family[k]) {
        var i :| 0 <= i < |rows| && rows[i].skuId == k;
        assert SkuReady(rows[i]);
      }
    }
    if rows == [] {
      assert forall k :: k in family ==> Repeats(rows, k);
      assert family.Keys == {};
    } else {
      assert rows[0].skuId in family.Keys;
    }
  }

  lemma {:induction false} MergeKeepsKeys(family: map<string, SkuContent>, skus: seq<SkuInput>)
    requires Keyed(family)
    ensures Keyed(MergeFamily(family, skus))
  {
    if skus != [] { MergeKeepsKeys(family, skus[..|skus| - 1]); }
  }

  function Laid(family: map<string, SkuContent>, c: SkuContent): SkuContent {
    if c.skuId in family then MergeSku(family[c.skuId], c) else c
  }

  lemma {:induction false} UnmentionedEntry(family: map<string, SkuContent>, skus: seq<SkuInput>, k: string)
    requires forall i :: 0 <= i < |skus| ==> skus[i].content.skuId != k
    ensures k in MergeFamily(family, skus) <==> k in family
    ensures k in family ==> MergeFamily(family, skus)[k] == family[k]
  {
    if skus != [] { UnmentionedEntry(family, skus[..|skus| - 1], k); }
  }

  lemma {:induction false} MergedEntry(family: map<string, SkuContent>, skus: seq<SkuInput>, i: nat)
    requires DistinctInputs(skus) && i < |skus|
    ensures var k := skus[i].content.skuId;
            k in MergeFamily(family, skus) && MergeFamily(family, skus)[k] == Laid(family, skus[i].content)
  {
    var n := |skus| - 1;
    if i < n {
      MergedEntry(family, skus[..n], i);
    } else {
      UnmentionedEntry(family, skus[..n], skus[n].content.skuId);
    }
  }

  // ================================================================ what the gate's verdict says about the write

  lemma CurrentIdsAreKnown(shelf: Shelf, parent: Uuid, s: SkuInput)
    requires Reserved(shelf.skus, shelf.ids) && Cleared(shelf, parent, s)
    ensures s.content.skuId in FamilyById(shelf.skus, shelf.ids, parent) ==> Known(shelf.skus, s)
  {
  }

  /**
   The gate judges rows that are not the ones written: on a rename, the stale row and the unmerged new
   one. Its verdict still implies that every input brings the images the written rows need.
   */
  lemma OpenGateMeansImages(shelf: Shelf, parent: Uuid, product: ProductContent, skus: seq<SkuInput>)
    requires Reserved(shelf.skus, shelf.ids) && AllCleared(shelf, parent, skus) && DistinctInputs(skus)
    requires forall i :: 0 <= i < |skus| ==> SkuValid(skus[i].content)
    requires MapReady(product, MergeFamily(FamilyById(shelf.skus, shelf.ids, parent), skus))
    ensures forall i :: 0 <= i < |skus| ==> BringsImages(shelf.skus, skus[i])
  {
    var family := FamilyById(shelf.skus, shelf.ids, parent);
    forall i | 0 <= i < |skus| ensures BringsImages(shelf.skus, skus[i]) {
      MergedEntry(family, skus, i);
      assert Cleared(shelf, parent, skus[i]);
      CurrentIdsAreKnown(shelf, parent, skus[i]);
      assert SkuReady(Laid(family, skus[i].content));
    }
  }

  /** An input the gate lets pass, over a complete family: no blank images, and images if its SKU id is new. */
  predicate Passes(family: map<string, SkuContent>, c: SkuContent) {
    (c.media != [] ==> HasImage(c.media)) && (c.skuId !in family ==> c.media != [])
  }

  /** Over a complete family, the exact verdict of the gate. */
  lemma GateVerdict(family: map<string, SkuContent>, product: ProductContent, skus: seq<SkuInput>)
    requires Keyed(family) && family.Keys != {} && forall k :: k in family ==> SkuReady(family[k])
    requires DistinctInputs(skus) && forall i :: 0 <= i < |skus| ==> SkuValid(skus[i].content)
    ensures MapReady(product, MergeFamily(family, skus))
       <==> ProductReady(product) && forall i :: 0 <= i < |skus| ==> Passes(family, skus[i].content)
  {
    var merged := MergeFamily(family, skus);
    forall i | 0 <= i < |skus|
      ensures skus[i].content.skuId in merged
      ensures SkuReady(merged[skus[i].content.skuId]) <==> Passes(family, skus[i].content)
    {
      MergedEntry(family, skus, i);
      LaidIsReady(family, skus[i].content);
    }
    forall k | k in merged && forall i :: 0 <= i < |skus| ==> skus[i].content.skuId != k ensures SkuReady(merged[k]) {
      UnmentionedEntry(family, skus, k);
    }
    var k :| k in family;
    if forall i :: 0 <= i < |skus| ==> skus[i].content.skuId != k { UnmentionedEntry(family, skus, k); }
    assert merged.Keys != {};
  }

  lemma LaidIsReady(family: map<string, SkuContent>, c: SkuContent)
    requires forall k :: k in family ==> SkuReady(family[k])
    requires SkuValid(c)
    ensures SkuReady(Laid(family, c)) <==> Passes(family, c)
  {
  }
}
