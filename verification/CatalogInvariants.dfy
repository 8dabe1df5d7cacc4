/** What every reachable state of the catalog satisfies, and what no run can undo. */
module CatalogInvariants {
  import opened Common
  import opened CatalogModel
  import opened CatalogValidation
  import opened CatalogStore
  import opened CatalogWrites
  import opened CatalogFamily
  import opened CatalogSpec

  // ================================================================ the invariant

  ghost predicate CodesReserved(r: Registry) {
    && (forall p :: p in r.products ==> r.products[p].content.code in r.codes && r.codes[r.products[p].content.code] == p)
    && (forall k :: k in r.codes ==> r.codes[k] in r.products)
  }

  ghost predicate ParentsExist(skus: map<Uuid, Sku>, products: map<Uuid, Product>) {
    forall s :: s in skus ==> skus[s].parent in products
  }

  ghost predicate HasRow(skus: map<Uuid, Sku>, p: Uuid) { exists s :: s in skus && skus[s].parent == p }

  /** A product outside DRAFT has a complete persisted family. */
  ghost predicate Complete(products: map<Uuid, Product>, skus: map<Uuid, Sku>, p: Uuid)
    requires p in products
  {
    products[p].state != Draft ==> ProductReady(products[p].content) && AllRowsReady(skus, p) && HasRow(skus, p)
  }

  ghost predicate AllComplete(products: map<Uuid, Product>, skus: map<Uuid, Sku>) {
    forall p :: p in products ==> Complete(products, skus, p)
  }

  ghost predicate Consistent(r: Registry, shelf: Shelf) {
    && CodesReserved(r) && ShelfOk(shelf) && ParentsExist(shelf.skus, r.products)
    && AllComplete(r.products, shelf.skus)
  }

  ghost predicate DbOk(db: Db) { Consistent(db.registry, db.shelf) }

  // ================================================================ what only grows

  ghost predicate RegistryGrows(a: Registry, b: Registry) {
    IdsKept(a.codes, b.codes) && a.products.Keys <= b.products.Keys
  }

  ghost predicate ShelfGrows(a: Shelf, b: Shelf) {
    && IdsKept(a.ids, b.ids) && a.ledger <= b.ledger
    && (forall s :: s in a.skus ==> s in b.skus && b.skus[s].parent == a.skus[s].parent)
  }

  ghost predicate Grows(a: Db, b: Db) { RegistryGrows(a.registry, b.registry) && ShelfGrows(a.shelf, b.shelf) }

  // ================================================================ save

  lemma PutKeepsCodes(r: Registry, id: Uuid, p: Product)
    requires CodesReserved(r) && PutProduct(r, id, p).Stored?
    ensures CodesReserved(PutProduct(r, id, p).value) && RegistryGrows(r, PutProduct(r, id, p).value)
  {
  }

  /** With the code free or one's own, the constraints of the product table are met. */
  lemma OwnCodeIsNotTaken(r: Registry, id: Uuid, code: string)
    requires CodesReserved(r) && !ReservedToAnother(r.codes, code, id)
    ensures !CodeTaken(r, id, code)
  {
  }

  /** What a plan that passed every check guarantees about the write that follows. */
  ghost predicate Sound(r: Registry, shelf: Shelf, plan: Plan) {
    && !ReservedToAnother(r.codes, plan.product.content.code, plan.id)
    && AllCleared(shelf, plan.id, plan.skus) && DistinctInputs(plan.skus)
    && (plan.isNew || plan.id in r.products)
    && plan.product.state != Published
    && (plan.product.state == Ready ==>
          && ProductReady(plan.product.content) && AllRowsReady(shelf.skus, plan.id) && HasRow(shelf.skus, plan.id)
          && forall i :: 0 <= i < |plan.skus| ==> BringsImages(shelf.skus, plan.skus[i]))
  }

  lemma ValidInputs(skus: seq<SkuInput>, resolved: seq<SkuInput>)
    requires Contents(resolved) == Contents(skus)
    requires DistinctSkuIds(Contents(skus)) && AllValid(Contents(skus))
    ensures DistinctInputs(resolved) && AllInputsValid(resolved)
  {
  }

  /** The inputs of a plan are the payload's, cleared and valid. */
  lemma PlannedInputs(db: Db, p: Payload, spareId: Uuid)
    requires Reserved(db.shelf.skus, db.shelf.ids) && PlanSave(db, p, spareId).Ok?
    ensures var plan := PlanSave(db, p, spareId).value;
            && Contents(plan.skus) == Contents(p.skus)
            && AllCleared(db.shelf, plan.id, plan.skus) && DistinctInputs(plan.skus) && AllInputsValid(plan.skus)
            && FamilyValid(p.product, Contents(p.skus))
  {
    var plan := PlanSave(db, p, spareId).value;
    FamilyReport(p.product, Contents(p.skus));
    ResolvedInputsAreCleared(db.shelf, plan.id, p.skus);
    ValidInputs(p.skus, plan.skus);
  }

  lemma PlannedProduct(db: Db, p: Payload, spareId: Uuid)
    requires PlanSave(db, p, spareId).Ok?
    ensures var plan := PlanSave(db, p, spareId).value;
            && plan.id == (if p.productId.Some? then p.productId.value else spareId) && plan.isNew == p.productId.None?
            && (p.productId.Some? ==> plan.id in db.registry.products)
            && plan.product.content ==
               (if p.productId.Some? then MergeProduct(db.registry.products[plan.id].content, p.product) else p.product)
            && plan.product.state != Published && !ReservedToAnother(db.registry.codes, plan.product.content.code, plan.id)
  {
  }

  lemma PlansAreSound(db: Db, p: Payload, spareId: Uuid)
    requires DbOk(db)
    ensures PlanSave(db, p, spareId).Ok? ==> Sound(db.registry, db.shelf, PlanSave(db, p, spareId).value)
  {
    var r := PlanSave(db, p, spareId);
    if r.Ok? {
      PlannedProduct(db, p, spareId);
      PlannedInputs(db, p, spareId);
      if r.value.product.state == Ready { ReadyPlansAreReady(db, p, spareId); }
    }
  }

  lemma ReadyPlansAreReady(db: Db, p: Payload, spareId: Uuid)
    requires DbOk(db) && PlanSave(db, p, spareId).Ok? && PlanSave(db, p, spareId).value.product.state == Ready
    ensures var plan := PlanSave(db, p, spareId).value;
            && ProductReady(plan.product.content) && AllRowsReady(db.shelf.skus, plan.id) && HasRow(db.shelf.skus, plan.id)
            && forall i :: 0 <= i < |plan.skus| ==> BringsImages(db.shelf.skus, plan.skus[i])
  {
    var plan := PlanSave(db, p, spareId).value;
    PlannedInputs(db, p, spareId);
    assert Complete(db.registry.products, db.shelf.skus, plan.id);
    OpenGateMeansImages(db.shelf, plan.id, plan.product.content, plan.skus);
  }

  lemma OthersStayComplete(r: Registry, shelf: Shelf, r': Registry, shelf': Shelf, id: Uuid, p: Uuid)
    requires p in r.products && p != id && p in r'.products && r'.products[p] == r.products[p]
    requires Complete(r.products, shelf.skus, p) && RowsKept(shelf.skus, shelf'.skus, id)
    ensures Complete(r'.products, shelf'.skus, p)
  {
  }

  lemma RowsRemain(skus: map<Uuid, Sku>, skus': map<Uuid, Sku>, id: Uuid)
    requires RowsKept(skus, skus', id) && HasRow(skus, id)
    ensures HasRow(skus', id)
  {
  }

  lemma WritingKeepsTheInvariant(db: Db, plan: Plan, spare: Supply)
    requires DbOk(db) && Sound(db.registry, db.shelf, plan)
    ensures var r := WritePlan(db, plan, spare);
            && r.1 != Rejected(RefusedByDatabase)
            && DbOk(r.0) && Grows(db, r.0)
            && (r.1.Success? ==> r.1.done.productId == plan.id && plan.id in r.0.registry.products
                                 && r.0.registry.products[plan.id] == plan.product)
            && (!r.1.Success? ==> r.0 == db)
  {
    OwnCodeIsNotTaken(db.registry, plan.id, plan.product.content.code);
    WriteSkusAreSound(db.shelf, plan.id, plan.skus, spare);
    var r := WritePlan(db, plan, spare);
    if r.1.Success? {
      PutKeepsCodes(db.registry, plan.id, plan.product);
      WrittenFamilyIsComplete(db, plan, spare);
    }
  }

  lemma WrittenFamilyIsComplete(db: Db, plan: Plan, spare: Supply)
    requires DbOk(db) && Sound(db.registry, db.shelf, plan) && WritePlan(db, plan, spare).1.Success?
    ensures var after := WritePlan(db, plan, spare).0;
            AllComplete(after.registry.products, after.shelf.skus) && ParentsExist(after.shelf.skus, after.registry.products)
  {
    var after := WritePlan(db, plan, spare).0;
    WriteSkusAreSound(db.shelf, plan.id, plan.skus, spare);
    assert after.registry.products == db.registry.products[plan.id := plan.product];
    assert RowsKept(db.shelf.skus, after.shelf.skus, plan.id);
    if plan.product.state == Ready {
      WriteSkusKeepReady(db.shelf, plan.id, plan.skus, spare);
      RowsRemain(db.shelf.skus, after.shelf.skus, plan.id);
    }
    forall p | p in after.registry.products ensures Complete(after.registry.products, after.shelf.skus, p) {
      if p != plan.id { OthersStayComplete(db.registry, db.shelf, after.registry, after.shelf, plan.id, p); }
    }
  }

  /**
   A save keeps the invariant, never meets a reservation trigger, and on success leaves the product
   outside PUBLISHED; on anything else it leaves the catalog as it was.
   */
  lemma SaveKeepsTheInvariant(db: Db, p: Payload, spareId: Uuid, spare: Supply)
    requires DbOk(db)
    ensures var r := SaveBody(db, p, spareId, spare);
            && r.1 != Rejected(RefusedByDatabase) && DbOk(r.0) && Grows(db, r.0)
            && (r.1.Success? ==> r.1.done.productId in r.0.registry.products
                                 && r.0.registry.products[r.1.done.productId].state != Published)
            && (!r.1.Success? ==> r.0 == db)
  {
    PlansAreSound(db, p, spareId);
    ResolutionErrors(db.shelf, if p.productId.Some? then p.productId.value else spareId, p.skus);
    var plan := PlanSave(db, p, spareId);
    if plan.Ok? { WritingKeepsTheInvariant(db, plan.value, spare); }
  }

  // ================================================================ rename, transition, publication

  lemma RenamedStaysReady(c: ProductContent, code: string)
    requires ProductReady(c) && ValidProductCode(code)
    ensures ProductReady(c.(code := code))
  {
  }

  lemma RenameKeepsTheInvariant(db: Db, id: Uuid, code: string)
    requires DbOk(db)
    ensures var r := RenameBody(db, id, code);
            Sane(db, r) && (r.1.Success? ==> id in r.0.registry.products && r.0.registry.products[id].state != Published)
  {
    if ValidProductCode(code) && id in db.registry.products && !ReservedToAnother(db.registry.codes, code, id) {
      OwnCodeIsNotTaken(db.registry, id, code);
      RenamedRegistryIsOk(db, id, code, if db.registry.products[id].state == Published then Ready else db.registry.products[id].state);
    }
  }

  lemma RenamedRegistryIsOk(db: Db, id: Uuid, code: string, state: Lifecycle)
    requires DbOk(db) && id in db.registry.products && ValidProductCode(code)
    requires state != Draft ==> db.registry.products[id].state != Draft
    ensures var w := PutProduct(db.registry, id, Product(db.registry.products[id].content.(code := code), state));
            w.Stored? ==> DbOk(db.(registry := w.value)) && Grows(db, db.(registry := w.value))
  {
    var renamed := Product(db.registry.products[id].content.(code := code), state);
    if PutProduct(db.registry, id, renamed).Stored? {
      PutKeepsCodes(db.registry, id, renamed);
      RenamedStaysComplete(db.registry, db.shelf.skus, id, code, state);
    }
  }

  lemma RenamedStaysComplete(r: Registry, skus: map<Uuid, Sku>, id: Uuid, code: string, state: Lifecycle)
    requires id in r.products && ValidProductCode(code) && AllComplete(r.products, skus)
    requires state != Draft ==> r.products[id].state != Draft
    ensures AllComplete(r.products[id := Product(r.products[id].content.(code := code), state)], skus)
  {
    var renamed := r.products[id := Product(r.products[id].content.(code := code), state)];
    if ProductReady(r.products[id].content) { RenamedStaysReady(r.products[id].content, code); }
    forall p | p in renamed ensures Complete(renamed, skus, p) {
      assert Complete(r.products, skus, p);
    }
  }

  lemma FamilyHasTheRow(skus: map<Uuid, Sku>, ids: map<string, Uuid>, s: Uuid)
    requires Reserved(skus, ids) && s in skus
    ensures var c, family := skus[s].content, FamilyById(skus, ids, skus[s].parent);
            c.skuId in family && family[c.skuId] == c
  {
  }

  lemma FamilyIsInhabited(skus: map<Uuid, Sku>, ids: map<string, Uuid>, id: Uuid)
    requires Reserved(skus, ids)
    ensures FamilyById(skus, ids, id).Keys != {} <==> HasRow(skus, id)
  {
    if HasRow(skus, id) {
      var s :| s in skus && skus[s].parent == id;
      FamilyHasTheRow(skus, ids, s);
    }
    if k :| k in FamilyById(skus, ids, id).Keys {
      var s := ids[k];
      assert s in skus && skus[s].parent == id;
    }
  }

  lemma FamilyIsReady(skus: map<Uuid, Sku>, ids: map<string, Uuid>, id: Uuid)
    requires Reserved(skus, ids)
    ensures var family := FamilyById(skus, ids, id);
            (forall k :: k in family ==> SkuReady(family[k])) <==> AllRowsReady(skus, id)
  {
    var family := FamilyById(skus, ids, id);
    forall s | s in skus && skus[s].parent == id
      ensures skus[s].content.skuId in family && family[skus[s].content.skuId] == skus[s].content
    {
      FamilyHasTheRow(skus, ids, s);
    }
    if AllRowsReady(skus, id) {
      forall k | k in family ensures SkuReady(family[k]) {
        var s := ids[k];
        assert SkuReady(skus[s].content);
      }
    }
  }

  /** An open gate on the persisted rows is completeness of the family. */
  lemma OpenGateMeansComplete(product: ProductContent, shelf: Shelf, id: Uuid)
    requires Reserved(shelf.skus, shelf.ids)
    ensures MapReady(product, FamilyById(shelf.skus, shelf.ids, id))
       <==> ProductReady(product) && AllRowsReady(shelf.skus, id) && HasRow(shelf.skus, id)
  {
    FamilyIsInhabited(shelf.skus, shelf.ids, id);
    FamilyIsReady(shelf.skus, shelf.ids, id);
  }

  lemma SettingStateKeepsCodes(r: Registry, ids: set<Uuid>, state: Lifecycle)
    requires CodesReserved(r)
    ensures CodesReserved(SetState(r, ids, state)) && RegistryGrows(r, SetState(r, ids, state))
    ensures SetState(r, ids, state).products.Keys == r.products.Keys
  {
  }

  ghost predicate FamilyIsComplete(product: ProductContent, skus: map<Uuid, Sku>, p: Uuid) {
    ProductReady(product) && AllRowsReady(skus, p) && HasRow(skus, p)
  }

  /** Setting the state of products, to anything but DRAFT only where their families are complete. */
  lemma SettingStateKeepsComplete(r: Registry, skus: map<Uuid, Sku>, ids: set<Uuid>, state: Lifecycle)
    requires AllComplete(r.products, skus)
    requires state == Draft || forall p :: p in ids && p in r.products ==> FamilyIsComplete(r.products[p].content, skus, p)
    ensures AllComplete(SetState(r, ids, state).products, skus)
  {
    forall p | p in r.products ensures Complete(SetState(r, ids, state).products, skus, p) {
      assert Complete(r.products, skus, p);
    }
  }

  lemma TransitionKeepsTheInvariant(db: Db, id: Uuid, target: Lifecycle)
    requires DbOk(db) && target != Published
    ensures Sane(db, TransitionBody(db, id, target))
  {
    if TransitionBody(db, id, target).1.Success? {
      SettingStateKeepsCodes(db.registry, {id}, target);
      OpenGateMeansComplete(db.registry.products[id].content, db.shelf, id);
      SettingStateKeepsComplete(db.registry, db.shelf.skus, {id}, target);
    }
  }

  lemma PublishKeepsTheInvariant(db: Db, targets: set<Uuid>)
    requires DbOk(db)
    ensures DbOk(Publish(db, targets).0) && Grows(db, Publish(db, targets).0)
  {
    var ids := ExportedProducts(db, targets);
    forall p | p in ids ensures p in db.registry.products && FamilyIsComplete(db.registry.products[p].content, db.shelf.skus, p) {
      assert Complete(db.registry.products, db.shelf.skus, p);
    }
    SettingStateKeepsCodes(db.registry, ids, Published);
    SettingStateKeepsComplete(db.registry, db.shelf.skus, ids, Published);
  }

  // ================================================================ what a success means

  /** A rename changes the code and, if need be, PUBLISHED to READY; nothing else, and the old code stays reserved. */
  lemma RenameChangesOnlyTheCode(db: Db, id: Uuid, code: string)
    requires DbOk(db) && RenameBody(db, id, code).1.Success?
    ensures var after, row := RenameBody(db, id, code).0, db.registry.products[id];
            && after.shelf == db.shelf && after.records == db.records
            && after.registry.products == db.registry.products[id :=
                 Product(row.content.(code := code), if row.state == Draft then Draft else Ready)]
            && code in after.registry.codes && after.registry.codes[code] == id
            && row.content.code in after.registry.codes && after.registry.codes[row.content.code] == id
  {
    var current := db.registry.products[id].content.code;
    assert current in db.registry.codes && db.registry.codes[current] == id;
  }

  /**
   A rename succeeds exactly for a valid code, an existing product, a code that is free for it, and a row that
   fits the columns; the first of these that fails answers.
   */
  lemma RenameVerdict(db: Db, id: Uuid, code: string)
    requires DbOk(db)
    ensures var r := RenameBody(db, id, code).1;
            var (valid, known) := (ValidProductCode(code), id in db.registry.products);
            var free := code in db.registry.codes ==> db.registry.codes[code] == id;
            && (!valid ==> r == Rejected(Invalid([ValidationError(SyntaxError, "product_code")])))
            && (valid && !known ==> r == Rejected(ProductNotFound))
            && (valid && known && !free ==> r == Rejected(CodeCollision))
            && (valid && known && free ==>
                  if StorableProduct(db.registry.products[id].content.(code := code))
                  then r == Success(Renamed(id, code, if db.registry.products[id].state == Draft then Draft else Ready,
                                            set s | s in db.shelf.skus && db.shelf.skus[s].parent == id))
                  else r == Failed)
  {
    if ValidProductCode(code) && id in db.registry.products && !ReservedToAnother(db.registry.codes, code, id) {
      OwnCodeIsNotTaken(db.registry, id, code);
    }
  }

  /** A transition succeeds exactly for an existing product, to READY only with a complete family, and sets only the state. */
  lemma TransitionVerdict(db: Db, id: Uuid, target: Lifecycle)
    requires DbOk(db) && target != Published
    ensures var r := TransitionBody(db, id, target);
            && (r.1.Success? <==>
                  && id in db.registry.products
                  && (target == Ready ==> ProductReady(db.registry.products[id].content) && AllRowsReady(db.shelf.skus, id)
                                          && HasRow(db.shelf.skus, id)))
            && (!r.1.Success? ==> r.1 == Rejected(if id in db.registry.products then GateClosed else ProductNotFound))
            && (r.1.Success? ==>
                  && r.0.shelf == db.shelf && r.0.registry.codes == db.registry.codes
                  && r.0.registry.products == db.registry.products[id := db.registry.products[id].(state := target)]
                  && r.1.done == Transitioned(id, db.registry.products[id].content.code, target))
  {
    if id in db.registry.products {
      OpenGateMeansComplete(db.registry.products[id].content, db.shelf, id);
      assert SetState(db.registry, {id}, target).products == db.registry.products[id := db.registry.products[id].(state := target)];
    }
  }

  /** A save writes the merged product and leaves the other products alone. */
  lemma SaveWritesTheProduct(db: Db, p: Payload, spareId: Uuid, spare: Supply)
    requires DbOk(db) && SaveBody(db, p, spareId, spare).1.Success?
    ensures var (after, done) := (SaveBody(db, p, spareId, spare).0.registry.products, SaveBody(db, p, spareId, spare).1.done);
            && done.productId == (if p.productId.Some? then p.productId.value else spareId)
            && done.productId in after && done.Saved?
            && done.code == after[done.productId].content.code && done.state == after[done.productId].state
            && after[done.productId].content ==
               (if p.productId.Some? then MergeProduct(db.registry.products[done.productId].content, p.product) else p.product)
            && forall q :: q in db.registry.products && q != done.productId ==> q in after && after[q] == db.registry.products[q]
  {
    var plan := PlanSave(db, p, spareId).value;
    PlannedProduct(db, p, spareId);
    PlanIsWritten(db, plan, spare);
  }

  lemma PlanIsWritten(db: Db, plan: Plan, spare: Supply)
    requires WritePlan(db, plan, spare).1.Success?
    ensures var (after, done) := (WritePlan(db, plan, spare).0, WritePlan(db, plan, spare).1.done);
            && done == Saved(plan.id, plan.product.content.code, plan.product.state, Targets(plan.skus, spare))
            && after.registry.products == db.registry.products[plan.id := plan.product] && after.records == db.records
            && WriteSkus(db.shelf, plan.id, plan.skus, spare) == Stored(after.shelf)
  {
  }

  /**
   A save lays its inputs in order over the rows they target, and touches no other row; when no row is
   targeted twice it writes exactly the payload's SKUs.
   */
  lemma SaveWritesThePayload(db: Db, p: Payload, spareId: Uuid, spare: Supply)
    requires DbOk(db) && SaveBody(db, p, spareId, spare).1.Success?
    ensures var (after, done) := (SaveBody(db, p, spareId, spare).0.shelf.skus, SaveBody(db, p, spareId, spare).1.done);
            var inputs := PlanSave(db, p, spareId).value.skus;
            && Contents(inputs) == Contents(p.skus) && |done.saved| == |inputs|
            && (forall s :: Found(after, s) == RowOf(Found(db.shelf.skus, s), done.productId, inputs, spare, s))
            && (DistinctIds(done.saved) ==> ExactlyWritten(db.shelf.skus, after, done.productId, inputs, done.saved))
  {
    var plan := PlanSave(db, p, spareId).value;
    PlanIsWritten(db, plan, spare);
    PlannedInputs(db, p, spareId);
    WrittenRows(db.shelf, plan.id, plan.skus, spare);
  }

  lemma WrittenRows(base: Shelf, parent: Uuid, skus: seq<SkuInput>, spare: Supply)
    requires WriteSkus(base, parent, skus, spare).Stored?
    ensures var after := WriteSkus(base, parent, skus, spare).value.skus;
            && (forall s :: Found(after, s) == RowOf(Found(base.skus, s), parent, skus, spare, s))
            && (DistinctIds(Targets(skus, spare)) ==> ExactlyWritten(base.skus, after, parent, skus, Targets(skus, spare)))
  {
    var after := WriteSkus(base, parent, skus, spare).value.skus;
    forall s ensures Found(after, s) == RowOf(Found(base.skus, s), parent, skus, spare, s) {
      EachRowIsTheMergeOfItsInputs(base, parent, skus, spare, s);
    }
    if DistinctIds(Targets(skus, spare)) { ThePayloadIsWrittenExactly(base, parent, skus, spare); }
  }

  // ================================================================ every step, every run

  /** A result that keeps the invariant, meets no reservation trigger, and without success changes nothing. */
  ghost predicate Sane(db: Db, r: (Db, Outcome)) {
    DbOk(r.0) && Grows(db, r.0) && r.1 != Rejected(RefusedByDatabase) && (!r.1.Success? ==> r.0 == db)
  }

  lemma GuardStaysSane(db: Db, call: Call, op: Operation, r: (Db, Outcome))
    requires DbOk(db) && Sane(db, r)
    ensures Sane(db, Guarded(db, call, op, r))
  {
    var g := Guarded(db, call, op, r);
    if IsCached(db, call) {
      assert g.0 == db;
    } else {
      assert g.0.registry == r.0.registry || g.0 == db;
    }
  }

  ghost predicate StepSane(db: Db, r: (Db, Option<Outcome>)) {
    && DbOk(r.0) && Grows(db, r.0) && r.1 != Some(Rejected(RefusedByDatabase))
    && (r.1.Some? && !r.1.value.Success? ==> r.0 == db)
  }

  lemma KeyedStepIsSane(db: Db, call: Call, op: Operation, body: (Db, Outcome))
    requires DbOk(db) && Sane(db, body)
    ensures var g := Guarded(db, call, op, body); StepSane(db, (g.0, Some(g.1)))
  {
    GuardStaysSane(db, call, op, body);
  }

  lemma SaveStepIsSane(db: Db, call: Call, p: Payload, spareId: Uuid, spare: Supply)
    requires DbOk(db)
    ensures StepSane(db, Next(db, Save(call, p, spareId, spare)))
  {
    SaveKeepsTheInvariant(db, p, spareId, spare);
    KeyedStepIsSane(db, call, SaveProductFamily, SaveBody(db, p, spareId, spare));
  }

  lemma RenameStepIsSane(db: Db, call: Call, id: Uuid, code: string)
    requires DbOk(db)
    ensures StepSane(db, Next(db, Rename(call, id, code)))
  {
    RenameKeepsTheInvariant(db, id, code);
    KeyedStepIsSane(db, call, RenameProductCode, RenameBody(db, id, code));
  }

  lemma TransitionStepIsSane(db: Db, call: Call, id: Uuid, target: string)
    requires DbOk(db)
    ensures StepSane(db, Next(db, Transition(call, id, target)))
  {
    if target == "DRAFT" || target == "READY" {
      var to := if target == "READY" then Ready else Draft;
      TransitionKeepsTheInvariant(db, id, to);
      KeyedStepIsSane(db, call, TransitionLifecycleState, TransitionBody(db, id, to));
    }
  }

  /** Every step keeps the invariant; the reservation triggers never fire; what is not a success changes nothing. */
  lemma StepKeepsTheInvariant(db: Db, e: Event)
    requires DbOk(db)
    ensures StepSane(db, Next(db, e))
  {
    match e
    case Save(call, payload, spareId, spare) => SaveStepIsSane(db, call, payload, spareId, spare);
    case Rename(call, id, code) => RenameStepIsSane(db, call, id, code);
    case Transition(call, id, target) => TransitionStepIsSane(db, call, id, target);
    case Publication(targets) => PublishKeepsTheInvariant(db, targets);
    case Cleanup(_) =>
  }

  lemma {:induction false} RunKeepsTheInvariant(db: Db, events: seq<Event>)
    requires DbOk(db)
    ensures DbOk(Run(db, events)) && Grows(db, Run(db, events))
    decreases |events|
  {
    if events != [] {
      var before := Run(db, events[..|events| - 1]);
      RunKeepsTheInvariant(db, events[..|events| - 1]);
      StepKeepsTheInvariant(before, events[|events| - 1]);
      GrowsTransitively(db, before, Run(db, events));
    }
  }

  lemma GrowsTransitively(a: Db, b: Db, c: Db)
    requires Grows(a, b) && Grows(b, c)
    ensures Grows(a, c)
  {
  }

  // ================================================================ the main statements

  /** The state after any run from the empty catalog. */
  ghost predicate Reachable(db: Db) { exists events :: Run(EMPTY, events) == db }

  lemma ReachableIsOk(db: Db)
    requires Reachable(db)
    ensures DbOk(db)
  {
    var events :| Run(EMPTY, events) == db;
    assert DbOk(EMPTY);
    RunKeepsTheInvariant(EMPTY, events);
  }

  /**
   In every reachable state, the persisted family of a product in READY or PUBLISHED, listed in any
   order, passes the readiness gate.
   */
  lemma ReadyFamiliesPassTheGate(db: Db, p: Uuid, rows: seq<SkuContent>)
    requires Reachable(db) && p in db.registry.products && db.registry.products[p].state != Draft
    requires Lists(rows, FamilyById(db.shelf.skus, db.shelf.ids, p))
    ensures GateErrors(db.registry.products[p].content, rows) == []
  {
    ReachableIsOk(db);
    var product := db.registry.products[p].content;
    assert Complete(db.registry.products, db.shelf.skus, p);
    OpenGateMeansComplete(product, db.shelf, p);
    GateJudgesTheMap(product, rows, FamilyById(db.shelf.skus, db.shelf.ids, p));
  }

  /** In every reachable state no two products share a code and no two SKUs an id, now or ever reserved. */
  lemma IdentifiersAreUnique(db: Db, p: Uuid, q: Uuid, s: Uuid, t: Uuid)
    requires Reachable(db) && p in db.registry.products && q in db.registry.products && s in db.shelf.skus && t in db.shelf.skus
    ensures db.registry.products[p].content.code == db.registry.products[q].content.code ==> p == q
    ensures db.shelf.skus[s].content.skuId == db.shelf.skus[t].content.skuId ==> s == t
  {
    ReachableIsOk(db);
  }

  /** Whatever happens afterwards, a reserved code or SKU id keeps its owner and a SKU keeps its product. */
  lemma ReservationsArePermanent(events: seq<Event>, more: seq<Event>)
    ensures Grows(Run(EMPTY, events), Run(Run(EMPTY, events), more))
  {
    assert Reachable(Run(EMPTY, events));
    ReachableIsOk(Run(EMPTY, events));
    RunKeepsTheInvariant(Run(EMPTY, events), more);
  }
}
