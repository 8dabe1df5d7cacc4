/** Exactly when a save demotes a product, what it leaves of the family, and what a publication commits. */
module CatalogVerdicts {
  import opened Common
  import opened CatalogModel
  import opened CatalogValidation
  import opened CatalogStore
  import opened CatalogWrites
  import opened CatalogFamily
  import opened CatalogSpec
  import opened CatalogInvariants

  // ================================================================ the exact verdict of a save

  /** The product a save is for. */
  function ProductOf(p: Payload, spareId: Uuid): Uuid { if p.productId.Some? then p.productId.value else spareId }

  predicate CodeIsFree(codes: map<string, Uuid>, code: string, id: Uuid) { code in codes ==> codes[code] == id }

  /**
   The checks before the first write let a payload pass exactly when it is a valid family, its product exists if it
   names one, its code is free for that product, and every SKU input is acceptable. The first check that fails answers.
   */
  lemma PlanVerdict(db: Db, p: Payload, spareId: Uuid)
    requires DbOk(db)
    ensures var (r, id) := (PlanSave(db, p, spareId), ProductOf(p, spareId));
            var (valid, known) := (FamilyValid(p.product, Contents(p.skus)), p.productId.Some? ==> id in db.registry.products);
            var free := CodeIsFree(db.registry.codes, p.product.code, id);
            && (r.Ok? <==> valid && known && free && AllAcceptable(db.shelf, id, p.skus))
            && (!valid ==> r == Err(Invalid(FamilyErrors(p.product, Contents(p.skus)))))
            && (valid && !known ==> r == Err(ProductNotFound))
            && (valid && known && !free ==> r == Err(CodeCollision))
            && (valid && known && free && r.Err? ==> exists i: nat :: FirstRejection(db.shelf, id, p.skus, i, r.error))
  {
    FamilyReport(p.product, Contents(p.skus));
    ResolutionVerdict(db.shelf, ProductOf(p, spareId), p.skus);
  }

  /** A new product starts in DRAFT, and one in DRAFT stays there. */
  lemma DraftsStayDrafts(db: Db, p: Payload, spareId: Uuid)
    requires PlanSave(db, p, spareId).Ok?
    requires p.productId.None? || db.registry.products[p.productId.value].state == Draft
    ensures PlanSave(db, p, spareId).value.product.state == Draft
  {
  }

  /** A save succeeds exactly when the checks pass and what it would write fits the columns. */
  lemma SaveSucceedsExactly(db: Db, p: Payload, spareId: Uuid, spare: Supply)
    requires DbOk(db)
    ensures SaveBody(db, p, spareId, spare).1.Success? <==>
      && PlanSave(db, p, spareId).Ok?
      && var (inputs, id) := (PlanSave(db, p, spareId).value.skus, ProductOf(p, spareId));
         && (if p.productId.Some? then StorableProduct(MergeProduct(db.registry.products[id].content, p.product))
             else StorableProduct(p.product) && id !in db.registry.products)
         && AllWritable(db.shelf.skus, id, inputs, spare)
  {
    if PlanSave(db, p, spareId).Ok? {
      var plan := PlanSave(db, p, spareId).value;
      PlannedProduct(db, p, spareId);
      PlannedInputs(db, p, spareId);
      OwnCodeIsNotTaken(db.registry, plan.id, plan.product.content.code);
      StatementsGoThrough(db.shelf, plan.id, plan.skus, spare);
      WritingSucceeds(db, plan, spare);
    }
  }

  lemma WritingSucceeds(db: Db, plan: Plan, spare: Supply)
    requires !CodeTaken(db.registry, plan.id, plan.product.content.code)
    ensures WritePlan(db, plan, spare).1.Success? <==>
            && StorableProduct(plan.product.content) && (plan.isNew ==> plan.id !in db.registry.products)
            && WriteSkus(db.shelf, plan.id, plan.skus, spare).Stored?
  {
  }

  /** The i-th input names a SKU of the product by its current SKU id alone. */
  ghost predicate NamesBySkuId(db: Db, p: Payload, rows: seq<Uuid>, i: nat)
    requires p.productId.Some? && |rows| == |p.skus| && i < |rows|
  {
    && p.skus[i].id.None? && rows[i] in db.shelf.skus
    && db.shelf.skus[rows[i]].parent == p.productId.value && db.shelf.skus[rows[i]].content.skuId == p.skus[i].content.skuId
  }

  /** A payload that lists SKUs by their current SKU ids, without internal ids, passes resolution and targets exactly their rows. */
  lemma ResavesTargetTheirRows(db: Db, p: Payload, spareId: Uuid, spare: Supply, rows: seq<Uuid>)
    requires DbOk(db) && p.productId.Some? && |rows| == |p.skus|
    requires forall i :: 0 <= i < |rows| ==> NamesBySkuId(db, p, rows, i)
    ensures AllAcceptable(db.shelf, p.productId.value, p.skus)
    ensures SaveBody(db, p, spareId, spare).1.Success? ==> SaveBody(db, p, spareId, spare).1.done.saved == rows
  {
    var id := p.productId.value;
    forall i | 0 <= i < |p.skus| ensures Acceptable(db.shelf, id, p.skus[i]) { NamedInput(db, p, rows, i); }
    if SaveBody(db, p, spareId, spare).1.Success? {
      var plan := PlanSave(db, p, spareId).value;
      PlannedProduct(db, p, spareId);
      PlanIsWritten(db, plan, spare);
      PlannedResolution(db, p, spareId);
      forall i | 0 <= i < |rows| ensures Targets(plan.skus, spare)[i] == rows[i] {
        NamedInput(db, p, rows, i);
        assert Identifies(db.shelf, p.skus[i], plan.skus[i]);
        TargetAt(plan.skus, spare, i);
      }
    }
  }

  lemma NamedInput(db: Db, p: Payload, rows: seq<Uuid>, i: nat)
    requires DbOk(db) && p.productId.Some? && |rows| == |p.skus| && i < |rows| && NamesBySkuId(db, p, rows, i)
    ensures Acceptable(db.shelf, p.productId.value, p.skus[i])
    ensures forall r :: Identifies(db.shelf, p.skus[i], r) ==> r.id == Some(rows[i])
  {
    var (skus, row, skuId) := (db.shelf.skus, rows[i], p.skus[i].content.skuId);
    assert row in skus && skus[row].parent == p.productId.value && skus[row].content.skuId == skuId;
    assert IsCurrentIdOf(skus, p.productId.value, skuId) && db.shelf.ids[skuId] == row;
  }

  lemma PlannedResolution(db: Db, p: Payload, spareId: Uuid)
    requires DbOk(db) && PlanSave(db, p, spareId).Ok?
    ensures var inputs := PlanSave(db, p, spareId).value.skus;
            |inputs| == |p.skus| && forall i :: 0 <= i < |inputs| ==> Identifies(db.shelf, p.skus[i], inputs[i])
  {
    ResolutionVerdict(db.shelf, ProductOf(p, spareId), p.skus);
  }

  /**
   Saving over a product in READY or PUBLISHED leaves it READY exactly when the merged product is
   complete and every SKU passes: no blank images, and images of its own if its SKU id is new to the family.
   */
  lemma SaveVerdict(db: Db, p: Payload, spareId: Uuid)
    requires Reachable(db) && p.productId.Some? && PlanSave(db, p, spareId).Ok?
    requires db.registry.products[p.productId.value].state != Draft
    ensures var plan, id := PlanSave(db, p, spareId).value, p.productId.value;
            var family := FamilyById(db.shelf.skus, db.shelf.ids, id);
            plan.product.state == Ready
            <==> ProductReady(MergeProduct(db.registry.products[id].content, p.product))
                 && forall i :: 0 <= i < |plan.skus| ==> Passes(family, plan.skus[i].content)
  {
    ReachableIsOk(db);
    var plan, id := PlanSave(db, p, spareId).value, p.productId.value;
    PlannedState(db, p, spareId);
    PlannedInputs(db, p, spareId);
    assert Complete(db.registry.products, db.shelf.skus, id);
    OpenGateMeansComplete(db.registry.products[id].content, db.shelf, id);
    GateVerdict(FamilyById(db.shelf.skus, db.shelf.ids, id), plan.product.content, plan.skus);
  }

  lemma PlannedState(db: Db, p: Payload, spareId: Uuid)
    requires PlanSave(db, p, spareId).Ok? && p.productId.Some?
    ensures var plan, id := PlanSave(db, p, spareId).value, p.productId.value;
            && plan.id == id && id in db.registry.products
            && plan.product.content == MergeProduct(db.registry.products[id].content, p.product)
            && plan.product.state == NextState(db.registry.products[id].state, plan.product.content,
                                               MergeFamily(FamilyById(db.shelf.skus, db.shelf.ids, id), plan.skus))
  {
  }

  ghost predicate SavesOver(db: Db, p: Payload, spareId: Uuid, spare: Supply) {
    && p.productId.Some? && p.productId.value in db.registry.products && db.registry.products[p.productId.value].state != Draft
    && SaveBody(db, p, spareId, spare).1.Success?
  }

  /** The product as merged is complete, and every SKU row the payload targets ends up with an image. */
  ghost predicate LeavesComplete(db: Db, p: Payload, spareId: Uuid, spare: Supply)
    requires SavesOver(db, p, spareId, spare)
  {
    && ProductReady(MergeProduct(db.registry.products[p.productId.value].content, p.product))
    && AllKeepImages(db.shelf.skus, PlanSave(db, p, spareId).value.skus, spare)
  }

  /** The family a product has in the tables. */
  ghost predicate PersistedFamilyIsComplete(db: Db, id: Uuid)
    requires id in db.registry.products
  {
    FamilyIsComplete(db.registry.products[id].content, db.shelf.skus, id)
  }

  /** What a save over a READY or PUBLISHED product leaves is complete exactly on this condition. */
  lemma WrittenFamilyVerdict(db: Db, p: Payload, spareId: Uuid, spare: Supply)
    requires DbOk(db) && SavesOver(db, p, spareId, spare)
    ensures var (after, id) := (SaveBody(db, p, spareId, spare).0, p.productId.value);
            id in after.registry.products && (PersistedFamilyIsComplete(after, id) <==> LeavesComplete(db, p, spareId, spare))
  {
    var plan, id := PlanSave(db, p, spareId).value, p.productId.value;
    PlannedProduct(db, p, spareId);
    PlannedInputs(db, p, spareId);
    PlanIsWritten(db, plan, spare);
    assert Complete(db.registry.products, db.shelf.skus, id);
    WrittenFamilyIsReady(db.shelf, id, plan.skus, spare);
    WriteSkusAreSound(db.shelf, id, plan.skus, spare);
    RowsRemain(db.shelf.skus, WriteSkus(db.shelf, id, plan.skus, spare).value.skus, id);
  }

  ghost predicate SomeInputFails(db: Db, p: Payload, spareId: Uuid)
    requires PlanSave(db, p, spareId).Ok?
  {
    var plan := PlanSave(db, p, spareId).value;
    exists i :: 0 <= i < |plan.skus| && !Passes(FamilyById(db.shelf.skus, db.shelf.ids, plan.id), plan.skus[i].content)
  }

  /**
   A save should demote a product only when its family becomes incomplete. It demotes a product whose written
   family is complete exactly when the merged product is complete, every targeted row keeps an image, and yet
   the gate, which sees unmerged and stale rows, lets some input fail.
   */
  lemma DemotedThoughComplete(db: Db, p: Payload, spareId: Uuid, spare: Supply)
    requires Reachable(db) && SavesOver(db, p, spareId, spare)
    ensures var (after, id) := (SaveBody(db, p, spareId, spare).0, p.productId.value);
            && id in after.registry.products
            && (after.registry.products[id].state == Draft && PersistedFamilyIsComplete(after, id)
                <==> LeavesComplete(db, p, spareId, spare) && SomeInputFails(db, p, spareId))
  {
    ReachableIsOk(db);
    var plan, id := PlanSave(db, p, spareId).value, p.productId.value;
    PlannedProduct(db, p, spareId);
    PlanIsWritten(db, plan, spare);
    SaveVerdict(db, p, spareId);
    WrittenFamilyVerdict(db, p, spareId, spare);
  }

  // ================================================================ publication

  /** In a reachable state the audit fails only for SKUs that sell at their MRP. */
  ghost predicate SellsAtMrp(db: Db, s: Uuid) {
    s in db.shelf.skus && db.shelf.skus[s].content.prices.selling == db.shelf.skus[s].content.prices.mrp
  }

  lemma ExportedRowsAreReady(db: Db, targets: set<Uuid>, s: Uuid)
    requires DbOk(db) && s in Exported(db, targets)
    ensures SkuReady(db.shelf.skus[s].content)
  {
  }

  /** READY or PUBLISHED, and among the targets if any are given. */
  predicate Chosen(products: map<Uuid, Product>, targets: set<Uuid>, p: Uuid) {
    && p in products && (products[p].state == Ready || products[p].state == Published)
    && (targets != {} ==> p in targets)
  }

  lemma EligibleProductsAreExported(db: Db, targets: set<Uuid>, p: Uuid)
    requires DbOk(db) && p in db.registry.products
    ensures Chosen(db.registry.products, targets, p) <==> p in ExportedProducts(db, targets)
  {
    if Chosen(db.registry.products, targets, p) {
      assert Complete(db.registry.products, db.shelf.skus, p);
      var s :| s in db.shelf.skus && db.shelf.skus[s].parent == p;
      assert s in Exported(db, targets);
    }
  }

  /** Publication goes through exactly when some product is chosen and no SKU of a chosen product sells at its MRP. */
  lemma PublicationIsBlockedByEqualPricesOnly(db: Db, targets: set<Uuid>)
    requires Reachable(db)
    ensures Publish(db, targets).1
       <==> && (exists p :: Chosen(db.registry.products, targets, p))
            && forall s :: s in db.shelf.skus && Chosen(db.registry.products, targets, db.shelf.skus[s].parent) ==> !SellsAtMrp(db, s)
  {
    ReachableIsOk(db);
    var rows := Exported(db, targets);
    forall s | s in rows ensures PassesAudit(db.shelf.skus[s].content) <==> !SellsAtMrp(db, s) {
      ExportedRowsAreReady(db, targets, s);
    }
    ChosenProductsHaveRows(db, targets);
    forall s ensures s in rows <==> s in db.shelf.skus && Chosen(db.registry.products, targets, db.shelf.skus[s].parent) {
      ExportedRowsAreChosen(db, targets, s);
    }
  }

  lemma ExportedRowsAreChosen(db: Db, targets: set<Uuid>, s: Uuid)
    ensures s in Exported(db, targets) <==> s in db.shelf.skus && Chosen(db.registry.products, targets, db.shelf.skus[s].parent)
  {
  }

  lemma ChosenProductsHaveRows(db: Db, targets: set<Uuid>)
    requires DbOk(db)
    ensures Exported(db, targets) != {} <==> exists p :: Chosen(db.registry.products, targets, p)
  {
    if p :| Chosen(db.registry.products, targets, p) {
      EligibleProductsAreExported(db, targets, p);
      var s :| s in Exported(db, targets) && db.shelf.skus[s].parent == p;
    }
    forall s | s in Exported(db, targets)
      ensures s in db.shelf.skus && Chosen(db.registry.products, targets, db.shelf.skus[s].parent)
    {
      ExportedRowsAreChosen(db, targets, s);
    }
  }

  /** All or nothing: every chosen product becomes PUBLISHED, no other changes, or nothing changes at all. */
  lemma PublicationIsAllOrNothing(db: Db, targets: set<Uuid>, p: Uuid)
    requires Reachable(db) && p in db.registry.products
    ensures var (after, ok) := Publish(db, targets);
            && after.shelf == db.shelf && after.records == db.records && p in after.registry.products
            && after.registry.products[p].content == db.registry.products[p].content
            && after.registry.products[p].state ==
               (if ok && Chosen(db.registry.products, targets, p) then Published else db.registry.products[p].state)
  {
    ReachableIsOk(db);
    EligibleProductsAreExported(db, targets, p);
  }

  // ================================================================ a commit that comes later than its fetch

  /** Promoting products keeps the invariant exactly when each of them has a complete family at that moment. */
  lemma CommitVerdict(db: Db, fetched: set<Uuid>)
    requires DbOk(db) && fetched <= db.registry.products.Keys
    ensures DbOk(Commit(db, fetched)) <==> forall p :: p in fetched ==> PersistedFamilyIsComplete(db, p)
  {
    SettingStateKeepsCodes(db.registry, fetched, Published);
    var after := Commit(db, fetched);
    if DbOk(after) {
      forall p | p in fetched ensures PersistedFamilyIsComplete(db, p) {
        assert Complete(after.registry.products, after.shelf.skus, p);
      }
    }
    if forall p :: p in fetched ==> PersistedFamilyIsComplete(db, p) {
      forall p | p in fetched ensures FamilyIsComplete(db.registry.products[p].content, db.shelf.skus, p) {
        assert PersistedFamilyIsComplete(db, p);
      }
      SettingStateKeepsComplete(db.registry, db.shelf.skus, fetched, Published);
    }
  }

  lemma ExportedProductsExist(db: Db, targets: set<Uuid>)
    ensures ExportedProducts(db, targets) <= db.registry.products.Keys
  {
  }

  /** A fetched product that was demoted in the meantime and is incomplete. */
  ghost predicate WentBad(db: Db, p: Uuid) {
    p in db.registry.products && db.registry.products[p].state == Draft && !PersistedFamilyIsComplete(db, p)
  }

  /**
   Whatever happens between the fetch and the commit of a publication, the commit keeps the invariant
   exactly when none of the fetched products has been demoted and left incomplete.
   */
  lemma LateCommitVerdict(db: Db, targets: set<Uuid>, between: seq<Event>)
    requires Reachable(db)
    ensures var now := Run(db, between);
            DbOk(Commit(now, ExportedProducts(db, targets))) <==> forall p :: p in ExportedProducts(db, targets) ==> !WentBad(now, p)
  {
    ReachableIsOk(db);
    RunKeepsTheInvariant(db, between);
    var now, fetched := Run(db, between), ExportedProducts(db, targets);
    ExportedProductsExist(db, targets);
    CommitVerdict(now, fetched);
    forall p | p in fetched ensures PersistedFamilyIsComplete(now, p) <==> !WentBad(now, p) {
      assert Complete(now.registry.products, now.shelf.skus, p);
    }
  }

  /** When one save over a fetched product comes in between, exactly an incomplete one breaks the publication. */
  lemma SaveBeforeTheCommit(db: Db, targets: set<Uuid>, p: Payload, spareId: Uuid, spare: Supply)
    requires Reachable(db) && SavesOver(db, p, spareId, spare) && p.productId.value in ExportedProducts(db, targets)
    ensures DbOk(Commit(SaveBody(db, p, spareId, spare).0, ExportedProducts(db, targets))) <==> LeavesComplete(db, p, spareId, spare)
  {
    ReachableIsOk(db);
    var after, fetched, id := SaveBody(db, p, spareId, spare).0, ExportedProducts(db, targets), p.productId.value;
    SaveKeepsTheInvariant(db, p, spareId, spare);
    ExportedProductsExist(db, targets);
    CommitVerdict(after, fetched);
    WrittenFamilyVerdict(db, p, spareId, spare);
    SaveWritesTheProduct(db, p, spareId, spare);
    forall q | q in fetched && q != id ensures PersistedFamilyIsComplete(after, q) {
      assert after.registry.products[q] == db.registry.products[q] && Complete(after.registry.products, after.shelf.skus, q);
    }
  }
}
