/** Runs from the empty catalog that show what the exact conditions allow. */
module CatalogExamples {
  import opened Common
  import opened CatalogModel
  import opened CatalogValidation
  import opened CatalogStore
  import opened CatalogWrites
  import opened CatalogFamily
  import opened CatalogSpec
  import opened CatalogInvariants
  import opened CatalogLedger
  import opened CatalogVerdicts

  // ================================================================ a product with one SKU

  const SHIRT := ProductContent("SHIRT", "Shirt", Some("plain"), Some("shirt"), "", None, 0.0, None, None, None, [], None, [], [])

  const WHITE := SkuContent("WHITE", None, None, None, None, Prices(100.0, 90.0, 50.0), Packaging(1.0, 1.0, 1.0, 1.0), [Url("https://a.in/u", true)])

  const NO_KEY := Call("", 0, 0.0, 0.0)

  function Drawn(): Supply { (i: nat) => 2 }

  const NEW := Payload(None, SHIRT, [SkuInput(None, WHITE)])

  /** The product 1 with the SKU 2. */
  function OneSku(product: Product, row: SkuContent, ledger: seq<Entry>): Db {
    Db(Registry(map[1 := product], map[product.content.code := 1]), Shelf(map[2 := Sku(1, row)], map[row.skuId := 2], ledger), map[])
  }

  const FIRST := Entry(2, None, WHITE.prices)

  function Saved(state: Lifecycle): Db { OneSku(Product(SHIRT, state), WHITE, [FIRST]) }

  lemma IdentifiersAreFine()
    ensures Identifier("SHIRT") && Identifier("WHITE") && Identifier("IVORY")
  {
  }

  lemma WholeNumbersAreExact()
    ensures Cents(100.0) == 100.0 && Cents(90.0) == 90.0 && Cents(50.0) == 50.0 && Cents(1.0) == 1.0 && Grams(1.0) == 1.0
  {
    WholeCents(10000);
    WholeCents(9000);
    WholeCents(5000);
    WholeCents(100);
    assert (1.0 * 1000.0 + 0.5).Floor == 1000;
  }

  lemma WhiteIsReady()
    ensures SkuReady(WHITE)
  {
    IdentifiersAreFine();
    assert Strip(WHITE.media[0].text) == WHITE.media[0].text;
  }

  lemma WhiteIsExact()
    ensures StoredSku(WHITE) == WHITE && StorableSku(WHITE)
  {
    IdentifiersAreFine();
    WholeNumbersAreExact();
    assert StoredPrices(WHITE.prices) == WHITE.prices && StoredPackaging(WHITE.packaging) == WHITE.packaging;
    assert WHITE.sizeType.None? && AtMost(WHITE.colour, 64) && AtMost(WHITE.size, 64) && AtMost(WHITE.pack, 64);
  }

  lemma ShirtIsReady()
    ensures ProductReady(SHIRT) && StorableProduct(SHIRT)
  {
    IdentifiersAreFine();
    assert Strip(SHIRT.name) == "Shirt" && Strip("plain") == "plain" && Strip("shirt") == "shirt";
  }

  /** A payload with one input: its checks and its statements. */
  lemma OneInput(shelf: Shelf, parent: Uuid, s: SkuInput, spare: Supply)
    ensures Contents([s]) == [s.content] && Targets([s], spare) == [TargetId(s, spare(0))]
    ensures ResolveOne(shelf, parent, s) == Ok(s) ==> Resolve(shelf, parent, [s]) == Ok([s])
    ensures WriteSkus(shelf, parent, [s], spare) == WriteSku(shelf, parent, s, spare(0))
  {
    assert [s][..|[s]| - 1] == [] && Resolve(shelf, parent, []) == Ok([]);
    assert [s][..|[s]| - 1] + [s] == [s];
  }

  lemma OneSkuIsValid(product: ProductContent, c: SkuContent)
    requires ProductValid(product) && SkuValid(c)
    ensures FamilyErrors(product, [c]) == []
  {
    FamilyReport(product, [c]);
  }

  lemma FirstPlan()
    ensures PlanSave(EMPTY, NEW, 1) == Ok(Plan(1, true, Product(SHIRT, Draft), [SkuInput(None, WHITE)]))
  {
    ShirtIsReady();
    WhiteIsReady();
    OneInput(EMPTY.shelf, 1, SkuInput(None, WHITE), Drawn());
    OneSkuIsValid(SHIRT, WHITE);
  }

  lemma FirstRow()
    ensures InsertSku(EMPTY.shelf, 2, 1, WHITE) == Stored(Saved(Draft).shelf)
  {
    WhiteIsExact();
    assert StoredPrices(WHITE.prices) == WHITE.prices && !SkuIdTaken(map[], map[], 2, "WHITE");
    var shelf := InsertSku(EMPTY.shelf, 2, 1, WHITE).value;
    assert shelf.skus == map[2 := Sku(1, WHITE)] && shelf.ids == map["WHITE" := 2] && shelf.ledger == [FIRST];
  }

  lemma FirstSave()
    ensures SaveBody(EMPTY, NEW, 1, Drawn()) == (Saved(Draft), Success(Done.Saved(1, "SHIRT", Draft, [2])))
  {
    FirstPlan();
    ShirtIsReady();
    FirstRow();
    OneInput(EMPTY.shelf, 1, SkuInput(None, WHITE), Drawn());
    assert InsertProduct(EMPTY.registry, 1, Product(SHIRT, Draft)) == Stored(Saved(Draft).registry);
  }

  const CREATE := Save(NO_KEY, NEW, 1, Drawn())
  const RELEASE := Transition(NO_KEY, 1, "READY")

  lemma AfterCreate()
    ensures Run(EMPTY, [CREATE]) == Saved(Draft)
  {
    FirstSave();
    assert [CREATE][..0] == [];
  }

  lemma AfterRelease()
    ensures Run(EMPTY, [CREATE, RELEASE]) == Saved(Ready)
  {
    AfterCreate();
    ReleaseStep();
    assert [CREATE, RELEASE][..1] == [CREATE];
  }

  lemma ReleaseStep()
    ensures Next(Saved(Draft), RELEASE).0 == Saved(Ready)
  {
    SavedIsOk();
    Release();
  }

  lemma SavedIsOk()
    ensures DbOk(Saved(Draft))
  {
    AfterCreate();
    assert Reachable(Saved(Draft));
    ReachableIsOk(Saved(Draft));
  }

  lemma TheShirtIsComplete(state: Lifecycle)
    ensures FamilyIsComplete(SHIRT, Saved(state).shelf.skus, 1)
  {
    ShirtIsReady();
    WhiteIsReady();
    assert 2 in Saved(state).shelf.skus && Saved(state).shelf.skus[2].parent == 1;
  }

  lemma Release()
    requires DbOk(Saved(Draft))
    ensures TransitionBody(Saved(Draft), 1, Ready) == (Saved(Ready), Success(Transitioned(1, "SHIRT", Ready)))
  {
    TheShirtIsComplete(Draft);
    TransitionVerdict(Saved(Draft), 1, Ready);
    assert Saved(Draft).registry.products[1 := Product(SHIRT, Ready)] == Saved(Ready).registry.products;
  }

  // ================================================================ a second save over it

  function Change(product: ProductContent, c: SkuContent): Payload { Payload(Some(1), product, [SkuInput(Some(2), c)]) }

  predicate Fits(product: ProductContent, c: SkuContent) {
    && ProductValid(product) && product.code == "SHIRT" && StorableProduct(MergeProduct(SHIRT, product))
    && SkuValid(c) && StorableSku(MergeSku(WHITE, c))
  }

  lemma SecondPlan(state: Lifecycle, product: ProductContent, c: SkuContent)
    requires Fits(product, c)
    ensures var r := PlanSave(Saved(state), Change(product, c), 0);
            r.Ok? && r.value.skus == [SkuInput(Some(2), c)] && r.value.id == 1 && !r.value.isNew
            && r.value.product.content == MergeProduct(SHIRT, product)
  {
    OneInput(Saved(state).shelf, 1, SkuInput(Some(2), c), Drawn());
    OneSkuIsValid(product, c);
  }

  lemma SecondProduct(state: Lifecycle, p: Product)
    requires p.content.code == "SHIRT" && StorableProduct(p.content)
    ensures PutProduct(Saved(state).registry, 1, p).Stored?
  {
    assert !CodeTaken(Saved(state).registry, 1, "SHIRT");
  }

  lemma SecondRow(state: Lifecycle, c: SkuContent)
    requires StorableSku(MergeSku(WHITE, c))
    ensures UpdateSku(Saved(state).shelf, 2, c).Stored?
  {
    assert !SkuIdTaken(Saved(state).shelf.skus, Saved(state).shelf.ids, 2, c.skuId);
  }

  lemma SecondWrite(state: Lifecycle, plan: Plan, c: SkuContent)
    requires plan.id == 1 && !plan.isNew && plan.skus == [SkuInput(Some(2), c)]
    requires plan.product.content.code == "SHIRT" && StorableProduct(plan.product.content) && StorableSku(MergeSku(WHITE, c))
    ensures WritePlan(Saved(state), plan, Drawn()).1.Success?
    ensures WriteSkus(Saved(state).shelf, 1, plan.skus, Drawn()) == UpdateSku(Saved(state).shelf, 2, c)
  {
    OneInput(Saved(state).shelf, 1, SkuInput(Some(2), c), Drawn());
    SecondProduct(state, plan.product);
    SecondRow(state, c);
  }

  lemma SecondSave(state: Lifecycle, product: ProductContent, c: SkuContent)
    requires Fits(product, c)
    ensures var r := SaveBody(Saved(state), Change(product, c), 0, Drawn());
            && r.1.Success? && UpdateSku(Saved(state).shelf, 2, c) == Stored(r.0.shelf)
            && 1 in r.0.registry.products && r.0.registry.products[1].content == MergeProduct(SHIRT, product)
  {
    SecondPlan(state, product, c);
    var plan := PlanSave(Saved(state), Change(product, c), 0).value;
    SecondWrite(state, plan, c);
    PlanIsWritten(Saved(state), plan, Drawn());
  }

  // ================================================================ a change that is none

  const ROUNDED := WHITE.(prices := Prices(100.001, 90.0, 50.0))

  /** A tenth of a paisa more: the ledger records a change from a price to itself. */
  lemma AnEntryThatIsNoChange() returns (events: seq<Event>)
    ensures var ledger := Run(EMPTY, events).shelf.ledger;
            |ledger| == 2 && ledger[1].previous == Some(ledger[1].current)
  {
    var again := Save(NO_KEY, Change(SHIRT, ROUNDED), 0, Drawn());
    events := [CREATE, again];
    assert events[..1] == [CREATE];
    AfterCreate();
    ShirtIsReady();
    RoundedFits();
    SecondSave(Draft, SHIRT, ROUNDED);
  }

  lemma RoundedFits()
    ensures SkuValid(ROUNDED) && StorableSku(MergeSku(WHITE, ROUNDED)) && StoredPrices(ROUNDED.prices) == WHITE.prices
  {
    WhiteIsReady();
    WhiteIsExact();
    assert (100.001 * 100.0 + 0.5).Floor == 10000;
  }

  // ================================================================ a demotion that nothing calls for

  const RENAMED := WHITE.(skuId := "IVORY", media := [])

  lemma RenamedFits()
    ensures SkuValid(RENAMED) && StorableSku(MergeSku(WHITE, RENAMED))
  {
    WhiteIsReady();
    WhiteIsExact();
    IdentifiersAreFine();
    assert MergeSku(WHITE, RENAMED) == WHITE.(skuId := "IVORY");
  }

  lemma ShirtStaysItself()
    ensures MergeProduct(SHIRT, SHIRT) == SHIRT
  {
  }

  /** A READY product whose SKU is renamed by its internal id, without images, goes to DRAFT with a complete family. */
  lemma ADemotionWithoutNeed() returns (events: seq<Event>)
    ensures var db := Run(EMPTY, events);
            1 in db.registry.products && db.registry.products[1].state == Draft && PersistedFamilyIsComplete(db, 1)
  {
    var rename := Save(NO_KEY, Change(SHIRT, RENAMED), 0, Drawn());
    events := [CREATE, RELEASE, rename];
    assert events[..2] == [CREATE, RELEASE];
    AfterRelease();
    ShirtIsReady();
    ShirtStaysItself();
    RenamedFits();
    SecondPlan(Ready, SHIRT, RENAMED);
    SecondSave(Ready, SHIRT, RENAMED);
    assert Reachable(Saved(Ready));
    DemotedThoughComplete(Saved(Ready), Change(SHIRT, RENAMED), 0, Drawn());
    RenameFailsTheGate();
    RenameKeepsTheImages();
  }

  lemma RenameFailsTheGate()
    ensures !Passes(FamilyById(Saved(Ready).shelf.skus, Saved(Ready).shelf.ids, 1), RENAMED)
  {
  }

  lemma RenameKeepsTheImages()
    ensures AllKeepImages(Saved(Ready).shelf.skus, [SkuInput(Some(2), RENAMED)], Drawn())
  {
    WhiteIsReady();
    var skus := [SkuInput(Some(2), RENAMED)];
    assert skus[..|skus| - 1] == [];
    assert LastMedia(Found(Saved(Ready).shelf.skus, 2), skus, Drawn(), 2) == WHITE.media;
  }

  // ================================================================ a publication that commits too late

  const UNDESCRIBED := SHIRT.(description := Some(""))

  /** The fetch sees a READY product, a save blanks its description, and the commit publishes it all the same. */
  lemma AnIncompleteProductIsPublished() returns (events: seq<Event>, between: Event)
    ensures var (fetched, now) := (ExportedProducts(Run(EMPTY, events), {}), Next(Run(EMPTY, events), between).0);
            && Publish(Run(EMPTY, events), {}).1 && between.Save? && 1 in fetched
            && 1 in Commit(now, fetched).registry.products && Commit(now, fetched).registry.products[1].state == Published
            && !ProductReady(Commit(now, fetched).registry.products[1].content)
  {
    events, between := [CREATE, RELEASE], Save(NO_KEY, Change(UNDESCRIBED, WHITE), 0, Drawn());
    AfterRelease();
    WhiteIsReady();
    TheShirtIsExported();
    UndescribedFits();
    SecondSave(Ready, UNDESCRIBED, WHITE);
  }

  lemma TheShirtIsExported()
    ensures Publish(Saved(Ready), {}).1 && 1 in ExportedProducts(Saved(Ready), {})
  {
    assert Exported(Saved(Ready), {}) == {2};
    assert PassesAudit(WHITE);
  }

  lemma UndescribedFits()
    ensures ProductValid(UNDESCRIBED) && MergeProduct(SHIRT, UNDESCRIBED) == UNDESCRIBED && StorableProduct(UNDESCRIBED)
    ensures !ProductReady(UNDESCRIBED) && StorableSku(MergeSku(WHITE, WHITE)) && SkuValid(WHITE)
  {
    ShirtIsReady();
    WhiteIsReady();
    WhiteIsExact();
    assert MergeSku(WHITE, WHITE) == WHITE;
  }
}
