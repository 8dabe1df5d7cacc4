/**
 The catalog as a state machine: each service call is one transaction on the products, the SKU tables
 and the idempotency records.
 */
module CatalogSpec {
  import opened Common
  import opened CatalogModel
  import opened CatalogValidation
  import opened CatalogStore
  import opened CatalogFamily

  type Time = real

  const TTL: Time := 86400.0

  /** The width of the key column. */
  const KEY_WIDTH := 128

  datatype Operation = SaveProductFamily | RenameProductCode | TransitionLifecycleState

  /** What a successful response says. */
  datatype Done =
    | Saved(productId: Uuid, code: string, state: Lifecycle, saved: seq<Uuid>)
    | Renamed(productId: Uuid, code: string, state: Lifecycle, affected: set<Uuid>)
    | Transitioned(productId: Uuid, code: string, state: Lifecycle)

  /** `Failed` is an error that reaches the caller after the transaction rolled back. */
  datatype Outcome = Success(done: Done) | Replayed(done: Done) | Rejected(reason: Rejection) | Failed

  datatype Record = Record(op: Operation, hash: int, done: Done, expiresAt: Time)

  datatype Registry = Registry(products: map<Uuid, Product>, codes: map<string, Uuid>)

  datatype Db = Db(registry: Registry, shelf: Shelf, records: map<string, Record>)

  /** A keyed call: its request digest, and the clock when the key is checked and when a record is saved. */
  datatype Call = Call(key: string, hash: int, checkedAt: Time, savedAt: Time)

  datatype Payload = Payload(productId: Option<Uuid>, product: ProductContent, skus: seq<SkuInput>)

  // ================================================================ product statements

  predicate CodeTaken(r: Registry, id: Uuid, code: string) {
    || (exists o :: o in r.products && o != id && r.products[o].content.code == code)
    || (code in r.codes && r.codes[code] != id)
  }

  function PutProduct(r: Registry, id: Uuid, p: Product): Written<Registry> {
    if !StorableProduct(p.content) then Raised
    else if CodeTaken(r, id, p.content.code) then Refused
    else Stored(Registry(r.products[id := p], r.codes[p.content.code := id]))
  }

  function InsertProduct(r: Registry, id: Uuid, p: Product): Written<Registry> {
    if id in r.products then Raised else PutProduct(r, id, p)
  }

  /** Payload values, where the payload gives any; code, name, brand and tax rate are always given. */
  function MergeProduct(row: ProductContent, p: ProductContent): (merged: ProductContent)
    ensures merged.code == p.code && merged.name == p.name && merged.brand == p.brand && merged.gst == p.gst
    ensures Taken(row.description, p.description, merged.description) && Taken(row.productType, p.productType, merged.productType)
    ensures Taken(row.hsn, p.hsn, merged.hsn) && Taken(row.fabric, p.fabric, merged.fabric) && Taken(row.care, p.care, merged.care)
    ensures Taken(row.setComposition, p.setComposition, merged.setComposition) && Taken(row.sizeChart, p.sizeChart, merged.sizeChart)
    ensures TakenList(row.media, p.media, merged.media) && TakenList(row.videos, p.videos, merged.videos)
    ensures TakenList(row.tags, p.tags, merged.tags)
  {
    ProductContent(p.code, p.name, Either(p.description, row.description), Either(p.productType, row.productType), p.brand,
                   Either(p.hsn, row.hsn), p.gst, Either(p.fabric, row.fabric), Either(p.care, row.care),
                   Either(p.setComposition, row.setComposition), if p.media != [] then p.media else row.media,
                   Either(p.sizeChart, row.sizeChart), if p.videos != [] then p.videos else row.videos,
                   if p.tags != [] then p.tags else row.tags)
  }

  predicate ReservedToAnother(codes: map<string, Uuid>, code: string, id: Uuid) { code in codes && codes[code] != id }

  // ================================================================ save

  datatype Plan = Plan(id: Uuid, isNew: bool, product: Product, skus: seq<SkuInput>)

  /** A save demotes a published family, and one that no longer passes the gate. */
  ghost function NextState(current: Lifecycle, product: ProductContent, family: map<string, SkuContent>): Lifecycle {
    if current != Draft && MapReady(product, family) then Ready else Draft
  }

  ghost function PlanSave(db: Db, p: Payload, spareId: Uuid): Result<Plan, Rejection> {
    var errors := FamilyErrors(p.product, Contents(p.skus));
    if errors != [] then Err(Invalid(errors))
    else if p.productId.Some? && p.productId.value !in db.registry.products then Err(ProductNotFound)
    else
      var id := if p.productId.Some? then p.productId.value else spareId;
      if ReservedToAnother(db.registry.codes, p.product.code, id) then Err(CodeCollision)
      else
        match Resolve(db.shelf, id, p.skus)
        case Err(r) => Err(r)
        case Ok(skus) =>
          if p.productId.None? then Ok(Plan(id, true, Product(p.product, Draft), skus))
          else
            var row := db.registry.products[id];
            var product := MergeProduct(row.content, p.product);
            var family := MergeFamily(FamilyById(db.shelf.skus, db.shelf.ids, id), skus);
            Ok(Plan(id, false, Product(product, NextState(row.state, product, family)), skus))
  }

  function WritePlan(db: Db, plan: Plan, spare: Supply): (Db, Outcome) {
    match (if plan.isNew then InsertProduct else PutProduct)(db.registry, plan.id, plan.product)
    case Refused => (db, Rejected(RefusedByDatabase))
    case Raised => (db, Failed)
    case Stored(registry) =>
      match WriteSkus(db.shelf, plan.id, plan.skus, spare)
      case Refused => (db, Rejected(RefusedByDatabase))
      case Raised => (db, Failed)
      case Stored(shelf) =>
        (Db(registry, shelf, db.records),
         Success(Saved(plan.id, plan.product.content.code, plan.product.state, Targets(plan.skus, spare))))
  }

  ghost function SaveBody(db: Db, p: Payload, spareId: Uuid, spare: Supply): (Db, Outcome) {
    match PlanSave(db, p, spareId)
    case Err(r) => (db, Rejected(r))
    case Ok(plan) => WritePlan(db, plan, spare)
  }

  // ================================================================ rename and transition

  function RenameBody(db: Db, id: Uuid, code: string): (Db, Outcome) {
    if !ValidProductCode(code) then (db, Rejected(Invalid([ValidationError(SyntaxError, "product_code")])))
    else if id !in db.registry.products then (db, Rejected(ProductNotFound))
    else if ReservedToAnother(db.registry.codes, code, id) then (db, Rejected(CodeCollision))
    else
      var row := db.registry.products[id];
      var state := if row.state == Published then Ready else row.state;
      match PutProduct(db.registry, id, Product(row.content.(code := code), state))
      case Refused => (db, Rejected(RefusedByDatabase))
      case Raised => (db, Failed)
      case Stored(registry) => (db.(registry := registry), Success(Renamed(id, code, state, RowsOf(db.shelf.skus, id))))
  }

  function RowsOf(skus: map<Uuid, Sku>, id: Uuid): set<Uuid> { set s | s in skus && skus[s].parent == id }

  ghost function TransitionBody(db: Db, id: Uuid, target: Lifecycle): (Db, Outcome) {
    if id !in db.registry.products then (db, Rejected(ProductNotFound))
    else
      var row := db.registry.products[id];
      if target == Ready && !MapReady(row.content, FamilyById(db.shelf.skus, db.shelf.ids, id)) then (db, Rejected(GateClosed))
      else (db.(registry := SetState(db.registry, {id}, target)), Success(Transitioned(id, row.content.code, target)))
  }

  function SetState(r: Registry, ids: set<Uuid>, state: Lifecycle): Registry {
    r.(products := map p | p in r.products :: if p in ids then r.products[p].(state := state) else r.products[p])
  }

  // ================================================================ publication

  /** The exported rows: SKUs of READY or PUBLISHED products, of the given products if any are given. */
  function Exported(db: Db, targets: set<Uuid>): set<Uuid> {
    set s | s in db.shelf.skus && IsEligible(db.registry.products, targets, db.shelf.skus[s].parent)
  }

  predicate IsEligible(products: map<Uuid, Product>, targets: set<Uuid>, p: Uuid) {
    p in products && products[p].state != Draft && (targets == {} || p in targets)
  }

  /** The channel wants a selling price strictly below the MRP, and a SKU id of five characters. */
  predicate PassesAudit(c: SkuContent) { c.prices.selling < c.prices.mrp && |c.skuId| >= 5 }

  function ExportedProducts(db: Db, targets: set<Uuid>): set<Uuid> { set s | s in Exported(db, targets) :: db.shelf.skus[s].parent }

  /** The commit promotes the products fetched earlier, whatever they have become. */
  function Commit(db: Db, fetched: set<Uuid>): Db { db.(registry := SetState(db.registry, fetched, Published)) }

  /** Fetch, audit and commit in one step. */
  function Publish(db: Db, targets: set<Uuid>): (Db, bool) {
    var rows := Exported(db, targets);
    if rows == {} || exists s :: s in rows && !PassesAudit(db.shelf.skus[s].content) then (db, false)
    else (Commit(db, ExportedProducts(db, targets)), true)
  }

  // ================================================================ idempotency

  predicate IsCached(db: Db, call: Call) {
    call.key != "" && call.key in db.records && call.checkedAt <= db.records[call.key].expiresAt
  }

  function Reply(db: Db, call: Call, op: Operation): Outcome
    requires IsCached(db, call)
  {
    var record := db.records[call.key];
    if record.op == op && record.hash == call.hash then Replayed(record.done) else Rejected(IdempotencyConflict)
  }

  function Remember(db: Db, call: Call, op: Operation, outcome: Outcome): Db {
    if call.key != "" && outcome.Success?
    then db.(records := db.records[call.key := Record(op, call.hash, outcome.done, call.savedAt + TTL)])
    else db
  }

  /** A call under its key: answered from the record, or carried out and remembered in the same transaction. */
  function Guarded(db: Db, call: Call, op: Operation, result: (Db, Outcome)): (Db, Outcome) {
    if IsCached(db, call) then (db, Reply(db, call, op))
    else if result.1.Success? && |call.key| > KEY_WIDTH then (db, Failed)
    else (Remember(result.0, call, op, result.1), result.1)
  }

  function Expire(records: map<string, Record>, now: Time): map<string, Record> {
    map k | k in records && records[k].expiresAt >= now :: records[k]
  }

  // ================================================================ steps

  datatype Event =
    | Save(call: Call, payload: Payload, spareId: Uuid, spare: Supply)
    | Rename(call: Call, productId: Uuid, code: string)
    | Transition(call: Call, productId: Uuid, target: string)
    | Publication(targets: set<Uuid>)
    | Cleanup(now: Time)

  /** The response, when the event is a mutation call. */
  ghost function Next(db: Db, e: Event): (Db, Option<Outcome>) {
    match e
    case Save(call, payload, spareId, spare) =>
      var r := Guarded(db, call, SaveProductFamily, SaveBody(db, payload, spareId, spare)); (r.0, Some(r.1))
    case Rename(call, id, code) =>
      var r := Guarded(db, call, RenameProductCode, RenameBody(db, id, code)); (r.0, Some(r.1))
    case Transition(call, id, target) =>
      if target != "DRAFT" && target != "READY" then (db, Some(Rejected(TargetNotAllowed)))
      else
        var to := if target == "READY" then Ready else Draft;
        var r := Guarded(db, call, TransitionLifecycleState, TransitionBody(db, id, to)); (r.0, Some(r.1))
    case Publication(targets) => (Publish(db, targets).0, None)
    case Cleanup(now) => (db.(records := Expire(db.records, now)), None)
  }

  const EMPTY: Db := Db(Registry(map[], map[]), Shelf(map[], map[], []), map[])

  ghost function Run(db: Db, events: seq<Event>): Db
    decreases |events|
  {
    if events == [] then db else Next(Run(db, events[..|events| - 1]), events[|events| - 1]).0
  }
}
