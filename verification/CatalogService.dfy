/** The service: its tables as fields, its transactions as methods that write them statement by statement. */
module CatalogService {
  import opened Common
  import opened CatalogModel
  import opened CatalogValidation
  import opened CatalogStore
  import opened CatalogFamily
  import opened CatalogSpec
  import opened CatalogInvariants
  import opened CatalogHistory

  datatype Status = Fine | ConstraintError | OtherError

  ghost predicate Reports<T>(status: Status, w: Written<T>) {
    match w
    case Stored(_) => status == Fine
    case Refused => status == ConstraintError
    case Raised => status == OtherError
  }

  lemma {:induction false} FailureStays(shelf: Shelf, parent: Uuid, skus: seq<SkuInput>, spare: Supply, i: nat)
    requires i <= |skus| && !WriteSkus(shelf, parent, skus[..i], spare).Stored?
    ensures WriteSkus(shelf, parent, skus, spare) == WriteSkus(shelf, parent, skus[..i], spare)
  {
    if i < |skus| {
      assert skus[..|skus| - 1][..i] == skus[..i];
      FailureStays(shelf, parent, skus[..|skus| - 1], spare, i);
    } else {
      assert skus[..i] == skus;
    }
  }

  lemma OneMoreSku(shelf: Shelf, parent: Uuid, skus: seq<SkuInput>, spare: Supply, i: nat)
    requires i < |skus| && WriteSkus(shelf, parent, skus[..i], spare).Stored?
    ensures WriteSkus(shelf, parent, skus[..i + 1], spare)
         == WriteSku(WriteSkus(shelf, parent, skus[..i], spare).value, parent, skus[i], spare(i))
    ensures Targets(skus[..i + 1], spare) == Targets(skus[..i], spare) + [TargetId(skus[i], spare(i))]
  {
    assert skus[..i + 1][..i] == skus[..i] && skus[..i + 1][i] == skus[i];
  }

  lemma {:induction false} RejectionStays(shelf: Shelf, parent: Uuid, skus: seq<SkuInput>, i: nat)
    requires i <= |skus| && Resolve(shelf, parent, skus[..i]).Err?
    ensures Resolve(shelf, parent, skus) == Resolve(shelf, parent, skus[..i])
  {
    if i < |skus| {
      assert skus[..|skus| - 1][..i] == skus[..i];
      RejectionStays(shelf, parent, skus[..|skus| - 1], i);
    } else {
      assert skus[..i] == skus;
    }
  }

  class CatalogService {
    var products: map<Uuid, Product>
    var codes: map<string, Uuid>
    var skus: map<Uuid, Sku>
    var ids: map<string, Uuid>
    var ledger: seq<Entry>
    var records: map<string, Record>

    ghost function Tables(): Shelf
      reads this
    {
      Shelf(skus, ids, ledger)
    }

    ghost function Codes(): Registry
      reads this
    {
      Registry(products, codes)
    }

    ghost function State(): Db
      reads this
    {
      Db(Codes(), Tables(), records)
    }

    ghost predicate Valid()
      reads this
    {
      DbOk(State())
    }

    constructor ()
      ensures State() == EMPTY && Valid()
    {
      products, codes, skus, ids, ledger, records := map[], map[], map[], map[], [], map[];
    }

    // -------------------------------------------------------------- idempotency

    method CheckIdempotency(call: Call, op: Operation) returns (cached: Option<Outcome>)
      ensures cached == if IsCached(State(), call) then Some(Reply(State(), call, op)) else None
      ensures cached.None? <==> call.key == "" || call.key !in records || call.checkedAt > records[call.key].expiresAt
      ensures cached.Some? ==>
        cached.value == if records[call.key].op == op && records[call.key].hash == call.hash then Replayed(records[call.key].done)
                        else Rejected(IdempotencyConflict)
    {
      if call.key == "" || call.key !in records { return None; }
      var row := records[call.key];
      if call.checkedAt > row.expiresAt { return None; }
      if row.op != op || row.hash != call.hash { return Some(Rejected(IdempotencyConflict)); }
      return Some(Replayed(row.done));
    }

    /** Fails when the key does not fit its column. */
    method SaveIdempotency(call: Call, op: Operation, done: Done) returns (ok: bool)
      modifies `records
      ensures ok <==> |call.key| <= KEY_WIDTH
      ensures ok ==> State() == Remember(old(State()), call, op, Success(done))
      ensures !ok ==> State() == old(State())
    {
      if call.key == "" { return true; }
      if |call.key| > KEY_WIDTH { return false; }
      records := records[call.key := Record(op, call.hash, done, call.savedAt + TTL)];
      return true;
    }

    /** Answers how many records it deleted. */
    method CleanupExpiredIdempotencyRecords(now: Time) returns (deleted: nat)
      modifies `records
      ensures State() == Next(old(State()), Cleanup(now)).0
      ensures forall k :: k in records <==> k in old(records) && old(records)[k].expiresAt >= now
      ensures forall k :: k in records ==> records[k] == old(records)[k]
      ensures deleted == |set k | k in old(records) && old(records)[k].expiresAt < now|
    {
      deleted := |set k | k in records && records[k].expiresAt < now|;
      records := map k | k in records && records[k].expiresAt >= now :: records[k];
    }

    // -------------------------------------------------------------- statements

    method StoreProduct(id: Uuid, p: Product, isNew: bool) returns (status: Status)
      modifies `products, `codes
      ensures var w := (if isNew then InsertProduct else PutProduct)(old(Codes()), id, p);
              Reports(status, w) && (if w.Stored? then Codes() == w.value else Codes() == old(Codes()))
    {
      if !StorableProduct(p.content) || (isNew && id in products) { return OtherError; }
      if exists o :: o in products && o != id && products[o].content.code == p.content.code { return ConstraintError; }
      var owner := if p.content.code in codes then codes[p.content.code] else id;
      if owner != id { return ConstraintError; }
      products, codes := products[id := p], codes[p.content.code := id];
      return Fine;
    }

    method StoreSku(parent: Uuid, s: SkuInput, spare: Uuid) returns (status: Status)
      modifies `skus, `ids, `ledger
      ensures var w := WriteSku(old(Tables()), parent, s, spare);
              Reports(status, w) && (if w.Stored? then Tables() == w.value else Tables() == old(Tables()))
    {
      var id := TargetId(s, spare);
      var row, entry := Sku(parent, s.content), Entry(id, None, StoredPrices(s.content.prices));
      var changed := true;
      if s.id.Some? && s.id.value in skus {
        var existing := skus[s.id.value];
        row := Sku(existing.parent, MergeSku(existing.content, s.content));
        entry := entry.(previous := Some(existing.content.prices));
        changed := existing.content.prices != s.content.prices;
      } else if id in skus {
        return OtherError;
      }
      if !StorableSku(row.content) { return OtherError; }
      if exists o :: o in skus && o != id && skus[o].content.skuId == s.content.skuId { return ConstraintError; }
      var owner := if s.content.skuId in ids then ids[s.content.skuId] else id;
      if owner != id { return ConstraintError; }
      if changed { ledger := ledger + [entry]; }
      skus, ids := skus[id := Sku(row.parent, StoredSku(row.content))], ids[s.content.skuId := id];
      return Fine;
    }

    /** The saved ids are collected as the rows are written; a failure leaves the rest to the rollback. */
    method StoreSkus(parent: Uuid, inputs: seq<SkuInput>, spare: Supply) returns (status: Status, saved: seq<Uuid>)
      modifies `skus, `ids, `ledger
      ensures var w := WriteSkus(old(Tables()), parent, inputs, spare);
              Reports(status, w) && (w.Stored? ==> Tables() == w.value && saved == Targets(inputs, spare))
    {
      saved := [];
      ghost var before := Tables();
      for i := 0 to |inputs|
        invariant WriteSkus(before, parent, inputs[..i], spare) == Stored(Tables())
        invariant saved == Targets(inputs[..i], spare)
      {
        OneMoreSku(before, parent, inputs, spare, i);
        status := StoreSku(parent, inputs[i], spare(i));
        if status != Fine {
          FailureStays(before, parent, inputs, spare, i + 1);
          return status, [];
        }
        saved := saved + [TargetId(inputs[i], spare(i))];
      }
      assert inputs[..|inputs|] == inputs;
      status := Fine;
    }

    // -------------------------------------------------------------- the checks before the first write

    /** Fills in the internal id of every input that names a current SKU of this product. */
    method ResolveInputs(parent: Uuid, inputs: seq<SkuInput>) returns (r: Result<seq<SkuInput>, Rejection>)
      ensures r == Resolve(Tables(), parent, inputs)
      ensures Reserved(skus, ids) ==> (r.Ok? <==> AllAcceptable(Tables(), parent, inputs))
      ensures Reserved(skus, ids) && r.Ok? ==>
        |r.value| == |inputs| && forall i :: 0 <= i < |inputs| ==> Identifies(Tables(), inputs[i], r.value[i])
    {
      if Reserved(skus, ids) { ResolutionVerdict(Tables(), parent, inputs); }
      var resolved: seq<SkuInput> := [];
      for i := 0 to |inputs|
        invariant Resolve(Tables(), parent, inputs[..i]) == Ok(resolved)
      {
        assert inputs[..i + 1][..i] == inputs[..i] && inputs[..i + 1][i] == inputs[i];
        var one := ResolveInput(parent, inputs[i]);
        if one.Err? {
          RejectionStays(Tables(), parent, inputs, i + 1);
          return Err(one.error);
        }
        resolved := resolved + [one.value];
      }
      assert inputs[..|inputs|] == inputs;
      return Ok(resolved);
    }

    method ResolveInput(parent: Uuid, s: SkuInput) returns (r: Result<SkuInput, Rejection>)
      ensures r == ResolveOne(Tables(), parent, s)
    {
      if s.id.Some? && s.id.value in skus && skus[s.id.value].parent != parent { return Err(CrossProduct); }
      if s.content.skuId !in ids { return Ok(s); }
      var owner := ids[s.content.skuId];
      if s.id.Some? {
        if s.id.value != owner { return Err(SkuCollision); }
        return Ok(s);
      }
      if owner in skus && skus[owner].parent != parent { return Err(CrossProduct); }
      if owner in skus && skus[owner].content.skuId != s.content.skuId { return Err(SkuCollision); }
      return Ok(s.(id := Some(owner)));
    }

    /** The persisted rows of a product, keyed by their current SKU id. */
    method ExistingSkus(parent: Uuid) returns (family: map<string, SkuContent>)
      requires Reserved(skus, ids)
      ensures family == FamilyById(skus, ids, parent) && Keyed(family)
    {
      var pending := set s | s in skus && skus[s].parent == parent;
      family := map[];
      while pending != {}
        invariant pending <= RowsOf(skus, parent)
        invariant forall k :: k in family <==> IsCurrent(skus, ids, parent, k) && ids[k] !in pending
        invariant forall k :: k in family ==> family[k] == skus[ids[k]].content
        decreases |pending|
      {
        var s := AnyOf(pending);
        family := family[skus[s].content.skuId := skus[s].content];
        pending := pending - {s};
      }
    }

    method MergeInputs(family: map<string, SkuContent>, inputs: seq<SkuInput>) returns (merged: map<string, SkuContent>)
      ensures merged == MergeFamily(family, inputs)
    {
      merged := family;
      for i := 0 to |inputs|
        invariant merged == MergeFamily(family, inputs[..i])
      {
        assert inputs[..i + 1][..i] == inputs[..i] && inputs[..i + 1][i] == inputs[i];
        var c := inputs[i].content;
        if c.skuId in merged {
          merged := merged[c.skuId := MergeSku(merged[c.skuId], c)];
        } else {
          merged := merged[c.skuId := c];
        }
      }
      assert inputs[..|inputs|] == inputs;
    }

    method Gate(product: ProductContent, family: map<string, SkuContent>) returns (opens: bool)
      requires Keyed(family)
      ensures opens <==> MapReady(product, family)
    {
      var rows: seq<SkuContent> := [];
      var pending := family.Keys;
      while pending != {}
        invariant pending <= family.Keys && DistinctSkuIds(rows)
        invariant forall i :: 0 <= i < |rows| ==>
          rows[i].skuId in family && rows[i].skuId !in pending && family[rows[i].skuId] == rows[i]
        invariant forall k :: k in family ==> k in pending || Repeats(rows, k)
        decreases |pending|
      {
        var k := AnyOf(pending);
        RepeatsSnoc(rows, family[k]);
        rows := rows + [family[k]];
        pending := pending - {k};
      }
      var errors, _ := ValidateReadinessGate(product, rows);
      GateJudgesTheMap(product, rows, family);
      return errors == [];
    }

    method PlanFamily(p: Payload, spareId: Uuid) returns (plan: Result<Plan, Rejection>)
      requires Valid()
      ensures plan == PlanSave(State(), p, spareId)
    {
      var errors, _ := ValidateProductFamilyPayload(p.product, Contents(p.skus));
      if errors != [] { return Err(Invalid(errors)); }
      if p.productId.Some? && p.productId.value !in products { return Err(ProductNotFound); }
      var id := if p.productId.Some? then p.productId.value else spareId;
      if p.product.code in codes && codes[p.product.code] != id { return Err(CodeCollision); }
      var resolved := ResolveInputs(id, p.skus);
      if resolved.Err? { return Err(resolved.error); }
      if p.productId.None? { return Ok(Plan(id, true, Product(p.product, Draft), resolved.value)); }
      var row := products[id];
      var product := MergeProduct(row.content, p.product);
      var existing := ExistingSkus(id);
      var family := MergeInputs(existing, resolved.value);
      MergeKeepsKeys(existing, resolved.value);
      var state := Draft;
      if row.state != Draft {
        var opens := Gate(product, family);
        if opens { state := Ready; }
      }
      return Ok(Plan(id, false, Product(product, state), resolved.value));
    }

    // -------------------------------------------------------------- transactions

    method Rollback(db: Db)
      modifies this
      ensures State() == db
    {
      products, codes := db.registry.products, db.registry.codes;
      skus, ids, ledger := db.shelf.skus, db.shelf.ids, db.shelf.ledger;
      records := db.records;
    }

    method Begin() returns (snapshot: Db)
      ensures snapshot == State()
    {
      return Db(Registry(products, codes), Shelf(skus, ids, ledger), records);
    }

    /** Writes the product and its SKUs; a statement that fails undoes all of them. */
    method Apply(plan: Plan, spare: Supply) returns (outcome: Outcome)
      modifies this
      ensures (State(), outcome) == WritePlan(old(State()), plan, spare)
    {
      var snapshot := Begin();
      var status := StoreProduct(plan.id, plan.product, plan.isNew);
      var saved: seq<Uuid> := [];
      if status == Fine { status, saved := StoreSkus(plan.id, plan.skus, spare); }
      if status == Fine {
        return Success(Saved(plan.id, plan.product.content.code, plan.product.state, saved));
      }
      Rollback(snapshot);
      return if status == ConstraintError then Rejected(RefusedByDatabase) else Failed;
    }

    /** The record is part of the transaction: if it cannot be stored, nothing is. */
    method Finish(call: Call, op: Operation, outcome: Outcome, snapshot: Db) returns (final: Outcome)
      requires !IsCached(snapshot, call)
      modifies this
      ensures (State(), final) == Guarded(snapshot, call, op, (old(State()), outcome))
    {
      final := outcome;
      if outcome.Success? {
        var ok := SaveIdempotency(call, op, outcome.done);
        if !ok {
          Rollback(snapshot);
          final := Failed;
        }
      }
    }

    method SaveProductFamily(call: Call, p: Payload, spareId: Uuid, spare: Supply) returns (outcome: Outcome)
      requires Valid()
      modifies this
      ensures Valid() && Sane(old(State()), (State(), outcome))
      ensures (State(), Some(outcome)) == Next(old(State()), Save(call, p, spareId, spare))
    {
      StepKeepsTheInvariant(State(), Save(call, p, spareId, spare));
      var cached := CheckIdempotency(call, Operation.SaveProductFamily);
      if cached.Some? { return cached.value; }
      var snapshot := Begin();
      var plan := PlanFamily(p, spareId);
      if plan.Err? { return Rejected(plan.error); }
      outcome := Apply(plan.value, spare);
      outcome := Finish(call, Operation.SaveProductFamily, outcome, snapshot);
    }

    method ApplyRename(id: Uuid, code: string) returns (outcome: Outcome)
      modifies `products, `codes
      ensures (State(), outcome) == RenameBody(old(State()), id, code)
    {
      if !ValidProductCode(code) { return Rejected(Invalid([ValidationError(SyntaxError, "product_code")])); }
      if id !in products { return Rejected(ProductNotFound); }
      if code in codes && codes[code] != id { return Rejected(CodeCollision); }
      var row := products[id];
      var state := row.state;
      if state == Published { state := Ready; }
      var status := StoreProduct(id, Product(row.content.(code := code), state), false);
      if status != Fine { return if status == ConstraintError then Rejected(RefusedByDatabase) else Failed; }
      return Success(Renamed(id, code, state, set s | s in skus && skus[s].parent == id));
    }

    method RenameProductCode(call: Call, id: Uuid, code: string) returns (outcome: Outcome)
      requires Valid()
      modifies this
      ensures Valid() && Sane(old(State()), (State(), outcome))
      ensures (State(), Some(outcome)) == Next(old(State()), Rename(call, id, code))
    {
      StepKeepsTheInvariant(State(), Rename(call, id, code));
      var cached := CheckIdempotency(call, Operation.RenameProductCode);
      if cached.Some? { return cached.value; }
      var snapshot := Begin();
      outcome := ApplyRename(id, code);
      outcome := Finish(call, Operation.RenameProductCode, outcome, snapshot);
    }

    method ApplyTransition(id: Uuid, to: Lifecycle) returns (outcome: Outcome)
      requires Reserved(skus, ids)
      modifies `products
      ensures (State(), outcome) == TransitionBody(old(State()), id, to)
    {
      if id !in products { return Rejected(ProductNotFound); }
      var row := products[id];
      if to == Ready {
        var family := ExistingSkus(id);
        var opens := Gate(row.content, family);
        if !opens { return Rejected(GateClosed); }
      }
      products := products[id := row.(state := to)];
      assert products == SetState(old(Codes()), {id}, to).products;
      return Success(Transitioned(id, row.content.code, to));
    }

    method TransitionLifecycleState(call: Call, id: Uuid, target: string) returns (outcome: Outcome)
      requires Valid()
      modifies this
      ensures Valid() && Sane(old(State()), (State(), outcome))
      ensures (State(), Some(outcome)) == Next(old(State()), Transition(call, id, target))
    {
      StepKeepsTheInvariant(State(), Transition(call, id, target));
      if target != "DRAFT" && target != "READY" { return Rejected(TargetNotAllowed); }
      var cached := CheckIdempotency(call, Operation.TransitionLifecycleState);
      if cached.Some? { return cached.value; }
      var snapshot := Begin();
      outcome := ApplyTransition(id, if target == "READY" then Ready else Draft);
      outcome := Finish(call, Operation.TransitionLifecycleState, outcome, snapshot);
    }

    // -------------------------------------------------------------- publication

    /** The parents of the rows, unless a row fails the audit. */
    method Audit(rows: set<Uuid>) returns (ok: bool, exported: set<Uuid>)
      requires rows <= skus.Keys
      ensures ok <==> forall s :: s in rows ==> PassesAudit(skus[s].content)
      ensures ok ==> exported == set s | s in rows :: skus[s].parent
    {
      var pending := rows;
      ok, exported := true, {};
      while pending != {}
        invariant pending <= rows
        invariant ok <==> forall s :: s in rows && s !in pending ==> PassesAudit(skus[s].content)
        invariant ok ==> exported == set s | s in rows && s !in pending :: skus[s].parent
        decreases |pending|
      {
        var s := AnyOf(pending);
        pending := pending - {s};
        if PassesAudit(skus[s].content) { exported := exported + {skus[s].parent}; } else { ok := false; }
      }
    }

    /** The catalog side of an export: audit every row, then promote every exported product, or nothing. */
    method PublishEligible(targets: set<Uuid>) returns (ok: bool)
      modifies `products
      ensures (State(), ok) == Publish(old(State()), targets)
    {
      var rows := set s | s in skus && IsEligible(products, targets, skus[s].parent);
      assert rows == Exported(State(), targets);
      if rows == {} { return false; }
      var exported;
      ok, exported := Audit(rows);
      if ok {
        products := map p | p in products :: if p in exported then products[p].(state := Published) else products[p];
        assert products == SetState(old(Codes()), exported, Published).products;
      }
    }

    // -------------------------------------------------------------- resolution

    method RowWithId(k: string) returns (found: Option<Uuid>)
      requires Reserved(skus, ids)
      ensures found == BySkuIdText(Tables(), k)
    {
      var pending := skus.Keys;
      while pending != {}
        invariant pending <= skus.Keys
        invariant forall s :: s in skus && s !in pending ==> skus[s].content.skuId != k
        decreases |pending|
      {
        var s := AnyOf(pending);
        if skus[s].content.skuId == k {
          assert Holds(skus, s, k);
          return Some(s);
        }
        pending := pending - {s};
      }
      if k in ids && ids[k] in skus { return Some(ids[k]); }
      return None;
    }

    /** The row of the master view: the SKU with the product it belongs to. */
    method MasterRow(s: Uuid) returns (row: Option<Master>)
      ensures row == CatalogHistory.MasterRow(Codes(), Tables(), s)
    {
      if s !in skus || skus[s].parent !in products { return None; }
      return Some(Master(s, skus[s], products[skus[s].parent]));
    }

    method ResolveSku(tokens: map<string, Uuid>, key: string, kind: LookupType, parsed: Option<Uuid>) returns (row: Option<Master>)
      requires Valid()
      ensures var found := CatalogHistory.ResolveSku(Tables(), tokens, key, kind, parsed);
              if found.None? then row == None
              else row.Some? && row == CatalogHistory.MasterRow(Codes(), Tables(), found.value) && row.value.id == found.value
    {
      if key == "" { return None; }
      var text := Strip(key);
      if kind == Auto || kind == ByUuid {
        if parsed.Some? {
          row := MasterRow(parsed.value);
          if row.Some? { return row; }
        }
      }
      if kind == Auto || kind == BySkuId {
        var found := RowWithId(AsciiUpper(text));
        if found.Some? {
          row := MasterRow(found.value);
          return row;
        }
      }
      if kind == Auto || kind == ByChannelToken {
        if text in tokens {
          row := MasterRow(tokens[text]);
          return row;
        }
      }
      return None;
    }
  }
}
