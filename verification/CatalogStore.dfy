/**
 The SKU tables as the database keeps them: the rows, the permanent registry of SKU ids that a trigger
 maintains, and the append-only price ledger.
 */
module CatalogStore {
  import opened Common
  import opened CatalogModel
  import opened CatalogValidation

  /** One ledger row; a SKU's first has no previous prices. */
  datatype Entry = Entry(sku: Uuid, previous: Option<Prices>, current: Prices)

  datatype Shelf = Shelf(skus: map<Uuid, Sku>, ids: map<string, Uuid>, ledger: seq<Entry>)

  /**
   What a statement does: it goes through; or a unique or reservation constraint refuses it, which the
   service turns into a rejection; or it raises an error the service lets through.
   */
  datatype Written<T> = Stored(value: T) | Refused | Raised

  type Supply = nat -> Uuid

  // ================================================================ statements

  predicate SkuIdTaken(skus: map<Uuid, Sku>, ids: map<string, Uuid>, id: Uuid, skuId: string) {
    || (exists o :: o in skus && o != id && skus[o].content.skuId == skuId)
    || (skuId in ids && ids[skuId] != id)
  }

  /** What is given is taken, and what is absent is kept. */
  predicate Taken<T(==)>(row: Option<T>, given: Option<T>, merged: Option<T>) {
    (given.Some? ==> merged == given) && (given.None? ==> merged == row)
  }

  predicate TakenList<T(==)>(row: seq<T>, given: seq<T>, merged: seq<T>) {
    (given != [] ==> merged == given) && (given == [] ==> merged == row)
  }

  /** The row an update leaves: payload values, where the payload gives any. */
  function MergeSku(row: SkuContent, given: SkuContent): SkuContent {
    SkuContent(given.skuId, Either(given.colour, row.colour), Either(given.size, row.size),
               Either(given.sizeType, row.sizeType), Either(given.pack, row.pack), given.prices, given.packaging,
               if given.media != [] then given.media else row.media)
  }

  /** Each attribute on its own: the id, prices and packaging are always given, the others taken or kept. */
  lemma MergeTakesWhatIsGiven(row: SkuContent, given: SkuContent)
    ensures var merged := MergeSku(row, given);
            && merged.skuId == given.skuId && merged.prices == given.prices && merged.packaging == given.packaging
            && Taken(row.colour, given.colour, merged.colour) && Taken(row.size, given.size, merged.size)
            && Taken(row.sizeType, given.sizeType, merged.sizeType) && Taken(row.pack, given.pack, merged.pack)
            && TakenList(row.media, given.media, merged.media)
    ensures MergeSku(MergeSku(row, given), given) == MergeSku(row, given)
  {
  }

  function Either<T>(a: Option<T>, b: Option<T>): Option<T> { if a.Some? then a else b }

  function InsertSku(shelf: Shelf, id: Uuid, parent: Uuid, c: SkuContent): Written<Shelf> {
    if !StorableSku(c) || id in shelf.skus then Raised
    else if SkuIdTaken(shelf.skus, shelf.ids, id, c.skuId) then Refused
    else Stored(Shelf(shelf.skus[id := Sku(parent, StoredSku(c))], shelf.ids[c.skuId := id],
                      shelf.ledger + [Entry(id, None, StoredPrices(c.prices))]))
  }

  /** Prices are compared before rounding: the payload's against the row's. */
  function UpdateSku(shelf: Shelf, id: Uuid, c: SkuContent): Written<Shelf>
    requires id in shelf.skus
  {
    var row := shelf.skus[id];
    var merged := MergeSku(row.content, c);
    if !StorableSku(merged) then Raised
    else if SkuIdTaken(shelf.skus, shelf.ids, id, c.skuId) then Refused
    else Stored(Shelf(shelf.skus[id := Sku(row.parent, StoredSku(merged))], shelf.ids[c.skuId := id],
                      if row.content.prices == c.prices then shelf.ledger
                      else shelf.ledger + [Entry(id, Some(row.content.prices), StoredPrices(c.prices))]))
  }

  predicate Known(skus: map<Uuid, Sku>, s: SkuInput) { s.id.Some? && s.id.value in skus }

  function TargetId(s: SkuInput, spare: Uuid): Uuid { if s.id.Some? then s.id.value else spare }

  function WriteSku(shelf: Shelf, parent: Uuid, s: SkuInput, spare: Uuid): Written<Shelf> {
    if Known(shelf.skus, s) then UpdateSku(shelf, s.id.value, s.content)
    else InsertSku(shelf, TargetId(s, spare), parent, s.content)
  }

  /** The statements of one payload, in order; the first that fails ends the transaction. */
  function WriteSkus(shelf: Shelf, parent: Uuid, skus: seq<SkuInput>, spare: Supply): Written<Shelf> {
    if skus == [] then Stored(shelf)
    else
      var n := |skus| - 1;
      match WriteSkus(shelf, parent, skus[..n], spare)
      case Stored(before) => WriteSku(before, parent, skus[n], spare(n))
      case failed => failed
  }

  // ================================================================ invariants of the tables

  /** Every row's current id is reserved to it, and every reservation belongs to a row. */
  ghost predicate Reserved(skus: map<Uuid, Sku>, ids: map<string, Uuid>) {
    && (forall id :: id in skus ==> skus[id].content.skuId in ids && ids[skus[id].content.skuId] == id)
    && (forall k :: k in ids ==> ids[k] in skus)
  }

  /** Rows hold prices their columns can hold, under well-formed SKU ids. */
  ghost predicate Exact(skus: map<Uuid, Sku>) {
    forall id :: id in skus ==>
      StoredPrices(skus[id].content.prices) == skus[id].content.prices && Identifier(skus[id].content.skuId)
  }

  /** The last prices the ledger records for each SKU. */
  function Balances(ledger: seq<Entry>): map<Uuid, Prices> {
    if ledger == [] then map[]
    else Balances(ledger[..|ledger| - 1])[ledger[|ledger| - 1].sku := ledger[|ledger| - 1].current]
  }

  function Lookup(m: map<Uuid, Prices>, id: Uuid): Option<Prices> { if id in m then Some(m[id]) else None }

  /** Each entry's previous prices are what the entries before it last recorded for its SKU. */
  ghost predicate Chained(ledger: seq<Entry>) {
    forall i :: 0 <= i < |ledger| ==> ledger[i].previous == Lookup(Balances(ledger[..i]), ledger[i].sku)
  }

  /** The ledger ends at the current prices of every SKU, and mentions no other. */
  ghost predicate Balanced(skus: map<Uuid, Sku>, ledger: seq<Entry>) {
    && Balances(ledger).Keys == skus.Keys
    && forall id :: id in skus ==> Balances(ledger)[id] == skus[id].content.prices
  }

  ghost predicate ShelfOk(shelf: Shelf) {
    Reserved(shelf.skus, shelf.ids) && Exact(shelf.skus) && Chained(shelf.ledger) && Balanced(shelf.skus, shelf.ledger)
  }

  // ================================================================ what one statement keeps

  lemma AppendKeepsChain(ledger: seq<Entry>, e: Entry)
    requires Chained(ledger) && e.previous == Lookup(Balances(ledger), e.sku)
    ensures Chained(ledger + [e]) && Balances(ledger + [e]) == Balances(ledger)[e.sku := e.current]
  {
    var longer := ledger + [e];
    assert longer[..|ledger|] == ledger;
    forall i | 0 <= i < |longer| ensures longer[i].previous == Lookup(Balances(longer[..i]), longer[i].sku) {
      if i < |ledger| { assert longer[..i] == ledger[..i]; }
    }
  }

  lemma StoringKeepsReservations(skus: map<Uuid, Sku>, ids: map<string, Uuid>, id: Uuid, row: Sku)
    requires Reserved(skus, ids) && !SkuIdTaken(skus, ids, id, row.content.skuId)
    ensures Reserved(skus[id := row], ids[row.content.skuId := id])
  {
  }

  lemma StoringKeepsBalance(skus: map<Uuid, Sku>, ledger: seq<Entry>, id: Uuid, row: Sku, e: Entry)
    requires Chained(ledger) && Balanced(skus, ledger)
    requires e.sku == id && e.current == row.content.prices
    requires e.previous == if id in skus then Some(skus[id].content.prices) else None
    ensures Chained(ledger + [e]) && Balanced(skus[id := row], ledger + [e])
  {
    AppendKeepsChain(ledger, e);
  }

  lemma InsertKeepsShelf(shelf: Shelf, id: Uuid, parent: Uuid, c: SkuContent)
    requires ShelfOk(shelf) && InsertSku(shelf, id, parent, c).Stored?
    ensures ShelfOk(InsertSku(shelf, id, parent, c).value)
  {
    var row, prices := Sku(parent, StoredSku(c)), StoredPrices(c.prices);
    assert row.content.skuId == c.skuId && row.content.prices == prices;
    StoredPricesAreExact(c.prices);
    StoringKeepsReservations(shelf.skus, shelf.ids, id, row);
    StoringKeepsBalance(shelf.skus, shelf.ledger, id, row, Entry(id, None, prices));
  }

  lemma UpdateKeepsShelf(shelf: Shelf, id: Uuid, c: SkuContent)
    requires ShelfOk(shelf) && id in shelf.skus && UpdateSku(shelf, id, c).Stored?
    ensures ShelfOk(UpdateSku(shelf, id, c).value)
  {
    var before := shelf.skus[id];
    var row, prices := Sku(before.parent, StoredSku(MergeSku(before.content, c))), StoredPrices(c.prices);
    assert row.content.skuId == c.skuId && row.content.prices == prices;
    StoredPricesAreExact(c.prices);
    StoringKeepsReservations(shelf.skus, shelf.ids, id, row);
    if before.content.prices != c.prices {
      StoringKeepsBalance(shelf.skus, shelf.ledger, id, row, Entry(id, Some(before.content.prices), prices));
    }
  }

  lemma WriteSkuKeepsShelf(shelf: Shelf, parent: Uuid, s: SkuInput, spare: Uuid)
    requires ShelfOk(shelf) && WriteSku(shelf, parent, s, spare).Stored?
    ensures ShelfOk(WriteSku(shelf, parent, s, spare).value)
  {
    if Known(shelf.skus, s) {
      UpdateKeepsShelf(shelf, s.id.value, s.content);
    } else {
      InsertKeepsShelf(shelf, TargetId(s, spare), parent, s.content);
    }
  }

  // ================================================================ what a payload's statements keep

  /** An input that names an existing row names one of this product's. */
  predicate Belongs(skus: map<Uuid, Sku>, parent: Uuid, s: SkuInput) {
    Known(skus, s) ==> skus[s.id.value].parent == parent
  }

  predicate Unclaimed(ids: map<string, Uuid>, s: SkuInput) {
    s.content.skuId in ids ==> s.id == Some(ids[s.content.skuId])
  }

  /** What the checks before the first write establish about every input. */
  predicate Cleared(shelf: Shelf, parent: Uuid, s: SkuInput) {
    Belongs(shelf.skus, parent, s) && Unclaimed(shelf.ids, s)
  }

  predicate AllCleared(shelf: Shelf, parent: Uuid, skus: seq<SkuInput>) {
    forall i :: 0 <= i < |skus| ==> Cleared(shelf, parent, skus[i])
  }

  predicate DistinctInputs(skus: seq<SkuInput>) {
    forall i, j :: 0 <= i < j < |skus| ==> skus[i].content.skuId != skus[j].content.skuId
  }

  ghost predicate IdsKept(before: map<string, Uuid>, after: map<string, Uuid>) {
    forall k :: k in before ==> k in after && after[k] == before[k]
  }

  /** Rows stay with their parent, and only this parent's rows are added or changed. */
  ghost predicate RowsKept(before: map<Uuid, Sku>, after: map<Uuid, Sku>, parent: Uuid) {
    && (forall id :: id in before ==> id in after && after[id].parent == before[id].parent)
    && (forall id :: id in after && id !in before ==> after[id].parent == parent)
    && (forall id :: id in before && before[id].parent != parent ==> after[id] == before[id])
  }

  ghost predicate Extends(before: Shelf, after: Shelf, parent: Uuid) {
    IdsKept(before.ids, after.ids) && RowsKept(before.skus, after.skus, parent) && before.ledger <= after.ledger
  }

  /** New reservations are for ids the payload mentions. */
  ghost predicate IdsFrom(before: map<string, Uuid>, after: map<string, Uuid>, skus: seq<SkuInput>) {
    forall k :: k in after && k !in before ==> exists i :: 0 <= i < |skus| && skus[i].content.skuId == k
  }

  lemma WriteSkuExtends(shelf: Shelf, parent: Uuid, s: SkuInput, spare: Uuid)
    requires Belongs(shelf.skus, parent, s) && WriteSku(shelf, parent, s, spare).Stored?
    ensures Extends(shelf, WriteSku(shelf, parent, s, spare).value, parent)
  {
  }

  lemma WriteSkuIds(shelf: Shelf, parent: Uuid, s: SkuInput, spare: Uuid)
    requires WriteSku(shelf, parent, s, spare).Stored?
    ensures WriteSku(shelf, parent, s, spare).value.ids == shelf.ids[s.content.skuId := TargetId(s, spare)]
  {
  }

  lemma UnclaimedIsNotTaken(skus: map<Uuid, Sku>, ids: map<string, Uuid>, s: SkuInput, spare: Uuid)
    requires Reserved(skus, ids) && Unclaimed(ids, s)
    ensures !SkuIdTaken(skus, ids, TargetId(s, spare), s.content.skuId)
  {
  }

  lemma ClearedStays(before: Shelf, after: Shelf, parent: Uuid, skus: seq<SkuInput>, s: SkuInput)
    requires Extends(before, after, parent) && IdsFrom(before.ids, after.ids, skus) && Cleared(before, parent, s)
    requires forall i :: 0 <= i < |skus| ==> skus[i].content.skuId != s.content.skuId
    ensures Cleared(after, parent, s)
  {
    if Known(after.skus, s) {
      var id := s.id.value;
      assert id in before.skus ==> after.skus[id].parent == before.skus[id].parent;
    }
  }

  lemma ExtendsTransitively(a: Shelf, b: Shelf, c: Shelf, parent: Uuid)
    requires Extends(a, b, parent) && Extends(b, c, parent)
    ensures Extends(a, c, parent)
  {
  }

  lemma IdsFromSnoc(base: map<string, Uuid>, before: map<string, Uuid>, skus: seq<SkuInput>, s: SkuInput, id: Uuid)
    requires IdsFrom(base, before, skus)
    ensures IdsFrom(base, before[s.content.skuId := id], skus + [s])
  {
    var longer := skus + [s];
    forall k | k in before[s.content.skuId := id] && k !in base
      ensures exists i :: 0 <= i < |longer| && longer[i].content.skuId == k
    {
      if k == s.content.skuId {
        assert longer[|skus|].content.skuId == k;
      } else {
        var i :| 0 <= i < |skus| && skus[i].content.skuId == k;
        assert longer[i].content.skuId == k;
      }
    }
  }

  /**
   After the checks, no statement of the payload meets a unique or reservation constraint; and what the
   statements leave satisfies every invariant of the tables, keeps every reservation, and touches no row
   of another product.
   */
  lemma {:induction false} WriteSkusAreSound(base: Shelf, parent: Uuid, skus: seq<SkuInput>, spare: Supply)
    requires ShelfOk(base) && AllCleared(base, parent, skus) && DistinctInputs(skus)
    ensures var w := WriteSkus(base, parent, skus, spare);
            && w != Refused
            && (w.Stored? ==> ShelfOk(w.value) && Extends(base, w.value, parent) && IdsFrom(base.ids, w.value.ids, skus))
  {
    if skus != [] {
      var n := |skus| - 1;
      WriteSkusAreSound(base, parent, skus[..n], spare);
      var w := WriteSkus(base, parent, skus[..n], spare);
      if w.Stored? { WriteSkuIsSound(base, w.value, parent, skus[..n], skus[n], spare(n)); }
      assert skus[..n] + [skus[n]] == skus;
    }
  }

  lemma WriteSkuIsSound(base: Shelf, before: Shelf, parent: Uuid, done: seq<SkuInput>, s: SkuInput, spare: Uuid)
    requires ShelfOk(before) && Extends(base, before, parent) && IdsFrom(base.ids, before.ids, done)
    requires Cleared(base, parent, s) && forall i :: 0 <= i < |done| ==> done[i].content.skuId != s.content.skuId
    ensures var w := WriteSku(before, parent, s, spare);
            && w != Refused
            && (w.Stored? ==> ShelfOk(w.value) && Extends(base, w.value, parent) && IdsFrom(base.ids, w.value.ids, done + [s]))
  {
    ClearedStays(base, before, parent, done, s);
    UnclaimedIsNotTaken(before.skus, before.ids, s, spare);
    var w := WriteSku(before, parent, s, spare);
    if w.Stored? {
      WriteSkuKeepsShelf(before, parent, s, spare);
      WriteSkuExtends(before, parent, s, spare);
      ExtendsTransitively(base, before, w.value, parent);
      WriteSkuIds(before, parent, s, spare);
      IdsFromSnoc(base.ids, before.ids, done, s, TargetId(s, spare));
    }
  }

  // ================================================================ readiness of the stored rows

  ghost predicate AllRowsReady(skus: map<Uuid, Sku>, parent: Uuid) {
    forall id :: id in skus && skus[id].parent == parent ==> SkuReady(skus[id].content)
  }

  /** Images the input brings are real ones, and a row it creates gets at least one. */
  predicate BringsImages(skus: map<Uuid, Sku>, s: SkuInput) {
    && SkuValid(s.content)
    && (s.content.media != [] ==> HasImage(s.content.media))
    && (!Known(skus, s) ==> HasImage(s.content.media))
  }

  lemma WriteSkuKeepsReady(shelf: Shelf, parent: Uuid, s: SkuInput, spare: Uuid)
    requires AllRowsReady(shelf.skus, parent) && BringsImages(shelf.skus, s) && Belongs(shelf.skus, parent, s)
    requires WriteSku(shelf, parent, s, spare).Stored?
    ensures AllRowsReady(WriteSku(shelf, parent, s, spare).value.skus, parent)
  {
  }

  lemma {:induction false} WriteSkusKeepReady(base: Shelf, parent: Uuid, skus: seq<SkuInput>, spare: Supply)
    requires ShelfOk(base) && AllCleared(base, parent, skus) && DistinctInputs(skus)
    requires AllRowsReady(base.skus, parent) && forall i :: 0 <= i < |skus| ==> BringsImages(base.skus, skus[i])
    ensures var w := WriteSkus(base, parent, skus, spare); w.Stored? ==> AllRowsReady(w.value.skus, parent)
  {
    if skus != [] {
      var n := |skus| - 1;
      WriteSkusKeepReady(base, parent, skus[..n], spare);
      WriteSkusAreSound(base, parent, skus[..n], spare);
      var w := WriteSkus(base, parent, skus[..n], spare);
      if w.Stored? && WriteSku(w.value, parent, skus[n], spare(n)).Stored? {
        assert Cleared(base, parent, skus[n]) && BringsImages(base.skus, skus[n]);
        WriteSkuKeepsReady(w.value, parent, skus[n], spare(n));
      }
    }
  }

  function Targets(skus: seq<SkuInput>, spare: Supply): (ids: seq<Uuid>)
    ensures |ids| == |skus|
  {
    if skus == [] then []
    else
      var n := |skus| - 1;
      Targets(skus[..n], spare) + [TargetId(skus[n], spare(n))]
  }
}
