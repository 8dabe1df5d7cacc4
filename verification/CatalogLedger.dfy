/** The price ledger over whole runs. */
module CatalogLedger {
  import opened Common
  import opened CatalogModel
  import opened CatalogStore
  import opened CatalogWrites
  import opened CatalogFamily
  import opened CatalogSpec
  import opened CatalogInvariants

  // ================================================================ the history of a SKU

  function HistoryOf(ledger: seq<Entry>, s: Uuid): seq<Entry> {
    if ledger == [] then []
    else HistoryOf(ledger[..|ledger| - 1], s) + if ledger[|ledger| - 1].sku == s then [ledger[|ledger| - 1]] else []
  }

  /** Starts from nothing, and every entry starts where the one before it ended. */
  predicate IsChain(history: seq<Entry>) {
    && (history != [] ==> history[0].previous == None)
    && (forall i :: 0 < i < |history| ==> history[i].previous == Some(history[i - 1].current))
  }

  lemma {:induction false} ChainedLedgersAreChains(ledger: seq<Entry>, s: Uuid)
    requires Chained(ledger)
    ensures var h := HistoryOf(ledger, s);
            IsChain(h) && Lookup(Balances(ledger), s) == if h == [] then None else Some(h[|h| - 1].current)
  {
    if ledger != [] {
      var n := |ledger| - 1;
      ChainedIsPrefixClosed(ledger);
      ChainedLedgersAreChains(ledger[..n], s);
      assert ledger[n].previous == Lookup(Balances(ledger[..n]), ledger[n].sku);
    }
  }

  lemma ChainedIsPrefixClosed(ledger: seq<Entry>)
    requires ledger != [] && Chained(ledger)
    ensures Chained(ledger[..|ledger| - 1])
  {
    var shorter := ledger[..|ledger| - 1];
    forall i | 0 <= i < |shorter| ensures shorter[i].previous == Lookup(Balances(shorter[..i]), shorter[i].sku) {
      assert shorter[..i] == ledger[..i];
    }
  }

  /**
   In every reachable state the ledger of a SKU is its whole price history: it begins without previous
   prices, is unbroken, and ends at the prices of the row.
   */
  lemma LedgerIsTheWholeHistory(db: Db, s: Uuid)
    requires Reachable(db) && s in db.shelf.skus
    ensures var h := HistoryOf(db.shelf.ledger, s);
            IsChain(h) && h != [] && h[|h| - 1].current == db.shelf.skus[s].content.prices
  {
    ReachableIsOk(db);
    ChainedLedgersAreChains(db.shelf.ledger, s);
    assert s in Balances(db.shelf.ledger).Keys;
  }

  // ================================================================ entries that record no change

  /**
   An update records a change that is none exactly when the payload's prices differ from the row's only
   below the precision of the columns.
   */
  lemma UpdatesThatRecordNoChange(shelf: Shelf, id: Uuid, c: SkuContent)
    requires id in shelf.skus && UpdateSku(shelf, id, c).Stored?
    ensures var after := UpdateSku(shelf, id, c).value;
            (after.ledger != shelf.ledger && !RecordsAChange(after.ledger[|after.ledger| - 1]))
            <==> DifferBelowPrecision(shelf.skus[id].content.prices, c.prices)
  {
  }

  /** A successful save one of whose inputs gives prices that differ from the current ones only below column precision. */
  ghost predicate LogsNoChange(db: Db, e: Event) {
    && e.Save? && Next(db, e).1 == Some(SaveBody(db, e.payload, e.spareId, e.spare).1) && Next(db, e).1.value.Success?
    && var plan := PlanSave(db, e.payload, e.spareId).value;
       !NoneReplaces(db.shelf.skus, plan.id, plan.skus, e.spare)
  }

  lemma SavesRecordChanges(db: Db, p: Payload, spareId: Uuid, spare: Supply)
    ensures var r := SaveBody(db, p, spareId, spare);
            if r.1.Success? then
              var plan := PlanSave(db, p, spareId).value;
              AllChanges(r.0.shelf.ledger) <==> AllChanges(db.shelf.ledger) && NoneReplaces(db.shelf.skus, plan.id, plan.skus, spare)
            else r.0.shelf == db.shelf
  {
    if SaveBody(db, p, spareId, spare).1.Success? {
      var plan := PlanSave(db, p, spareId).value;
      PlanIsWritten(db, plan, spare);
      WritesRecordChanges(db.shelf, plan.id, plan.skus, spare);
    }
  }

  /** A keyed call is carried out and answers what its body answers, or leaves the SKUs alone. */
  lemma GuardedShelf(db: Db, call: Call, op: Operation, r: (Db, Outcome))
    requires !r.1.Success? ==> r.0.shelf == db.shelf
    ensures var g := Guarded(db, call, op, r);
            if g.1 == r.1 && r.1.Success? then g.0.shelf == r.0.shelf else g.0.shelf == db.shelf
  {
  }

  lemma StepsRecordChanges(db: Db, e: Event)
    ensures AllChanges(Next(db, e).0.shelf.ledger) <==> AllChanges(db.shelf.ledger) && !LogsNoChange(db, e)
  {
    match e
    case Save(call, p, spareId, spare) =>
      SavesRecordChanges(db, p, spareId, spare);
      GuardedShelf(db, call, SaveProductFamily, SaveBody(db, p, spareId, spare));
    case Rename(call, id, code) => GuardedShelf(db, call, RenameProductCode, RenameBody(db, id, code));
    case Transition(call, id, target) =>
      GuardedShelf(db, call, TransitionLifecycleState, TransitionBody(db, id, if target == "READY" then Ready else Draft));
    case Publication(_) =>
    case Cleanup(_) =>
  }

  /** No event of the run from the empty catalog is such a save. */
  ghost predicate NeverLogsNoChange(events: seq<Event>) {
    events != [] ==>
      var n := |events| - 1; NeverLogsNoChange(events[..n]) && !LogsNoChange(Run(EMPTY, events[..n]), events[n])
  }

  /** Over every run, every ledger entry records a change exactly when no save replaced prices by the same ones, to column precision. */
  lemma {:induction false} LedgerRecordsOnlyChanges(events: seq<Event>)
    ensures AllChanges(Run(EMPTY, events).shelf.ledger) <==> NeverLogsNoChange(events)
  {
    if events != [] {
      var n := |events| - 1;
      LedgerRecordsOnlyChanges(events[..n]);
      StepsRecordChanges(Run(EMPTY, events[..n]), events[n]);
    }
  }

  predicate PricesExact(skus: seq<SkuInput>) {
    forall i :: 0 <= i < |skus| ==> StoredPrices(skus[i].content.prices) == skus[i].content.prices
  }

  predicate ExactEvent(e: Event) { e.Save? ==> PricesExact(e.payload.skus) }

  lemma ExactEventsLogChanges(db: Db, e: Event)
    requires ExactEvent(e) && Reserved(db.shelf.skus, db.shelf.ids)
    ensures !LogsNoChange(db, e)
  {
    if e.Save? && PlanSave(db, e.payload, e.spareId).Ok? {
      PlannedInputs(db, e.payload, e.spareId);
      var plan := PlanSave(db, e.payload, e.spareId).value;
      forall i | 0 <= i < |plan.skus| ensures !ReplacesByTheSame(db.shelf.skus, plan.id, plan.skus, e.spare, i) {
        assert Contents(plan.skus)[i] == Contents(e.payload.skus)[i];
      }
    }
  }

  /** So with prices in whole paise every entry records a change. */
  lemma ExactPricesRecordChanges(events: seq<Event>)
    requires forall i :: 0 <= i < |events| ==> ExactEvent(events[i])
    ensures AllChanges(Run(EMPTY, events).shelf.ledger)
  {
    ExactRunsLogChanges(events);
    LedgerRecordsOnlyChanges(events);
  }

  lemma {:induction false} ExactRunsLogChanges(events: seq<Event>)
    requires forall i :: 0 <= i < |events| ==> ExactEvent(events[i])
    ensures NeverLogsNoChange(events)
  {
    if events != [] {
      var n := |events| - 1;
      ExactRunsLogChanges(events[..n]);
      ReservedAfter(events[..n]);
      ExactEventsLogChanges(Run(EMPTY, events[..n]), events[n]);
    }
  }

  lemma ReservedAfter(events: seq<Event>)
    ensures Reserved(Run(EMPTY, events).shelf.skus, Run(EMPTY, events).shelf.ids)
  {
    assert DbOk(EMPTY);
    RunKeepsTheInvariant(EMPTY, events);
  }
}
