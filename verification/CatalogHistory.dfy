/** Histories over whole runs: idempotency windows and the resolution of past ids. */
module CatalogHistory {
  import opened Common
  import opened CatalogModel
  import opened CatalogValidation
  import opened CatalogStore
  import opened CatalogFamily
  import opened CatalogSpec
  import opened CatalogInvariants

  // ================================================================ idempotency windows

  ghost function CallOf(e: Event): Option<Call> {
    match e
    case Save(call, _, _, _) => Some(call)
    case Rename(call, _, _) => Some(call)
    case Transition(call, _, _) => Some(call)
    case _ => None
  }

  ghost function OperationOf(e: Event): Operation
    requires CallOf(e).Some?
  {
    match e
    case Save(_, _, _, _) => SaveProductFamily
    case Rename(_, _, _) => RenameProductCode
    case Transition(_, _, _) => TransitionLifecycleState
  }

  /** The call's key has a record that has not expired when the key is checked. */
  predicate HasLiveRecord(db: Db, call: Call) {
    call.key != "" && call.key in db.records && call.checkedAt <= db.records[call.key].expiresAt
  }

  /** The one rejection that comes before the key is checked. */
  predicate ChecksItsKey(e: Event) { e.Transition? ==> e.target == "DRAFT" || e.target == "READY" }

  /**
   While a key's record lives, no call with that key changes anything. It replays the stored response when the
   record is for the same operation and the same request; otherwise it is a conflict.
   */
  lemma LiveKeysChangeNothing(db: Db, e: Event)
    requires CallOf(e).Some? && HasLiveRecord(db, CallOf(e).value)
    ensures var (r, call) := (Next(db, e), CallOf(e).value);
            var record := db.records[call.key];
            && r.0 == db
            && (!ChecksItsKey(e) ==> r.1 == Some(Rejected(TargetNotAllowed)))
            && (ChecksItsKey(e) && record.op == OperationOf(e) && record.hash == call.hash ==> r.1 == Some(Replayed(record.done)))
            && (ChecksItsKey(e) && (record.op != OperationOf(e) || record.hash != call.hash)
                ==> r.1 == Some(Rejected(IdempotencyConflict)))
  {
  }

  /** What a call does when it is carried out. */
  ghost function Body(db: Db, e: Event): (Db, Outcome)
    requires CallOf(e).Some?
  {
    match e
    case Save(_, p, spareId, spare) => SaveBody(db, p, spareId, spare)
    case Rename(_, id, code) => RenameBody(db, id, code)
    case Transition(_, id, target) => TransitionBody(db, id, if target == "READY" then Ready else Draft)
  }

  /** A call without a live record is carried out and answered as if it had no key, unless the key does not fit its column. */
  lemma OtherKeysAreCarriedOut(db: Db, e: Event)
    requires CallOf(e).Some? && !HasLiveRecord(db, CallOf(e).value) && ChecksItsKey(e) && |CallOf(e).value.key| <= KEY_WIDTH
    ensures var (r, body) := (Next(db, e), Body(db, e));
            r.1 == Some(body.1) && r.0.registry == body.0.registry && r.0.shelf == body.0.shelf
  {
  }

  /** The event happens while the clock has not passed `until`. */
  predicate NotAfter(e: Event, until: Time) {
    match e
    case Save(call, _, _, _) => call.checkedAt <= until
    case Rename(call, _, _) => call.checkedAt <= until
    case Transition(call, _, _) => call.checkedAt <= until
    case Publication(_) => true
    case Cleanup(now) => now <= until
  }

  ghost predicate SameRecord(before: map<string, Record>, after: map<string, Record>, key: string) {
    key in before && key in after && after[key] == before[key]
  }

  lemma RecordSurvivesCall(db: Db, call: Call, op: Operation, r: (Db, Outcome), key: string)
    requires key != "" && key in db.records && r.0.records == db.records && call.checkedAt <= db.records[key].expiresAt
    ensures SameRecord(db.records, Guarded(db, call, op, r).0.records, key)
  {
  }

  lemma SavesKeepRecords(db: Db, p: Payload, spareId: Uuid, spare: Supply)
    ensures SaveBody(db, p, spareId, spare).0.records == db.records
  {
    var plan := PlanSave(db, p, spareId);
    if plan.Ok? { PlansKeepRecords(db, plan.value, spare); }
  }

  lemma PlansKeepRecords(db: Db, plan: Plan, spare: Supply)
    ensures WritePlan(db, plan, spare).0.records == db.records
  {
  }

  lemma TransitionsKeepRecords(db: Db, id: Uuid, target: Lifecycle)
    ensures TransitionBody(db, id, target).0.records == db.records
  {
  }

  lemma RecordSurvivesStep(db: Db, e: Event, key: string)
    requires key != "" && key in db.records && NotAfter(e, db.records[key].expiresAt)
    ensures SameRecord(db.records, Next(db, e).0.records, key)
  {
    match e
    case Save(call, p, spareId, spare) =>
      SavesKeepRecords(db, p, spareId, spare);
      RecordSurvivesCall(db, call, SaveProductFamily, SaveBody(db, p, spareId, spare), key);
    case Rename(call, id, code) => RecordSurvivesCall(db, call, RenameProductCode, RenameBody(db, id, code), key);
    case Transition(call, id, target) =>
      var to := if target == "READY" then Ready else Draft;
      TransitionsKeepRecords(db, id, to);
      RecordSurvivesCall(db, call, TransitionLifecycleState, TransitionBody(db, id, to), key);
    case Publication(_) =>
    case Cleanup(_) =>
  }

  lemma {:induction false} RecordSurvives(db: Db, events: seq<Event>, key: string)
    requires key != "" && key in db.records
    requires forall i :: 0 <= i < |events| ==> NotAfter(events[i], db.records[key].expiresAt)
    ensures SameRecord(db.records, Run(db, events).records, key)
    decreases |events|
  {
    if events != [] {
      var n := |events| - 1;
      assert forall i :: 0 <= i < n ==> events[..n][i] == events[i];
      RecordSurvives(db, events[..n], key);
      RecordSurvivesStep(Run(db, events[..n]), events[n], key);
    }
  }

  /**
   After a success under a key, whatever happens until its record expires, every further call with that
   key leaves the catalog as it is: at most one mutation per key succeeds in each window.
   */
  lemma OneSuccessPerWindow(db: Db, first: Event, after: Db, done: Done, between: seq<Event>, again: Event)
    requires CallOf(first).Some? && CallOf(first).value.key != "" && Next(db, first) == (after, Some(Success(done)))
    requires var until := CallOf(first).value.savedAt + TTL;
             NotAfter(again, until) && forall i :: 0 <= i < |between| ==> NotAfter(between[i], until)
    requires CallOf(again).Some? && CallOf(again).value.key == CallOf(first).value.key
    ensures var r := Next(Run(after, between), again);
            r.0 == Run(after, between) && r.1.Some? && !r.1.value.Success?
  {
    SuccessIsRemembered(db, first);
    RecordSurvives(after, between, CallOf(first).value.key);
    LiveKeysChangeNothing(Run(after, between), again);
  }

  /**
   A successful call, repeated within its window after any other events, replays its own response. Another
   operation or another request under its key is a conflict.
   */
  lemma RepeatsReplayTheirOwnResponse(db: Db, first: Event, after: Db, done: Done, between: seq<Event>, again: Event)
    requires CallOf(first).Some? && CallOf(first).value.key != "" && Next(db, first) == (after, Some(Success(done)))
    requires var until := CallOf(first).value.savedAt + TTL;
             NotAfter(again, until) && forall i :: 0 <= i < |between| ==> NotAfter(between[i], until)
    requires CallOf(again).Some? && CallOf(again).value.key == CallOf(first).value.key && ChecksItsKey(again)
    ensures var same := OperationOf(again) == OperationOf(first) && CallOf(again).value.hash == CallOf(first).value.hash;
            Next(Run(after, between), again)
            == (Run(after, between), Some(if same then Replayed(done) else Rejected(IdempotencyConflict)))
  {
    SuccessIsRemembered(db, first);
    RecordSurvives(after, between, CallOf(first).value.key);
    LiveKeysChangeNothing(Run(after, between), again);
  }

  lemma SuccessIsRemembered(db: Db, e: Event)
    requires CallOf(e).Some? && CallOf(e).value.key != ""
    requires Next(db, e).1.Some? && Next(db, e).1.value.Success?
    ensures var (records, call) := (Next(db, e).0.records, CallOf(e).value);
            call.key in records
            && records[call.key] == Record(OperationOf(e), call.hash, Next(db, e).1.value.done, call.savedAt + TTL)
  {
    match e
    case Save(call, p, spareId, spare) => GuardedSuccess(db, call, SaveProductFamily, SaveBody(db, p, spareId, spare));
    case Rename(call, id, code) => GuardedSuccess(db, call, RenameProductCode, RenameBody(db, id, code));
    case Transition(call, id, target) =>
      GuardedSuccess(db, call, TransitionLifecycleState, TransitionBody(db, id, if target == "READY" then Ready else Draft));
  }

  lemma GuardedSuccess(db: Db, call: Call, op: Operation, r: (Db, Outcome))
    requires call.key != "" && Guarded(db, call, op, r).1.Success?
    ensures var g := Guarded(db, call, op, r);
            call.key in g.0.records && g.0.records[call.key] == Record(op, call.hash, g.1.done, call.savedAt + TTL)
  {
  }

  // ================================================================ resolution of past ids

  datatype LookupType = Auto | ByUuid | BySkuId | ByChannelToken

  function AsciiUpper(s: string): string {
    if s == [] then [] else [if 'a' <= s[0] <= 'z' then s[0] - 32 as char else s[0]] + AsciiUpper(s[1..])
  }

  ghost predicate Holds(skus: map<Uuid, Sku>, s: Uuid, k: string) { s in skus && skus[s].content.skuId == k }

  /** The row with this current id, else the row its reservation belongs to. */
  ghost function BySkuIdText(shelf: Shelf, k: string): Option<Uuid> {
    if exists s :: Holds(shelf.skus, s, k) then var s :| Holds(shelf.skus, s, k); Some(s)
    else if k in shelf.ids && shelf.ids[k] in shelf.skus then Some(shelf.ids[k])
    else None
  }

  /** `parsed` is what the UUID parser makes of the stripped key, `tokens` the channel mapping. */
  ghost function ResolveSku(shelf: Shelf, tokens: map<string, Uuid>, key: string, kind: LookupType, parsed: Option<Uuid>): Option<Uuid> {
    if key == "" then None
    else
      var text := Strip(key);
      if (kind == Auto || kind == ByUuid) && parsed.Some? && parsed.value in shelf.skus then parsed
      else if (kind == Auto || kind == BySkuId) && BySkuIdText(shelf, AsciiUpper(text)).Some? then BySkuIdText(shelf, AsciiUpper(text))
      else if (kind == Auto || kind == ByChannelToken) && text in tokens && tokens[text] in shelf.skus then Some(tokens[text])
      else None
  }

  /** A row of the master view. */
  datatype Master = Master(id: Uuid, sku: Sku, product: Product)

  function MasterRow(r: Registry, shelf: Shelf, s: Uuid): Option<Master> {
    if s in shelf.skus && shelf.skus[s].parent in r.products
    then Some(Master(s, shelf.skus[s], r.products[shelf.skus[s].parent])) else None
  }

  lemma {:induction false} IdentifiersAreUpper(k: string)
    requires forall i :: 0 <= i < |k| ==> IdChar(k[i]) || k[i] == '-'
    ensures AsciiUpper(k) == k
  {
    if k != [] { IdentifiersAreUpper(k[1..]); }
  }

  /** Under the reservations a text resolves exactly when it is reserved, to the row it is reserved to. */
  lemma TextVerdict(shelf: Shelf, k: string)
    requires Reserved(shelf.skus, shelf.ids)
    ensures BySkuIdText(shelf, k) == if k in shelf.ids then Some(shelf.ids[k]) else None
  {
  }

  /** The three lookups in their order, each only where the kind of lookup allows it, on the stripped key. */
  lemma LookupVerdict(shelf: Shelf, tokens: map<string, Uuid>, key: string, kind: LookupType, parsed: Option<Uuid>)
    requires Reserved(shelf.skus, shelf.ids)
    ensures var (found, text) := (ResolveSku(shelf, tokens, key, kind, parsed), Strip(key));
            var byUuid := (kind == Auto || kind == ByUuid) && parsed.Some? && parsed.value in shelf.skus;
            var bySkuId := (kind == Auto || kind == BySkuId) && AsciiUpper(text) in shelf.ids;
            var byToken := (kind == Auto || kind == ByChannelToken) && text in tokens && tokens[text] in shelf.skus;
            && (key == "" || (!byUuid && !bySkuId && !byToken) ==> found == None)
            && (key != "" && byUuid ==> found == parsed)
            && (key != "" && !byUuid && bySkuId ==> found == Some(shelf.ids[AsciiUpper(text)]))
            && (key != "" && !byUuid && !bySkuId && byToken ==> found == Some(tokens[text]))
  {
    TextVerdict(shelf, AsciiUpper(Strip(key)));
  }

  lemma ReservedIdResolves(shelf: Shelf, k: string)
    requires Reserved(shelf.skus, shelf.ids) && k in shelf.ids
    ensures BySkuIdText(shelf, k) == Some(shelf.ids[k])
  {
  }

  lemma IdentifierResolves(shelf: Shelf, tokens: map<string, Uuid>, k: string, kind: LookupType)
    requires Reserved(shelf.skus, shelf.ids) && k in shelf.ids && Identifier(k) && (kind == Auto || kind == BySkuId)
    ensures ResolveSku(shelf, tokens, k, kind, None) == Some(shelf.ids[k])
  {
    IdentifiersAreUpper(k);
    assert Strip(k) == k;
    ReservedIdResolves(shelf, k);
  }

  /**
   A SKU id, once it was some SKU's current id, resolves to that SKU in every later state, whatever the
   SKU is called by then. (`parsed` is absent: an id of at most ten characters is no UUID.)
   */
  lemma PastIdsResolveToTheirFirstHolder(events: seq<Event>, more: seq<Event>, tokens: map<string, Uuid>, s: Uuid, kind: LookupType)
    requires s in Run(EMPTY, events).shelf.skus && (kind == Auto || kind == BySkuId)
    ensures var (earlier, now) := (Run(EMPTY, events).shelf, Run(Run(EMPTY, events), more).shelf);
            ResolveSku(now, tokens, earlier.skus[s].content.skuId, kind, None) == Some(s)
  {
    var db, now := Run(EMPTY, events), Run(Run(EMPTY, events), more);
    var k := db.shelf.skus[s].content.skuId;
    assert Reachable(db);
    ReachableIsOk(db);
    RunKeepsTheInvariant(db, more);
    assert db.shelf.ids[k] == s && now.shelf.ids[k] == s;
    IdentifierResolves(now.shelf, tokens, k, kind);
  }
}
