/**
 The confirmation protocol: an action request is suspended in a table, and a later turn retrieves it
 and then consumes it with a conditional update before it may be executed.

 Turns of different clients interleave at every database call, so each call is one transition.
 */
module Confirmation {
  import opened Common

  type Nonce = string
  type SessionId = string
  type TurnId = nat
  type Time = int

  datatype Intent = Action | Confirm | Reject | Query

  datatype Request = Request(intent: Intent, query: string, entities: seq<string>)

  datatype Status = Pending | Consumed

  datatype Row = Row(session: SessionId, request: Request, status: Status, expiresAt: Time)

  type Rows = map<Nonce, Row>

  // ================================================================ the table of suspended actions

  /** The request a lookup returns: nothing for another session or for an expired pending row. */
  function Retrieved(rows: Rows, nonce: Nonce, session: SessionId, now: Time): Option<Request> {
    if nonce !in rows || rows[nonce].session != session then None
    else if now > rows[nonce].expiresAt && rows[nonce].status.Pending? then None
    else Some(rows[nonce].request)
  }

  /** Rows the conditional update matches. */
  predicate Consumable(rows: Rows, nonce: Nonce, session: SessionId, now: Time) {
    && nonce in rows && rows[nonce].session == session
    && rows[nonce].status.Pending? && rows[nonce].expiresAt > now
  }

  function Consume(rows: Rows, nonce: Nonce, session: SessionId, now: Time): Rows {
    if Consumable(rows, nonce, session, now) then rows[nonce := rows[nonce].(status := Consumed)] else rows
  }

  class SuspendedActions {
    var rows: Rows

    constructor ()
      ensures rows == map[]
    {
      rows := map[];
    }

    /** Inserts a pending row; a nonce already in the table violates its primary key. */
    method SuspendAction(nonce: Nonce, session: SessionId, request: Request, expiresAt: Time) returns (inserted: bool)
      modifies this
      ensures inserted == (nonce !in old(rows))
      ensures rows == if inserted then old(rows)[nonce := Row(session, request, Pending, expiresAt)] else old(rows)
    {
      inserted := nonce !in rows;
      if inserted {
        rows := rows[nonce := Row(session, request, Pending, expiresAt)];
      }
    }

    method RetrieveSuspendedAction(nonce: Nonce, session: SessionId, now: Time) returns (request: Option<Request>)
      ensures request == Retrieved(rows, nonce, session, now)
      ensures request.Some? <==>
        && nonce in rows && rows[nonce].session == session
        && !(rows[nonce].status.Pending? && rows[nonce].expiresAt < now)
      ensures request.Some? ==> request.value == rows[nonce].request
    {
      if nonce !in rows || rows[nonce].session != session { return None; }
      var row := rows[nonce];
      if now > row.expiresAt && row.status.Pending? { return None; }
      return Some(row.request);
    }

    method AtomicConsumeAction(nonce: Nonce, session: SessionId, now: Time) returns (consumed: bool)
      modifies this
      ensures consumed == Consumable(old(rows), nonce, session, now)
      ensures rows == Consume(old(rows), nonce, session, now)
      ensures consumed <==>
        && nonce in old(rows) && old(rows)[nonce].session == session
        && old(rows)[nonce].status.Pending? && now < old(rows)[nonce].expiresAt
      ensures rows == if consumed then old(rows)[nonce := old(rows)[nonce].(status := Consumed)] else old(rows)
    {
      consumed := nonce in rows && rows[nonce].session == session && rows[nonce].status.Pending? && rows[nonce].expiresAt > now;
      if consumed {
        rows := rows[nonce := rows[nonce].(status := Consumed)];
      }
    }
  }

  /** A suspension of this session that no turn has consumed. */
  predicate Open(rows: Rows, nonce: Nonce, session: SessionId) {
    nonce in rows && rows[nonce].session == session && rows[nonce].status == Pending
  }

  // ================================================================ the decision engine

  datatype Decision = Proceed | ConfirmationRequired(nonce: Nonce, original: Request) | Confirmed(request: Request) | Rejected | Failed

  const DEFAULT_TTL: Time := 300

  /** Actions are suspended and never proceed; everything else proceeds and suspends nothing. */
  method EvaluateRequest(store: SuspendedActions, request: Request, session: SessionId, nonce: Nonce, now: Time, ttl: Time)
    returns (decision: Decision)
    modifies store
    ensures decision.Proceed? <==> !request.intent.Action?
    ensures decision.ConfirmationRequired? <==> request.intent.Action? && nonce !in old(store.rows)
    ensures decision.ConfirmationRequired? ==>
      && decision == ConfirmationRequired(nonce, request) && nonce !in old(store.rows)
      && store.rows == old(store.rows)[nonce := Row(session, request, Pending, now + ttl)]
    ensures !decision.ConfirmationRequired? ==> store.rows == old(store.rows)
    ensures !decision.Confirmed? && !decision.Rejected?
  {
    if !request.intent.Action? { return Proceed; }
    var inserted := store.SuspendAction(nonce, session, request, now + ttl);
    return if inserted then ConfirmationRequired(nonce, request) else Failed;
  }

  /** One uninterrupted confirmation or rejection; `retrievedAt` and `consumedAt` are its two clock readings. */
  method ProcessIntent(store: SuspendedActions, intent: Intent, session: SessionId, nonce: Nonce, retrievedAt: Time, consumedAt: Time)
    returns (decision: Decision)
    modifies store
    ensures !(intent.Confirm? || intent.Reject?) ==> decision.Proceed? && store.rows == old(store.rows)
    ensures intent.Reject? ==> decision.Rejected?
    ensures intent.Confirm? ==> decision.Confirmed? || decision.Rejected?
    ensures decision.Confirmed? <==>
      && intent.Confirm?
      && Retrieved(old(store.rows), nonce, session, retrievedAt).Some?
      && Consumable(old(store.rows), nonce, session, consumedAt)
    ensures decision.Confirmed? ==> decision.request == old(store.rows)[nonce].request
    ensures intent.Confirm? && Open(old(store.rows), nonce, session) && retrievedAt <= old(store.rows)[nonce].expiresAt
            ==> decision == if consumedAt < old(store.rows)[nonce].expiresAt then Confirmed(old(store.rows)[nonce].request) else Rejected
    ensures intent.Reject? && Open(old(store.rows), nonce, session) && retrievedAt <= old(store.rows)[nonce].expiresAt
            ==> store.rows == if consumedAt < old(store.rows)[nonce].expiresAt
                              then old(store.rows)[nonce := old(store.rows)[nonce].(status := Consumed)] else old(store.rows)
    ensures (intent.Confirm? || intent.Reject?) ==>
      store.rows == if Retrieved(old(store.rows), nonce, session, retrievedAt).Some?
                    then Consume(old(store.rows), nonce, session, consumedAt) else old(store.rows)
  {
    if !(intent.Confirm? || intent.Reject?) { return Proceed; }
    var request := store.RetrieveSuspendedAction(nonce, session, retrievedAt);
    if request.None? { return Rejected; }
    var consumed := store.AtomicConsumeAction(nonce, session, consumedAt);
    if intent.Confirm? && consumed { return Confirmed(request.value); }
    return Rejected;
  }

  /** The request proposed for evidence with open exceptions. */
  function ResolveExceptions(original: Request): Request {
    Request(Action, "Resolve open exceptions", original.entities)
  }

  /** One item of an evidence response: its number of open exceptions, 0 if it has none, or something the comparison rejects. */
  datatype Item = Counted(open: int) | Incomparable | NoDictionary

  /** The `items` entry of a dictionary. */
  datatype Held = Absent | Held(items: seq<Item>) | NotIterable

  /** A response's data: a list, a dictionary that may hold a list or be the one item itself, or anything else. */
  datatype Data = Listed(items: seq<Item>) | Dictionary(held: Held, itself: Item) | Neither

  function ItemsOf(data: Data): Option<seq<Item>> {
    match data
    case Listed(items) => Some(items)
    case Dictionary(Absent, itself) => Some([itself])
    case Dictionary(Held(items), _) => Some(items)
    case Dictionary(NotIterable, _) => None
    case Neither => Some([])
  }

  /** An item that ends the search: one with open exceptions, or one that raises. */
  predicate Decisive(item: Item) { item.Incomparable? || (item.Counted? && item.open > 0) }

  function FirstDecisive(items: seq<Item>): (first: Option<Item>)
    ensures first.None? <==> forall i :: 0 <= i < |items| ==> !Decisive(items[i])
    ensures first.Some? ==>
      exists i :: 0 <= i < |items| && first.value == items[i] && Decisive(items[i]) && forall j :: 0 <= j < i ==> !Decisive(items[j])
  {
    if items == [] then None
    else if Decisive(items[0]) then Some(items[0])
    else
      var first := FirstDecisive(items[1..]);
      assert first.Some? ==> exists i :: 0 <= i < |items[1..]| && first.value == items[1..][i] && Decisive(items[1..][i])
                                         && forall j :: 0 <= j < i ==> !Decisive(items[1..][j]);
      first
  }

  /** What an evaluation answers, and the table it leaves; `raised` is an error the caller does not handle. */
  datatype Evaluation = Evaluation(recommended: Option<Nonce>, raised: bool, rows: Rows)

  /** At most one recommendation: for the first item with open exceptions, and none for an action. */
  function EvaluateData(rows: Rows, data: Data, original: Request, session: SessionId, nonce: Nonce, expiresAt: Time): Evaluation {
    if original.intent.Action? then Evaluation(None, false, rows)
    else
      match ItemsOf(data)
      case None => Evaluation(None, true, rows)
      case Some(items) =>
        match FirstDecisive(items)
        case None => Evaluation(None, false, rows)
        case Some(item) =>
          if item.Incomparable? || nonce in rows then Evaluation(None, true, rows)
          else Evaluation(Some(nonce), false, rows[nonce := Row(session, ResolveExceptions(original), Pending, expiresAt)])
  }

  /** The items that are looked at: the list, the dictionary's list, or the dictionary itself. */
  predicate Considers(data: Data, items: seq<Item>) {
    || data == Listed(items)
    || (data.Dictionary? && data.held == Held(items))
    || (data.Dictionary? && data.held == Absent && items == [data.itself])
    || (data == Neither && items == [])
  }

  /** The i-th item has open exceptions or raises, and none before it does. */
  predicate DecidesAt(items: seq<Item>, i: nat) {
    i < |items| && Decisive(items[i]) && forall j :: 0 <= j < i ==> !Decisive(items[j])
  }

  /**
   An action is never followed by a recommendation. Otherwise the first decisive item counts: open exceptions suspend
   the request to resolve them under the new nonce, unless it is in use; anything else that decides raises.
   */
  lemma EvaluationVerdict(rows: Rows, data: Data, items: seq<Item>, i: nat, original: Request, session: SessionId, nonce: Nonce, expiresAt: Time)
    ensures var e := EvaluateData(rows, data, original, session, nonce, expiresAt);
            && (original.intent.Action? ==> e == Evaluation(None, false, rows))
            && (!original.intent.Action? && data.Dictionary? && data.held.NotIterable? ==> e == Evaluation(None, true, rows))
            && (!original.intent.Action? && Considers(data, items) && (forall j :: 0 <= j < |items| ==> !Decisive(items[j]))
                ==> e == Evaluation(None, false, rows))
            && (!original.intent.Action? && Considers(data, items) && DecidesAt(items, i) ==>
                  if items[i].Counted? && nonce !in rows
                  then e == Evaluation(Some(nonce), false, rows[nonce :=
                         Row(session, Request(Action, "Resolve open exceptions", original.entities), Pending, expiresAt)])
                  else e == Evaluation(None, true, rows))
  {
    if DecidesAt(items, i) { NotYetDecisive(items, i); }
    if forall j :: 0 <= j < |items| ==> !Decisive(items[j]) { NotYetDecisive(items, |items|); }
  }

  lemma NotYetDecisive(items: seq<Item>, i: nat)
    requires i <= |items| && forall j :: 0 <= j < i ==> !Decisive(items[j])
    ensures i < |items| && Decisive(items[i]) ==> FirstDecisive(items) == Some(items[i])
    ensures i == |items| ==> FirstDecisive(items) == None
  {
  }

  method EvaluateEvidence(store: SuspendedActions, data: Data, original: Request, session: SessionId, nonce: Nonce, now: Time, ttl: Time)
    returns (recommended: Option<Nonce>, raised: bool)
    modifies store
    ensures Evaluation(recommended, raised, store.rows) == EvaluateData(old(store.rows), data, original, session, nonce, now + ttl)
    ensures recommended.Some? ==> !original.intent.Action? && nonce !in old(store.rows) && store.rows == old(store.rows)[nonce :=
      Row(session, Request(Action, "Resolve open exceptions", original.entities), Pending, now + ttl)]
  {
    recommended, raised := None, false;
    if original.intent.Action? { return; }
    if ItemsOf(data).None? { return None, true; }
    var items := ItemsOf(data).value;
    for i := 0 to |items|
      invariant recommended == None && !raised && store.rows == old(store.rows)
      invariant forall j :: 0 <= j < i ==> !Decisive(items[j])
    {
      NotYetDecisive(items, i);
      if items[i].Incomparable? { return None, true; }
      if items[i].Counted? && items[i].open > 0 {
        var inserted := store.SuspendAction(nonce, session, ResolveExceptions(original), now + ttl);
        if !inserted { return None, true; }
        return Some(nonce), false;
      }
    }
    NotYetDecisive(items, |items|);
  }

  // ================================================================ one turn

  /** The clock readings of a turn, and the nonces it may draw. */
  datatype Readings = Readings(retrieved: Time, consumed: Time, evaluated: Time, recommended: Time, nonce: Nonce, proposal: Nonce)

  /** A confirmation or rejection with a nonce. */
  predicate Decides(request: Request, supplied: Option<Nonce>) {
    (request.intent.Confirm? || request.intent.Reject?) && supplied.Some?
  }

  /** The request an uninterrupted turn hands to the outside call. */
  function Executes(rows: Rows, session: SessionId, request: Request, supplied: Option<Nonce>, at: Readings): (r: Option<Request>)
    ensures r.Some? && r.value.intent.Action? ==>
      && request.intent.Confirm? && supplied.Some? && Retrieved(rows, supplied.value, session, at.retrieved) == r
      && Consumable(rows, supplied.value, session, at.consumed)
  {
    if Decides(request, supplied) then
      if request.intent.Confirm? && Consumable(rows, supplied.value, session, at.consumed)
      then Retrieved(rows, supplied.value, session, at.retrieved) else None
    else if request.intent.Action? then None else Some(request)
  }

  /** What a turn runs: a confirmation its suspended request while that is fresh, a question itself, and nothing else. */
  lemma TurnsExecute(rows: Rows, session: SessionId, request: Request, supplied: Option<Nonce>, at: Readings)
    ensures request.intent.Action? ==> Executes(rows, session, request, supplied, at) == None
    ensures request.intent.Query? ==> Executes(rows, session, request, supplied, at) == Some(request)
    ensures request.intent.Reject? && supplied.Some? ==> Executes(rows, session, request, supplied, at) == None
    ensures request.intent.Confirm? && supplied.Some? && Open(rows, supplied.value, session)
            && at.retrieved <= rows[supplied.value].expiresAt && at.consumed < rows[supplied.value].expiresAt
            ==> Executes(rows, session, request, supplied, at) == Some(rows[supplied.value].request)
  {
  }

  /** The table after the turn's decision, before any recommendation. */
  function Decided(rows: Rows, session: SessionId, request: Request, supplied: Option<Nonce>, at: Readings): Rows {
    if Decides(request, supplied) then
      if Retrieved(rows, supplied.value, session, at.retrieved).Some?
      then Consume(rows, supplied.value, session, at.consumed) else rows
    else if request.intent.Action? && at.nonce !in rows
    then rows[at.nonce := Row(session, request, Pending, at.evaluated + DEFAULT_TTL)]
    else rows
  }

  /**
   One uninterrupted turn of the orchestrator. `answer` is the data of the outside call's response, if the
   call was resolved, did not fail and has a status that may lead to recommendations. An action leaves the
   turn only as the request of a confirmed suspension, and then nothing is recommended.
   */
  method ProcessQuery(store: SuspendedActions, session: SessionId, request: Request, supplied: Option<Nonce>,
                      at: Readings, resolved: bool, answer: Option<Data>)
    returns (executed: Option<Request>, recommended: Option<Nonce>, raised: bool)
    modifies store
    ensures executed == if !resolved then None else Executes(old(store.rows), session, request, supplied, at)
    ensures var decided := Decided(old(store.rows), session, request, supplied, at);
            if executed.Some? && answer.Some?
            then Evaluation(recommended, raised, store.rows)
                 == EvaluateData(decided, answer.value, executed.value, session, at.proposal, at.recommended + DEFAULT_TTL)
            else recommended == None && store.rows == decided
    ensures executed.Some? && executed.value.intent.Action? ==> recommended == None && !raised
  {
    var toRun := request;
    recommended, raised := None, false;
    if (request.intent.Confirm? || request.intent.Reject?) && supplied.Some? {
      var decision := ProcessIntent(store, request.intent, session, supplied.value, at.retrieved, at.consumed);
      if decision.Confirmed? {
        toRun := decision.request;
      } else if decision.Rejected? {
        return None, None, false;
      }
    }
    if !request.intent.Confirm? {
      var decision := EvaluateRequest(store, toRun, session, at.nonce, at.evaluated, DEFAULT_TTL);
      if !decision.Proceed? { return None, None, decision.Failed?; }
    }
    if !resolved { return None, None, false; }
    executed := Some(toRun);
    if answer.Some? {
      recommended, raised := EvaluateEvidence(store, answer.value, toRun, session, at.proposal, at.recommended, DEFAULT_TTL);
    }
  }

  // ================================================================ interleaved turns

  /** A turn of the orchestrator, suspended before its next database or outside call. */
  datatype Turn =
    | Retrieving(session: SessionId, intent: Intent, nonce: Nonce)
    | Consuming(session: SessionId, intent: Intent, nonce: Nonce, request: Request)
    | Evaluating(session: SessionId, request: Request)
    | Ready(session: SessionId, request: Request, via: Option<Nonce>)
    | Done

  datatype Execution = Execution(turn: TurnId, session: SessionId, request: Request, via: Option<Nonce>)

  datatype State = State(
    rows: Rows,
    now: Time,
    turns: map<TurnId, Turn>,
    executed: seq<Execution>,
    confirmedBy: map<Nonce, TurnId>,   // turns whose confirmation consumed the row
    confirmedAt: map<Nonce, Time>,
    barred: set<Nonce>)                // rejected before any confirmation had consumed the row

  datatype Step =
    | Begin(turn: TurnId, session: SessionId, request: Request, supplied: Option<Nonce>)
    | Retrieve(turn: TurnId)
    | ConsumeStep(turn: TurnId)
    | Evaluate(turn: TurnId, nonce: Nonce, ttl: Time)
    | Execute(turn: TurnId)
    | Recommend(session: SessionId, nonce: Nonce, proposed: Request, ttl: Time)
    | Tick(now: Time)

  predicate Enabled(s: State, step: Step) {
    match step
    case Begin(turn, _, _, _) => turn !in s.turns
    case Retrieve(turn) => turn in s.turns && s.turns[turn].Retrieving?
    case ConsumeStep(turn) => turn in s.turns && s.turns[turn].Consuming?
    case Evaluate(turn, nonce, _) => turn in s.turns && s.turns[turn].Evaluating? && nonce !in s.rows
    case Execute(turn) => turn in s.turns && s.turns[turn].Ready?
    case Recommend(_, nonce, proposed, _) => nonce !in s.rows && proposed.intent.Action?
    case Tick(now) => s.now <= now
  }

  /** Where the orchestrator sends a new turn. */
  function FirstPhase(session: SessionId, request: Request, nonce: Option<Nonce>): Turn {
    if (request.intent.Confirm? || request.intent.Reject?) && nonce.Some?
    then Retrieving(session, request.intent, nonce.value)
    else if request.intent.Confirm? then Ready(session, request, None)
    else Evaluating(session, request)
  }

  function Next(s: State, step: Step): State
    requires Enabled(s, step)
  {
    match step
    case Begin(turn, session, request, supplied) => s.(turns := s.turns[turn := FirstPhase(session, request, supplied)])
    case Retrieve(turn) =>
      var t := s.turns[turn];
      var found := Retrieved(s.rows, t.nonce, t.session, s.now);
      s.(turns := s.turns[turn := if found.Some? then Consuming(t.session, t.intent, t.nonce, found.value) else Done])
    case ConsumeStep(turn) =>
      var t := s.turns[turn];
      var consumed := Consumable(s.rows, t.nonce, t.session, s.now);
      var s' := s.(rows := Consume(s.rows, t.nonce, t.session, s.now));
      if t.intent.Confirm? then
        if consumed then
          s'.(turns := s.turns[turn := Ready(t.session, t.request, Some(t.nonce))],
              confirmedBy := s.confirmedBy[t.nonce := turn], confirmedAt := s.confirmedAt[t.nonce := s.now])
        else s'.(turns := s.turns[turn := Done])
      else
        s'.(turns := s.turns[turn := Done],
            barred := if t.nonce in s.confirmedBy then s.barred else s.barred + {t.nonce})
    case Evaluate(turn, nonce, ttl) =>
      var t := s.turns[turn];
      if t.request.intent.Action? then
        s.(rows := s.rows[nonce := Row(t.session, t.request, Pending, s.now + ttl)], turns := s.turns[turn := Done])
      else s.(turns := s.turns[turn := Ready(t.session, t.request, None)])
    case Execute(turn) =>
      var t := s.turns[turn];
      s.(turns := s.turns[turn := Done], executed := s.executed + [Execution(turn, t.session, t.request, t.via)])
    case Recommend(session, nonce, proposed, ttl) =>
      s.(rows := s.rows[nonce := Row(session, proposed, Pending, s.now + ttl)])
    case Tick(now) => s.(now := now)
  }

  const INITIAL: State := State(map[], 0, map[], [], map[], map[], {})

  predicate ValidRun(s: State, steps: seq<Step>)
    decreases |steps|
  {
    steps != [] ==> Enabled(s, steps[0]) && ValidRun(Next(s, steps[0]), steps[1..])
  }

  function After(s: State, steps: seq<Step>): State
    requires ValidRun(s, steps)
    decreases |steps|
  {
    if steps == [] then s else After(Next(s, steps[0]), steps[1..])
  }

  // ---------------------------------------------------------------- the invariant

  /** A grant held by `turn` for `nonce` is the one recorded, and carries the suspended request. */
  ghost predicate Granted(s: State, turn: TurnId, nonce: Nonce, session: SessionId, request: Request) {
    && nonce in s.rows && s.rows[nonce].session == session && s.rows[nonce].request == request
    && nonce in s.confirmedBy && s.confirmedBy[nonce] == turn
  }

  ghost predicate RowOk(s: State, nonce: Nonce) {
    && (nonce in s.confirmedBy ==> nonce in s.rows && s.rows[nonce].status.Consumed?)
    && (nonce in s.confirmedBy ==> nonce in s.confirmedAt && s.confirmedAt[nonce] < s.rows[nonce].expiresAt)
    && (nonce in s.barred ==>
          && nonce !in s.confirmedBy && nonce in s.rows
          && (s.rows[nonce].status.Consumed? || s.rows[nonce].expiresAt <= s.now))
  }

  ghost predicate TurnOk(s: State, turn: TurnId)
    requires turn in s.turns
  {
    match s.turns[turn]
    case Consuming(session, intent, nonce, request) =>
      nonce in s.rows && s.rows[nonce].session == session && s.rows[nonce].request == request
      && (intent.Confirm? || intent.Reject?)
    case Retrieving(_, intent, _) => intent.Confirm? || intent.Reject?
    case Ready(session, request, Some(nonce)) => Granted(s, turn, nonce, session, request)
    case Ready(_, request, None) => !request.intent.Action?
    case _ => true
  }

  ghost predicate ExecutionOk(s: State, e: Execution) {
    && e.turn in s.turns && s.turns[e.turn].Done?
    && (e.via.Some? ==> Granted(s, e.turn, e.via.value, e.session, e.request))
    && (e.request.intent.Action? ==> e.via.Some?)
  }

  ghost predicate Inv(s: State) {
    && (forall nonce :: RowOk(s, nonce))
    && (forall turn :: turn in s.turns ==> TurnOk(s, turn))
    && (forall i :: 0 <= i < |s.executed| ==> ExecutionOk(s, s.executed[i]))
    && (forall i, j :: 0 <= i < j < |s.executed| ==> s.executed[i].turn != s.executed[j].turn)
  }

  predicate Kept(row: Row, row': Row) { row' == row || row' == row.(status := Consumed) }

  /** Suspended rows keep their session, request and expiry; grants and bars are never withdrawn. */
  ghost predicate Extends(s: State, s': State) {
    && (forall n :: n in s.rows ==> n in s'.rows && Kept(s.rows[n], s'.rows[n]))
    && (forall n :: n in s.confirmedBy ==> n in s'.confirmedBy && s'.confirmedBy[n] == s.confirmedBy[n])
    && s.now <= s'.now && s.barred <= s'.barred && s.executed <= s'.executed
  }

  lemma StepExtends(s: State, step: Step)
    requires Inv(s) && Enabled(s, step)
    ensures Extends(s, Next(s, step))
  {
    if step.ConsumeStep? { assert RowOk(s, s.turns[step.turn].nonce); }
  }

  lemma StepKeepsRows(s: State, step: Step, nonce: Nonce)
    requires Inv(s) && Enabled(s, step)
    ensures RowOk(Next(s, step), nonce)
  {
    assert RowOk(s, nonce);
    if step.ConsumeStep? {
      assert TurnOk(s, step.turn);
      assert RowOk(s, s.turns[step.turn].nonce);
    }
  }

  lemma OtherTurnsStayOk(s: State, s': State, turn: TurnId)
    requires Extends(s, s') && turn in s.turns && turn in s'.turns && s'.turns[turn] == s.turns[turn] && TurnOk(s, turn)
    ensures TurnOk(s', turn)
  {
  }

  lemma RetrievingKeepsTurn(s: State, turn: TurnId)
    requires Inv(s) && Enabled(s, Retrieve(turn))
    ensures TurnOk(Next(s, Retrieve(turn)), turn)
  {
    assert TurnOk(s, turn);
  }

  lemma ConsumingKeepsTurn(s: State, turn: TurnId)
    requires Inv(s) && Enabled(s, ConsumeStep(turn))
    ensures TurnOk(Next(s, ConsumeStep(turn)), turn)
  {
    assert TurnOk(s, turn);
  }

  /** The turn a step belongs to. */
  function Actor(step: Step): Option<TurnId> {
    match step
    case Begin(turn, _, _, _) => Some(turn)
    case Retrieve(turn) => Some(turn)
    case ConsumeStep(turn) => Some(turn)
    case Evaluate(turn, _, _) => Some(turn)
    case Execute(turn) => Some(turn)
    case _ => None
  }

  lemma ActorKeepsTurn(s: State, step: Step, turn: TurnId)
    requires Inv(s) && Enabled(s, step) && Actor(step) == Some(turn) && turn in Next(s, step).turns
    ensures TurnOk(Next(s, step), turn)
  {
    match step
    case Retrieve(_) => RetrievingKeepsTurn(s, turn);
    case ConsumeStep(_) => ConsumingKeepsTurn(s, turn);
    case _ =>
  }

  lemma StepKeepsTurns(s: State, step: Step, turn: TurnId)
    requires Inv(s) && Enabled(s, step) && turn in Next(s, step).turns
    ensures TurnOk(Next(s, step), turn)
  {
    if Actor(step) == Some(turn) {
      ActorKeepsTurn(s, step, turn);
    } else {
      StepExtends(s, step);
      assert TurnOk(s, turn);
      OtherTurnsStayOk(s, Next(s, step), turn);
    }
  }

  lemma StepKeepsExecutions(s: State, step: Step, i: nat)
    requires Inv(s) && Enabled(s, step) && i < |Next(s, step).executed|
    ensures ExecutionOk(Next(s, step), Next(s, step).executed[i])
    ensures i < |s.executed| && step.Execute? ==> s.executed[i].turn != step.turn
  {
    StepExtends(s, step);
    if i < |s.executed| {
      assert ExecutionOk(s, s.executed[i]);
    } else {
      assert TurnOk(s, step.turn);
    }
  }

  lemma StepKeepsInv(s: State, step: Step)
    requires Inv(s) && Enabled(s, step)
    ensures Inv(Next(s, step))
  {
    var s' := Next(s, step);
    forall nonce ensures RowOk(s', nonce) { StepKeepsRows(s, step, nonce); }
    forall turn | turn in s'.turns ensures TurnOk(s', turn) { StepKeepsTurns(s, step, turn); }
    forall i | 0 <= i < |s'.executed| ensures ExecutionOk(s', s'.executed[i]) { StepKeepsExecutions(s, step, i); }
    forall i, j | 0 <= i < j < |s'.executed| ensures s'.executed[i].turn != s'.executed[j].turn {
      StepKeepsExecutions(s, step, i);
    }
  }

  lemma {:induction false} RunKeepsInv(s: State, steps: seq<Step>)
    requires Inv(s) && ValidRun(s, steps)
    ensures Inv(After(s, steps)) && Extends(s, After(s, steps))
    decreases |steps|
  {
    if steps != [] {
      StepKeepsInv(s, steps[0]);
      StepExtends(s, steps[0]);
      RunKeepsInv(Next(s, steps[0]), steps[1..]);
    }
  }

  // ---------------------------------------------------------------- main results

  /**
   Over every interleaving, an executed action was confirmed in its own session strictly before it
   expired, is exactly the suspended request, and was not rejected before the confirmation consumed it.
   */
  lemma ExecutedActionsWereConfirmed(steps: seq<Step>, i: nat)
    requires ValidRun(INITIAL, steps) && i < |After(INITIAL, steps).executed|
    requires After(INITIAL, steps).executed[i].request.intent.Action?
    ensures var s := After(INITIAL, steps);
            var e := s.executed[i];
            && e.via.Some? && e.via.value !in s.barred
            && Granted(s, e.turn, e.via.value, e.session, e.request)
            && e.via.value in s.confirmedAt && s.confirmedAt[e.via.value] < s.rows[e.via.value].expiresAt
  {
    RunKeepsInv(INITIAL, steps);
    var s := After(INITIAL, steps);
    assert ExecutionOk(s, s.executed[i]);
    assert RowOk(s, s.executed[i].via.value);
  }

  /** Each suspension is executed at most once. */
  lemma AtMostOnceExecution(steps: seq<Step>, i: nat, j: nat)
    requires ValidRun(INITIAL, steps) && i < j < |After(INITIAL, steps).executed|
    requires After(INITIAL, steps).executed[i].via.Some?
    ensures After(INITIAL, steps).executed[i].via != After(INITIAL, steps).executed[j].via
  {
    RunKeepsInv(INITIAL, steps);
    var s := After(INITIAL, steps);
    assert ExecutionOk(s, s.executed[i]) && ExecutionOk(s, s.executed[j]);
  }

  /** After a rejection's consume step, unless a confirmation consumed the row first, it is never executed. */
  lemma RejectionIsFinal(before: seq<Step>, turn: TurnId, after: seq<Step>, i: nat)
    requires ValidRun(INITIAL, before)
    requires var s := After(INITIAL, before);
             turn in s.turns && s.turns[turn].Consuming? && s.turns[turn].intent.Reject?
             && s.turns[turn].nonce !in s.confirmedBy
    requires ValidRun(Next(After(INITIAL, before), ConsumeStep(turn)), after)
    requires i < |After(Next(After(INITIAL, before), ConsumeStep(turn)), after).executed|
    ensures After(Next(After(INITIAL, before), ConsumeStep(turn)), after).executed[i].via
            != Some(After(INITIAL, before).turns[turn].nonce)
  {
    RunKeepsInv(INITIAL, before);
    var s := After(INITIAL, before);
    var nonce := s.turns[turn].nonce;
    var s1 := Next(s, ConsumeStep(turn));
    StepKeepsInv(s, ConsumeStep(turn));
    RunKeepsInv(s1, after);
    var s2 := After(s1, after);
    assert nonce in s2.barred && RowOk(s2, nonce);
    assert ExecutionOk(s2, s2.executed[i]);
  }

  /**
   A rejection can be answered after the confirmation consumed the row: the turn that confirmed still
   holds its grant, and nothing the rejection does withdraws it.
   */
  lemma LateRejectionDoesNotStopAnExecution(s: State, confirming: TurnId, rejecting: TurnId, nonce: Nonce)
    requires Inv(s)
    requires confirming in s.turns && s.turns[confirming].Ready? && s.turns[confirming].via == Some(nonce)
    requires rejecting in s.turns && s.turns[rejecting].Consuming? && s.turns[rejecting].nonce == nonce
    ensures var s' := Next(s, ConsumeStep(rejecting));
            Enabled(s', Execute(confirming)) && Next(s', Execute(confirming)).executed[|s.executed|].via == Some(nonce)
  {
  }

  lemma {:induction false} Snoc(s: State, steps: seq<Step>, step: Step)
    requires ValidRun(s, steps) && Enabled(After(s, steps), step)
    ensures ValidRun(s, steps + [step]) && After(s, steps + [step]) == Next(After(s, steps), step)
    decreases |steps|
  {
    if steps == [] {
      assert [step][1..] == [] && steps + [step] == [step];
    } else {
      assert (steps + [step])[1..] == steps[1..] + [step];
      Snoc(Next(s, steps[0]), steps[1..], step);
    }
  }

  // ---------------------------------------------------------------- confirmations and rejections take effect

  /** In every reachable state a fresh turn that confirms a pending suspension of its session before it expires executes it. */
  lemma ConfirmationsExecute(steps: seq<Step>, turn: TurnId, session: SessionId, confirmation: Request, nonce: Nonce)
    requires ValidRun(INITIAL, steps) && confirmation.intent.Confirm? && turn !in After(INITIAL, steps).turns
    requires Open(After(INITIAL, steps).rows, nonce, session)
    requires After(INITIAL, steps).now < After(INITIAL, steps).rows[nonce].expiresAt
    ensures var (s, more) := (After(INITIAL, steps), [Begin(turn, session, confirmation, Some(nonce)), Retrieve(turn), ConsumeStep(turn), Execute(turn)]);
            && ValidRun(s, more)
            && After(s, more).executed == s.executed + [Execution(turn, session, s.rows[nonce].request, Some(nonce))]
            && After(s, more).rows == s.rows[nonce := s.rows[nonce].(status := Consumed)]
  {
    var s := After(INITIAL, steps);
    var a := Next(s, Begin(turn, session, confirmation, Some(nonce)));
    var b := Next(a, Retrieve(turn));
    assert b.turns[turn] == Consuming(session, Confirm, nonce, s.rows[nonce].request);
    var c := Next(b, ConsumeStep(turn));
    assert c.turns[turn] == Ready(session, s.rows[nonce].request, Some(nonce));
    FourSteps(s, Begin(turn, session, confirmation, Some(nonce)), Retrieve(turn), ConsumeStep(turn), Execute(turn));
  }

  lemma FirstStep(s: State, step: Step, rest: seq<Step>)
    requires Enabled(s, step) && ValidRun(Next(s, step), rest)
    ensures ValidRun(s, [step] + rest) && After(s, [step] + rest) == After(Next(s, step), rest)
  {
    assert ([step] + rest)[1..] == rest;
  }

  lemma FourSteps(s: State, a: Step, b: Step, c: Step, d: Step)
    requires Enabled(s, a) && Enabled(Next(s, a), b) && Enabled(Next(Next(s, a), b), c) && Enabled(Next(Next(Next(s, a), b), c), d)
    ensures ValidRun(s, [a, b, c, d]) && After(s, [a, b, c, d]) == Next(Next(Next(Next(s, a), b), c), d)
  {
    var s2 := Next(Next(s, a), b);
    FirstStep(Next(s2, c), d, []);
    FirstStep(s2, c, [d]);
    FirstStep(Next(s, a), b, [c, d]);
    FirstStep(s, a, [b, c, d]);
    assert [d] + [] == [d] && [c] + [d] == [c, d] && [b] + [c, d] == [b, c, d] && [a] + [b, c, d] == [a, b, c, d];
  }

  /** And one that rejects it consumes it and ends: no later turn can confirm it. */
  lemma RejectionsConsume(steps: seq<Step>, turn: TurnId, session: SessionId, rejection: Request, nonce: Nonce)
    requires ValidRun(INITIAL, steps) && rejection.intent.Reject? && turn !in After(INITIAL, steps).turns
    requires Open(After(INITIAL, steps).rows, nonce, session)
    requires After(INITIAL, steps).now < After(INITIAL, steps).rows[nonce].expiresAt
    ensures var (s, begin) := (After(INITIAL, steps), Begin(turn, session, rejection, Some(nonce)));
            && Enabled(s, begin) && Enabled(Next(s, begin), Retrieve(turn))
            && Enabled(Next(Next(s, begin), Retrieve(turn)), ConsumeStep(turn))
            && var after := Next(Next(Next(s, begin), Retrieve(turn)), ConsumeStep(turn));
               after.turns[turn] == Done && after.rows == s.rows[nonce := s.rows[nonce].(status := Consumed)]
               && after.executed == s.executed
  {
    var s := After(INITIAL, steps);
    var a := Next(s, Begin(turn, session, rejection, Some(nonce)));
    var b := Next(a, Retrieve(turn));
    assert b.turns[turn] == Consuming(session, Reject, nonce, s.rows[nonce].request);
    assert Consumable(b.rows, nonce, session, b.now);
  }

  /** A run in which both turns looked the row up, the confirmation consumed it, then the rejection was answered. */
  lemma TheRaceIsReachable() returns (steps: seq<Step>)
    ensures ValidRun(INITIAL, steps)
    ensures After(INITIAL, steps).turns == map[0 := Done, 1 := Ready("s", Request(Action, "pay", []), Some("n")), 2 := Done]
  {
    var action := Request(Action, "pay", []);
    var yes, no := Request(Confirm, "yes", []), Request(Reject, "no", []);
    steps := [];
    Snoc(INITIAL, steps, Begin(0, "s", action, None));
    steps := steps + [Begin(0, "s", action, None)];
    Snoc(INITIAL, steps, Evaluate(0, "n", DEFAULT_TTL));
    steps := steps + [Evaluate(0, "n", DEFAULT_TTL)];
    Snoc(INITIAL, steps, Begin(1, "s", yes, Some("n")));
    steps := steps + [Begin(1, "s", yes, Some("n"))];
    Snoc(INITIAL, steps, Begin(2, "s", no, Some("n")));
    steps := steps + [Begin(2, "s", no, Some("n"))];
    Snoc(INITIAL, steps, Retrieve(1));
    steps := steps + [Retrieve(1)];
    Snoc(INITIAL, steps, Retrieve(2));
    steps := steps + [Retrieve(2)];
    Snoc(INITIAL, steps, ConsumeStep(1));
    steps := steps + [ConsumeStep(1)];
    Snoc(INITIAL, steps, ConsumeStep(2));
    steps := steps + [ConsumeStep(2)];
  }
}
