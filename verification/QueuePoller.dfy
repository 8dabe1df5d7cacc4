/**
 The NDR queue poller: a polling loop that takes a semaphore slot, claims an item and hands both to a
 background task, the dispatch pipeline that task runs, and the wait that holds the slot until the
 call ends.
 */
module QueuePoller {
  import opened Common

  // ================================================================ slots

  type TaskId = nat

  /** Where the loop is suspended; only `Claiming` holds a slot. */
  datatype Loop = NoLoop | Top | Napping | Waiting | Claiming

  datatype ClaimOutcome = ClaimRaised | QueueEmpty | Item(task: TaskId)

  datatype State = State(
    capacity: nat,
    running: bool,
    loop: Loop,
    permits: nat,
    working: set<TaskId>,   // tasks that have not yet released their slot
    active: set<TaskId>,    // the poller's bookkeeping set, pruned by a later callback
    spawned: set<TaskId>,   // every task ever created
    lost: nat,              // slots no one will ever release
    acquired: nat,
    released: nat,
    stops: nat)

  datatype Step =
    | Start
    | Iterate(withinHours: bool)
    | Wake
    | Acquire
    | ClaimReturns(outcome: ClaimOutcome)
    | TaskReleases(task: TaskId)
    | TaskDiscarded(task: TaskId)
    | Stop

  function Held(s: State): nat { if s.loop.Claiming? then 1 else 0 }

  predicate Enabled(s: State, step: Step) {
    match step
    case Start => !s.running && s.loop.NoLoop?
    case Iterate(_) => s.loop.Top?
    case Wake => s.loop.Napping?
    case Acquire => s.loop.Waiting? && s.permits > 0
    case ClaimReturns(outcome) => s.loop.Claiming? && (outcome.Item? ==> outcome.task !in s.spawned)
    case TaskReleases(task) => task in s.working
    case TaskDiscarded(task) => task in s.active && task !in s.working
    case Stop => true
  }

  function Next(s: State, step: Step): State
    requires Enabled(s, step)
  {
    match step
    case Start => s.(running := true, loop := Top)
    case Iterate(withinHours) =>
      if !s.running then s.(loop := NoLoop) else if withinHours then s.(loop := Waiting) else s.(loop := Napping)
    case Wake => s.(loop := Top)
    case Acquire =>
      if s.running then s.(permits := s.permits - 1, acquired := s.acquired + 1, loop := Claiming)
      else s.(acquired := s.acquired + 1, released := s.released + 1, loop := NoLoop)
    case ClaimReturns(outcome) =>
      (match outcome
       case Item(task) =>
         s.(working := s.working + {task}, active := s.active + {task}, spawned := s.spawned + {task}, loop := Top)
       case _ => s.(permits := s.permits + 1, released := s.released + 1, loop := Napping))
    case TaskReleases(task) =>
      s.(working := s.working - {task}, permits := s.permits + 1, released := s.released + 1)
    case TaskDiscarded(task) => s.(active := s.active - {task})
    // Cancellation lands where the loop is suspended. The claim's handler does not catch it.
    case Stop => s.(running := false, loop := NoLoop, lost := s.lost + Held(s), stops := s.stops + 1)
  }

  function Initial(capacity: nat): State { State(capacity, false, NoLoop, capacity, {}, {}, {}, 0, 0, 0, 0) }

  predicate ValidRun(s: State, steps: seq<Step>)
    decreases |steps|
  {
    steps != [] ==> Enabled(s, steps[0]) && ValidRun(Next(s, steps[0]), steps[1..])
  }

  function After(s: State, steps: seq<Step>): State
    requires ValidRun(s, steps)
    decreases |steps|
  {
    if steps == [] then s else After(Next(s, steps[0]), steps[1..])
  }

  ghost predicate SlotsConserved(s: State) {
    && s.permits + Held(s) + |s.working| + s.lost == s.capacity
    && s.acquired == s.released + Held(s) + |s.working| + s.lost
    && s.lost <= s.stops
    && s.working <= s.active <= s.spawned
  }

  lemma StepConservesSlots(s: State, step: Step)
    requires SlotsConserved(s) && Enabled(s, step)
    ensures SlotsConserved(Next(s, step))
    ensures Next(s, step).lost == s.lost + (if step.Stop? && s.loop.Claiming? then 1 else 0)
    ensures Next(s, step).capacity == s.capacity
  {
  }

  lemma {:induction false} RunConservesSlots(s: State, steps: seq<Step>)
    requires SlotsConserved(s) && ValidRun(s, steps)
    ensures SlotsConserved(After(s, steps)) && After(s, steps).capacity == s.capacity
    ensures After(s, steps).lost >= s.lost
    decreases |steps|
  {
    if steps != [] {
      StepConservesSlots(s, steps[0]);
      RunConservesSlots(Next(s, steps[0]), steps[1..]);
    }
  }

  /**
   In every reachable state the free permits, the loop's slot, the tasks still holding one and the
   lost slots make up the capacity, and every acquisition is matched by one release or one holder.
   */
  lemma EverySlotIsAccountedFor(capacity: nat, steps: seq<Step>)
    requires ValidRun(Initial(capacity), steps)
    ensures var s := After(Initial(capacity), steps);
            && s.permits + Held(s) + |s.working| + s.lost == capacity
            && s.acquired == s.released + Held(s) + |s.working| + s.lost
            && s.lost <= s.stops
  {
    RunConservesSlots(Initial(capacity), steps);
  }

  lemma {:induction false} ReleasedTasksStayReleased(s: State, steps: seq<Step>, task: TaskId)
    requires SlotsConserved(s) && ValidRun(s, steps) && task in s.spawned && task !in s.working
    ensures forall i :: 0 <= i < |steps| ==> steps[i] != TaskReleases(task)
    decreases |steps|
  {
    if steps != [] {
      StepConservesSlots(s, steps[0]);
      ReleasedTasksStayReleased(Next(s, steps[0]), steps[1..], task);
      assert forall i :: 0 < i < |steps| ==> steps[i] == steps[1..][i - 1];
    }
  }

  /** Over any run no task releases its slot twice. */
  lemma {:induction false} EachSlotIsReleasedOnce(s: State, steps: seq<Step>, i: nat, j: nat, task: TaskId)
    requires SlotsConserved(s) && ValidRun(s, steps) && i < j < |steps|
    requires steps[i] == TaskReleases(task)
    ensures steps[j] != TaskReleases(task)
    decreases |steps|
  {
    StepConservesSlots(s, steps[0]);
    if i == 0 {
      ReleasedTasksStayReleased(Next(s, steps[0]), steps[1..], task);
      assert steps[j] == steps[1..][j - 1];
    } else {
      EachSlotIsReleasedOnce(Next(s, steps[0]), steps[1..], i - 1, j - 1, task);
    }
  }

  /** The loop's own checks of the running flag never fire: a stop cancels the loop in the same step. */
  lemma {:induction false} AStoppedPollerHasNoLoop(s: State, steps: seq<Step>)
    requires ValidRun(s, steps) && (s.running || s.loop.NoLoop?)
    ensures var after := After(s, steps); after.running || after.loop.NoLoop?
    decreases |steps|
  {
    if steps != [] { AStoppedPollerHasNoLoop(Next(s, steps[0]), steps[1..]); }
  }

  predicate BeforeTheGate(loop: Loop) { loop.NoLoop? || loop.Top? || loop.Napping? }

  /** Outside calling hours nothing is claimed: without an iteration inside them no slot is taken and no item arrives. */
  lemma {:induction false} NoClaimsOutsideHours(s: State, steps: seq<Step>)
    requires ValidRun(s, steps) && BeforeTheGate(s.loop)
    requires forall i :: 0 <= i < |steps| ==> steps[i] != Iterate(true)
    ensures forall i :: 0 <= i < |steps| ==> !steps[i].Acquire? && !steps[i].ClaimReturns?
    ensures After(s, steps).spawned == s.spawned && After(s, steps).acquired == s.acquired
    decreases |steps|
  {
    if steps != [] {
      assert forall i :: 0 <= i < |steps[1..]| ==> steps[1..][i] == steps[i + 1];
      NoClaimsOutsideHours(Next(s, steps[0]), steps[1..]);
      assert forall i :: 0 < i < |steps| ==> steps[i] == steps[1..][i - 1];
    }
  }

  /** Without a stop during a claim no slot is ever lost. */
  ghost predicate NoStopWhileClaiming(s: State, steps: seq<Step>)
    requires ValidRun(s, steps)
    decreases |steps|
  {
    steps != [] ==> !(steps[0].Stop? && s.loop.Claiming?) && NoStopWhileClaiming(Next(s, steps[0]), steps[1..])
  }

  lemma {:induction false} SlotsAreLostOnlyByStoppingAClaim(s: State, steps: seq<Step>)
    requires SlotsConserved(s) && ValidRun(s, steps)
    ensures After(s, steps).lost == s.lost <==> NoStopWhileClaiming(s, steps)
    decreases |steps|
  {
    if steps != [] {
      StepConservesSlots(s, steps[0]);
      SlotsAreLostOnlyByStoppingAClaim(Next(s, steps[0]), steps[1..]);
      RunConservesSlots(Next(s, steps[0]), steps[1..]);
    }
  }

  /** Once every slot is lost the poller is wedged: no later run claims anything, restarts included. */
  lemma {:induction false} WedgedForever(s: State, steps: seq<Step>)
    requires SlotsConserved(s) && s.lost == s.capacity && ValidRun(s, steps)
    ensures After(s, steps).working == {} && !After(s, steps).loop.Claiming?
    ensures forall i :: 0 <= i < |steps| ==> !steps[i].Acquire? && !steps[i].ClaimReturns?
    decreases |steps|
  {
    if steps != [] {
      StepConservesSlots(s, steps[0]);
      WedgedForever(Next(s, steps[0]), steps[1..]);
      assert forall i :: 0 < i < |steps| ==> steps[i] == steps[1..][i - 1];
    }
  }

  /** With the default capacity of one, a single stop during a claim is enough. */
  lemma OneStopWedgesASequentialPoller()
    ensures
      var claiming := Next(Next(Next(Initial(1), Start), Iterate(true)), Acquire);
      && claiming.loop.Claiming?
      && SlotsConserved(Next(claiming, Stop)) && Next(claiming, Stop).lost == Next(claiming, Stop).capacity
  {
  }

  // ================================================================ the wait for the call

  datatype Observation = Terminal | Ongoing | LookupRaised

  datatype WaitEnd = CallEnded | GaveUp | WaitRaised

  /** The outcome decided by the first `n` polls, if they decide one. */
  function Decided(observe: nat -> Observation, n: nat): Option<WaitEnd> {
    if n == 0 then None
    else if Decided(observe, n - 1).Some? then Decided(observe, n - 1)
    else match observe(n - 1)
         case Terminal => Some(CallEnded)
         case LookupRaised => Some(WaitRaised)
         case Ongoing => None
  }

  /** Polls made before the waiting bound is reached: the bound divided by the poll step, rounded up. */
  function MaxPolls(maxWait: nat, step: nat): nat
    requires step > 0
  {
    (maxWait + step - 1) / step
  }

  lemma PollCount(maxWait: nat, step: nat, polls: nat)
    requires step > 0
    ensures polls * step < maxWait <==> polls < MaxPolls(maxWait, step)
  {
    var q := MaxPolls(maxWait, step);
    assert q * step <= maxWait + step - 1 < q * step + step;
    if polls < q {
      assert polls * step <= (q - 1) * step;
    } else {
      assert polls * step >= q * step;
    }
  }

  /** The k-th lookup is the first that finds the call no longer ongoing, and comes before the bound. */
  ghost predicate FirstDecisive(observe: nat -> Observation, k: nat, maxWait: nat, pollSeconds: nat) {
    k * pollSeconds < maxWait && !observe(k).Ongoing? && forall j: nat :: j < k ==> observe(j).Ongoing?
  }

  lemma {:induction false} FirstDecisionDecides(observe: nat -> Observation, n: nat)
    ensures Decided(observe, n).None? <==> forall j: nat :: j < n ==> observe(j).Ongoing?
    ensures forall k: nat :: k < n && !observe(k).Ongoing? && (forall j: nat :: j < k ==> observe(j).Ongoing?)
              ==> Decided(observe, n) == Some(if observe(k).Terminal? then CallEnded else WaitRaised)
  {
    if n > 0 { FirstDecisionDecides(observe, n - 1); }
  }

  lemma {:induction false} SomethingDecides(observe: nat -> Observation, n: nat) returns (k: nat)
    requires Decided(observe, n).Some?
    ensures k < n && !observe(k).Ongoing? && forall j: nat :: j < k ==> observe(j).Ongoing?
  {
    FirstDecisionDecides(observe, n - 1);
    if Decided(observe, n - 1).Some? { k := SomethingDecides(observe, n - 1); } else { k := n - 1; }
  }

  lemma DecisionVerdict(observe: nat -> Observation, maxWait: nat, pollSeconds: nat)
    requires pollSeconds > 0
    ensures var d := Decided(observe, MaxPolls(maxWait, pollSeconds));
            && (d == Some(CallEnded) <==> exists k: nat :: FirstDecisive(observe, k, maxWait, pollSeconds) && observe(k) == Terminal)
            && (d == Some(WaitRaised) <==> exists k: nat :: FirstDecisive(observe, k, maxWait, pollSeconds) && observe(k) == LookupRaised)
            && d != Some(GaveUp)
  {
    var n := MaxPolls(maxWait, pollSeconds);
    FirstDecisionDecides(observe, n);
    forall k: nat | FirstDecisive(observe, k, maxWait, pollSeconds)
      ensures Decided(observe, n) == Some(if observe(k).Terminal? then CallEnded else WaitRaised)
    {
      PollCount(maxWait, pollSeconds, k);
    }
    if Decided(observe, n).Some? {
      var k := SomethingDecides(observe, n);
      PollCount(maxWait, pollSeconds, k);
      assert FirstDecisive(observe, k, maxWait, pollSeconds);
    }
  }

  /** Each wait ends, having slept less than one poll step beyond its bound. */
  method WaitForCallCompletion(observe: nat -> Observation, maxWait: nat, pollSeconds: nat)
    returns (end: WaitEnd, slept: nat)
    requires pollSeconds > 0
    ensures slept < maxWait + pollSeconds
    ensures end == match Decided(observe, MaxPolls(maxWait, pollSeconds))
                   case Some(e) => e
                   case None => GaveUp
    ensures end == CallEnded <==> exists k: nat :: FirstDecisive(observe, k, maxWait, pollSeconds) && observe(k) == Terminal
    ensures end == WaitRaised <==> exists k: nat :: FirstDecisive(observe, k, maxWait, pollSeconds) && observe(k) == LookupRaised
  {
    DecisionVerdict(observe, maxWait, pollSeconds);
    var elapsed, polls := 0, 0;
    while elapsed < maxWait
      invariant elapsed == polls * pollSeconds && elapsed < maxWait + pollSeconds
      invariant polls <= MaxPolls(maxWait, pollSeconds) && Decided(observe, polls).None?
      decreases maxWait - elapsed
    {
      PollCount(maxWait, pollSeconds, polls);
      var seen := observe(polls);
      if !seen.Ongoing? {
        DecidedIsFinal(observe, polls + 1, MaxPolls(maxWait, pollSeconds));
        return if seen.Terminal? then CallEnded else WaitRaised, elapsed;
      }
      elapsed := elapsed + pollSeconds;
      polls := polls + 1;
    }
    PollCount(maxWait, pollSeconds, polls);
    return GaveUp, elapsed;
  }

  lemma {:induction false} DecidedIsFinal(observe: nat -> Observation, m: nat, n: nat)
    requires m <= n && Decided(observe, m).Some?
    ensures Decided(observe, n) == Decided(observe, m)
  {
    if m < n { DecidedIsFinal(observe, m, n - 1); }
  }

  // ================================================================ the dispatch pipeline

  type EngagementId = string

  datatype Effect =
    | FetchEvidence | Orchestrate | ReportNoAction | BuildContext
    | Prepare | Register | MarkRegistered | Dispatch | PersistCorrelation | MarkDispatched
    | MarkRetryable

  datatype Fault = Fine | Conflict | Raises

  /** What the item and the outside world will do; `faults` covers every call that is made. */
  datatype Scenario = Scenario(
    engagement: EngagementId, alreadyDispatched: bool, shouldDispatch: bool, hasPhone: bool, faults: Effect -> Fault)

  /** The six effects of a dispatch, in order. */
  const DISPATCH: seq<Effect> := [Prepare, Register, MarkRegistered, Dispatch, PersistCorrelation, MarkDispatched]

  function Pipeline(sc: Scenario): seq<Effect> {
    if sc.alreadyDispatched then []
    else if !sc.shouldDispatch then [FetchEvidence, Orchestrate, ReportNoAction]
    else if !sc.hasPhone then [FetchEvidence, Orchestrate, BuildContext]
    else [FetchEvidence, Orchestrate, BuildContext,
          Prepare, Register, MarkRegistered, Dispatch, PersistCorrelation, MarkDispatched]
  }

  /** A conflict is tolerated where it only says the item is already registered. */
  predicate Fails(sc: Scenario, e: Effect) {
    sc.faults(e).Raises? || (sc.faults(e).Conflict? && e != MarkRegistered)
  }

  /** Length of the longest prefix of `effects` in which nothing fails. */
  function Completed(sc: Scenario, effects: seq<Effect>): (n: nat)
    ensures n <= |effects|
    ensures forall i :: 0 <= i < n ==> !Fails(sc, effects[i])
    ensures n < |effects| ==> Fails(sc, effects[n])
  {
    if effects == [] || Fails(sc, effects[0]) then 0 else 1 + Completed(sc, effects[1..])
  }

  class Pipe {
    var trace: seq<Effect>

    constructor ()
      ensures trace == []
    {
      trace := [];
    }

    /** Makes the next call of the pipeline and reports whether it raised. */
    method Attempt(sc: Scenario, e: Effect) returns (raised: bool)
      requires Clean(sc, trace) && |trace| < |Pipeline(sc)| && Pipeline(sc)[|trace|] == e
      modifies this
      ensures trace == old(trace) + [e] && raised == Fails(sc, e)
      ensures Ended(sc, trace) && (!raised ==> Clean(sc, trace))
    {
      trace := trace + [e];
      raised := sc.faults(e).Raises? || (sc.faults(e).Conflict? && e != MarkRegistered);
    }

    /** The six dispatch effects of an item that is to be called. */
    method DispatchCall(sc: Scenario) returns (raised: bool)
      requires !sc.alreadyDispatched && sc.shouldDispatch && sc.hasPhone
      requires Clean(sc, trace) && |trace| == 3
      modifies this
      ensures Ended(sc, trace) && raised == Fails(sc, trace[|trace| - 1])
      ensures !raised ==> |trace| == |Pipeline(sc)|
    {
      raised := Attempt(sc, Prepare);
      if raised { return; }
      raised := Attempt(sc, Register);
      if raised { return; }
      raised := Attempt(sc, MarkRegistered);
      if raised { return; }
      raised := Attempt(sc, Dispatch);
      if raised { return; }
      raised := Attempt(sc, PersistCorrelation);
      if raised { return; }
      raised := Attempt(sc, MarkDispatched);
    }

    /**
     One claimed item. The calls made are the pipeline up to and including the first that fails,
     followed, if one failed or the phone was missing, by a single attempt to report a retry.
     */
    method ProcessClaimedItem(sc: Scenario) returns (engagement: Option<EngagementId>)
      requires trace == []
      modifies this
      ensures trace == Trace(sc)
      ensures engagement == if !sc.alreadyDispatched && sc.shouldDispatch && sc.hasPhone
                               && Completed(sc, Pipeline(sc)) == |Pipeline(sc)|
                            then Some(sc.engagement) else None
      ensures engagement.Some? <==>
        && !sc.alreadyDispatched && sc.shouldDispatch && sc.hasPhone
        && (forall e :: e in HYDRATE ==> !Breaks(sc, e)) && forall e :: e in DISPATCH ==> !Breaks(sc, e)
    {
      AllCallsSucceed(sc);
      if sc.alreadyDispatched { return None; }
      label attempt: {
        var raised := Attempt(sc, FetchEvidence);
        if raised { break attempt; }
        raised := Attempt(sc, Orchestrate);
        if raised { break attempt; }
        if !sc.shouldDispatch {
          raised := Attempt(sc, ReportNoAction);
          if raised { break attempt; }
          CallsMade(sc, trace);
          return None;
        }
        raised := Attempt(sc, BuildContext);
        if raised || !sc.hasPhone { break attempt; }
        raised := DispatchCall(sc);
        if raised { break attempt; }
        CallsMade(sc, trace);
        return Some(sc.engagement);
      }
      CallsMade(sc, trace);
      trace := trace + [MarkRetryable];
      return None;
    }
  }

  /** Calls made in pipeline order, none of which failed. */
  ghost predicate Clean(sc: Scenario, made: seq<Effect>) {
    made <= Pipeline(sc) && forall i :: 0 <= i < |made| ==> !Fails(sc, made[i])
  }

  /** Calls made in pipeline order, of which only the last may have failed. */
  ghost predicate Ended(sc: Scenario, made: seq<Effect>) {
    |made| > 0 && made <= Pipeline(sc) && forall i :: 0 <= i < |made| - 1 ==> !Fails(sc, made[i])
  }

  function Trace(sc: Scenario): seq<Effect> {
    var p := Pipeline(sc);
    var n := Completed(sc, p);
    if n < |p| then p[..n + 1] + [MarkRetryable]
    else if !sc.alreadyDispatched && sc.shouldDispatch && !sc.hasPhone then p + [MarkRetryable]
    else p
  }

  /** The calls made so far, the last of which may have failed, determine the rest of the trace. */
  lemma CallsMade(sc: Scenario, made: seq<Effect>)
    requires Ended(sc, made)
    requires Fails(sc, made[|made| - 1]) || |made| == |Pipeline(sc)|
    ensures Completed(sc, Pipeline(sc)) == if Fails(sc, made[|made| - 1]) then |made| - 1 else |made|
    ensures Fails(sc, made[|made| - 1]) ==> Trace(sc) == made + [MarkRetryable]
  {
  }

  const HYDRATE: seq<Effect> := [FetchEvidence, Orchestrate, BuildContext]

  /** Nothing for an item already dispatched; a report when nothing is to be done; else hydration and, given a phone, dispatch. */
  lemma PlannedCalls(sc: Scenario)
    ensures sc.alreadyDispatched ==> Pipeline(sc) == []
    ensures !sc.alreadyDispatched && !sc.shouldDispatch ==> Pipeline(sc) == [FetchEvidence, Orchestrate, ReportNoAction]
    ensures !sc.alreadyDispatched && sc.shouldDispatch ==> Pipeline(sc) == HYDRATE + if sc.hasPhone then DISPATCH else []
  {
  }

  /** The call raises; a conflict counts except where it only says that the item is registered already. */
  predicate Breaks(sc: Scenario, e: Effect) { sc.faults(e) == Raises || (sc.faults(e) == Conflict && e != MarkRegistered) }

  lemma AllCallsSucceed(sc: Scenario)
    ensures !sc.alreadyDispatched && sc.shouldDispatch && sc.hasPhone ==>
      (Completed(sc, Pipeline(sc)) == |Pipeline(sc)|
       <==> (forall e :: e in HYDRATE ==> !Breaks(sc, e)) && forall e :: e in DISPATCH ==> !Breaks(sc, e))
  {
    var p, n := Pipeline(sc), Completed(sc, Pipeline(sc));
    if !sc.alreadyDispatched && sc.shouldDispatch && sc.hasPhone {
      PlannedCalls(sc);
      forall e ensures Fails(sc, e) <==> Breaks(sc, e) { }
      if n == |p| {
        forall e | e in p ensures !Breaks(sc, e) { }
      } else {
        assert Breaks(sc, p[n]) && p[n] in p;
      }
    }
  }

  /**
   The first call that breaks is the last before the retry report. If none does, the planned calls are all made, and
   a missing phone number is reported as a retry.
   */
  lemma TraceVerdict(sc: Scenario, k: nat)
    ensures k < |Pipeline(sc)| && Breaks(sc, Pipeline(sc)[k]) && (forall i :: 0 <= i < k ==> !Breaks(sc, Pipeline(sc)[i]))
            ==> Trace(sc) == Pipeline(sc)[..k + 1] + [MarkRetryable]
    ensures (forall i :: 0 <= i < |Pipeline(sc)| ==> !Breaks(sc, Pipeline(sc)[i]))
            ==> Trace(sc) == Pipeline(sc) + if !sc.alreadyDispatched && sc.shouldDispatch && !sc.hasPhone then [MarkRetryable] else []
  {
    forall e ensures Fails(sc, e) <==> Breaks(sc, e) { }
    var p, n := Pipeline(sc), Completed(sc, Pipeline(sc));
    assert n < |p| ==> Breaks(sc, p[n]);
    assert p + [] == p;
  }

  /** The calls made when `k` dispatch effects were attempted. */
  ghost predicate Attempted(sc: Scenario, k: nat) {
    && k <= |DISPATCH|
    && (Trace(sc) == HYDRATE + DISPATCH[..k] || Trace(sc) == HYDRATE + DISPATCH[..k] + [MarkRetryable])
  }

  /** The items that dispatch, and the pipeline of the others. */
  predicate Dispatches(sc: Scenario) { !sc.alreadyDispatched && sc.shouldDispatch && sc.hasPhone }

  lemma OthersDispatchNothing(sc: Scenario, e: Effect)
    requires !Dispatches(sc) && e in Pipeline(sc)
    ensures e !in DISPATCH && e != MarkRetryable
  {
  }

  lemma RetryIsNoPipelineEffect(sc: Scenario, e: Effect)
    requires e in Pipeline(sc)
    ensures e != MarkRetryable
  {
  }

  lemma DispatchingPipeline(sc: Scenario, m: nat)
    requires Dispatches(sc) && m <= |Pipeline(sc)|
    ensures m >= |HYDRATE| ==> Pipeline(sc)[..m] == HYDRATE + DISPATCH[..m - |HYDRATE|]
    ensures m < |HYDRATE| ==> forall e :: e in Pipeline(sc)[..m] ==> e !in DISPATCH
  {
    assert Pipeline(sc) == HYDRATE + DISPATCH;
    if m < |HYDRATE| { assert Pipeline(sc)[..m] == HYDRATE[..m]; }
  }

  /** The trace is the calls made, followed by the retry report or not. */
  lemma TraceIsAPrefix(sc: Scenario) returns (m: nat)
    ensures m <= |Pipeline(sc)|
    ensures Trace(sc) == Pipeline(sc)[..m] || Trace(sc) == Pipeline(sc)[..m] + [MarkRetryable]
  {
    var p := Pipeline(sc);
    var n := Completed(sc, p);
    m := if n < |p| then n + 1 else n;
    assert p[..|p|] == p;
  }

  /**
   For every pattern of failures: either no dispatch effect is attempted, or those attempted follow
   the hydration and form a prefix of the six; the retry report comes at most once and only last.
   */
  lemma DispatchEffectsAreAPrefix(sc: Scenario)
    ensures (forall e :: e in Trace(sc) ==> e !in DISPATCH) || exists k :: Attempted(sc, k)
    ensures forall i :: 0 <= i < |Trace(sc)| && Trace(sc)[i] == MarkRetryable ==> i == |Trace(sc)| - 1
  {
    var m := TraceIsAPrefix(sc);
    var made := Pipeline(sc)[..m];
    forall i | 0 <= i < m ensures made[i] != MarkRetryable { RetryIsNoPipelineEffect(sc, made[i]); }
    if Dispatches(sc) {
      DispatchingPipeline(sc, m);
      if m >= |HYDRATE| { assert Attempted(sc, m - |HYDRATE|); }
    } else {
      forall e | e in made ensures e !in DISPATCH { OthersDispatchNothing(sc, e); }
    }
  }

  // ================================================================ the poller object

  class NdrQueuePoller {
    const capacity: nat
    var running: bool
    var loop: Loop
    var permits: nat
    var working: set<TaskId>
    var active: set<TaskId>
    ghost var spawned: set<TaskId>
    ghost var lost: nat
    ghost var acquired: nat
    ghost var released: nat
    ghost var stops: nat

    ghost function Abstract(): State
      reads this
    {
      State(capacity, running, loop, permits, working, active, spawned, lost, acquired, released, stops)
    }

    constructor (maxConcurrentCalls: nat)
      ensures capacity == maxConcurrentCalls && Abstract() == Initial(maxConcurrentCalls)
    {
      capacity, running, loop, permits := maxConcurrentCalls, false, NoLoop, maxConcurrentCalls;
      working, active, spawned := {}, {}, {};
      lost, acquired, released, stops := 0, 0, 0, 0;
    }

    method StartPolling()
      modifies this
      ensures Abstract() == if Enabled(old(Abstract()), Step.Start) then Next(old(Abstract()), Step.Start) else old(Abstract())
    {
      if !running && loop.NoLoop? {
        running := true;
        loop := Top;
      }
    }

    method StopPolling()
      modifies this
      ensures Abstract() == Next(old(Abstract()), Step.Stop)
    {
      running := false;
      lost, stops := lost + (if loop.Claiming? then 1 else 0), stops + 1;
      loop := NoLoop;
    }

    method ReleaseSlot()
      modifies this`permits, this`released
      ensures permits == old(permits) + 1 && released == old(released) + 1
    {
      permits := permits + 1;
      released := released + 1;
    }

    /** One iteration of the loop; it reports whether it is left waiting for a free slot. */
    method PollOnce(withinHours: bool, outcome: ClaimOutcome) returns (blocked: bool)
      requires loop.Top? && (outcome.Item? ==> outcome.task !in spawned)
      modifies this
      ensures blocked == (old(running) && withinHours && old(permits) == 0)
      ensures var s := Next(old(Abstract()), Iterate(withinHours));
              Abstract() == if s.loop.Waiting? && s.permits > 0 then Next(Next(s, Acquire), ClaimReturns(outcome)) else s
      ensures running == old(running) && lost == old(lost) && stops == old(stops)
      ensures !old(running) ==> loop == NoLoop && permits == old(permits) && working == old(working) && active == old(active)
      ensures old(running) && !withinHours ==>
        loop == Napping && permits == old(permits) && working == old(working) && active == old(active)
      ensures blocked ==> loop == Waiting && permits == 0 && working == old(working) && active == old(active)
      ensures old(running) && withinHours && !blocked && !outcome.Item? ==>
        loop == Napping && permits == old(permits) && working == old(working) && active == old(active)
      ensures old(running) && withinHours && !blocked && outcome.Item? ==>
        && loop == Top && permits == old(permits) - 1
        && working == old(working) + {outcome.task} && active == old(active) + {outcome.task}
    {
      blocked := false;
      if !running { loop := NoLoop; return; }
      if !withinHours { loop := Napping; return; }
      loop := Waiting;
      if permits == 0 { return true; }
      permits, acquired := permits - 1, acquired + 1;
      loop := Claiming;
      match outcome {
        case ClaimRaised => ReleaseSlot(); loop := Napping;
        case QueueEmpty => ReleaseSlot(); loop := Napping;
        case Item(task) =>
          working := working + {task};
          active, spawned := active + {task}, spawned + {task};
          loop := Top;
      }
    }

    /** The background task: whatever the pipeline and the wait do, the slot is released exactly once. */
    method ProcessTask(task: TaskId, sc: Scenario, observe: nat -> Observation, maxWait: nat, pollSeconds: nat)
      returns (dispatched: bool)
      requires task in working && pollSeconds > 0
      modifies this
      ensures Abstract() == Next(old(Abstract()), TaskReleases(task))
      ensures dispatched <==> !sc.alreadyDispatched && sc.shouldDispatch && sc.hasPhone
                              && Completed(sc, Pipeline(sc)) == |Pipeline(sc)|
    {
      var pipe := new Pipe();
      var engagement := pipe.ProcessClaimedItem(sc);
      dispatched := engagement.Some?;
      if dispatched {
        var end, slept := WaitForCallCompletion(observe, maxWait, pollSeconds);
      }
      working := working - {task};
      ReleaseSlot();
    }
  }
}
