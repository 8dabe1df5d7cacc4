/**
 The lease-fenced retry queues behind the outbound writeback worker and the recording fetch worker.

 A worker claims a record, calls an outside system, and settles the record in a separate database
 write that carries its claim token. Records, in-flight jobs and the outside system are explicit
 state; every step of every worker is one transition, so a run is any interleaving of them.
 */
module RetryQueue {
  import opened Common

  type RecordId = string
  type EngagementId = string
  type Token = nat
  type Seconds = int

  const MAX_DELIVERY_ATTEMPTS: nat := 8
  const LEASE_SECONDS: Seconds := 300
  const BACKOFF_CAP_MINUTES: nat := 60

  datatype Status = Pending | Processing | Delivered | DeadLetter

  predicate Terminal(s: Status) { s.Delivered? || s.DeadLetter? }

  datatype Record = Record(
    engagement: EngagementId,
    status: Status,
    attempts: nat,
    nextAttemptAt: Seconds,
    claimedAt: Seconds,
    token: Option<Token>)

  type Records = map<RecordId, Record>

  /** Which worker drains the queue; they differ only in how they read a reply. */
  datatype Worker = Writeback | Recording

  datatype Reply =
    | Accepted
    | HttpError(code: int, alreadyStored: bool, retryAfter: Option<nat>)
    | NetworkError
    | Unexpected
    | NoRecording

  datatype Verdict = Succeed | Abandon | Retry

  function Classify(worker: Worker, reply: Reply): Verdict {
    match reply
    case Accepted => Succeed
    case HttpError(code, alreadyStored, _) =>
      (match worker
       case Writeback =>
         if code == 409 then (if alreadyStored then Succeed else Abandon)
         else if code == 401 || code == 403 then Abandon
         else if 400 <= code < 500 && code != 429 then Abandon
         else Retry
       case Recording => if code == 409 then Succeed else Retry)
    case _ => Retry
  }

  // ---------------------------------------------------------------- what a reply means for the record

  /** The outside system has the result: it took it, or a conflict says that it was there. */
  predicate Landed(worker: Worker, reply: Reply) {
    reply.Accepted? || (reply.HttpError? && reply.code == 409 && (worker.Recording? || reply.alreadyStored))
  }

  /** The writeback worker takes every other client error for definite, except too many requests. */
  predicate Refused(worker: Worker, reply: Reply) {
    && worker.Writeback? && reply.HttpError? && 400 <= reply.code < 500 && reply.code != 429
    && !(reply.code == 409 && reply.alreadyStored)
  }

  /** Everything else may pass: 429, other codes, network and unexpected errors, a recording not there yet. */
  predicate Transient(worker: Worker, reply: Reply) { !Landed(worker, reply) && !Refused(worker, reply) }

  lemma ClassifyVerdict(worker: Worker, reply: Reply)
    ensures Classify(worker, reply).Succeed? <==> Landed(worker, reply)
    ensures Classify(worker, reply).Abandon? <==> Refused(worker, reply)
    ensures Classify(worker, reply).Retry? <==> Transient(worker, reply)
  {
  }

  /** Minutes to wait after each of the first seven failed attempts. */
  const WAITS: seq<nat> := [1, 2, 4, 8, 16, 32, 60]

  function WaitSeconds(worker: Worker, reply: Reply, attempts: nat): nat
    requires attempts < |WAITS|
  {
    if worker.Writeback? && reply.HttpError? && reply.code == 429 && reply.retryAfter.Some?
       && reply.retryAfter.value > 60 * WAITS[attempts] then reply.retryAfter.value
    else 60 * WAITS[attempts]
  }

  /** The record a pass leaves, by the reply it got: the eighth transient failure is given up. */
  ghost predicate SettledByReply(worker: Worker, reply: Reply, r: Record, after: Record, token: Token, claimedAt: Seconds, settledAt: Seconds) {
    && after.engagement == r.engagement && after.claimedAt == claimedAt
    && (Landed(worker, reply) ==> after == r.(status := Delivered, claimedAt := claimedAt, token := Some(token)))
    && (Refused(worker, reply) ==> after == r.(status := DeadLetter, claimedAt := claimedAt, token := Some(token)))
    && (Transient(worker, reply) && r.attempts + 1 >= 8 ==>
          after == r.(status := DeadLetter, claimedAt := claimedAt, token := Some(token)))
    && (Transient(worker, reply) && r.attempts + 1 < 8 ==>
          && after.status == Pending && after.attempts == r.attempts + 1 && after.token == None
          && after.nextAttemptAt == settledAt + WaitSeconds(worker, reply, r.attempts))
  }

  lemma RepliesSettleRecords(worker: Worker, reply: Reply, r: Record, token: Token, claimedAt: Seconds, settledAt: Seconds)
    ensures SettledByReply(worker, reply, r,
              Settled(Claimed(r, token, claimedAt), Final(worker, reply, r.attempts), settledAt + DelaySeconds(worker, reply, r.attempts)),
              token, claimedAt, settledAt)
  {
    ClassifyVerdict(worker, reply);
    if r.attempts < |WAITS| { WaitsAreTheBackoff(r.attempts); }
  }

  lemma WaitsAreTheBackoff(attempts: nat)
    requires attempts < |WAITS|
    ensures BackoffMinutes(attempts) == WAITS[attempts]
  {
    assert Pow2(2) == 4 && Pow2(4) == 4 * Pow2(2) && Pow2(6) == 4 * Pow2(4);
  }

  // ---------------------------------------------------------------- backoff

  function Pow2(n: nat): nat { if n == 0 then 1 else 2 * Pow2(n - 1) }

  function BackoffMinutes(attempts: nat): nat {
    if Pow2(attempts) < BACKOFF_CAP_MINUTES then Pow2(attempts) else BACKOFF_CAP_MINUTES
  }

  /** Delay before the next attempt, with a longer Retry-After of a 429 honoured by the writeback worker. */
  function DelaySeconds(worker: Worker, reply: Reply, attempts: nat): nat {
    var backoff := 60 * BackoffMinutes(attempts);
    match reply
    case HttpError(429, _, Some(seconds)) =>
      if worker.Writeback? && seconds > backoff then seconds else backoff
    case _ => backoff
  }

  predicate Exhausted(attempts: nat) { attempts + 1 >= MAX_DELIVERY_ATTEMPTS }

  // ---------------------------------------------------------------- the repository's writes

  predicate Claimable(r: Record, now: Seconds) {
    || (r.status.Pending? && r.nextAttemptAt <= now)
    || (r.status.Processing? && r.claimedAt <= now - LEASE_SECONDS)
  }

  function Claimed(r: Record, token: Token, now: Seconds): Record {
    r.(status := Processing, claimedAt := now, token := Some(token))
  }

  /** A settling write matches on the claim token alone, whatever the status. */
  predicate Fenced(records: Records, id: RecordId, token: Token) {
    id in records && records[id].token == Some(token)
  }

  function Settled(r: Record, verdict: Verdict, next: Seconds): Record {
    match verdict
    case Succeed => r.(status := Delivered)
    case Abandon => r.(status := DeadLetter)
    case Retry => r.(status := Pending, attempts := r.attempts + 1, nextAttemptAt := next, token := None)
  }

  function Settle(records: Records, id: RecordId, token: Token, verdict: Verdict, next: Seconds): Records {
    if Fenced(records, id, token) then records[id := Settled(records[id], verdict, next)] else records
  }

  /** The verdict actually written: a retry at the attempt limit becomes a dead letter. */
  function Final(worker: Worker, reply: Reply, attempts: nat): Verdict {
    var v := Classify(worker, reply);
    if v.Retry? && Exhausted(attempts) then Abandon else v
  }

  class Repository {
    var records: Records

    constructor ()
      ensures records == map[]
    {
      records := map[];
    }

    /** Idempotent: a second enqueue under the same id is refused and changes nothing. */
    method Enqueue(id: RecordId, engagement: EngagementId, firstAttemptAt: Seconds) returns (added: bool)
      modifies this
      ensures added == (id !in old(records))
      ensures records == if added then old(records)[id := Record(engagement, Pending, 0, firstAttemptAt, 0, None)]
                         else old(records)
    {
      added := id !in records;
      if added {
        records := records[id := Record(engagement, Pending, 0, firstAttemptAt, 0, None)];
      }
    }

    /** Claims the claimable record that has been due longest. */
    method ClaimPending(token: Token, now: Seconds) returns (claimed: Option<RecordId>)
      modifies this
      ensures claimed.None? ==>
        && records == old(records)
        && (forall id :: id in records && records[id].status.Pending? ==> records[id].nextAttemptAt > now)
        && (forall id :: id in records && records[id].status.Processing? ==> records[id].claimedAt > now - 300)
      ensures claimed.Some? ==>
        && claimed.value in old(records) && Claimable(old(records)[claimed.value], now)
        && (old(records)[claimed.value].status.Pending? || old(records)[claimed.value].status.Processing?)
        && (forall id :: id in old(records) && Claimable(old(records)[id], now)
              ==> old(records)[claimed.value].nextAttemptAt <= old(records)[id].nextAttemptAt)
        && records == old(records)[claimed.value :=
             old(records)[claimed.value].(status := Processing, claimedAt := now, token := Some(token))]
    {
      claimed := None;
      var left := records.Keys;
      while left != {}
        invariant left <= records.Keys
        invariant claimed.Some? ==> claimed.value in records && Claimable(records[claimed.value], now)
        invariant forall id :: id in records.Keys - left && Claimable(records[id], now) ==>
          claimed.Some? && records[claimed.value].nextAttemptAt <= records[id].nextAttemptAt
      {
        var id :| id in left;
        left := left - {id};
        if Claimable(records[id], now)
           && (claimed.None? || records[id].nextAttemptAt < records[claimed.value].nextAttemptAt) {
          claimed := Some(id);
        }
      }
      if claimed.Some? {
        records := records[claimed.value := Claimed(records[claimed.value], token, now)];
      }
    }

    method Mark(id: RecordId, token: Token, verdict: Verdict, next: Seconds) returns (modified: bool)
      modifies this
      ensures modified == Fenced(old(records), id, token)
      ensures records == Settle(old(records), id, token, verdict, next)
    {
      modified := id in records && records[id].token == Some(token);
      if modified {
        records := records[id := Settled(records[id], verdict, next)];
      }
    }

    /** One uninterrupted pass of a worker over one record, given its two clock readings and the reply it will receive. */
    method ProcessNext(worker: Worker, token: Token, claimedAt: Seconds, settledAt: Seconds, reply: Reply) returns (claimed: Option<RecordId>)
      modifies this
      ensures claimed.None? ==> records == old(records)
      ensures claimed.Some? ==>
        var id := claimed.value;
        && id in old(records) && Claimable(old(records)[id], claimedAt)
        && var r := old(records)[id];
           records == old(records)[id := Settled(Claimed(r, token, claimedAt), Final(worker, reply, r.attempts),
                                                 settledAt + DelaySeconds(worker, reply, r.attempts))]
      ensures claimed.Some? ==>
        var id := claimed.value;
        && id in old(records) && id in records && records == old(records)[id := records[id]]
        && SettledByReply(worker, reply, old(records)[id], records[id], token, claimedAt, settledAt)
    {
      claimed := ClaimPending(token, claimedAt);
      if claimed.None? { return; }
      var id := claimed.value;
      RepliesSettleRecords(worker, reply, old(records)[id], token, claimedAt, settledAt);
      var attempts := records[id].attempts;
      var verdict := Classify(worker, reply);
      var modified;
      match verdict {
        case Succeed => modified := Mark(id, token, Succeed, settledAt);
        case Abandon => modified := Mark(id, token, Abandon, settledAt);
        case Retry =>
          if attempts + 1 >= MAX_DELIVERY_ATTEMPTS {
            modified := Mark(id, token, Abandon, settledAt);
          } else {
            var minutes := BackoffMinutes(attempts);
            var seconds := 60 * minutes;
            if worker.Writeback? && reply.HttpError? && reply.code == 429 && reply.retryAfter.Some?
               && reply.retryAfter.value > seconds {
              seconds := reply.retryAfter.value;
            }
            modified := Mark(id, token, Retry, settledAt + seconds);
          }
      }
    }
  }

  // ---------------------------------------------------------------- runs

  /**
   An in-flight pass. `Replied` waits to settle. `Unacknowledged` is the catch-all handler of the
   pass, entered when the success write raised after it had (or had not) taken effect.
   */
  datatype Job =
    | Calling(id: RecordId, attempts: nat)
    | Replied(id: RecordId, attempts: nat, reply: Reply)
    | Unacknowledged(id: RecordId, attempts: nat)

  datatype State = State(
    worker: Worker,
    records: Records,
    jobs: map<Token, Job>,
    used: set<Token>,              // claim tokens handed out so far
    held: set<EngagementId>,       // engagements whose result the outside system holds
    delays: map<RecordId, seq<nat>>,      // delays scheduled by accepted retries
    failures: map<RecordId, nat>)         // transient failures whose settling write took effect

  datatype Step =
    | Enqueue(id: RecordId, engagement: EngagementId, at: Seconds)
    | Claim(token: Token, id: RecordId, now: Seconds)
    | Call(token: Token, reply: Reply, landed: bool)
    | Write(token: Token, now: Seconds, applied: bool, acknowledged: bool)
    | Crash(token: Token)

  function ReplyOf(j: Job): Reply { if j.Replied? then j.reply else Unexpected }

  /**
   What the outside system may do: it drops nothing, and it says that it holds a result only if it does.
   A conflict tells the recording worker that its write landed, and names a stored result to the other.
   */
  predicate CallAllowed(s: State, engagement: EngagementId, reply: Reply, landed: bool) {
    match reply
    case Accepted => landed || engagement in s.held
    case HttpError(409, alreadyStored, _) => (s.worker.Recording? || alreadyStored) ==> landed || engagement in s.held
    case NoRecording => s.worker.Recording?
    case _ => true
  }

  predicate Enabled(s: State, step: Step) {
    match step
    case Enqueue(id, _, _) => id !in s.records
    case Claim(token, id, now) => token !in s.used && id in s.records && Claimable(s.records[id], now)
    case Call(token, reply, landed) =>
      && token in s.jobs && s.jobs[token].Calling? && s.jobs[token].id in s.records
      && CallAllowed(s, s.records[s.jobs[token].id].engagement, reply, landed)
    case Write(token, _, applied, acknowledged) => token in s.jobs && !s.jobs[token].Calling?
    case Crash(token) => token in s.jobs
  }

  /** A success write that raises is caught by the pass's own catch-all handler. */
  predicate RaisedIntoHandler(s: State, token: Token, acknowledged: bool)
    requires token in s.jobs
  {
    !acknowledged && s.jobs[token].Replied? && s.jobs[token].reply.Accepted?
  }

  function Next(s: State, step: Step): State
    requires Enabled(s, step)
  {
    match step
    case Enqueue(id, engagement, at) =>
      s.(records := s.records[id := Record(engagement, Pending, 0, at, 0, None)],
         delays := s.delays[id := []], failures := s.failures[id := 0])
    case Claim(token, id, now) =>
      s.(records := s.records[id := Claimed(s.records[id], token, now)],
         used := s.used + {token},
         jobs := s.jobs[token := Calling(id, s.records[id].attempts)])
    case Call(token, reply, landed) =>
      var j := s.jobs[token];
      s.(jobs := s.jobs[token := Replied(j.id, j.attempts, reply)],
         held := if landed then s.held + {s.records[j.id].engagement} else s.held)
    case Write(token, now, applied, acknowledged) =>
      Finish(if applied && Fenced(s.records, s.jobs[token].id, token) then Apply(s, token, now) else s,
             token, RaisedIntoHandler(s, token, acknowledged))
    case Crash(token) => s.(jobs := s.jobs - {token})
  }

  /** The settling write of a job takes effect. */
  function Apply(s: State, token: Token, now: Seconds): State
    requires token in s.jobs && Fenced(s.records, s.jobs[token].id, token)
  {
    var j := s.jobs[token];
    var reply := ReplyOf(j);
    var verdict, delay := Final(s.worker, reply, j.attempts), DelaySeconds(s.worker, reply, j.attempts);
    s.(records := Settle(s.records, j.id, token, verdict, now + delay),
       delays := if verdict.Retry? then s.delays[j.id := Log(s, j.id) + [delay]] else s.delays,
       failures := if Transient(s.worker, reply) then s.failures[j.id := Count(s, j.id) + 1] else s.failures)
  }

  /** The pass ends, or enters the handler when its success write raised. */
  function Finish(s: State, token: Token, raised: bool): State
    requires token in s.jobs
  {
    if raised then s.(jobs := s.jobs[token := Unacknowledged(s.jobs[token].id, s.jobs[token].attempts)])
    else s.(jobs := s.jobs - {token})
  }

  function Log(s: State, id: RecordId): seq<nat> { if id in s.delays then s.delays[id] else [] }

  function Count(s: State, id: RecordId): nat { if id in s.failures then s.failures[id] else 0 }

  function Start(worker: Worker): State { State(worker, map[], map[], {}, {}, map[], map[]) }

  predicate ValidRun(s: State, steps: seq<Step>)
    decreases |steps|
  {
    steps != [] ==> Enabled(s, steps[0]) && ValidRun(Next(s, steps[0]), steps[1..])
  }

  function After(s: State, steps: seq<Step>): State
    requires ValidRun(s, steps)
    decreases |steps|
  {
    if steps == [] then s else After(Next(s, steps[0]), steps[1..])
  }

  // ---------------------------------------------------------------- the invariant

  ghost predicate RecordOk(r: Record, log: seq<nat>, count: nat, held: set<EngagementId>, used: set<Token>) {
    && r.attempts + 1 <= MAX_DELIVERY_ATTEMPTS
    && |log| == r.attempts
    && r.attempts <= count <= r.attempts + (if r.status.DeadLetter? then 1 else 0)
    && (r.status.Delivered? ==> r.engagement in held)
    && (r.status.Pending? ==> r.token.None?)
    && (r.token.Some? ==> r.token.value in used)
  }

  ghost predicate JobOk(worker: Worker, records: Records, held: set<EngagementId>, used: set<Token>, token: Token, j: Job) {
    && token in used && j.id in records
    && (Fenced(records, j.id, token) ==>
          && records[j.id].attempts == j.attempts
          && (records[j.id].status.Processing? || (j.Unacknowledged? && records[j.id].status.Delivered?)))
    && (j.Replied? && Landed(worker, j.reply) ==> records[j.id].engagement in held)
    && (j.Unacknowledged? ==> records[j.id].engagement in held)
  }

  ghost predicate RecordsOk(s: State) {
    forall id :: id in s.records ==> RecordOk(s.records[id], Log(s, id), Count(s, id), s.held, s.used)
  }

  ghost predicate JobsOk(s: State) {
    forall token :: token in s.jobs ==> JobOk(s.worker, s.records, s.held, s.used, token, s.jobs[token])
  }

  ghost predicate Inv(s: State) { RecordsOk(s) && JobsOk(s) }

  lemma ApplyKeepsRecords(s: State, token: Token, now: Seconds)
    requires Inv(s) && token in s.jobs && Fenced(s.records, s.jobs[token].id, token) && !s.jobs[token].Calling?
    ensures RecordsOk(Apply(s, token, now))
  {
  }

  /** A settling write leaves every other job consistent: no two jobs share a token. */
  lemma ApplyKeepsOtherJob(s: State, token: Token, now: Seconds, other: Token)
    requires Inv(s) && token in s.jobs && Fenced(s.records, s.jobs[token].id, token)
    requires other in s.jobs && other != token
    ensures JobOk(s.worker, Apply(s, token, now).records, s.held, s.used, other, s.jobs[other])
  {
  }

  lemma RaisedJobOk(s: State, token: Token, now: Seconds)
    requires Inv(s) && token in s.jobs && Fenced(s.records, s.jobs[token].id, token)
    requires RaisedIntoHandler(s, token, false)
    ensures JobOk(s.worker, Apply(s, token, now).records, s.held, s.used, token,
                  Unacknowledged(s.jobs[token].id, s.jobs[token].attempts))
  {
  }

  lemma WriteKeepsInv(s: State, step: Step)
    requires Inv(s) && step.Write? && Enabled(s, step)
    ensures Inv(Next(s, step))
  {
    var token, j, s' := step.token, s.jobs[step.token], Next(s, step);
    assert JobOk(s.worker, s.records, s.held, s.used, token, j);
    if step.applied && Fenced(s.records, j.id, token) {
      ApplyKeepsRecords(s, token, step.now);
      assert s'.records == Apply(s, token, step.now).records;
      forall other | other in s'.jobs ensures JobOk(s'.worker, s'.records, s'.held, s'.used, other, s'.jobs[other]) {
        if other != token {
          ApplyKeepsOtherJob(s, token, step.now, other);
        } else {
          RaisedJobOk(s, token, step.now);
        }
      }
    }
  }

  lemma StepKeepsInv(s: State, step: Step)
    requires Inv(s) && Enabled(s, step)
    ensures Inv(Next(s, step))
  {
    var s' := Next(s, step);
    if step.Write? {
      WriteKeepsInv(s, step);
    } else {
      forall id | id in s'.records ensures RecordOk(s'.records[id], Log(s', id), Count(s', id), s'.held, s'.used) {
        if id in s.records { assert RecordOk(s.records[id], Log(s, id), Count(s, id), s.held, s.used); }
      }
      forall token | token in s'.jobs ensures JobOk(s'.worker, s'.records, s'.held, s'.used, token, s'.jobs[token]) {
        if token in s.jobs { assert JobOk(s.worker, s.records, s.held, s.used, token, s.jobs[token]); }
      }
    }
  }

  lemma {:induction false} RunKeepsInv(s: State, steps: seq<Step>)
    requires Inv(s) && ValidRun(s, steps)
    ensures Inv(After(s, steps))
    decreases |steps|
  {
    if steps != [] {
      StepKeepsInv(s, steps[0]);
      RunKeepsInv(Next(s, steps[0]), steps[1..]);
    }
  }

  // ---------------------------------------------------------------- main results

  /** A record is DELIVERED only if the outside system holds a result for its engagement. */
  lemma DeliveredIsHeld(worker: Worker, steps: seq<Step>, id: RecordId)
    requires ValidRun(Start(worker), steps)
    requires id in After(Start(worker), steps).records && After(Start(worker), steps).records[id].status.Delivered?
    ensures After(Start(worker), steps).records[id].engagement in After(Start(worker), steps).held
  {
    RunKeepsInv(Start(worker), steps);
    var s := After(Start(worker), steps);
    assert RecordOk(s.records[id], Log(s, id), Count(s, id), s.held, s.used);
  }

  // ---------------------------------------------------------------- dead letters

  /** The outside system refuses the record in this step. */
  predicate RefusesIn(s: State, step: Step, id: RecordId)
    requires Enabled(s, step)
  {
    step.Call? && s.jobs[step.token].id == id && Refused(s.worker, step.reply)
  }

  predicate RefusedDuring(s: State, steps: seq<Step>, id: RecordId)
    requires ValidRun(s, steps)
    decreases |steps|
  {
    steps != [] && (RefusesIn(s, steps[0], id) || RefusedDuring(Next(s, steps[0]), steps[1..], id))
  }

  /** A dead letter had been refused, or has eight counted failures; and no pass has a refusal to write down otherwise. */
  ghost predicate Justified(s: State, id: RecordId, refused: bool) {
    && (id in s.records && s.records[id].status.DeadLetter? ==> refused || Count(s, id) == MAX_DELIVERY_ATTEMPTS)
    && (forall token :: token in s.jobs && s.jobs[token].id == id && s.jobs[token].Replied? && Refused(s.worker, s.jobs[token].reply)
          ==> refused)
  }

  lemma WriteStaysJustified(s: State, step: Step, id: RecordId, refused: bool)
    requires Inv(s) && Enabled(s, step) && step.Write? && Justified(s, id, refused)
    ensures Justified(Next(s, step), id, refused)
  {
    assert JobOk(s.worker, s.records, s.held, s.used, step.token, s.jobs[step.token]);
    if id in s.records { assert RecordOk(s.records[id], Log(s, id), Count(s, id), s.held, s.used); }
  }

  lemma StepStaysJustified(s: State, step: Step, id: RecordId, refused: bool)
    requires Inv(s) && Enabled(s, step) && Justified(s, id, refused)
    ensures Justified(Next(s, step), id, refused || RefusesIn(s, step, id))
  {
    if step.Write? { WriteStaysJustified(s, step, id, refused); }
  }

  lemma {:induction false} RunStaysJustified(s: State, steps: seq<Step>, id: RecordId, refused: bool)
    requires Inv(s) && ValidRun(s, steps) && Justified(s, id, refused)
    ensures Justified(After(s, steps), id, refused || RefusedDuring(s, steps, id))
    decreases |steps|
  {
    if steps != [] {
      StepKeepsInv(s, steps[0]);
      StepStaysJustified(s, steps[0], id, refused);
      RunStaysJustified(Next(s, steps[0]), steps[1..], id, refused || RefusesIn(s, steps[0], id));
    }
  }

  /** Over every run a record is dead-lettered only by a definite refusal or after eight counted transient failures. */
  lemma DeadLettersHaveACause(worker: Worker, steps: seq<Step>, id: RecordId)
    requires ValidRun(Start(worker), steps)
    requires id in After(Start(worker), steps).records && After(Start(worker), steps).records[id].status.DeadLetter?
    ensures RefusedDuring(Start(worker), steps, id) || Count(After(Start(worker), steps), id) == 8
  {
    RunStaysJustified(Start(worker), steps, id, false);
  }

  // ---------------------------------------------------------------- attempts that end in transient failure

  /** A pass whose attempt has ended in a transient failure that is not yet written down. */
  predicate Awaiting(worker: Worker, j: Job) { j.Unacknowledged? || (j.Replied? && Transient(worker, j.reply)) }

  /** Whether the holder of the record's claim token is such a pass. */
  function Open(s: State, id: RecordId): nat {
    if id in s.records && s.records[id].token.Some? && s.records[id].token.value in s.jobs
       && s.jobs[s.records[id].token.value].id == id && Awaiting(s.worker, s.jobs[s.records[id].token.value]) then 1 else 0
  }

  /** The step ends a delivery attempt of the record transiently: by its reply, or by a success write that raises. */
  predicate EndsTransiently(s: State, step: Step, id: RecordId)
    requires Enabled(s, step)
  {
    match step
    case Call(token, reply, _) => s.jobs[token].id == id && Transient(s.worker, reply)
    case Write(token, _, _, acknowledged) => s.jobs[token].id == id && RaisedIntoHandler(s, token, acknowledged)
    case _ => false
  }

  /**
   The step keeps a transient failure from being written down: a crash or a write without effect of the
   pass that holds the record, a reclaim before that write, or a failure of a pass that lost the record before.
   */
  predicate Loses(s: State, step: Step, id: RecordId)
    requires Enabled(s, step)
  {
    match step
    case Enqueue(_, _, _) => false
    case Claim(_, claimed, _) => claimed == id && Open(s, id) == 1
    case Call(token, _, _) => EndsTransiently(s, step, id) && !Fenced(s.records, id, token)
    case Write(token, _, applied, acknowledged) =>
      && s.jobs[token].id == id
      && if Awaiting(s.worker, s.jobs[token]) then Fenced(s.records, id, token) && !applied
         else RaisedIntoHandler(s, token, acknowledged) && !Fenced(s.records, id, token)
    case Crash(token) => s.jobs[token].id == id && Awaiting(s.worker, s.jobs[token]) && Fenced(s.records, id, token)
  }

  /** Delivery attempts of the record that end in transient failure over a run. */
  function TransientAttempts(s: State, steps: seq<Step>, id: RecordId): nat
    requires ValidRun(s, steps)
    decreases |steps|
  {
    if steps == [] then 0
    else (if EndsTransiently(s, steps[0], id) then 1 else 0) + TransientAttempts(Next(s, steps[0]), steps[1..], id)
  }

  function Losses(s: State, steps: seq<Step>, id: RecordId): nat
    requires ValidRun(s, steps)
    decreases |steps|
  {
    if steps == [] then 0
    else (if Loses(s, steps[0], id) then 1 else 0) + Losses(Next(s, steps[0]), steps[1..], id)
  }

  predicate CountsOk(s: State) { s.failures.Keys <= s.records.Keys }

  function Balance(s: State, id: RecordId): nat { Count(s, id) + Open(s, id) }

  lemma StepBalances(s: State, step: Step, id: RecordId)
    requires Inv(s) && CountsOk(s) && Enabled(s, step)
    ensures CountsOk(Next(s, step))
    ensures Balance(Next(s, step), id) + (if Loses(s, step, id) then 1 else 0)
         == Balance(s, id) + (if EndsTransiently(s, step, id) then 1 else 0)
  {
    if id in s.records { assert RecordOk(s.records[id], Log(s, id), Count(s, id), s.held, s.used); }
    match step
    case Enqueue(_, _, _) =>
    case Claim(_, _, _) =>
    case Call(token, _, _) => assert JobOk(s.worker, s.records, s.held, s.used, token, s.jobs[token]);
    case Write(token, now, applied, acknowledged) => WriteBalances(s, token, now, applied, acknowledged, id);
    case Crash(token) => assert JobOk(s.worker, s.records, s.held, s.used, token, s.jobs[token]);
  }

  lemma WriteBalances(s: State, token: Token, now: Seconds, applied: bool, acknowledged: bool, id: RecordId)
    requires Inv(s) && CountsOk(s) && Enabled(s, Write(token, now, applied, acknowledged))
    ensures var step := Write(token, now, applied, acknowledged);
            && CountsOk(Next(s, step))
            && Balance(Next(s, step), id) + (if Loses(s, step, id) then 1 else 0)
               == Balance(s, id) + (if EndsTransiently(s, step, id) then 1 else 0)
  {
    assert JobOk(s.worker, s.records, s.held, s.used, token, s.jobs[token]);
    if s.jobs[token].id != id {
      OthersKeepTheirBalance(s, token, now, applied, acknowledged, id);
    } else if applied && Fenced(s.records, id, token) {
      AppliedWriteBalances(s, token, now, acknowledged);
    } else {
      IdleWriteBalances(s, token, now, applied, acknowledged);
    }
  }

  lemma OthersKeepTheirBalance(s: State, token: Token, now: Seconds, applied: bool, acknowledged: bool, id: RecordId)
    requires Inv(s) && Enabled(s, Write(token, now, applied, acknowledged)) && s.jobs[token].id != id
    ensures Balance(Next(s, Write(token, now, applied, acknowledged)), id) == Balance(s, id)
  {
  }

  /** A write that takes effect counts the failure it settles. */
  lemma AppliedWriteBalances(s: State, token: Token, now: Seconds, acknowledged: bool)
    requires Inv(s) && Enabled(s, Write(token, now, true, acknowledged)) && Fenced(s.records, s.jobs[token].id, token)
    ensures var step, id := Write(token, now, true, acknowledged), s.jobs[token].id;
            && !Loses(s, step, id)
            && Balance(Next(s, step), id) == Balance(s, id) + (if EndsTransiently(s, step, id) then 1 else 0)
  {
    assert RecordOk(s.records[s.jobs[token].id], Log(s, s.jobs[token].id), Count(s, s.jobs[token].id), s.held, s.used);
  }

  lemma IdleWriteBalances(s: State, token: Token, now: Seconds, applied: bool, acknowledged: bool)
    requires Inv(s) && Enabled(s, Write(token, now, applied, acknowledged))
    requires !applied || !Fenced(s.records, s.jobs[token].id, token)
    ensures var step, id := Write(token, now, applied, acknowledged), s.jobs[token].id;
            Balance(Next(s, step), id) + (if Loses(s, step, id) then 1 else 0)
            == Balance(s, id) + (if EndsTransiently(s, step, id) then 1 else 0)
  {
  }

  /** Every transiently ended attempt is counted, still open, or lost. */
  lemma {:induction false} AttemptsAreCountedOpenOrLost(s: State, steps: seq<Step>, id: RecordId)
    requires Inv(s) && CountsOk(s) && ValidRun(s, steps)
    ensures Balance(After(s, steps), id) + Losses(s, steps, id) == Balance(s, id) + TransientAttempts(s, steps, id)
    decreases |steps|
  {
    if steps != [] {
      StepBalances(s, steps[0], id);
      StepKeepsInv(s, steps[0]);
      AttemptsAreCountedOpenOrLost(Next(s, steps[0]), steps[1..], id);
    }
  }

  lemma BalanceIsBounded(s: State, id: RecordId)
    requires Inv(s) && id in s.records
    ensures Balance(s, id) <= MAX_DELIVERY_ATTEMPTS
  {
    assert RecordOk(s.records[id], Log(s, id), Count(s, id), s.held, s.used);
    if Open(s, id) == 1 {
      var token := s.records[id].token.value;
      assert JobOk(s.worker, s.records, s.held, s.used, token, s.jobs[token]);
    }
  }

  /** At most eight delivery attempts end in transient failure, and one more for each loss. */
  lemma TransientAttemptsAreBounded(worker: Worker, steps: seq<Step>, id: RecordId)
    requires ValidRun(Start(worker), steps)
    ensures TransientAttempts(Start(worker), steps, id) <= MAX_DELIVERY_ATTEMPTS + Losses(Start(worker), steps, id)
    ensures |Log(After(Start(worker), steps), id)| < MAX_DELIVERY_ATTEMPTS
  {
    AttemptsAreCountedOpenOrLost(Start(worker), steps, id);
    RunKeepsInv(Start(worker), steps);
    RunKeepsCounts(Start(worker), steps);
    var s := After(Start(worker), steps);
    if id in s.records {
      BalanceIsBounded(s, id);
      assert RecordOk(s.records[id], Log(s, id), Count(s, id), s.held, s.used);
    }
  }

  /** Only enqueued records are counted or scheduled. */
  lemma {:induction false} RunKeepsCounts(s: State, steps: seq<Step>)
    requires Inv(s) && CountsOk(s) && s.delays.Keys <= s.records.Keys && ValidRun(s, steps)
    ensures CountsOk(After(s, steps)) && After(s, steps).delays.Keys <= After(s, steps).records.Keys
    decreases |steps|
  {
    if steps != [] {
      StepKeepsInv(s, steps[0]);
      StepBalances(s, steps[0], "");
      if steps[0].Write? { assert JobOk(s.worker, s.records, s.held, s.used, steps[0].token, s.jobs[steps[0].token]); }
      RunKeepsCounts(Next(s, steps[0]), steps[1..]);
    }
  }

  // ---------------------------------------------------------------- runs that exceed the eight attempts

  /** One more step at the end of a run. */
  lemma {:induction false} Extend(s: State, steps: seq<Step>, step: Step, id: RecordId)
    requires ValidRun(s, steps) && Enabled(After(s, steps), step)
    ensures ValidRun(s, steps + [step]) && After(s, steps + [step]) == Next(After(s, steps), step)
    ensures TransientAttempts(s, steps + [step], id)
         == TransientAttempts(s, steps, id) + if EndsTransiently(After(s, steps), step, id) then 1 else 0
    ensures Losses(s, steps + [step], id) == Losses(s, steps, id) + if Loses(After(s, steps), step, id) then 1 else 0
    decreases |steps|
  {
    if steps == [] {
      assert [step][1..] == [] && steps + [step] == [step];
    } else {
      assert (steps + [step])[1..] == steps[1..] + [step];
      Extend(Next(s, steps[0]), steps[1..], step, id);
    }
  }

  /** Record "r" can be claimed at `now` under token `n`, no pass is in flight, and `attempts` retries are written down. */
  predicate AtRest(s: State, n: nat, attempts: nat, now: Seconds) {
    && s.jobs == map[] && "r" in s.records && s.records["r"].attempts == attempts && Claimable(s.records["r"], now)
    && (forall token :: token in s.used ==> token < n)
  }

  /** However often a pass crashes after its transient reply, nothing is counted, and the record is tried again. */
  lemma {:induction false} CrashesAreNotCounted(worker: Worker, n: nat) returns (steps: seq<Step>)
    ensures ValidRun(Start(worker), steps)
    ensures TransientAttempts(Start(worker), steps, "r") == n == Losses(Start(worker), steps, "r")
    ensures Count(After(Start(worker), steps), "r") == 0
    ensures AtRest(After(Start(worker), steps), n, 0, LEASE_SECONDS * n)
  {
    if n == 0 {
      steps := [];
      Extend(Start(worker), steps, Enqueue("r", "e", 0), "r");
      steps := [] + [Enqueue("r", "e", 0)];
    } else {
      steps := CrashesAreNotCounted(worker, n - 1);
      Extend(Start(worker), steps, Claim(n - 1, "r", LEASE_SECONDS * (n - 1)), "r");
      steps := steps + [Claim(n - 1, "r", LEASE_SECONDS * (n - 1))];
      Extend(Start(worker), steps, Call(n - 1, NetworkError, false), "r");
      steps := steps + [Call(n - 1, NetworkError, false)];
      Extend(Start(worker), steps, Crash(n - 1), "r");
      steps := steps + [Crash(n - 1)];
    }
  }

  /** One crash, and then `k` transient failures that are all written down. */
  lemma {:induction false} OneCrashThenRetries(worker: Worker, k: nat) returns (steps: seq<Step>)
    requires k <= MAX_DELIVERY_ATTEMPTS
    ensures ValidRun(Start(worker), steps)
    ensures TransientAttempts(Start(worker), steps, "r") == k + 1 && Losses(Start(worker), steps, "r") == 1
    ensures k < MAX_DELIVERY_ATTEMPTS ==> AtRest(After(Start(worker), steps), k + 1, k, 3600 * (k + 1))
  {
    if k == 0 {
      steps := CrashesAreNotCounted(worker, 1);
    } else {
      steps := OneCrashThenRetries(worker, k - 1);
      Extend(Start(worker), steps, Claim(k, "r", 3600 * k), "r");
      steps := steps + [Claim(k, "r", 3600 * k)];
      Extend(Start(worker), steps, Call(k, NetworkError, false), "r");
      steps := steps + [Call(k, NetworkError, false)];
      Extend(Start(worker), steps, Write(k, 3600 * k, true, true), "r");
      steps := steps + [Write(k, 3600 * k, true, true)];
    }
  }

  ghost predicate WithinEight(worker: Worker, steps: seq<Step>, id: RecordId, losses: nat) {
    ValidRun(Start(worker), steps) && Losses(Start(worker), steps, id) <= losses
    ==> TransientAttempts(Start(worker), steps, id) <= MAX_DELIVERY_ATTEMPTS
  }

  /** The bound of eight holds for all runs with at most `losses` losses exactly when none is allowed. */
  lemma EightAttemptsExactlyWithoutLosses(worker: Worker, losses: nat)
    ensures (forall steps, id :: WithinEight(worker, steps, id, losses)) <==> losses == 0
  {
    if losses == 0 {
      forall steps, id ensures WithinEight(worker, steps, id, losses) {
        if ValidRun(Start(worker), steps) { TransientAttemptsAreBounded(worker, steps, id); }
      }
    } else {
      var steps := OneCrashThenRetries(worker, MAX_DELIVERY_ATTEMPTS);
      assert !WithinEight(worker, steps, "r", losses);
    }
  }

  /**
   A step changes a terminal record exactly when it is the applied write of a handler whose
   preceding success write raised although it had taken effect.
   */
  lemma TerminalRecordsChangeOnlyAfterALostAcknowledgement(s: State, step: Step, id: RecordId)
    requires Inv(s) && Enabled(s, step)
    requires id in s.records && Terminal(s.records[id].status)
    ensures id in Next(s, step).records
    ensures Next(s, step).records[id] != s.records[id] <==>
      && step.Write? && step.applied
      && s.jobs[step.token].Unacknowledged? && s.jobs[step.token].id == id
      && s.records[id].token == Some(step.token)
  {
  }

  /** Every success write the worker attempts is acknowledged once it takes effect. */
  predicate Acknowledged(steps: seq<Step>) {
    forall i :: 0 <= i < |steps| && steps[i].Write? ==> (steps[i].applied ==> steps[i].acknowledged)
  }

  /** No handler is looking at a record its own success write has already delivered. */
  ghost predicate NoStaleHandler(s: State) {
    forall token :: token in s.jobs && s.jobs[token].Unacknowledged? && Fenced(s.records, s.jobs[token].id, token)
      ==> s.records[s.jobs[token].id].status.Processing?
  }

  lemma AcknowledgedStepLeavesNoStaleHandler(s: State, step: Step)
    requires Inv(s) && NoStaleHandler(s) && Enabled(s, step)
    requires step.Write? && step.applied ==> step.acknowledged
    ensures NoStaleHandler(Next(s, step))
  {
  }

  lemma {:induction false} TerminalRecordsNeverChange(s: State, steps: seq<Step>, id: RecordId)
    requires Inv(s) && NoStaleHandler(s) && ValidRun(s, steps) && Acknowledged(steps)
    requires id in s.records && Terminal(s.records[id].status)
    ensures id in After(s, steps).records && After(s, steps).records[id] == s.records[id]
    decreases |steps|
  {
    if steps != [] {
      StepKeepsInv(s, steps[0]);
      TerminalRecordsChangeOnlyAfterALostAcknowledgement(s, steps[0], id);
      AcknowledgedStepLeavesNoStaleHandler(s, steps[0]);
      assert forall i :: 0 <= i < |steps[1..]| ==> steps[1..][i] == steps[i + 1];
      TerminalRecordsNeverChange(Next(s, steps[0]), steps[1..], id);
    }
  }

  /** The failing run: the success write lands, its acknowledgement is lost, the handler reopens the record. */
  lemma LostAcknowledgementReopensADeliveredRecord()
    ensures
      var steps := [Enqueue("r", "e", 0), Claim(1, "r", 0), Call(1, Accepted, true), Write(1, 0, true, false)];
      var reopen := [Write(1, 0, true, true)];
      && ValidRun(Start(Writeback), steps) && After(Start(Writeback), steps).records["r"].status.Delivered?
      && ValidRun(After(Start(Writeback), steps), reopen)
      && After(After(Start(Writeback), steps), reopen).records["r"].status.Pending?
  {
  }

  // ---------------------------------------------------------------- total backoff

  function Sum(xs: seq<nat>): nat { if xs == [] then 0 else Sum(xs[..|xs| - 1]) + xs[|xs| - 1] }

  function TotalBackoffMinutes(n: nat): nat {
    if n == 0 then 0 else TotalBackoffMinutes(n - 1) + BackoffMinutes(n - 1)
  }

  predicate PlainReply(worker: Worker, reply: Reply) {
    worker.Writeback? && reply.HttpError? ==> reply.retryAfter.None?
  }

  /** No reply of the run carries a Retry-After the worker would read. */
  predicate NoRetryAfter(worker: Worker, steps: seq<Step>) {
    forall i :: 0 <= i < |steps| && steps[i].Call? ==> PlainReply(worker, steps[i].reply)
  }

  ghost predicate PlainReplies(s: State) {
    forall t :: t in s.jobs ==> PlainReply(s.worker, ReplyOf(s.jobs[t]))
  }

  predicate OnTrack(log: seq<nat>) { Sum(log) == 60 * TotalBackoffMinutes(|log|) }

  ghost predicate LogsOnSchedule(s: State) {
    forall id :: id in s.records ==> OnTrack(Log(s, id))
  }

  ghost predicate OnSchedule(s: State) { PlainReplies(s) && LogsOnSchedule(s) }

  /** A job settles on the plain backoff of the attempt it claimed. */
  lemma PlainBackoffIsScheduled(s: State, token: Token, now: Seconds, id: RecordId)
    requires Inv(s) && OnSchedule(s) && token in s.jobs && !s.jobs[token].Calling? && id in s.records
    requires Fenced(s.records, s.jobs[token].id, token)
    ensures var log := Log(s, id);
            Log(Apply(s, token, now), id) == log || Log(Apply(s, token, now), id) == log + [60 * BackoffMinutes(|log|)]
  {
  }

  lemma OnTrackNext(log: seq<nat>)
    requires OnTrack(log)
    ensures OnTrack(log + [60 * BackoffMinutes(|log|)])
  {
  }

  lemma StepKeepsLogsOnSchedule(s: State, step: Step)
    requires Inv(s) && OnSchedule(s) && Enabled(s, step)
    ensures LogsOnSchedule(Next(s, step))
  {
    var s' := Next(s, step);
    if step.Write? {
      forall id | id in s'.records ensures OnTrack(Log(s', id)) {
        if step.applied && Fenced(s.records, s.jobs[step.token].id, step.token) {
          PlainBackoffIsScheduled(s, step.token, step.now, id);
          OnTrackNext(Log(s, id));
        }
      }
    } else {
      assert forall id :: id in s.records && !(step.Enqueue? && step.id == id) ==> Log(s', id) == Log(s, id);
    }
  }

  lemma StepStaysOnSchedule(s: State, step: Step)
    requires Inv(s) && OnSchedule(s) && Enabled(s, step)
    requires step.Call? ==> PlainReply(s.worker, step.reply)
    ensures OnSchedule(Next(s, step))
  {
    StepKeepsLogsOnSchedule(s, step);
    var s' := Next(s, step);
    forall t | t in s'.jobs ensures PlainReply(s'.worker, ReplyOf(s'.jobs[t])) {
      assert t in s.jobs ==> PlainReply(s.worker, ReplyOf(s.jobs[t]));
    }
  }

  lemma {:induction false} RunsStayOnSchedule(s: State, steps: seq<Step>)
    requires Inv(s) && OnSchedule(s) && ValidRun(s, steps) && NoRetryAfter(s.worker, steps)
    ensures OnSchedule(After(s, steps))
    decreases |steps|
  {
    if steps != [] {
      StepKeepsInv(s, steps[0]);
      StepStaysOnSchedule(s, steps[0]);
      assert forall i :: 0 <= i < |steps[1..]| ==> steps[1..][i] == steps[i + 1];
      RunsStayOnSchedule(Next(s, steps[0]), steps[1..]);
    }
  }

  lemma SevenDelays()
    ensures TotalBackoffMinutes(7) == 123
    ensures forall n: nat :: n <= 7 ==> TotalBackoffMinutes(n) <= 123
  {
  }

  lemma {:induction false} TotalBackoffGrows(m: nat, n: nat)
    requires m <= n
    ensures TotalBackoffMinutes(m) <= TotalBackoffMinutes(n)
  {
    if m < n { TotalBackoffGrows(m, n - 1); }
  }

  /** Without Retry-After the delays ever scheduled for a record total at most 123 minutes. */
  lemma ScheduledDelaysTotalAtMost123Minutes(worker: Worker, steps: seq<Step>, id: RecordId)
    requires ValidRun(Start(worker), steps) && NoRetryAfter(worker, steps)
    requires id in After(Start(worker), steps).records
    ensures Sum(Log(After(Start(worker), steps), id)) <= 60 * 123
  {
    RunKeepsInv(Start(worker), steps);
    RunsStayOnSchedule(Start(worker), steps);
    var s := After(Start(worker), steps);
    assert RecordOk(s.records[id], Log(s, id), Count(s, id), s.held, s.used);
    SevenDelays();
  }
}
