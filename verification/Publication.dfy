/**
 The two-resource publication protocol: a database row records the intent, a file is written and
 moved into place, and a second database write commits. A sweeper removes what is left behind.

 Publishers, the sweeper and the clock interleave at every database and file-system call.
 */
module Publication {
  import opened Common

  type ArtifactId = nat
  type Hash = nat
  type Time = int

  datatype Status = InProgress | Committed | Failed

  datatype Row = Row(status: Status, expiresAt: Time, hash: Hash)

  /** File names of the output directory; a stray temporary name carries no artifact id. */
  datatype File = Temp(id: ArtifactId) | Final(id: ArtifactId) | StrayTemp(name: string) | Unrelated(name: string)

  datatype Content = Partial | Whole(hash: Hash)

  type Rows = map<ArtifactId, Row>
  type Disk = map<File, Content>

  // ================================================================ the sweeper's decision

  datatype Snapshot = Snapshot(committed: set<ArtifactId>, live: set<ArtifactId>, abandoned: set<ArtifactId>)

  predicate Live(row: Row, now: Time) { row.status.InProgress? && row.expiresAt > now }

  /** A forced sweep takes every lease for expired. */
  function Look(rows: Rows, now: Time, force: bool): Snapshot {
    Snapshot(set id | id in rows && rows[id].status.Committed?,
             set id | id in rows && Live(rows[id], now) && !force,
             set id | id in rows && rows[id].status.InProgress? && (rows[id].expiresAt <= now || force))
  }

  function MarkAbandoned(rows: Rows, ids: set<ArtifactId>): Rows {
    map id | id in rows :: if id in ids then rows[id].(status := Failed) else rows[id]
  }

  predicate Recognised(f: File) { !f.Unrelated? }

  predicate Spared(snap: Snapshot, f: File) {
    match f
    case Temp(id) => id in snap.live
    case Final(id) => id in snap.committed || id in snap.live
    case StrayTemp(_) => false
    case Unrelated(_) => true
  }

  // ================================================================ the protocol

  /** What a publisher does next. The last three belong to its failure handler. */
  datatype Phase = Registered | Writing | Written | Replaced | Handler | UnlinkFinal | UnlinkTemp

  datatype State = State(
    now: Time, rows: Rows, disk: Disk, publishers: map<ArtifactId, Phase>, sweep: Option<Snapshot>)

  datatype Step =
    | Register(id: ArtifactId, hash: Hash, lease: Time)
    | OpenTemp(id: ArtifactId)
    | FinishTemp(id: ArtifactId)
    | Replace(id: ArtifactId)
    | Commit(id: ArtifactId, acknowledged: bool)
    | Raise(id: ArtifactId)
    | MarkFailed(id: ArtifactId, ok: bool)
    | Unlink(id: ArtifactId, ok: bool)
    | Crash(id: ArtifactId)
    | SweepLook(force: bool)
    | SweepMark
    | SweepRemove(file: File)
    | SweepEnd
    | Tick(now: Time)

  predicate InPhase(s: State, id: ArtifactId, phase: Phase) {
    id in s.publishers && s.publishers[id] == phase && id in s.rows
  }

  predicate Enabled(s: State, step: Step) {
    match step
    case Register(id, _, _) => id !in s.rows && id !in s.publishers
    case OpenTemp(id) => InPhase(s, id, Registered)
    case FinishTemp(id) => InPhase(s, id, Writing)
    case Replace(id) => InPhase(s, id, Written)
    case Commit(id, _) => InPhase(s, id, Replaced)
    case Raise(id) => id in s.publishers && id in s.rows && s.publishers[id] in {Registered, Writing, Written, Replaced}
    case MarkFailed(id, _) => InPhase(s, id, Handler)
    case Unlink(id, _) => InPhase(s, id, UnlinkFinal) || InPhase(s, id, UnlinkTemp)
    case Crash(id) => id in s.publishers
    case SweepLook(_) => s.sweep.None?
    case SweepMark => s.sweep.Some?
    case SweepRemove(file) => s.sweep.Some? && file in s.disk && !Spared(s.sweep.value, file)
    case SweepEnd => s.sweep.Some?
    case Tick(now) => s.now <= now
  }

  function Enter(s: State, id: ArtifactId, phase: Phase): State { s.(publishers := s.publishers[id := phase]) }

  function SetStatus(rows: Rows, id: ArtifactId, status: Status): Rows
    requires id in rows
  {
    rows[id := rows[id].(status := status)]
  }

  function Next(s: State, step: Step): State
    requires Enabled(s, step)
  {
    match step
    case Register(id, hash, lease) =>
      Enter(s, id, Registered).(rows := s.rows[id := Row(InProgress, s.now + lease, hash)])
    case OpenTemp(id) => Enter(s, id, Writing).(disk := s.disk[Temp(id) := Partial])
    // Data written to a file that was unlinked meanwhile does not bring the name back.
    case FinishTemp(id) =>
      Enter(s, id, Written).(disk := if Temp(id) in s.disk then s.disk[Temp(id) := Whole(s.rows[id].hash)] else s.disk)
    case Replace(id) =>
      if Temp(id) in s.disk
      then Enter(s, id, Replaced).(disk := (s.disk - {Temp(id)})[Final(id) := s.disk[Temp(id)]])
      else Enter(s, id, Handler)
    // The update names the row only; it checks neither its status nor its lease.
    case Commit(id, acknowledged) =>
      var s' := s.(rows := SetStatus(s.rows, id, Committed));
      if acknowledged then s'.(publishers := s.publishers - {id}) else Enter(s', id, Handler)
    case Raise(id) => Enter(s, id, Handler)
    case MarkFailed(id, ok) =>
      Enter(s, id, UnlinkFinal).(rows := if ok then SetStatus(s.rows, id, Failed) else s.rows)
    case Unlink(id, ok) =>
      if s.publishers[id].UnlinkFinal? then Enter(s, id, UnlinkTemp).(disk := if ok then s.disk - {Final(id)} else s.disk)
      else s.(publishers := s.publishers - {id}, disk := if ok then s.disk - {Temp(id)} else s.disk)
    case Crash(id) => s.(publishers := s.publishers - {id})
    case SweepLook(force) => s.(sweep := Some(Look(s.rows, s.now, force)))
    case SweepMark => s.(rows := MarkAbandoned(s.rows, s.sweep.value.abandoned))
    case SweepRemove(file) => s.(disk := s.disk - {file})
    case SweepEnd => s.(sweep := None)
    case Tick(now) => s.(now := now)
  }

  const EMPTY: State := State(0, map[], map[], map[], None)

  predicate ValidRun(s: State, steps: seq<Step>)
    decreases |steps|
  {
    steps != [] ==> Enabled(s, steps[0]) && ValidRun(Next(s, steps[0]), steps[1..])
  }

  function After(s: State, steps: seq<Step>): State
    requires ValidRun(s, steps)
    decreases |steps|
  {
    if steps == [] then s else After(Next(s, steps[0]), steps[1..])
  }

  // ---------------------------------------------------------------- safety

  predicate FileIntact(s: State, id: ArtifactId)
    requires id in s.rows
  {
    Final(id) in s.disk && s.disk[Final(id)] == Whole(s.rows[id].hash)
  }

  /** Every committed artifact has its final file on disk with the registered hash. */
  ghost predicate Safe(s: State) {
    forall id :: id in s.rows && s.rows[id].status.Committed? ==> FileIntact(s, id)
  }

  /**
   Exactly three steps can break safety: a commit whose file is gone, a failure handler unlinking the
   file of a row that is committed, and a sweep removing the file of such a row.
   */
  lemma StepsThatLoseACommittedFile(s: State, step: Step)
    requires Safe(s) && Enabled(s, step) && RowsMatchPublishers(s)
    ensures !Safe(Next(s, step)) <==> LosesAFile(s, step)
  {
    var s' := Next(s, step);
    if step.Commit? && !FileIntact(s, step.id) {
      assert s'.rows[step.id].status.Committed? && !FileIntact(s', step.id);
    } else if step.Unlink? && step.ok && s.publishers[step.id].UnlinkFinal? && s.rows[step.id].status.Committed? {
      assert !FileIntact(s', step.id);
    } else if step.SweepRemove? && step.file.Final? && step.file.id in s.rows && s.rows[step.file.id].status.Committed? {
      assert !FileIntact(s', step.file.id);
    } else {
      forall id | id in s'.rows && s'.rows[id].status.Committed? ensures FileIntact(s', id) {
        if id in s.rows && s.rows[id].status.Committed? { assert FileIntact(s, id); }
      }
    }
  }

  /** A publisher that may still write a file has not committed. */
  ghost predicate RowsMatchPublishers(s: State) {
    forall id :: id in s.publishers && id in s.rows && s.publishers[id] in {Registered, Writing, Written, Replaced}
      ==> !s.rows[id].status.Committed?
  }

  lemma {:induction false} PublishersMatchInEveryRun(s: State, steps: seq<Step>)
    requires RowsMatchPublishers(s) && ValidRun(s, steps)
    ensures RowsMatchPublishers(After(s, steps))
    decreases |steps|
  {
    if steps != [] { PublishersMatchInEveryRun(Next(s, steps[0]), steps[1..]); }
  }

  /** The three ways in which a step takes the file of a committed artifact away. */
  predicate LosesAFile(s: State, step: Step)
    requires Enabled(s, step)
  {
    || (step.Commit? && !FileIntact(s, step.id))
    || (step.Unlink? && step.ok && s.publishers[step.id].UnlinkFinal? && s.rows[step.id].status.Committed?)
    || (step.SweepRemove? && step.file.Final? && step.file.id in s.rows && s.rows[step.file.id].status.Committed?)
  }

  /** In every reachable state that is safe, exactly these steps break safety. */
  lemma ExactlyThreeWaysToLoseAFile(steps: seq<Step>, step: Step)
    requires ValidRun(EMPTY, steps) && Safe(After(EMPTY, steps)) && Enabled(After(EMPTY, steps), step)
    ensures !Safe(Next(After(EMPTY, steps), step)) <==> LosesAFile(After(EMPTY, steps), step)
  {
    PublishersMatchInEveryRun(EMPTY, steps);
    StepsThatLoseACommittedFile(After(EMPTY, steps), step);
  }

  /** What publishers and operators may do besides orderly publication. */
  datatype Policy = Policy(lateCommits: bool, lostAcknowledgements: bool, registrationDuringSweeps: bool, forcedSweeps: bool)

  /** Commits within the lease and acknowledged, no registration during a sweep, no forced sweep. */
  const STRICT: Policy := Policy(false, false, false, false)

  predicate Permits(policy: Policy, s: State, step: Step)
    requires Enabled(s, step)
  {
    && (step.Commit? ==>
          && (policy.lostAcknowledgements || step.acknowledged)
          && (policy.lateCommits || s.now < s.rows[step.id].expiresAt))
    && (step.Register? ==> policy.registrationDuringSweeps || s.sweep.None?)
    && (step.SweepLook? ==> policy.forcedSweeps || !step.force)
  }

  ghost predicate PermittedRun(policy: Policy, s: State, steps: seq<Step>)
    requires ValidRun(s, steps)
    decreases |steps|
  {
    steps != [] ==> Permits(policy, s, steps[0]) && PermittedRun(policy, Next(s, steps[0]), steps[1..])
  }

  predicate Orderly(s: State, step: Step)
    requires Enabled(s, step)
  {
    Permits(STRICT, s, step)
  }

  ghost predicate OrderlyRun(s: State, steps: seq<Step>)
    requires ValidRun(s, steps)
  {
    PermittedRun(STRICT, s, steps)
  }

  /** A publisher within its lease still owns the file it has produced so far. */
  ghost predicate PublisherOk(s: State, id: ArtifactId)
    requires id in s.publishers
  {
    && id in s.rows
    && !s.rows[id].status.Committed?
    && (s.publishers[id] in {Registered, Writing, Written, Replaced} && s.now < s.rows[id].expiresAt ==>
          && s.rows[id].status.InProgress?
          && (s.publishers[id].Writing? ==> Temp(id) in s.disk)
          && (s.publishers[id].Written? ==> Temp(id) in s.disk && s.disk[Temp(id)] == Whole(s.rows[id].hash))
          && (s.publishers[id].Replaced? ==> FileIntact(s, id)))
  }

  /** What an open sweep looked at still covers every row it must spare. */
  ghost predicate SweepOk(s: State, id: ArtifactId)
    requires id in s.rows && s.sweep.Some?
  {
    && (s.rows[id].status.Committed? ==> id in s.sweep.value.committed || id in s.sweep.value.live)
    && (Live(s.rows[id], s.now) ==> id in s.sweep.value.live)
    && (id in s.sweep.value.abandoned ==> !s.rows[id].status.Committed? && s.rows[id].expiresAt <= s.now)
  }

  ghost predicate Inv(s: State) {
    && Safe(s)
    && (forall id :: id in s.publishers ==> PublisherOk(s, id))
    && (s.sweep.Some? ==> forall id :: id in s.rows ==> SweepOk(s, id))
  }

  predicate OfSweeper(step: Step) { step.SweepLook? || step.SweepMark? || step.SweepRemove? || step.SweepEnd? || step.Tick? }

  lemma SweeperKeepsPublishers(s: State, step: Step, id: ArtifactId)
    requires Inv(s) && Enabled(s, step) && OfSweeper(step) && id in s.publishers
    ensures PublisherOk(Next(s, step), id)
  {
    assert PublisherOk(s, id);
    if s.sweep.Some? { assert SweepOk(s, id); }
  }

  lemma StepKeepsPublishers(s: State, step: Step, id: ArtifactId)
    requires Inv(s) && Enabled(s, step) && Orderly(s, step) && id in Next(s, step).publishers
    ensures PublisherOk(Next(s, step), id)
  {
    if OfSweeper(step) {
      SweeperKeepsPublishers(s, step, id);
    } else if id in s.publishers {
      assert PublisherOk(s, id);
    }
  }

  lemma StepKeepsSweep(s: State, step: Step, id: ArtifactId)
    requires Inv(s) && Enabled(s, step) && Orderly(s, step)
    requires Next(s, step).sweep.Some? && id in Next(s, step).rows
    ensures SweepOk(Next(s, step), id)
  {
  }

  lemma StepKeepsInv(s: State, step: Step)
    requires Inv(s) && Enabled(s, step) && Orderly(s, step)
    ensures Inv(Next(s, step))
  {
    var s' := Next(s, step);
    forall id | id in s.publishers ensures id in s.rows && !s.rows[id].status.Committed? { assert PublisherOk(s, id); }
    StepsThatLoseACommittedFile(s, step);
    if step.Commit? { assert PublisherOk(s, step.id); }
    if step.SweepRemove? && step.file.Final? && step.file.id in s.rows { assert SweepOk(s, step.file.id); }
    forall id | id in s'.publishers ensures PublisherOk(s', id) { StepKeepsPublishers(s, step, id); }
    if s'.sweep.Some? {
      forall id | id in s'.rows ensures SweepOk(s', id) { StepKeepsSweep(s, step, id); }
    }
  }

  lemma {:induction false} RunKeepsInv(s: State, steps: seq<Step>)
    requires Inv(s) && ValidRun(s, steps) && OrderlyRun(s, steps)
    ensures Inv(After(s, steps))
    decreases |steps|
  {
    if steps != [] {
      StepKeepsInv(s, steps[0]);
      RunKeepsInv(Next(s, steps[0]), steps[1..]);
    }
  }

  /** In every state an orderly run reaches, each committed artifact has its file with the registered hash. */
  lemma CommittedArtifactsHaveTheirFile(steps: seq<Step>, id: ArtifactId)
    requires ValidRun(EMPTY, steps) && OrderlyRun(EMPTY, steps)
    requires id in After(EMPTY, steps).rows && After(EMPTY, steps).rows[id].status.Committed?
    ensures FileIntact(After(EMPTY, steps), id)
  {
    RunKeepsInv(EMPTY, steps);
  }

  /** In an orderly run the sweeper removes no file of a committed or live-leased artifact. */
  lemma SweepSparesCommittedAndLive(steps: seq<Step>, file: File, id: ArtifactId)
    requires ValidRun(EMPTY, steps) && OrderlyRun(EMPTY, steps)
    requires Enabled(After(EMPTY, steps), SweepRemove(file)) && id in After(EMPTY, steps).rows
    ensures var s := After(EMPTY, steps);
            && (s.rows[id].status.Committed? ==> file != Final(id))
            && (Live(s.rows[id], s.now) ==> file != Final(id) && file != Temp(id))
  {
    RunKeepsInv(EMPTY, steps);
    assert SweepOk(After(EMPTY, steps), id);
  }

  // ---------------------------------------------------------------- the four disorderly runs

  lemma {:induction false} Snoc(policy: Policy, s: State, steps: seq<Step>, step: Step)
    requires ValidRun(s, steps) && PermittedRun(policy, s, steps)
    requires Enabled(After(s, steps), step) && Permits(policy, After(s, steps), step)
    ensures ValidRun(s, steps + [step]) && After(s, steps + [step]) == Next(After(s, steps), step)
    ensures PermittedRun(policy, s, steps + [step])
    decreases |steps|
  {
    if steps == [] {
      assert [step][1..] == [] && steps + [step] == [step];
    } else {
      assert (steps + [step])[1..] == steps[1..] + [step];
      Snoc(policy, Next(s, steps[0]), steps[1..], step);
    }
  }

  lemma Continued(policy: Policy, steps: seq<Step>, step: Step) returns (longer: seq<Step>)
    requires ValidRun(EMPTY, steps) && PermittedRun(policy, EMPTY, steps)
    requires Enabled(After(EMPTY, steps), step) && Permits(policy, After(EMPTY, steps), step)
    ensures ValidRun(EMPTY, longer) && PermittedRun(policy, EMPTY, longer)
    ensures After(EMPTY, longer) == Next(After(EMPTY, steps), step)
  {
    longer := steps + [step];
    Snoc(policy, EMPTY, steps, step);
  }

  /** Artifact 1 with a lease of 10, published up to but not including its commit. */
  lemma Published(policy: Policy, steps: seq<Step>) returns (more: seq<Step>)
    requires ValidRun(EMPTY, steps) && PermittedRun(policy, EMPTY, steps)
    requires var s := After(EMPTY, steps);
             && s.publishers == map[] && s.rows == map[] && s.disk == map[] && s.now == 0
             && (policy.registrationDuringSweeps || s.sweep.None?)
    ensures ValidRun(EMPTY, more) && PermittedRun(policy, EMPTY, more)
    ensures After(EMPTY, more)
            == State(0, map[1 := Row(InProgress, 10, 7)], map[Final(1) := Whole(7)], map[1 := Replaced], After(EMPTY, steps).sweep)
  {
    more := Continued(policy, steps, Register(1, 7, 10));
    more := Continued(policy, more, OpenTemp(1));
    more := Continued(policy, more, FinishTemp(1));
    more := Continued(policy, more, Replace(1));
  }

  /** A commit after the lease ran out commits an artifact whose file a sweep has removed. */
  lemma LateCommitLosesTheFile(policy: Policy) returns (steps: seq<Step>)
    requires policy.lateCommits
    ensures ValidRun(EMPTY, steps) && PermittedRun(policy, EMPTY, steps) && !Safe(After(EMPTY, steps))
  {
    steps := Published(policy, []);
    steps := Continued(policy, steps, Tick(10));
    steps := Continued(policy, steps, SweepLook(false));
    steps := Continued(policy, steps, SweepRemove(Final(1)));
    StepsThatLoseACommittedFile(After(EMPTY, steps), Commit(1, true));
    steps := Continued(policy, steps, Commit(1, true));
  }

  /** A commit whose acknowledgement is lost sends its publisher to unlink the committed file. */
  lemma LostCommitAcknowledgementLosesTheFile(policy: Policy) returns (steps: seq<Step>)
    requires policy.lostAcknowledgements
    ensures ValidRun(EMPTY, steps) && PermittedRun(policy, EMPTY, steps) && !Safe(After(EMPTY, steps))
  {
    steps := Published(policy, []);
    steps := Continued(policy, steps, Commit(1, false));
    steps := Continued(policy, steps, MarkFailed(1, false));
    StepsThatLoseACommittedFile(After(EMPTY, steps), Unlink(1, true));
    steps := Continued(policy, steps, Unlink(1, true));
  }

  /** An artifact registered after the sweep looked at the rows is swept although its lease is live. */
  lemma RegisteringDuringASweepLosesTheFile(policy: Policy) returns (steps: seq<Step>)
    requires policy.registrationDuringSweeps
    ensures ValidRun(EMPTY, steps) && PermittedRun(policy, EMPTY, steps) && !Safe(After(EMPTY, steps))
  {
    steps := Continued(policy, [], SweepLook(false));
    steps := Published(policy, steps);
    steps := Continued(policy, steps, SweepRemove(Final(1)));
    StepsThatLoseACommittedFile(After(EMPTY, steps), Commit(1, true));
    steps := Continued(policy, steps, Commit(1, true));
  }

  /** A forced sweep removes the file of an artifact within its lease, which is then committed. */
  lemma AForcedSweepLosesTheFile(policy: Policy) returns (steps: seq<Step>)
    requires policy.forcedSweeps
    ensures ValidRun(EMPTY, steps) && PermittedRun(policy, EMPTY, steps) && !Safe(After(EMPTY, steps))
  {
    steps := Published(policy, []);
    steps := Continued(policy, steps, SweepLook(true));
    steps := Continued(policy, steps, SweepRemove(Final(1)));
    StepsThatLoseACommittedFile(After(EMPTY, steps), Commit(1, true));
    steps := Continued(policy, steps, Commit(1, true));
  }

  ghost predicate SafeUnder(policy: Policy, steps: seq<Step>) {
    ValidRun(EMPTY, steps) && PermittedRun(policy, EMPTY, steps) ==> Safe(After(EMPTY, steps))
  }

  /** Every run a policy permits is safe exactly when it permits none of the four. */
  lemma SafeExactlyWhenOrderly(policy: Policy)
    ensures (forall steps :: SafeUnder(policy, steps)) <==> policy == STRICT
  {
    if policy == STRICT {
      forall steps ensures SafeUnder(policy, steps) {
        if ValidRun(EMPTY, steps) && PermittedRun(policy, EMPTY, steps) { RunKeepsInv(EMPTY, steps); }
      }
    } else {
      var steps;
      if policy.lateCommits { steps := LateCommitLosesTheFile(policy); }
      else if policy.lostAcknowledgements { steps := LostCommitAcknowledgementLosesTheFile(policy); }
      else if policy.registrationDuringSweeps { steps := RegisteringDuringASweepLosesTheFile(policy); }
      else { steps := AForcedSweepLosesTheFile(policy); }
      assert !SafeUnder(policy, steps);
    }
  }

  // ================================================================ the adapter object

  /** This artifact is being published within its lease, and the sweep respects leases. */
  predicate UnderLease(rows: Rows, now: Time, force: bool, id: ArtifactId) {
    !force && id in rows && rows[id].status == InProgress && now < rows[id].expiresAt
  }

  /**
   What a sweep is for: temporary files of artifacts not under a lease, stray ones included, and final files of
   artifacts neither committed nor under a lease; nothing else.
   */
  predicate Swept(rows: Rows, now: Time, force: bool, file: File) {
    || (file.Temp? && !UnderLease(rows, now, force, file.id))
    || (file.Final? && !UnderLease(rows, now, force, file.id) && (file.id in rows ==> rows[file.id].status != Committed))
    || file.StrayTemp?
  }

  type ProductId = nat

  /**
   Which calls of one publication raise. A commit can raise without effect, or take effect and lose its
   acknowledgement; the last three calls are made by the failure handler.
   */
  datatype Faults = Faults(open: bool, finish: bool, replace: bool, commit: bool, acknowledgement: bool,
                           mark: bool, unlinkFinal: bool, unlinkTemp: bool)

  predicate Takes(f: Faults) { !f.open && !f.finish && !f.replace && !f.commit }

  function Without(disk: Disk, file: File, stuck: bool): Disk { if stuck then disk else disk - {file} }

  class ShopDeckAdapter {
    var rows: Rows
    var disk: Disk
    /** The products whose state the commits of this adapter set to PUBLISHED. */
    var promoted: set<ProductId>

    constructor ()
      ensures rows == map[] && disk == map[] && promoted == {}
    {
      rows, disk, promoted := map[], map[], {};
    }

    /** The temporary file is written and moved into place, or the first call that raises leaves what there is. */
    method WriteFile(id: ArtifactId, hash: Hash, faults: Faults) returns (ok: bool)
      requires Temp(id) !in disk && Final(id) !in disk
      modifies `disk
      ensures ok == !(faults.open || faults.finish || faults.replace)
      ensures ok ==> disk == old(disk)[Final(id) := Whole(hash)]
      ensures !ok ==> Final(id) !in disk && disk - {Temp(id)} == old(disk)
    {
      if faults.open { return false; }
      disk := disk[Temp(id) := Partial];
      if faults.finish { return false; }
      disk := disk[Temp(id) := Whole(hash)];
      if faults.replace { return false; }
      disk := (disk - {Temp(id)})[Final(id) := disk[Temp(id)]];
      return true;
    }

    /** The failure handler marks the row, whatever it holds, and removes both files as far as it can. */
    method HandleFailure(id: ArtifactId, faults: Faults)
      requires id in rows
      modifies `rows, `disk
      ensures rows == if faults.mark then old(rows) else SetStatus(old(rows), id, Failed)
      ensures disk == Without(Without(old(disk), Final(id), faults.unlinkFinal), Temp(id), faults.unlinkTemp)
    {
      if !faults.mark {
        rows := rows[id := rows[id].(status := Failed)];
      }
      if Final(id) in disk && !faults.unlinkFinal {
        disk := disk - {Final(id)};
      }
      if Temp(id) in disk && !faults.unlinkTemp {
        disk := disk - {Temp(id)};
      }
    }

    /**
     One uninterrupted publication. On success the row is committed, the products are promoted and only the
     final file remains. On failure no file remains unless unlinking itself fails, and the row is committed
     just when the commit took effect, its acknowledgement was lost and the handler could not mark the row.
     */
    method GeneratePublicationArtifact(id: ArtifactId, hash: Hash, expiresAt: Time, products: set<ProductId>, faults: Faults)
      returns (ok: bool)
      requires id !in rows && Temp(id) !in disk && Final(id) !in disk
      modifies this
      ensures ok == (Takes(faults) && !faults.acknowledgement)
      ensures promoted == if Takes(faults) then old(promoted) + products else old(promoted)
      ensures ok ==>
        && rows == old(rows)[id := Row(Committed, expiresAt, hash)]
        && disk == old(disk)[Final(id) := Whole(hash)]
      ensures !ok ==>
        && rows == old(rows)[id := Row(if !faults.mark then Failed else if Takes(faults) then Committed else InProgress,
                                       expiresAt, hash)]
        && (!faults.unlinkFinal && !faults.unlinkTemp ==> disk == old(disk))
        && disk - {Temp(id), Final(id)} == old(disk)
    {
      rows := rows[id := Row(InProgress, expiresAt, hash)];
      var written := WriteFile(id, hash, faults);
      if written && !faults.commit {
        rows, promoted := rows[id := rows[id].(status := Committed)], promoted + products;
        if !faults.acknowledgement { return true; }
      }
      assert disk - {Temp(id), Final(id)} == old(disk);
      HandleFailure(id, faults);
      return false;
    }

    /**
     An uninterrupted sweep. `stuck` holds the files whose removal fails. Whatever else is recognised
     and not spared is gone afterwards, and nothing else is touched.
     */
    method CleanupUncommittedPublicationArtifacts(now: Time, force: bool, stuck: set<File>) returns (removed: set<File>)
      modifies `rows, `disk
      ensures var snap := Look(old(rows), now, force);
              && removed == (set f | f in old(disk) && !Spared(snap, f) && f !in stuck)
              && disk == old(disk) - removed
              && rows == MarkAbandoned(old(rows), snap.abandoned)
      ensures forall f :: f in disk && Recognised(f) && f !in stuck ==> Spared(Look(old(rows), now, force), f)
      ensures forall f :: f in removed <==> f in old(disk) && f !in stuck && Swept(old(rows), now, force, f)
      ensures rows.Keys == old(rows).Keys
      ensures forall id :: id in rows ==>
        rows[id] == if old(rows)[id].status == InProgress && (force || old(rows)[id].expiresAt <= now)
                    then old(rows)[id].(status := Failed) else old(rows)[id]
    {
      var snap := Look(rows, now, force);
      rows := MarkAbandoned(rows, snap.abandoned);
      var names := disk.Keys;
      removed := {};
      while names != {}
        invariant names <= old(disk).Keys && removed <= old(disk).Keys - names
        invariant disk == old(disk) - removed && rows == MarkAbandoned(old(rows), snap.abandoned)
        invariant forall f :: f in old(disk).Keys - names ==> (f in removed <==> !Spared(snap, f) && f !in stuck)
      {
        var f :| f in names;
        names := names - {f};
        if !Spared(snap, f) && f !in stuck {
          disk := disk - {f};
          removed := removed + {f};
        }
      }
    }
  }

  /** The uninterrupted sweep is one look, one mark and the removals of the interleaved protocol. */
  lemma {:induction false} SweepRemovesAll(s: State, files: seq<File>)
    requires s.sweep.Some? && (forall f :: f in files ==> f in s.disk && !Spared(s.sweep.value, f))
    requires forall i, j :: 0 <= i < j < |files| ==> files[i] != files[j]
    ensures ValidRun(s, Removals(files))
    ensures After(s, Removals(files)) == s.(disk := s.disk - Members(files))
    decreases |files|
  {
    if files == [] {
      assert s.disk - Members(files) == s.disk;
      assert Removals(files) == [];
    } else {
      var s' := Next(s, SweepRemove(files[0]));
      assert forall i :: 0 <= i < |files[1..]| ==> files[1..][i] == files[i + 1];
      SweepRemovesAll(s', files[1..]);
      assert Members(files) == {files[0]} + Members(files[1..]);
      assert s'.disk - Members(files[1..]) == s.disk - Members(files);
      var r := Removals(files);
      assert r[0] == SweepRemove(files[0]) && r[1..] == Removals(files[1..]);
      assert ValidRun(s', r[1..]) && Enabled(s, r[0]);
      assert After(s, r) == After(s', r[1..]);
    }
  }

  function Members(files: seq<File>): set<File> { set f | f in files }

  function Removals(files: seq<File>): seq<Step> {
    if files == [] then [] else [SweepRemove(files[0])] + Removals(files[1..])
  }
}
