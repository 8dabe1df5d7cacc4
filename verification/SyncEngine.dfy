/**
 The synchronization engine: it keeps a local copy of a remote table through overlapping time
 windows, and advances a unit's checkpoint only in the transaction of a successful run.
 */
module SyncEngine {
  import opened Common

  type Time = real
  type Key = string

  /** A version of a remote row: when its `updatedat` says it changed, and when queries begin to see it. */
  datatype Version = Version(updatedAt: Time, visibleAt: Time, data: string)

  /** A local or fetched row. The key is absent when one of its columns is NULL. */
  datatype Row = Row(key: Option<Key>, version: Version)

  // ================================================================ the upsert

  /** Rows of the table no staged row joins with: a NULL key never compares equal. */
  function Unmatched(table: seq<Row>, staged: seq<Row>): seq<Row> {
    if table == [] then []
    else
      var rest := Unmatched(table[1..], staged);
      if table[0].key.Some? && exists i :: 0 <= i < |staged| && staged[i].key == table[0].key then rest
      else [table[0]] + rest
  }

  /** Stage, delete the joined rows, insert the staged ones. */
  function Upsert(table: seq<Row>, batch: seq<Row>): seq<Row> { Unmatched(table, batch) + batch }

  /** The versions a table holds for one key, in table order. */
  function VersionsOf(table: seq<Row>, key: Key): seq<Version> {
    if table == [] then [] else VersionIn(table[0], key) + VersionsOf(table[1..], key)
  }

  function VersionIn(row: Row, key: Key): seq<Version> { if row.key == Some(key) then [row.version] else [] }

  predicate HasKey(rows: seq<Row>, key: Key) { exists i :: 0 <= i < |rows| && rows[i].key == Some(key) }

  predicate DistinctKeys(rows: seq<Row>) {
    && (forall i :: 0 <= i < |rows| ==> rows[i].key.Some?)
    && (forall i, j :: 0 <= i < j < |rows| ==> rows[i].key != rows[j].key)
  }

  lemma JoinIsAssociative<T>(a: seq<T>, b: seq<T>, c: seq<T>)
    ensures a + (b + c) == (a + b) + c
  {
  }

  lemma {:induction false} VersionsOfAppend(a: seq<Row>, b: seq<Row>, key: Key)
    ensures VersionsOf(a + b, key) == VersionsOf(a, key) + VersionsOf(b, key)
  {
    if a == [] {
      assert a + b == b;
    } else {
      assert (a + b)[1..] == a[1..] + b && (a + b)[0] == a[0];
      VersionsOfAppend(a[1..], b, key);
      JoinIsAssociative(VersionIn(a[0], key), VersionsOf(a[1..], key), VersionsOf(b, key));
    }
  }

  lemma {:induction false} VersionsUnmatched(table: seq<Row>, staged: seq<Row>, key: Key)
    ensures VersionsOf(Unmatched(table, staged), key) == if HasKey(staged, key) then [] else VersionsOf(table, key)
  {
    if table != [] {
      VersionsUnmatched(table[1..], staged, key);
      var rest := Unmatched(table[1..], staged);
      assert ([table[0]] + rest)[1..] == rest;
    }
  }

  lemma {:induction false} VersionsOfBatch(batch: seq<Row>, key: Key, i: nat)
    requires DistinctKeys(batch) && i < |batch| && batch[i].key == Some(key)
    ensures VersionsOf(batch, key) == [batch[i].version]
  {
    assert forall k :: 0 <= k < |batch[1..]| ==> batch[1..][k] == batch[k + 1];
    if i == 0 {
      NoVersions(batch[1..], key);
    } else {
      VersionsOfBatch(batch[1..], key, i - 1);
    }
  }

  lemma {:induction false} NoVersions(rows: seq<Row>, key: Key)
    requires !HasKey(rows, key)
    ensures VersionsOf(rows, key) == []
  {
    if rows != [] {
      assert rows[0].key != Some(key);
      forall k | 0 <= k < |rows[1..]| ensures rows[1..][k].key != Some(key) { assert rows[1..][k] == rows[k + 1]; }
      NoVersions(rows[1..], key);
    }
  }

  /** After an upsert each fetched key has exactly the fetched version, and other keys are untouched. */
  lemma UpsertReplacesPerKey(table: seq<Row>, batch: seq<Row>, key: Key)
    requires DistinctKeys(batch)
    ensures !HasKey(batch, key) ==> VersionsOf(Upsert(table, batch), key) == VersionsOf(table, key)
    ensures forall i :: 0 <= i < |batch| && batch[i].key == Some(key)
              ==> VersionsOf(Upsert(table, batch), key) == [batch[i].version]
  {
    VersionsOfAppend(Unmatched(table, batch), batch, key);
    VersionsUnmatched(table, batch, key);
    if !HasKey(batch, key) { NoVersions(batch, key); }
    forall i | 0 <= i < |batch| && batch[i].key == Some(key)
      ensures VersionsOf(Upsert(table, batch), key) == [batch[i].version]
    {
      VersionsOfBatch(batch, key, i);
    }
  }

  function NullKeys(rows: seq<Row>): nat {
    if rows == [] then 0 else (if rows[0].key.None? then 1 else 0) + NullKeys(rows[1..])
  }

  lemma {:induction false} UnmatchedSizes(a: seq<Row>, b: seq<Row>, staged: seq<Row>)
    ensures Unmatched(a + b, staged) == Unmatched(a, staged) + Unmatched(b, staged)
    ensures Unmatched(Unmatched(a, staged), staged) == Unmatched(a, staged)
  {
    if a == [] {
      assert a + b == b;
    } else {
      assert (a + b)[1..] == a[1..] + b;
      UnmatchedSizes(a[1..], b, staged);
      var rest := Unmatched(a[1..], staged);
      assert ([a[0]] + rest)[1..] == rest;
    }
  }

  lemma {:induction false} UnmatchedSelf(rows: seq<Row>, staged: seq<Row>)
    requires forall i :: 0 <= i < |rows| ==> rows[i] in staged
    ensures |Unmatched(rows, staged)| == NullKeys(rows)
  {
    if rows != [] {
      assert forall k :: 0 <= k < |rows[1..]| ==> rows[1..][k] == rows[k + 1];
      UnmatchedSelf(rows[1..], staged);
      var i :| 0 <= i < |staged| && staged[i] == rows[0];
    }
  }

  /**
   Fetching a batch a second time, as overlapping windows do, adds one row for each row whose key has
   a NULL; it adds nothing exactly when every key is complete.
   */
  lemma RefetchGrowsByTheNullKeys(table: seq<Row>, batch: seq<Row>)
    ensures var once := Upsert(table, batch);
            |Upsert(once, batch)| == |once| + NullKeys(batch)
    ensures NullKeys(batch) == 0 <==> forall i :: 0 <= i < |batch| ==> batch[i].key.Some?
  {
    UnmatchedSizes(table, [], batch);
    UnmatchedSizes(Unmatched(table, batch), batch, batch);
    UnmatchedSelf(batch, batch);
    NoNullKeys(batch);
  }

  lemma {:induction false} NoNullKeys(rows: seq<Row>)
    ensures NullKeys(rows) == 0 <==> forall i :: 0 <= i < |rows| ==> rows[i].key.Some?
  {
    if rows != [] {
      NoNullKeys(rows[1..]);
      assert forall k :: 0 < k < |rows| ==> rows[k] == rows[1..][k - 1];
    }
  }

  // ================================================================ one run of a unit

  datatype Config = Config(overlap: Time, lookback: Time, cadence: Time)

  predicate ValidConfig(cfg: Config) { cfg.overlap >= 0.0 && cfg.lookback >= 0.0 && cfg.cadence >= 0.0 }

  /**
   What a query comes back with. The client raises for errors of transport and protocol only: an error that the
   remote tool reports is a reply without rows.
   */
  datatype Reply<R> = Raised | NoRows | Rows(rows: seq<R>)

  /** The code takes a reply without rows for an empty answer. */
  function RowsIn<R>(reply: Reply<R>): seq<R> { if reply.Rows? then reply.rows else [] }

  /** A window that was asked for, half-open, when, and the reply that moved the checkpoint. */
  datatype Fetch<R> = Fetch(lower: Time, upper: Time, queriedAt: Time, reply: Reply<R>)

  datatype Attempt<R> = Attempt(upper: Time, locked: bool, queriedAt: Time, reply: Reply<R>)

  datatype Unit = Unit(checkpoint: Option<Time>, table: seq<Row>, log: seq<Fetch<Row>>)

  predicate Due(checkpoint: Option<Time>, locked: bool, upper: Time, cfg: Config) {
    locked && (checkpoint.Some? ==> upper - checkpoint.value >= cfg.cadence)
  }

  function LowerBound(checkpoint: Option<Time>, upper: Time, cfg: Config): Time {
    (if checkpoint.Some? then checkpoint.value else upper - cfg.lookback) - cfg.overlap
  }

  predicate Moves<R>(checkpoint: Option<Time>, a: Attempt<R>, cfg: Config) {
    Due(checkpoint, a.locked, a.upper, cfg) && !a.reply.Raised?
  }

  function WindowOf<R>(checkpoint: Option<Time>, a: Attempt<R>, cfg: Config): Fetch<R> {
    Fetch(LowerBound(checkpoint, a.upper, cfg), a.upper, a.queriedAt, a.reply)
  }

  /** A run that raises is rolled back. Any other moves the checkpoint, whether or not its reply carries rows. */
  function Run(u: Unit, a: Attempt<Row>, cfg: Config): Unit {
    if !Moves(u.checkpoint, a, cfg) then u
    else Unit(Some(a.upper), Upsert(u.table, RowsIn(a.reply)), u.log + [WindowOf(u.checkpoint, a, cfg)])
  }

  lemma {:induction false} NothingStaged(table: seq<Row>)
    ensures Upsert(table, []) == table
  {
    if table != [] { NothingStaged(table[1..]); }
  }

  class SyncUnit {
    const cfg: Config
    var checkpoint: Option<Time>
    var table: seq<Row>
    ghost var log: seq<Fetch<Row>>

    ghost function State(): Unit
      reads this
    {
      Unit(checkpoint, table, log)
    }

    /** The checkpoint is the end of the last successful window. */
    ghost predicate Valid()
      reads this
    {
      checkpoint == if log == [] then None else Some(log[|log| - 1].upper)
    }

    constructor (cfg: Config)
      ensures Valid() && this.cfg == cfg && State() == Unit(None, [], [])
    {
      this.cfg := cfg;
      checkpoint, table, log := None, [], [];
    }

    /**
     The end of the last successful window, or one look-back before the new bound if there was none. A window
     that starts one overlap before it continues the chain of windows.
     */
    method GetCheckpoint(upper: Time) returns (cp: Time)
      requires Valid()
      ensures log != [] ==> cp == log[|log| - 1].upper
      ensures log == [] ==> upper - cp == cfg.lookback
      ensures Chained(log, cfg.overlap) && (log != [] ==> upper >= log[|log| - 1].upper) ==> Continues(log, cfg.overlap, cp, upper)
    {
      cp := upper - cfg.lookback;
      if checkpoint.Some? { cp := checkpoint.value; }
      if Chained(log, cfg.overlap) && (log != [] ==> upper >= log[|log| - 1].upper) {
        ChainContinues(log, cfg.overlap, cp, upper);
      }
    }

    method UpsertRecords(rows: seq<Row>)
      modifies this`table
      ensures table == Upsert(old(table), rows)
    {
      var kept: seq<Row> := [];
      var keys := set r | r in rows && r.key.Some? :: r.key;
      for i := 0 to |table|
        invariant table == old(table)
        invariant kept + Unmatched(table[i..], rows) == Unmatched(table, rows)
      {
        assert table[i..][1..] == table[i + 1..];
        if table[i].key !in keys {
          kept := kept + [table[i]];
        }
      }
      table := kept + rows;
    }

    /** A run that raises changes nothing; a reply without rows moves the checkpoint and stores nothing. */
    method ProcessSyncUnit(a: Attempt<Row>) returns (succeeded: bool)
      requires Valid()
      modifies this
      ensures Valid() && State() == Run(old(State()), a, cfg)
      ensures succeeded <==> Due(old(checkpoint), a.locked, a.upper, cfg) && !a.reply.Raised?
      ensures succeeded <==>
        && a.locked && !a.reply.Raised?
        && (old(checkpoint).Some? ==> a.upper - old(checkpoint).value >= cfg.cadence)
      ensures !succeeded ==> State() == old(State())
      ensures succeeded ==> checkpoint == Some(a.upper)
      ensures succeeded && a.reply.NoRows? ==> table == old(table)
    {
      if !a.locked { return false; }
      if checkpoint.Some? && a.upper - checkpoint.value < cfg.cadence { return false; }
      var cp := GetCheckpoint(a.upper);
      var lower := cp - cfg.overlap;
      if a.reply.Raised? { return false; }
      var rows := if a.reply.Rows? then a.reply.rows else [];
      NothingStaged(table);
      if rows != [] { UpsertRecords(rows); }
      log := log + [Fetch(lower, a.upper, a.queriedAt, a.reply)];
      checkpoint := Some(a.upper);
      return true;
    }
  }

  // ================================================================ windows over whole runs

  function RunAll(u: Unit, attempts: seq<Attempt<Row>>, cfg: Config): Unit
    decreases |attempts|
  {
    if attempts == [] then u
    else Run(RunAll(u, attempts[..|attempts| - 1], cfg), attempts[|attempts| - 1], cfg)
  }

  /** Each window starts one overlap before the previous one ended, and ends no earlier. */
  ghost predicate Chained<R>(log: seq<Fetch<R>>, overlap: Time) {
    && (forall i :: 0 < i < |log| ==> log[i].lower == log[i - 1].upper - overlap && log[i].upper >= log[i - 1].upper)
    && (forall i :: 0 <= i < |log| ==> log[i].queriedAt >= log[i].upper)
  }

  /** Any window from one overlap before `cp` to `upper` extends the chain. */
  ghost predicate Continues(log: seq<Fetch<Row>>, overlap: Time, cp: Time, upper: Time) {
    forall f: Fetch<Row> :: f.lower == cp - overlap && f.upper == upper && f.queriedAt >= upper ==> Chained(log + [f], overlap)
  }

  lemma ChainExtends(log: seq<Fetch<Row>>, overlap: Time, f: Fetch<Row>)
    requires Chained(log, overlap) && f.queriedAt >= f.upper
    requires log != [] ==> f.lower == log[|log| - 1].upper - overlap && f.upper >= log[|log| - 1].upper
    ensures Chained(log + [f], overlap)
  {
  }

  lemma ChainContinues(log: seq<Fetch<Row>>, overlap: Time, cp: Time, upper: Time)
    requires Chained(log, overlap) && (log != [] ==> cp == log[|log| - 1].upper && upper >= cp)
    ensures Continues(log, overlap, cp, upper)
  {
    forall f: Fetch<Row> | f.lower == cp - overlap && f.upper == upper && f.queriedAt >= upper
      ensures Chained(log + [f], overlap)
    {
      ChainExtends(log, overlap, f);
    }
  }

  /** The query is sent after its upper bound was read off the clock. */
  predicate QueriedAfterBound<R>(attempts: seq<Attempt<R>>) {
    forall i :: 0 <= i < |attempts| ==> attempts[i].queriedAt >= attempts[i].upper
  }

  const FRESH: Unit := Unit(None, [], [])

  /** The windows so far are a chain that starts one look-back before its first bound, and the checkpoint is its end. */
  ghost predicate WindowsOk<R>(log: seq<Fetch<R>>, checkpoint: Option<Time>, cfg: Config) {
    && Chained(log, cfg.overlap)
    && checkpoint == (if log == [] then None else Some(log[|log| - 1].upper))
    && (log != [] ==> log[0].lower == log[0].upper - cfg.lookback - cfg.overlap)
  }

  lemma NextWindow<R>(log: seq<Fetch<R>>, checkpoint: Option<Time>, a: Attempt<R>, cfg: Config)
    requires WindowsOk(log, checkpoint, cfg) && ValidConfig(cfg)
    requires Due(checkpoint, a.locked, a.upper, cfg) && a.queriedAt >= a.upper
    ensures WindowsOk(log + [WindowOf(checkpoint, a, cfg)], Some(a.upper), cfg)
  {
  }

  /**
   Over any sequence of runs from a fresh unit, in any order of their clock readings, the windows of
   those that moved the checkpoint leave no gap, and the checkpoint is the end of the last of them.
   */
  lemma {:induction false} WindowsLeaveNoGap(attempts: seq<Attempt<Row>>, cfg: Config)
    requires ValidConfig(cfg) && QueriedAfterBound(attempts)
    ensures var u := RunAll(FRESH, attempts, cfg); WindowsOk(u.log, u.checkpoint, cfg)
    decreases |attempts|
  {
    if attempts != [] {
      var n := |attempts| - 1;
      var a := attempts[n];
      WindowsLeaveNoGap(attempts[..n], cfg);
      var before := RunAll(FRESH, attempts[..n], cfg);
      if Moves(before.checkpoint, a, cfg) { NextWindow(before.log, before.checkpoint, a, cfg); }
    }
  }

  /** The window asks for the row, at a time when queries see it. */
  predicate Covers<R>(f: Fetch<R>, updatedAt: Time, visibleAt: Time) {
    f.lower <= updatedAt < f.upper && visibleAt <= f.queriedAt
  }

  /** A row visible within the overlap of its update time is asked for, though an earlier window may have missed it. */
  lemma {:induction false} TimelyRowsAreAskedFor<R>(log: seq<Fetch<R>>, overlap: Time, updatedAt: Time, visibleAt: Time, from: nat)
    returns (k: nat)
    requires Chained(log, overlap) && overlap >= 0.0 && visibleAt <= updatedAt + overlap
    requires from < |log| && log[from].lower <= updatedAt
    requires updatedAt < log[|log| - 1].upper && visibleAt <= log[|log| - 1].queriedAt
    ensures from <= k < |log| && Covers(log[k], updatedAt, visibleAt)
    decreases |log| - from
  {
    if Covers(log[from], updatedAt, visibleAt) {
      k := from;
    } else {
      assert from + 1 < |log|;
      assert log[from + 1].lower <= updatedAt;
      k := TimelyRowsAreAskedFor(log, overlap, updatedAt, visibleAt, from + 1);
    }
  }

  /** A chain of windows that spans a row's update time and ends after it became visible. */
  ghost predicate Spans<R>(log: seq<Fetch<R>>, overlap: Time, updatedAt: Time, visibleAt: Time) {
    && Chained(log, overlap) && log != []
    && log[0].lower <= updatedAt < log[|log| - 1].upper && visibleAt <= log[|log| - 1].queriedAt
  }

  ghost predicate Covered<R>(log: seq<Fetch<R>>, updatedAt: Time, visibleAt: Time) {
    exists k :: 0 <= k < |log| && Covers(log[k], updatedAt, visibleAt)
  }

  /** This chain, if it spans a row that becomes visible `delay` after its update time, asks for it. */
  ghost predicate CoveredWhenLate(log: seq<Fetch<Row>>, overlap: Time, updatedAt: Time, delay: Time) {
    Spans(log, overlap, updatedAt, updatedAt + delay) ==> Covered(log, updatedAt, updatedAt + delay)
  }

  ghost predicate DelayIsSafe(overlap: Time, delay: Time) {
    forall log: seq<Fetch<Row>>, updatedAt :: CoveredWhenLate(log, overlap, updatedAt, delay)
  }

  /** The overlap is exactly the lateness the windows tolerate. */
  lemma OverlapIsTheToleratedLateness(overlap: Time, delay: Time)
    requires overlap >= 0.0
    ensures DelayIsSafe(overlap, delay) <==> delay <= overlap
  {
    if delay <= overlap {
      forall log: seq<Fetch<Row>>, updatedAt ensures CoveredWhenLate(log, overlap, updatedAt, delay) {
        if Spans(log, overlap, updatedAt, updatedAt + delay) {
          var k := TimelyRowsAreAskedFor(log, overlap, updatedAt, updatedAt + delay, 0);
        }
      }
    } else {
      // Updated more than an overlap before the first window ends, first seen just after it was queried.
      var updatedAt := -(delay + overlap) / 2.0;
      var log := [Fetch(updatedAt, 0.0, 0.0, Rows([])), Fetch(-overlap, delay, delay, Rows([]))];
      assert Spans(log, overlap, updatedAt, updatedAt + delay);
      assert !Covers(log[0], updatedAt, updatedAt + delay) && !Covers(log[1], updatedAt, updatedAt + delay);
      assert !CoveredWhenLate(log, overlap, updatedAt, delay);
    }
  }

  /** A window that asks for the row and is answered with rows. */
  predicate Delivers<R>(f: Fetch<R>, updatedAt: Time, visibleAt: Time) { f.reply.Rows? && Covers(f, updatedAt, visibleAt) }

  ghost predicate Delivered<R>(log: seq<Fetch<R>>, updatedAt: Time, visibleAt: Time) {
    exists k :: 0 <= k < |log| && Delivers(log[k], updatedAt, visibleAt)
  }

  predicate AllAnswered<R>(log: seq<Fetch<R>>) { forall k :: 0 <= k < |log| ==> log[k].reply.Rows? }

  /** Once the windows have moved past a row, no later one asks for it again. */
  lemma {:induction false} PassedRowsAreNotAskedFor<R>(log: seq<Fetch<R>>, overlap: Time, updatedAt: Time, n: nat, k: nat)
    requires Chained(log, overlap) && n < k < |log| && updatedAt < log[n].upper - overlap
    ensures log[n].upper <= log[k - 1].upper && log[k].lower > updatedAt
  {
    if n < k - 1 { PassedRowsAreNotAskedFor(log, overlap, updatedAt, n, k - 1); }
  }

  // ================================================================ convergence of the local copy

  /** A remote table: each key's versions in the order queries begin to see them. */
  type Source = map<Key, seq<Version>>

  /** The version a query sees at time `at`. */
  function Current(history: seq<Version>, at: Time): Option<Version> {
    if history == [] then None
    else if history[|history| - 1].visibleAt <= at then Some(history[|history| - 1])
    else Current(history[..|history| - 1], at)
  }

  /** The answer to a window query: exactly the current versions updated inside the window, one row per key. */
  ghost predicate Answers(source: Source, f: Fetch<Row>) {
    var rows := RowsIn(f.reply);
    && DistinctKeys(rows)
    && (forall i :: 0 <= i < |rows| ==>
          && rows[i].key.value in source
          && Current(source[rows[i].key.value], f.queriedAt) == Some(rows[i].version)
          && InWindow(f, Some(rows[i].version)))
    && (f.reply.Rows? ==> forall k :: k in source && InWindow(f, Current(source[k], f.queriedAt)) ==> HasKey(rows, k))
  }

  predicate InWindow(f: Fetch<Row>, current: Option<Version>) {
    current.Some? && f.lower <= current.value.updatedAt < f.upper
  }

  function Replay(table: seq<Row>, log: seq<Fetch<Row>>): seq<Row> {
    if log == [] then table else Upsert(Replay(table, log[..|log| - 1]), RowsIn(log[|log| - 1].reply))
  }

  lemma {:induction false} TableIsTheReplay(attempts: seq<Attempt<Row>>, cfg: Config)
    ensures var u := RunAll(FRESH, attempts, cfg); u.table == Replay([], u.log)
    decreases |attempts|
  {
    if attempts != [] {
      TableIsTheReplay(attempts[..|attempts| - 1], cfg);
      var before, after := RunAll(FRESH, attempts[..|attempts| - 1], cfg), RunAll(FRESH, attempts, cfg);
      if after != before { assert after.log[..|after.log| - 1] == before.log; }
    }
  }

  /** One row per key, and if one has this key, it is this version. */
  ghost predicate Keeps(f: Fetch<Row>, key: Key, version: Version) {
    DistinctKeys(RowsIn(f.reply)) && (HasKey(RowsIn(f.reply), key) ==> Row(Some(key), version) in RowsIn(f.reply))
  }

  /** The last fetch that contains a key decides what the table holds for it. */
  lemma {:induction false} LastFetchWins(table: seq<Row>, log: seq<Fetch<Row>>, key: Key, version: Version, k: nat)
    requires k < |log| && Row(Some(key), version) in RowsIn(log[k].reply)
    requires forall i :: k <= i < |log| ==> Keeps(log[i], key, version)
    ensures VersionsOf(Replay(table, log), key) == [version]
  {
    var n := |log| - 1;
    assert Keeps(log[n], key, version);
    ReplayStep(table, log, key, version);
    if k < n && !HasKey(RowsIn(log[n].reply), key) { LastFetchWins(table, log[..n], key, version, k); }
  }

  lemma ReplayStep(table: seq<Row>, log: seq<Fetch<Row>>, key: Key, version: Version)
    requires log != [] && DistinctKeys(RowsIn(log[|log| - 1].reply))
    ensures var n := |log| - 1;
            && (!HasKey(RowsIn(log[n].reply), key) ==> VersionsOf(Replay(table, log), key) == VersionsOf(Replay(table, log[..n]), key))
            && (Row(Some(key), version) in RowsIn(log[n].reply) ==> VersionsOf(Replay(table, log), key) == [version])
  {
    var n := |log| - 1;
    var rows := RowsIn(log[n].reply);
    UpsertReplacesPerKey(Replay(table, log[..n]), rows, key);
    if i :| 0 <= i < |rows| && rows[i] == Row(Some(key), version) {
      assert VersionsOf(Upsert(Replay(table, log[..n]), rows), key) == [rows[i].version];
    }
  }

  /** What the table holds for a key, some reply held. */
  lemma {:induction false} StoredVersionsWereFetched(log: seq<Fetch<Row>>, key: Key) returns (k: nat)
    requires VersionsOf(Replay([], log), key) != [] && forall i :: 0 <= i < |log| ==> DistinctKeys(RowsIn(log[i].reply))
    ensures k < |log| && exists version :: VersionsOf(Replay([], log), key) == [version] && Row(Some(key), version) in RowsIn(log[k].reply)
  {
    var n := |log| - 1;
    var rows := RowsIn(log[n].reply);
    UpsertReplacesPerKey(Replay([], log[..n]), rows, key);
    if HasKey(rows, key) {
      k := n;
      var i :| 0 <= i < |rows| && rows[i].key == Some(key);
      assert rows[i] == Row(Some(key), rows[i].version);
    } else {
      k := StoredVersionsWereFetched(log[..n], key);
    }
  }

  lemma {:induction false} CurrentIsLast(history: seq<Version>, at: Time)
    requires history != [] && history[|history| - 1].visibleAt <= at
    ensures Current(history, at) == Some(history[|history| - 1])
  {
  }

  lemma {:induction false} CurrentIsVisible(history: seq<Version>, at: Time)
    ensures Current(history, at).Some? ==> Current(history, at).value in history && Current(history, at).value.visibleAt <= at
  {
    if history != [] { CurrentIsVisible(history[..|history| - 1], at); }
  }

  /** Rows come from truthful answers to queries sent one after the other, and `last` is the last version of the key. */
  ghost predicate TruthfulLog(log: seq<Fetch<Row>>, source: Source, key: Key, last: Version) {
    && key in source && source[key] != [] && last == source[key][|source[key]| - 1]
    && (forall i :: 0 <= i < |log| ==> Answers(source, log[i]))
    && (forall i, j :: 0 <= i < j < |log| ==> log[i].queriedAt <= log[j].queriedAt)
  }

  /** Over every run, the table holds the last version of a row exactly when a window that asked for it was answered with rows. */
  lemma LocalCopyIsExact(attempts: seq<Attempt<Row>>, cfg: Config, source: Source, key: Key, last: Version)
    requires TruthfulLog(RunAll(FRESH, attempts, cfg).log, source, key, last)
    ensures var u := RunAll(FRESH, attempts, cfg);
            VersionsOf(u.table, key) == [last] <==> Delivered(u.log, last.updatedAt, last.visibleAt)
  {
    var u := RunAll(FRESH, attempts, cfg);
    TableIsTheReplay(attempts, cfg);
    if Delivered(u.log, last.updatedAt, last.visibleAt) {
      var k :| 0 <= k < |u.log| && Delivers(u.log[k], last.updatedAt, last.visibleAt);
      DeliveredVersionStays(u.log, source, key, last, k);
    }
    if VersionsOf(u.table, key) == [last] { HeldVersionWasDelivered(u.log, source, key, last); }
  }

  lemma DeliveredVersionStays(log: seq<Fetch<Row>>, source: Source, key: Key, last: Version, k: nat)
    requires TruthfulLog(log, source, key, last) && k < |log| && Delivers(log[k], last.updatedAt, last.visibleAt)
    ensures VersionsOf(Replay([], log), key) == [last]
  {
    assert Answers(source, log[k]);
    CurrentIsLast(source[key], log[k].queriedAt);
    forall i | k <= i < |log| ensures Keeps(log[i], key, last) {
      assert Answers(source, log[i]) && last.visibleAt <= log[i].queriedAt;
      if HasKey(RowsIn(log[i].reply), key) { FetchedRowIsCurrent(source, log[i], key, last); }
    }
    assert HasKey(RowsIn(log[k].reply), key);
    LastFetchWins([], log, key, last, k);
  }

  lemma FetchedRowIsCurrent(source: Source, f: Fetch<Row>, key: Key, last: Version)
    requires Answers(source, f) && key in source && source[key] != [] && last == source[key][|source[key]| - 1]
    requires last.visibleAt <= f.queriedAt && HasKey(RowsIn(f.reply), key)
    ensures Row(Some(key), last) in RowsIn(f.reply)
  {
  }

  lemma HeldVersionWasDelivered(log: seq<Fetch<Row>>, source: Source, key: Key, version: Version)
    requires key in source && (forall i :: 0 <= i < |log| ==> Answers(source, log[i]))
    requires VersionsOf(Replay([], log), key) == [version]
    ensures version in source[key] && Delivered(log, version.updatedAt, version.visibleAt)
  {
    forall i | 0 <= i < |log| ensures DistinctKeys(RowsIn(log[i].reply)) { assert Answers(source, log[i]); }
    var k := StoredVersionsWereFetched(log, key);
    assert Answers(source, log[k]);
    CurrentIsVisible(source[key], log[k].queriedAt);
    assert Delivers(log[k], version.updatedAt, version.visibleAt);
  }

  /**
   The last version becomes visible in time and the windows reach past it: at least one of them asks for it. So it
   ends up in the table exactly when not all those that ask for it are answered without rows.
   */
  lemma LocalCopyConverges(attempts: seq<Attempt<Row>>, cfg: Config, source: Source, key: Key, last: Version)
    requires ValidConfig(cfg) && TruthfulLog(RunAll(FRESH, attempts, cfg).log, source, key, last)
    requires Settled(RunAll(FRESH, attempts, cfg).log, cfg.overlap, last)
    ensures var u := RunAll(FRESH, attempts, cfg);
            && Covered(u.log, last.updatedAt, last.visibleAt)
            && (VersionsOf(u.table, key) == [last] <==> Delivered(u.log, last.updatedAt, last.visibleAt))
            && (AllAnswered(u.log) ==> VersionsOf(u.table, key) == [last])
  {
    var u := RunAll(FRESH, attempts, cfg);
    var k := TimelyRowsAreAskedFor(u.log, cfg.overlap, last.updatedAt, last.visibleAt, 0);
    LocalCopyIsExact(attempts, cfg, source, key, last);
    if AllAnswered(u.log) { assert Delivers(u.log[k], last.updatedAt, last.visibleAt); }
  }

  ghost predicate Settled<R>(log: seq<Fetch<R>>, overlap: Time, last: Version) {
    last.visibleAt <= last.updatedAt + overlap && Spans(log, overlap, last.updatedAt, last.visibleAt)
  }

  // ================================================================ replies without rows

  /** Among runs in which windows may (`empty`) or may not be answered without rows, this one has every settled row. */
  ghost predicate Arrives(attempts: seq<Attempt<Row>>, cfg: Config, empty: bool, source: Source, key: Key, last: Version) {
    var u := RunAll(FRESH, attempts, cfg);
    (empty || AllAnswered(u.log)) && TruthfulLog(u.log, source, key, last) && Settled(u.log, cfg.overlap, last)
    ==> VersionsOf(u.table, key) == [last]
  }

  /** Every timely row of every truthful source arrives in every run exactly when no window is answered without rows. */
  lemma TimelyRowsArriveExactlyWithoutEmptyReplies(cfg: Config, empty: bool)
    requires ValidConfig(cfg)
    ensures (forall attempts, source, key, last :: Arrives(attempts, cfg, empty, source, key, last)) <==> !empty
  {
    if empty {
      var attempts, source, last := ATimelyRowIsLost(cfg);
      assert attempts + [] == attempts;
      assert LostAfter(attempts, [], cfg, source, "k");
      assert !Arrives(attempts, cfg, empty, source, "k", last);
    } else {
      forall attempts, source, key, last ensures Arrives(attempts, cfg, empty, source, key, last) {
        var u := RunAll(FRESH, attempts, cfg);
        if AllAnswered(u.log) && TruthfulLog(u.log, source, key, last) && Settled(u.log, cfg.overlap, last) {
          LocalCopyConverges(attempts, cfg, source, key, last);
        }
      }
    }
  }

  /** Whatever runs follow, the table never holds the key. */
  ghost predicate LostAfter(first: seq<Attempt<Row>>, more: seq<Attempt<Row>>, cfg: Config, source: Source, key: Key) {
    var u := RunAll(FRESH, first + more, cfg);
    QueriedAfterBound(more) && (forall i :: 0 <= i < |u.log| ==> Answers(source, u.log[i])) ==> VersionsOf(u.table, key) == []
  }

  lemma {:induction false} LogGrows(first: seq<Attempt<Row>>, more: seq<Attempt<Row>>, cfg: Config)
    ensures RunAll(FRESH, first, cfg).log <= RunAll(FRESH, first + more, cfg).log
    decreases |more|
  {
    if more == [] {
      assert first + more == first;
    } else {
      assert (first + more)[..|first + more| - 1] == first + more[..|more| - 1];
      LogGrows(first, more[..|more| - 1], cfg);
    }
  }

  /** A fresh unit; then a window with a timely row is answered without rows. */
  function LosingRun<R>(cfg: Config): seq<Attempt<R>> {
    var upper := cfg.overlap + cfg.cadence + 1.0;
    [Attempt(0.0, true, 0.0, Rows([])), Attempt(upper, true, upper, NoRows)]
  }

  lemma LosingWindows(cfg: Config)
    requires ValidConfig(cfg)
    ensures var upper := cfg.overlap + cfg.cadence + 1.0;
            RunAll(FRESH, LosingRun(cfg), cfg).log == [Fetch(-cfg.lookback - cfg.overlap, 0.0, 0.0, Rows([])), Fetch(-cfg.overlap, upper, upper, NoRows)]
  {
    var attempts := LosingRun(cfg);
    assert attempts[..1][..0] == [] && attempts[..1][0] == attempts[0];
    assert RunAll(FRESH, [], cfg) == FRESH;
    assert RunAll(FRESH, attempts[..1], cfg) == Run(FRESH, attempts[0], cfg);
    assert RunAll(FRESH, attempts, cfg) == Run(RunAll(FRESH, attempts[..1], cfg), attempts[1], cfg);
  }

  /** A run after which a row that was visible in time never arrives, whatever runs follow. */
  lemma ATimelyRowIsLost(cfg: Config) returns (attempts: seq<Attempt<Row>>, source: Source, last: Version)
    requires ValidConfig(cfg)
    ensures var log := RunAll(FRESH, attempts, cfg).log;
            TruthfulLog(log, source, "k", last) && Settled(log, cfg.overlap, last)
    ensures forall more :: LostAfter(attempts, more, cfg, source, "k")
  {
    last := Version(0.0, 0.0, "");
    attempts, source := LosingRun(cfg), map["k" := [last]];
    LosingWindows(cfg);
    forall more ensures LostAfter(attempts, more, cfg, source, "k") {
      var u := RunAll(FRESH, attempts + more, cfg);
      if QueriedAfterBound(more) && (forall i :: 0 <= i < |u.log| ==> Answers(source, u.log[i])) {
        LogGrows(attempts, more, cfg);
        WindowsLeaveNoGap(attempts + more, cfg);
        forall k | 0 <= k < |u.log| ensures !Delivers(u.log[k], 0.0, 0.0) {
          if k > 1 { PassedRowsAreNotAskedFor(u.log, cfg.overlap, 0.0, 1, k); }
        }
        NeverDelivered(attempts + more, cfg, source, last);
      }
    }
  }

  lemma NeverDelivered(attempts: seq<Attempt<Row>>, cfg: Config, source: Source, last: Version)
    requires source == map["k" := [last]]
    requires var log := RunAll(FRESH, attempts, cfg).log;
             (forall i :: 0 <= i < |log| ==> Answers(source, log[i])) && !Delivered(log, last.updatedAt, last.visibleAt)
    ensures VersionsOf(RunAll(FRESH, attempts, cfg).table, "k") == []
  {
    var u := RunAll(FRESH, attempts, cfg);
    TableIsTheReplay(attempts, cfg);
    if VersionsOf(u.table, "k") != [] {
      forall i | 0 <= i < |u.log| ensures DistinctKeys(RowsIn(u.log[i].reply)) { assert Answers(source, u.log[i]); }
      var k := StoredVersionsWereFetched(u.log, "k");
      var version :| VersionsOf(u.table, "k") == [version];
      HeldVersionWasDelivered(u.log, source, "k", version);
    }
  }

  // ================================================================ chunks of the NDR proxy

  function Flatten<T>(chunks: seq<seq<T>>): seq<T> { if chunks == [] then [] else chunks[0] + Flatten(chunks[1..]) }

  lemma {:induction false} FlattenSnoc<T>(chunks: seq<seq<T>>, chunk: seq<T>)
    ensures Flatten(chunks + [chunk]) == Flatten(chunks) + chunk
  {
    if chunks == [] {
      assert chunks + [chunk] == [chunk] && Flatten([chunk]) == chunk + [];
    } else {
      assert (chunks + [chunk])[1..] == chunks[1..] + [chunk];
      FlattenSnoc(chunks[1..], chunk);
    }
  }

  /** Every affected AWB is queried once, in batches of at most `n`. */
  method ChunkList<T>(list: seq<T>, n: nat) returns (chunks: seq<seq<T>>)
    requires n > 0
    ensures Flatten(chunks) == list
    ensures forall i :: 0 <= i < |chunks| ==> 0 < |chunks[i]| <= n
    ensures forall i :: 0 <= i < |chunks| - 1 ==> |chunks[i]| == n
  {
    chunks := [];
    var i := 0;
    while i < |list|
      invariant Flatten(chunks) == list[..if i < |list| then i else |list|]
      invariant forall j :: 0 <= j < |chunks| ==> 0 < |chunks[j]| <= n
      invariant i < |list| ==> forall j :: 0 <= j < |chunks| ==> |chunks[j]| == n
      invariant forall j :: 0 <= j < |chunks| - 1 ==> |chunks[j]| == n
    {
      var end := if i + n < |list| then i + n else |list|;
      FlattenSnoc(chunks, list[i..end]);
      chunks := chunks + [list[i..end]];
      i := i + n;
    }
  }
}
