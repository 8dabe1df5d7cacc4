/**
 Event tables have no primary key. Each run replays a wide window and inserts the rows whose
 fingerprint it cannot find among the stored rows of that window.
 */
module EventSync {
  import opened Common
  import opened SyncEngine

  type Fingerprint = int

  /** An event row; `createdAt` is absent when the source's text does not parse as a time. */
  datatype Event = Event(createdAt: Option<Time>, body: string)

  type Hash = Event -> Fingerprint

  /** Fingerprints cover every column, so rows that share one agree on their creation time. */
  ghost predicate CoversTime(hash: Hash) {
    forall a, b :: hash(a) == hash(b) ==> a.createdAt == b.createdAt
  }

  predicate InReplay(e: Event, start: Time) { e.createdAt.Some? && e.createdAt.value >= start }

  predicate Holds(table: seq<Event>, hash: Hash, fp: Fingerprint) {
    exists i :: 0 <= i < |table| && hash(table[i]) == fp
  }

  /** What the query for existing rows can find: rows with a known creation time from `start` on. */
  predicate Finds(table: seq<Event>, hash: Hash, start: Time, fp: Fingerprint) {
    exists i :: 0 <= i < |table| && InReplay(table[i], start) && hash(table[i]) == fp
  }

  predicate DistinctFingerprints(table: seq<Event>, hash: Hash) {
    forall i, j :: 0 <= i < j < |table| ==> hash(table[i]) != hash(table[j])
  }

  /** The rows of a batch that get inserted: first of their fingerprint, and not found in the table. */
  function NewRows(table: seq<Event>, hash: Hash, start: Time, rows: seq<Event>): seq<Event> {
    if rows == [] then []
    else
      var n := |rows| - 1;
      var before := NewRows(table, hash, start, rows[..n]);
      if Holds(rows[..n], hash, hash(rows[n])) || Finds(table, hash, start, hash(rows[n])) then before
      else before + [rows[n]]
  }

  function Insert(table: seq<Event>, hash: Hash, start: Time, rows: seq<Event>): seq<Event> {
    table + NewRows(table, hash, start, rows)
  }

  // ================================================================ one insertion

  lemma {:induction false} NewRowsAreDistinctAndUnfound(table: seq<Event>, hash: Hash, start: Time, rows: seq<Event>)
    ensures var added := NewRows(table, hash, start, rows);
            && DistinctFingerprints(added, hash)
            && (forall i :: 0 <= i < |added| ==> added[i] in rows && !Finds(table, hash, start, hash(added[i])))
  {
    if rows != [] {
      var n := |rows| - 1;
      NewRowsAreDistinctAndUnfound(table, hash, start, rows[..n]);
      var before := NewRows(table, hash, start, rows[..n]);
      forall i | 0 <= i < |before| && hash(before[i]) == hash(rows[n]) ensures Holds(rows[..n], hash, hash(rows[n])) {
        var j :| 0 <= j < n && rows[j] == before[i];
        assert hash(rows[..n][j]) == hash(rows[n]);
      }
    }
  }

  lemma {:induction false} NewRowsCover(table: seq<Event>, hash: Hash, start: Time, rows: seq<Event>, k: nat)
    requires k < |rows| && !Finds(table, hash, start, hash(rows[k]))
    ensures Holds(NewRows(table, hash, start, rows), hash, hash(rows[k]))
  {
    var n := |rows| - 1;
    var added, before := NewRows(table, hash, start, rows), NewRows(table, hash, start, rows[..n]);
    if k < n || Holds(rows[..n], hash, hash(rows[k])) {
      var j := if k < n then k else var m :| 0 <= m < n && hash(rows[..n][m]) == hash(rows[k]); m;
      assert hash(rows[..n][j]) == hash(rows[k]);
      NewRowsCover(table, hash, start, rows[..n], j);
      var i :| 0 <= i < |before| && hash(before[i]) == hash(rows[k]);
      assert added[i] == before[i];
    } else {
      assert added[|before|] == rows[n];
    }
  }

  /** Every fetched fingerprint is in the table afterwards, whether or not it was found before. */
  lemma FetchedFingerprintsArePresent(table: seq<Event>, hash: Hash, start: Time, rows: seq<Event>, k: nat)
    requires k < |rows|
    ensures Holds(Insert(table, hash, start, rows), hash, hash(rows[k]))
  {
    var after, added := Insert(table, hash, start, rows), NewRows(table, hash, start, rows);
    if Finds(table, hash, start, hash(rows[k])) {
      var i :| 0 <= i < |table| && InReplay(table[i], start) && hash(table[i]) == hash(rows[k]);
      assert after[i] == table[i];
    } else {
      NewRowsCover(table, hash, start, rows, k);
      var i :| 0 <= i < |added| && hash(added[i]) == hash(rows[k]);
      assert after[|table| + i] == added[i];
    }
  }

  /** A stored row that the query for existing rows cannot find again. */
  predicate Blind(table: seq<Event>, hash: Hash, start: Time, e: Event) {
    Holds(table, hash, hash(e)) && !InReplay(e, start)
  }

  lemma StoredRowsAreFoundByTime(table: seq<Event>, hash: Hash, start: Time, e: Event)
    requires CoversTime(hash) && Holds(table, hash, hash(e))
    ensures Finds(table, hash, start, hash(e)) <==> InReplay(e, start)
  {
  }

  lemma UnfoundIsUnstored(table: seq<Event>, hash: Hash, start: Time, e: Event)
    requires CoversTime(hash) && !Blind(table, hash, start, e) && !Finds(table, hash, start, hash(e))
    ensures !Holds(table, hash, hash(e))
  {
  }

  /**
   An insertion keeps the fingerprints distinct exactly when none of its rows is already stored with a
   creation time that is missing or older than the replayed window.
   */
  lemma InsertKeepsFingerprintsDistinct(table: seq<Event>, hash: Hash, start: Time, rows: seq<Event>)
    requires CoversTime(hash) && DistinctFingerprints(table, hash)
    ensures DistinctFingerprints(Insert(table, hash, start, rows), hash)
       <==> forall k :: 0 <= k < |rows| ==> !Blind(table, hash, start, rows[k])
  {
    var after, added := Insert(table, hash, start, rows), NewRows(table, hash, start, rows);
    NewRowsAreDistinctAndUnfound(table, hash, start, rows);
    if k :| 0 <= k < |rows| && Blind(table, hash, start, rows[k]) {
      StoredRowsAreFoundByTime(table, hash, start, rows[k]);
      NewRowsCover(table, hash, start, rows, k);
      var j :| 0 <= j < |added| && hash(added[j]) == hash(rows[k]);
      var i :| 0 <= i < |table| && hash(table[i]) == hash(rows[k]);
      assert hash(after[i]) == hash(after[|table| + j]);
    } else {
      forall i, j | 0 <= i < j < |after| ensures hash(after[i]) != hash(after[j]) {
        if i < |table| <= j {
          var e := added[j - |table|];
          var k :| 0 <= k < |rows| && rows[k] == e;
          UnfoundIsUnstored(table, hash, start, rows[k]);
          assert after[i] == table[i] && after[j] == e;
        } else if |table| <= i {
          assert after[i] == added[i - |table|] && after[j] == added[j - |table|];
        }
      }
    }
  }

  lemma {:induction false} NothingNew(table: seq<Event>, hash: Hash, start: Time, rows: seq<Event>)
    ensures NewRows(table, hash, start, rows) == []
       <==> forall k :: 0 <= k < |rows| ==> Finds(table, hash, start, hash(rows[k]))
  {
    if k :| 0 <= k < |rows| && !Finds(table, hash, start, hash(rows[k])) {
      NewRowsCover(table, hash, start, rows, k);
    } else if rows != [] {
      NothingNew(table, hash, start, rows[..|rows| - 1]);
    }
  }

  /**
   Replaying a window inserts nothing the second time exactly when every fetched row has a known
   creation time inside the replayed window.
   */
  lemma ReplayInsertsNothing(table: seq<Event>, hash: Hash, start: Time, rows: seq<Event>)
    requires CoversTime(hash)
    ensures var once := Insert(table, hash, start, rows);
            Insert(once, hash, start, rows) == once <==> forall k :: 0 <= k < |rows| ==> InReplay(rows[k], start)
  {
    var once := Insert(table, hash, start, rows);
    NothingNew(once, hash, start, rows);
    assert Insert(once, hash, start, rows) == once <==> NewRows(once, hash, start, rows) == [];
    forall k | 0 <= k < |rows| ensures Finds(once, hash, start, hash(rows[k])) <==> InReplay(rows[k], start) {
      FetchedFingerprintsArePresent(table, hash, start, rows, k);
      StoredRowsAreFoundByTime(once, hash, start, rows[k]);
    }
  }

  /** An event whose creation time does not parse is stored again by every replay. */
  lemma UnparsedEventIsDuplicated(e: Event, hash: Hash, start: Time)
    requires e.createdAt.None?
    ensures Insert(Insert([], hash, start, [e]), hash, start, [e]) == [e, e]
  {
    assert [e][..0] == [];
    assert NewRows([], hash, start, []) == [] && NewRows([], hash, start, [e]) == [e];
    assert !Finds([e], hash, start, hash(e));
    assert NewRows([e], hash, start, []) == [] && NewRows([e], hash, start, [e]) == [e];
  }

  // ================================================================ runs of an event unit

  datatype EventUnit = EventUnit(checkpoint: Option<Time>, table: seq<Event>, log: seq<Fetch<Event>>)

  /** The overlap of an event unit is its replay window. A reply without rows moves the checkpoint, too. */
  function RunEvents(u: EventUnit, a: Attempt<Event>, cfg: Config, hash: Hash): EventUnit {
    if !Moves(u.checkpoint, a, cfg) then u
    else
      var f := WindowOf(u.checkpoint, a, cfg);
      EventUnit(Some(a.upper), Insert(u.table, hash, f.lower, RowsIn(a.reply)), u.log + [f])
  }

  function RunAllEvents(u: EventUnit, attempts: seq<Attempt<Event>>, cfg: Config, hash: Hash): EventUnit
    decreases |attempts|
  {
    if attempts == [] then u
    else RunEvents(RunAllEvents(u, attempts[..|attempts| - 1], cfg, hash), attempts[|attempts| - 1], cfg, hash)
  }

  const NO_EVENTS: EventUnit := EventUnit(None, [], [])

  class EventSyncUnit {
    const cfg: Config
    const hash: Hash
    var checkpoint: Option<Time>
    var table: seq<Event>
    ghost var log: seq<Fetch<Event>>

    ghost function State(): EventUnit
      reads this
    {
      EventUnit(checkpoint, table, log)
    }

    constructor (cfg: Config, hash: Hash)
      ensures this.cfg == cfg && this.hash == hash && State() == NO_EVENTS
    {
      this.cfg, this.hash := cfg, hash;
      checkpoint, table, log := None, [], [];
    }

    method UniqueIncoming(rows: seq<Event>) returns (unique: seq<Event>)
      ensures unique == NewRows([], hash, 0.0, rows)
    {
      unique := [];
      var seen: set<Fingerprint> := {};
      for i := 0 to |rows|
        invariant unique == NewRows([], hash, 0.0, rows[..i])
        invariant forall fp :: fp in seen <==> Holds(rows[..i], hash, fp)
      {
        assert rows[..i + 1][..i] == rows[..i];
        HoldsSnoc(rows[..i], hash, rows[i]);
        assert rows[..i] + [rows[i]] == rows[..i + 1];
        var fp := hash(rows[i]);
        if fp !in seen {
          unique := unique + [rows[i]];
          seen := seen + {fp};
        }
      }
      assert rows[..|rows|] == rows;
    }

    method ExistingFingerprints(start: Time) returns (fps: set<Fingerprint>)
      ensures forall fp :: fp in fps <==> Finds(table, hash, start, fp)
    {
      fps := {};
      for i := 0 to |table|
        invariant forall fp :: fp in fps <==> exists k :: 0 <= k < i && InReplay(table[k], start) && hash(table[k]) == fp
      {
        if InReplay(table[i], start) {
          fps := fps + {hash(table[i])};
        }
      }
    }

    method InsertEventRecords(rows: seq<Event>, start: Time) returns (inserted: nat)
      modifies this`table
      ensures table == Insert(old(table), hash, start, rows)
      ensures inserted == |table| - |old(table)|
    {
      var unique := UniqueIncoming(rows);
      var existing := ExistingFingerprints(start);
      var added: seq<Event> := [];
      for i := 0 to |unique|
        invariant table == old(table)
        invariant added == Unfound(table, hash, start, unique[..i])
      {
        assert unique[..i + 1][..i] == unique[..i];
        if hash(unique[i]) !in existing {
          added := added + [unique[i]];
        }
      }
      assert unique[..|unique|] == unique;
      UnfoundAmongFirsts(table, hash, start, rows);
      inserted := |added|;
      table := table + added;
    }

    /** A run that raises changes nothing; a reply without rows moves the checkpoint and stores nothing. */
    method ProcessEventSyncUnit(a: Attempt<Event>) returns (succeeded: bool)
      modifies this
      ensures State() == RunEvents(old(State()), a, cfg, hash)
      ensures succeeded <==> Due(old(checkpoint), a.locked, a.upper, cfg) && !a.reply.Raised?
      ensures succeeded <==>
        && a.locked && !a.reply.Raised?
        && (old(checkpoint).Some? ==> a.upper - old(checkpoint).value >= cfg.cadence)
      ensures !succeeded ==> State() == old(State())
      ensures succeeded ==> checkpoint == Some(a.upper)
      ensures succeeded && a.reply.NoRows? ==> table == old(table)
    {
      if !a.locked { return false; }
      if checkpoint.Some? && a.upper - checkpoint.value < cfg.cadence { return false; }
      var lower := LowerBound(checkpoint, a.upper, cfg);
      if a.reply.Raised? { return false; }
      var rows := if a.reply.Rows? then a.reply.rows else [];
      if rows != [] {
        var inserted := InsertEventRecords(rows, lower);
      }
      log := log + [Fetch(lower, a.upper, a.queriedAt, a.reply)];
      checkpoint := Some(a.upper);
      return true;
    }
  }

  lemma HoldsSnoc(rows: seq<Event>, hash: Hash, e: Event)
    ensures forall fp :: Holds(rows + [e], hash, fp) <==> Holds(rows, hash, fp) || fp == hash(e)
  {
    forall fp | Holds(rows, hash, fp) || fp == hash(e) ensures Holds(rows + [e], hash, fp) {
      if Holds(rows, hash, fp) {
        var i :| 0 <= i < |rows| && hash(rows[i]) == fp;
        assert (rows + [e])[i] == rows[i];
      } else {
        assert (rows + [e])[|rows|] == e;
      }
    }
  }

  /** Those of `rows` whose fingerprint is not found. */
  function Unfound(table: seq<Event>, hash: Hash, start: Time, rows: seq<Event>): seq<Event> {
    if rows == [] then []
    else
      var n := |rows| - 1;
      Unfound(table, hash, start, rows[..n]) + if Finds(table, hash, start, hash(rows[n])) then [] else [rows[n]]
  }

  /** Keeping the first of each fingerprint and then dropping the found ones is one filter. */
  lemma {:induction false} UnfoundAmongFirsts(table: seq<Event>, hash: Hash, start: Time, rows: seq<Event>)
    ensures Unfound(table, hash, start, NewRows([], hash, 0.0, rows)) == NewRows(table, hash, start, rows)
  {
    if rows != [] {
      var n := |rows| - 1;
      UnfoundAmongFirsts(table, hash, start, rows[..n]);
      var firsts := NewRows([], hash, 0.0, rows[..n]);
      assert (firsts + [rows[n]])[..|firsts|] == firsts;
    }
  }

  // ================================================================ whole runs

  /** Each reply holds only rows created inside the window that was asked for. */
  predicate Truthful(log: seq<Fetch<Event>>) {
    forall i, j :: 0 <= i < |log| && 0 <= j < |RowsIn(log[i].reply)| ==> InReplay(RowsIn(log[i].reply)[j], log[i].lower)
  }

  predicate AllPresent(log: seq<Fetch<Event>>, table: seq<Event>, hash: Hash) {
    forall i, j :: 0 <= i < |log| && 0 <= j < |RowsIn(log[i].reply)| ==> Holds(table, hash, hash(RowsIn(log[i].reply)[j]))
  }

  lemma PresentStays(table: seq<Event>, more: seq<Event>, hash: Hash, fp: Fingerprint)
    requires Holds(table, hash, fp)
    ensures Holds(table + more, hash, fp)
  {
    var i :| 0 <= i < |table| && hash(table[i]) == fp;
    assert (table + more)[i] == table[i];
  }

  lemma RunKeepsEventsExact(before: EventUnit, a: Attempt<Event>, cfg: Config, hash: Hash)
    requires CoversTime(hash) && DistinctFingerprints(before.table, hash) && AllPresent(before.log, before.table, hash)
    requires Truthful(RunEvents(before, a, cfg, hash).log)
    ensures var after := RunEvents(before, a, cfg, hash);
            DistinctFingerprints(after.table, hash) && AllPresent(after.log, after.table, hash)
  {
    var after := RunEvents(before, a, cfg, hash);
    if after != before {
      var n := |before.log|;
      var f := after.log[n];
      var rows := RowsIn(f.reply);
      forall j | 0 <= j < |rows| ensures !Blind(before.table, hash, f.lower, rows[j]) {
        assert InReplay(RowsIn(after.log[n].reply)[j], f.lower);
      }
      InsertKeepsFingerprintsDistinct(before.table, hash, f.lower, rows);
      forall i, j | 0 <= i < |after.log| && 0 <= j < |RowsIn(after.log[i].reply)|
        ensures Holds(after.table, hash, hash(RowsIn(after.log[i].reply)[j]))
      {
        if i < n {
          assert after.log[i] == before.log[i];
          PresentStays(before.table, NewRows(before.table, hash, f.lower, rows), hash, hash(RowsIn(before.log[i].reply)[j]));
        } else {
          FetchedFingerprintsArePresent(before.table, hash, f.lower, rows, j);
        }
      }
    }
  }

  lemma LogGrows(u: EventUnit, a: Attempt<Event>, cfg: Config, hash: Hash)
    ensures u.log <= RunEvents(u, a, cfg, hash).log
  {
  }

  /**
   Over any sequence of runs with overlapping replay windows, no two stored rows share a fingerprint
   and every fingerprint ever fetched is stored: each event is kept exactly once.
   */
  lemma {:induction false} EventsAreKeptExactlyOnce(attempts: seq<Attempt<Event>>, cfg: Config, hash: Hash)
    requires CoversTime(hash) && Truthful(RunAllEvents(NO_EVENTS, attempts, cfg, hash).log)
    ensures var u := RunAllEvents(NO_EVENTS, attempts, cfg, hash);
            DistinctFingerprints(u.table, hash) && AllPresent(u.log, u.table, hash)
    decreases |attempts|
  {
    if attempts != [] {
      var n := |attempts| - 1;
      var before := RunAllEvents(NO_EVENTS, attempts[..n], cfg, hash);
      LogGrows(before, attempts[n], cfg, hash);
      assert Truthful(before.log);
      EventsAreKeptExactlyOnce(attempts[..n], cfg, hash);
      RunKeepsEventsExact(before, attempts[n], cfg, hash);
    }
  }

  lemma {:induction false} EventWindowsLeaveNoGap(attempts: seq<Attempt<Event>>, cfg: Config, hash: Hash)
    requires ValidConfig(cfg) && QueriedAfterBound(attempts)
    ensures var u := RunAllEvents(NO_EVENTS, attempts, cfg, hash); WindowsOk(u.log, u.checkpoint, cfg)
    decreases |attempts|
  {
    if attempts != [] {
      var n := |attempts| - 1;
      var a := attempts[n];
      EventWindowsLeaveNoGap(attempts[..n], cfg, hash);
      var before := RunAllEvents(NO_EVENTS, attempts[..n], cfg, hash);
      if Moves(before.checkpoint, a, cfg) { NextWindow(before.log, before.checkpoint, a, cfg); }
    }
  }

  /** The remote events, and when queries begin to see each of them. */
  type Shown = map<Event, Time>

  /** The answer to a window query: exactly the events created inside the window that queries see by then. */
  ghost predicate Answers(shown: Shown, f: Fetch<Event>) {
    forall e :: e in RowsIn(f.reply) <==> f.reply.Rows? && e in shown && e.createdAt.Some? && Covers(f, e.createdAt.value, shown[e])
  }

  ghost predicate TruthfulLog(log: seq<Fetch<Event>>, shown: Shown) { forall i :: 0 <= i < |log| ==> Answers(shown, log[i]) }

  lemma TruthfulLogsAreTruthful(log: seq<Fetch<Event>>, shown: Shown)
    requires TruthfulLog(log, shown)
    ensures Truthful(log)
  {
    forall i, j | 0 <= i < |log| && 0 <= j < |RowsIn(log[i].reply)| ensures InReplay(RowsIn(log[i].reply)[j], log[i].lower) {
      assert Answers(shown, log[i]) && RowsIn(log[i].reply)[j] in RowsIn(log[i].reply);
    }
  }

  ghost predicate WasFetched(log: seq<Fetch<Event>>, hash: Hash, fp: Fingerprint) {
    exists i, j :: 0 <= i < |log| && 0 <= j < |RowsIn(log[i].reply)| && hash(RowsIn(log[i].reply)[j]) == fp
  }

  /** What the table holds, some reply held. */
  lemma {:induction false} StoredEventsWereFetched(attempts: seq<Attempt<Event>>, cfg: Config, hash: Hash, fp: Fingerprint)
    requires Holds(RunAllEvents(NO_EVENTS, attempts, cfg, hash).table, hash, fp)
    ensures WasFetched(RunAllEvents(NO_EVENTS, attempts, cfg, hash).log, hash, fp)
    decreases |attempts|
  {
    if attempts != [] {
      var n := |attempts| - 1;
      var before, after := RunAllEvents(NO_EVENTS, attempts[..n], cfg, hash), RunAllEvents(NO_EVENTS, attempts, cfg, hash);
      if Holds(before.table, hash, fp) {
        StoredEventsWereFetched(attempts[..n], cfg, hash, fp);
        var i, j :| 0 <= i < |before.log| && 0 <= j < |RowsIn(before.log[i].reply)| && hash(RowsIn(before.log[i].reply)[j]) == fp;
        LogGrows(before, attempts[n], cfg, hash);
        assert after.log[i] == before.log[i];
      } else {
        LastRunFetchedIt(before, attempts[n], cfg, hash, fp);
      }
    }
  }

  lemma LastRunFetchedIt(before: EventUnit, a: Attempt<Event>, cfg: Config, hash: Hash, fp: Fingerprint)
    requires !Holds(before.table, hash, fp) && Holds(RunEvents(before, a, cfg, hash).table, hash, fp)
    ensures WasFetched(RunEvents(before, a, cfg, hash).log, hash, fp)
  {
    var after := RunEvents(before, a, cfg, hash);
    var f, rows := WindowOf(before.checkpoint, a, cfg), RowsIn(a.reply);
    var added := NewRows(before.table, hash, f.lower, rows);
    NewRowsAreDistinctAndUnfound(before.table, hash, f.lower, rows);
    var k :| 0 <= k < |after.table| && hash(after.table[k]) == fp;
    assert k >= |before.table| && after.table[k] == added[k - |before.table|];
    var j :| 0 <= j < |rows| && rows[j] == after.table[k];
    assert after.log[|before.log|] == f && hash(RowsIn(after.log[|before.log|].reply)[j]) == fp;
  }

  /** How many stored rows have this fingerprint. */
  function CountOf(table: seq<Event>, hash: Hash, fp: Fingerprint): nat {
    if table == [] then 0
    else CountOf(table[..|table| - 1], hash, fp) + if hash(table[|table| - 1]) == fp then 1 else 0
  }

  lemma {:induction false} DistinctMeansAtMostOne(table: seq<Event>, hash: Hash, fp: Fingerprint)
    requires DistinctFingerprints(table, hash)
    ensures CountOf(table, hash, fp) == if Holds(table, hash, fp) then 1 else 0
  {
    if table != [] {
      var n := |table| - 1;
      DistinctMeansAtMostOne(table[..n], hash, fp);
      if i :| 0 <= i < n && hash(table[i]) == fp { assert table[..n][i] == table[i]; }
    }
  }

  /** The event is remote, has a creation time, and shares its fingerprint with no other. */
  ghost predicate Known(shown: Shown, hash: Hash, e: Event) {
    e in shown && e.createdAt.Some? && forall other :: other in shown && hash(other) == hash(e) ==> other == e
  }

  /** Over every run, an event is stored once if a window that asked for it was answered with rows, and else not at all. */
  lemma EventsAreStoredExactlyWhenDelivered(attempts: seq<Attempt<Event>>, cfg: Config, hash: Hash, shown: Shown, e: Event)
    requires CoversTime(hash) && Known(shown, hash, e)
    requires TruthfulLog(RunAllEvents(NO_EVENTS, attempts, cfg, hash).log, shown)
    ensures var u := RunAllEvents(NO_EVENTS, attempts, cfg, hash);
            CountOf(u.table, hash, hash(e)) == if Delivered(u.log, e.createdAt.value, shown[e]) then 1 else 0
  {
    var u := RunAllEvents(NO_EVENTS, attempts, cfg, hash);
    TruthfulLogsAreTruthful(u.log, shown);
    EventsAreKeptExactlyOnce(attempts, cfg, hash);
    DistinctMeansAtMostOne(u.table, hash, hash(e));
    if Holds(u.table, hash, hash(e)) {
      StoredEventsWereFetched(attempts, cfg, hash, hash(e));
      var i, j :| 0 <= i < |u.log| && 0 <= j < |RowsIn(u.log[i].reply)| && hash(RowsIn(u.log[i].reply)[j]) == hash(e);
      assert Answers(shown, u.log[i]) && RowsIn(u.log[i].reply)[j] in RowsIn(u.log[i].reply);
      assert Delivers(u.log[i], e.createdAt.value, shown[e]);
    }
    if k :| 0 <= k < |u.log| && Delivers(u.log[k], e.createdAt.value, shown[e]) {
      assert Answers(shown, u.log[k]);
      var j :| 0 <= j < |RowsIn(u.log[k].reply)| && RowsIn(u.log[k].reply)[j] == e;
      assert Holds(u.table, hash, hash(RowsIn(u.log[k].reply)[j]));
    }
  }

  /** The event becomes visible within the replay window of its creation time, and the windows reach past it. */
  ghost predicate Late(log: seq<Fetch<Event>>, cfg: Config, shown: Shown, e: Event)
    requires e in shown && e.createdAt.Some?
  {
    shown[e] <= e.createdAt.value + cfg.overlap && Spans(log, cfg.overlap, e.createdAt.value, shown[e])
  }

  /** Some window asks for a late event; it ends up stored once if that is answered with rows, and not at all if none is. */
  lemma LateEventsArriveExactlyOnce(attempts: seq<Attempt<Event>>, cfg: Config, hash: Hash, shown: Shown, e: Event)
    requires ValidConfig(cfg) && CoversTime(hash) && Known(shown, hash, e)
    requires var log := RunAllEvents(NO_EVENTS, attempts, cfg, hash).log; TruthfulLog(log, shown) && Late(log, cfg, shown, e)
    ensures var u := RunAllEvents(NO_EVENTS, attempts, cfg, hash);
            && Covered(u.log, e.createdAt.value, shown[e])
            && CountOf(u.table, hash, hash(e)) == (if Delivered(u.log, e.createdAt.value, shown[e]) then 1 else 0)
            && (AllAnswered(u.log) ==> CountOf(u.table, hash, hash(e)) == 1)
  {
    var u := RunAllEvents(NO_EVENTS, attempts, cfg, hash);
    var k := TimelyRowsAreAskedFor(u.log, cfg.overlap, e.createdAt.value, shown[e], 0);
    EventsAreStoredExactlyWhenDelivered(attempts, cfg, hash, shown, e);
    if AllAnswered(u.log) { assert Delivers(u.log[k], e.createdAt.value, shown[e]); }
  }

  // ================================================================ replies without rows

  /** Among runs in which windows may (`empty`) or may not be answered without rows, this one stores every late event once. */
  ghost predicate Arrives(attempts: seq<Attempt<Event>>, cfg: Config, hash: Hash, empty: bool, shown: Shown, e: Event) {
    var u := RunAllEvents(NO_EVENTS, attempts, cfg, hash);
    (empty || AllAnswered(u.log)) && Known(shown, hash, e) && TruthfulLog(u.log, shown) && Late(u.log, cfg, shown, e)
    ==> CountOf(u.table, hash, hash(e)) == 1
  }

  /** Every late event arrives in every run exactly when no window is answered without rows. */
  lemma LateEventsArriveExactlyWithoutEmptyReplies(cfg: Config, hash: Hash, empty: bool)
    requires ValidConfig(cfg) && CoversTime(hash)
    ensures (forall attempts, shown, e :: Arrives(attempts, cfg, hash, empty, shown, e)) <==> !empty
  {
    if empty {
      var attempts, shown, e := ALateEventIsLost(cfg, hash);
      assert attempts + [] == attempts;
      assert LostAfter(attempts, [], cfg, hash, shown, e);
      assert !Arrives(attempts, cfg, hash, empty, shown, e);
    } else {
      forall attempts, shown, e ensures Arrives(attempts, cfg, hash, empty, shown, e) {
        var u := RunAllEvents(NO_EVENTS, attempts, cfg, hash);
        if AllAnswered(u.log) && Known(shown, hash, e) && TruthfulLog(u.log, shown) && Late(u.log, cfg, shown, e) {
          LateEventsArriveExactlyOnce(attempts, cfg, hash, shown, e);
        }
      }
    }
  }

  /** Whatever runs follow, the event is never stored. */
  ghost predicate LostAfter(first: seq<Attempt<Event>>, more: seq<Attempt<Event>>, cfg: Config, hash: Hash, shown: Shown, e: Event) {
    var u := RunAllEvents(NO_EVENTS, first + more, cfg, hash);
    QueriedAfterBound(more) && TruthfulLog(u.log, shown) ==> CountOf(u.table, hash, hash(e)) == 0
  }

  lemma {:induction false} LogsGrow(first: seq<Attempt<Event>>, more: seq<Attempt<Event>>, cfg: Config, hash: Hash)
    ensures RunAllEvents(NO_EVENTS, first, cfg, hash).log <= RunAllEvents(NO_EVENTS, first + more, cfg, hash).log
    decreases |more|
  {
    if more == [] {
      assert first + more == first;
    } else {
      assert (first + more)[..|first + more| - 1] == first + more[..|more| - 1];
      LogsGrow(first, more[..|more| - 1], cfg, hash);
    }
  }

  lemma LosingEventWindows(cfg: Config, hash: Hash)
    requires ValidConfig(cfg)
    ensures var upper := cfg.overlap + cfg.cadence + 1.0;
            RunAllEvents(NO_EVENTS, LosingRun(cfg), cfg, hash).log
            == [Fetch(-cfg.lookback - cfg.overlap, 0.0, 0.0, Rows([])), Fetch(-cfg.overlap, upper, upper, NoRows)]
  {
    var attempts: seq<Attempt<Event>> := LosingRun(cfg);
    assert attempts[..1][..0] == [] && attempts[..1][0] == attempts[0];
    assert RunAllEvents(NO_EVENTS, [], cfg, hash) == NO_EVENTS;
    assert RunAllEvents(NO_EVENTS, attempts[..1], cfg, hash) == RunEvents(NO_EVENTS, attempts[0], cfg, hash);
    assert RunAllEvents(NO_EVENTS, attempts, cfg, hash)
        == RunEvents(RunAllEvents(NO_EVENTS, attempts[..1], cfg, hash), attempts[1], cfg, hash);
  }

  /** A run after which an event that was visible in time is never stored, whatever runs follow. */
  lemma ALateEventIsLost(cfg: Config, hash: Hash) returns (attempts: seq<Attempt<Event>>, shown: Shown, e: Event)
    requires ValidConfig(cfg) && CoversTime(hash)
    ensures Known(shown, hash, e)
    ensures var log := RunAllEvents(NO_EVENTS, attempts, cfg, hash).log; TruthfulLog(log, shown) && Late(log, cfg, shown, e)
    ensures forall more :: LostAfter(attempts, more, cfg, hash, shown, e)
  {
    e := Event(Some(0.0), "");
    attempts, shown := LosingRun(cfg), map[e := 0.0];
    LosingEventWindows(cfg, hash);
    forall more ensures LostAfter(attempts, more, cfg, hash, shown, e) {
      var u := RunAllEvents(NO_EVENTS, attempts + more, cfg, hash);
      if QueriedAfterBound(more) && TruthfulLog(u.log, shown) {
        LogsGrow(attempts, more, cfg, hash);
        EventWindowsLeaveNoGap(attempts + more, cfg, hash);
        forall k | 0 <= k < |u.log| ensures !Delivers(u.log[k], 0.0, 0.0) {
          if k > 1 { PassedRowsAreNotAskedFor(u.log, cfg.overlap, 0.0, 1, k); }
        }
        EventsAreStoredExactlyWhenDelivered(attempts + more, cfg, hash, shown, e);
      }
    }
  }
}
