/**
 The proxy unit for delivery reports, which have no update time of their own: two other tables say which
 shipments changed, and the reports of those are fetched in batches.
 */
module NdrProxy {
  import opened Common
  import opened SyncEngine

  type Awb = Key

  /** The current report of each shipment. */
  type Remote = map<Awb, Version>

  /** The reply to the query for one batch. */
  type Server = seq<Awb> -> Reply<Row>

  /** A reply with rows holds the current report of exactly those shipments of the batch that have one. */
  ghost predicate Truthful(server: Server, remote: Remote) {
    forall batch :: server(batch).Rows? ==> AnswersBatch(server(batch).rows, batch, remote)
  }

  ghost predicate AnswersBatch(rows: seq<Row>, batch: seq<Awb>, remote: Remote) {
    && DistinctKeys(rows)
    && (forall i :: 0 <= i < |rows| ==>
          rows[i].key.value in batch && rows[i].key.value in remote && rows[i].version == remote[rows[i].key.value])
    && (forall awb :: awb in batch && awb in remote ==> HasKey(rows, awb))
  }

  /** A batch that raises ends the run; a reply without rows passes for an empty one. */
  function UpsertBatches(table: seq<Row>, batches: seq<seq<Awb>>, server: Server): Option<seq<Row>> {
    if batches == [] then Some(table)
    else
      var n := |batches| - 1;
      match UpsertBatches(table, batches[..n], server)
      case None => None
      case Some(before) => if server(batches[n]).Raised? then None else Some(Upsert(before, RowsIn(server(batches[n]))))
  }

  predicate Asked(batches: seq<seq<Awb>>, awb: Awb) { exists i :: 0 <= i < |batches| && awb in batches[i] }

  /** The batches go through exactly when none of them raises. */
  lemma {:induction false} BatchesGoThrough(table: seq<Row>, batches: seq<seq<Awb>>, server: Server)
    ensures UpsertBatches(table, batches, server).Some? <==> forall i :: 0 <= i < |batches| ==> !server(batches[i]).Raised?
  {
    if batches != [] { BatchesGoThrough(table, batches[..|batches| - 1], server); }
  }

  /** The shipment is in a batch whose reply carries rows. */
  predicate Answered(batches: seq<seq<Awb>>, server: Server, awb: Awb) {
    exists i :: 0 <= i < |batches| && awb in batches[i] && server(batches[i]).Rows?
  }

  /** After the batches, exactly the shipments that were answered have their current report, and no other changed. */
  lemma {:induction false} AskedReportsAreCurrent(table: seq<Row>, batches: seq<seq<Awb>>, server: Server, remote: Remote, awb: Awb)
    requires Truthful(server, remote) && UpsertBatches(table, batches, server).Some?
    ensures VersionsOf(UpsertBatches(table, batches, server).value, awb)
         == if Answered(batches, server, awb) && awb in remote then [remote[awb]] else VersionsOf(table, awb)
  {
    if batches != [] {
      var n := |batches| - 1;
      AskedReportsAreCurrent(table, batches[..n], server, remote, awb);
      AnsweredSnoc(batches, server, awb);
      OneBatch(UpsertBatches(table, batches[..n], server).value, batches[n], server, remote, awb);
    }
  }

  lemma OneBatch(before: seq<Row>, batch: seq<Awb>, server: Server, remote: Remote, awb: Awb)
    requires Truthful(server, remote)
    ensures VersionsOf(Upsert(before, RowsIn(server(batch))), awb)
         == if awb in batch && server(batch).Rows? && awb in remote then [remote[awb]] else VersionsOf(before, awb)
  {
    var rows := RowsIn(server(batch));
    if server(batch).Rows? { assert AnswersBatch(rows, batch, remote); }
    UpsertReplacesPerKey(before, rows, awb);
    if HasKey(rows, awb) {
      var i :| 0 <= i < |rows| && rows[i].key == Some(awb);
      assert VersionsOf(Upsert(before, rows), awb) == [rows[i].version];
    }
  }

  lemma AnsweredSnoc(batches: seq<seq<Awb>>, server: Server, awb: Awb)
    requires batches != []
    ensures var n := |batches| - 1;
            Answered(batches, server, awb) <==> Answered(batches[..n], server, awb) || (awb in batches[n] && server(batches[n]).Rows?)
  {
  }

  lemma {:induction false} AskedIsFlattened(batches: seq<seq<Awb>>, awb: Awb)
    ensures Asked(batches, awb) <==> awb in Flatten(batches)
  {
    if batches != [] {
      AskedIsFlattened(batches[1..], awb);
      if i :| 0 <= i < |batches[1..]| && awb in batches[1..][i] { assert awb in batches[i + 1]; }
      if i :| 0 < i < |batches| && awb in batches[i] { assert awb in batches[1..][i - 1]; }
    }
  }

  /** The shipments a reply names; a missing or empty number names none. */
  function Named(rows: seq<string>): set<Awb> { set i | 0 <= i < |rows| && rows[i] != "" :: rows[i] }

  /** The elements of a set, in some order. */
  method ListOf(items: set<Awb>) returns (list: seq<Awb>)
    ensures forall x :: x in list <==> x in items
    ensures |list| == |items|
  {
    var left := items;
    list := [];
    while left != {}
      invariant left <= items && |list| + |left| == |items|
      invariant forall x :: x in list <==> x in items - left
      decreases |left|
    {
      var x := AnyOf(left);
      list := list + [x];
      left := left - {x};
    }
  }

  // ================================================================ whole runs

  /** The report stage of one run: when its batches were sent, and what came back. */
  datatype Asking = Asking(at: Time, batches: seq<seq<Awb>>, server: Server)

  /** Both checkpoints, the windows behind them, the report stages of the same runs, and the local reports. */
  datatype Proxy = Proxy(
    lineItems: Option<Time>, actionLog: Option<Time>, lineWindows: seq<Fetch<string>>, actionWindows: seq<Fetch<string>>,
    asked: seq<Asking>, reports: seq<Row>)

  datatype ProxyRun = ProxyRun(upper: Time, locked: bool, lineItems: Reply<string>, lineItemsAt: Time,
                               actions: Reply<string>, actionsAt: Time, asking: Asking)

  function LineAttempt(r: ProxyRun): Attempt<string> { Attempt(r.upper, r.locked, r.lineItemsAt, r.lineItems) }

  function ActionAttempt(r: ProxyRun): Attempt<string> { Attempt(r.upper, r.locked, r.actionsAt, r.actions) }

  /** The cadence is read off the first checkpoint only. A run that raises is rolled back; any other moves both. */
  predicate Proceeds(p: Proxy, r: ProxyRun, cfg: Config) {
    Moves(p.lineItems, LineAttempt(r), cfg) && !r.actions.Raised?
  }

  function Advance(p: Proxy, r: ProxyRun, cfg: Config): Proxy {
    if !Proceeds(p, r, cfg) then p
    else
      match UpsertBatches(p.reports, r.asking.batches, r.asking.server)
      case None => p
      case Some(reports) =>
        Proxy(Some(r.upper), Some(r.upper), p.lineWindows + [WindowOf(p.lineItems, LineAttempt(r), cfg)],
              p.actionWindows + [WindowOf(p.actionLog, ActionAttempt(r), cfg)], p.asked + [r.asking], reports)
  }

  const NO_WINDOWS: Proxy := Proxy(None, None, [], [], [], [])

  function AdvanceAll(runs: seq<ProxyRun>, cfg: Config): Proxy {
    if runs == [] then NO_WINDOWS else Advance(AdvanceAll(runs[..|runs| - 1], cfg), runs[|runs| - 1], cfg)
  }

  /** The shipments the replies of the two proxy queries name. */
  function Affected(r: ProxyRun): set<Awb> { Named(RowsIn(r.lineItems)) + Named(RowsIn(r.actions)) }

  /** The queries are sent one after the other, and the batches hold the affected shipments. */
  ghost predicate Orderly(r: ProxyRun) {
    && r.upper <= r.lineItemsAt <= r.asking.at && r.upper <= r.actionsAt <= r.asking.at
    && forall awb :: Asked(r.asking.batches, awb) <==> awb in Affected(r)
  }

  ghost predicate AllOrderly(runs: seq<ProxyRun>) { forall i :: 0 <= i < |runs| ==> Orderly(runs[i]) }

  /** The shipments the k-th run that moved the checkpoints asked for. */
  function AffectedBy(p: Proxy, k: nat): set<Awb>
    requires k < |p.lineWindows| && k < |p.actionWindows|
  {
    Named(RowsIn(p.lineWindows[k].reply)) + Named(RowsIn(p.actionWindows[k].reply))
  }

  /** The k-th windows of both tables and the k-th report stage belong to one run. */
  ghost predicate InStep(p: Proxy, k: nat)
    requires k < |p.lineWindows| && k < |p.actionWindows| && k < |p.asked|
  {
    && p.lineWindows[k].queriedAt <= p.asked[k].at && p.actionWindows[k].queriedAt <= p.asked[k].at
    && forall awb :: Asked(p.asked[k].batches, awb) <==> awb in AffectedBy(p, k)
  }

  ghost predicate AllInStep(p: Proxy) {
    && |p.lineWindows| == |p.actionWindows| == |p.asked|
    && forall k :: 0 <= k < |p.asked| ==> InStep(p, k)
  }

  /** Over any runs the two checkpoints stay together, and the windows of either table leave no gap. */
  lemma {:induction false} ProxyWindowsLeaveNoGap(runs: seq<ProxyRun>, cfg: Config)
    requires ValidConfig(cfg) && AllOrderly(runs)
    ensures var p := AdvanceAll(runs, cfg);
            && WindowsOk(p.lineWindows, p.lineItems, cfg) && WindowsOk(p.actionWindows, p.actionLog, cfg)
            && p.lineItems == p.actionLog && |p.lineWindows| == |p.actionWindows|
  {
    if runs != [] {
      var n := |runs| - 1;
      ProxyWindowsLeaveNoGap(runs[..n], cfg);
      var p, r := AdvanceAll(runs[..n], cfg), runs[n];
      assert Orderly(r);
      if Proceeds(p, r, cfg) {
        NextWindow(p.lineWindows, p.lineItems, LineAttempt(r), cfg);
        NextWindow(p.actionWindows, p.actionLog, ActionAttempt(r), cfg);
      }
    }
  }

  lemma {:induction false} RunsStayInStep(runs: seq<ProxyRun>, cfg: Config)
    requires AllOrderly(runs)
    ensures AllInStep(AdvanceAll(runs, cfg))
  {
    if runs != [] {
      var n := |runs| - 1;
      RunsStayInStep(runs[..n], cfg);
      assert Orderly(runs[n]);
      AdvanceStaysInStep(AdvanceAll(runs[..n], cfg), runs[n], cfg);
    }
  }

  lemma AdvanceStaysInStep(p: Proxy, r: ProxyRun, cfg: Config)
    requires AllInStep(p) && Orderly(r)
    ensures AllInStep(Advance(p, r, cfg))
  {
    var p' := Advance(p, r, cfg);
    forall k | 0 <= k < |p'.asked| ensures InStep(p', k) {
      if k < |p.asked| {
        assert InStep(p, k) && p'.lineWindows[k] == p.lineWindows[k] && p'.actionWindows[k] == p.actionWindows[k];
      }
    }
  }

  // ================================================================ convergence of the reports

  /** The report of each shipment at a time. */
  function RemoteAt(source: Source, at: Time): Remote {
    map awb | awb in source && Current(source[awb], at).Some? :: Current(source[awb], at).value
  }

  /** Batches are answered truthfully and sent one after the other, and `last` is the last report of the shipment. */
  ghost predicate TruthfulReports(asked: seq<Asking>, source: Source, awb: Awb, last: Version) {
    && awb in source && source[awb] != [] && last == source[awb][|source[awb]| - 1]
    && (forall k :: 0 <= k < |asked| ==> Truthful(asked[k].server, RemoteAt(source, asked[k].at)))
    && (forall i, j :: 0 <= i < j < |asked| ==> asked[i].at <= asked[j].at)
  }

  /** A run that gets the last report. */
  ghost predicate Brings(a: Asking, awb: Awb, last: Version) { Answered(a.batches, a.server, awb) && last.visibleAt <= a.at }

  ghost predicate Brought(asked: seq<Asking>, awb: Awb, last: Version) {
    exists k :: 0 <= k < |asked| && Brings(asked[k], awb, last)
  }

  /** Over every run, the last report of a shipment is here exactly when a batch with the shipment was answered with rows once it was there. */
  lemma {:induction false} ReportsAreExact(runs: seq<ProxyRun>, cfg: Config, source: Source, awb: Awb, last: Version)
    requires TruthfulReports(AdvanceAll(runs, cfg).asked, source, awb, last)
    ensures var p := AdvanceAll(runs, cfg); VersionsOf(p.reports, awb) == [last] <==> Brought(p.asked, awb, last)
  {
    if runs != [] {
      var n := |runs| - 1;
      var p, p' := AdvanceAll(runs[..n], cfg), AdvanceAll(runs, cfg);
      if p' != p {
        ShorterIsTruthful(p.asked, runs[n].asking, source, awb, last);
        ReportsAreExact(runs[..n], cfg, source, awb, last);
        LastAsking(p.reports, p.asked, runs[n].asking, source, awb, last);
      } else {
        ReportsAreExact(runs[..n], cfg, source, awb, last);
      }
    }
  }

  lemma ShorterIsTruthful(asked: seq<Asking>, a: Asking, source: Source, awb: Awb, last: Version)
    requires TruthfulReports(asked + [a], source, awb, last)
    ensures TruthfulReports(asked, source, awb, last)
    ensures Truthful(a.server, RemoteAt(source, a.at)) && forall k :: 0 <= k < |asked| ==> asked[k].at <= a.at
  {
    var longer := asked + [a];
    assert longer[|asked|] == a;
    forall k | 0 <= k < |asked| ensures Truthful(asked[k].server, RemoteAt(source, asked[k].at)) && asked[k].at <= a.at {
      assert longer[k] == asked[k];
    }
    forall i, j | 0 <= i < j < |asked| ensures asked[i].at <= asked[j].at { assert longer[i].at <= longer[j].at; }
  }

  lemma BroughtSnoc(asked: seq<Asking>, a: Asking, awb: Awb, last: Version)
    ensures Brought(asked + [a], awb, last) <==> Brought(asked, awb, last) || Brings(a, awb, last)
  {
    var longer := asked + [a];
    if k :| 0 <= k < |asked| && Brings(asked[k], awb, last) { assert Brings(longer[k], awb, last); }
    if Brings(a, awb, last) { assert Brings(longer[|asked|], awb, last); }
  }

  lemma LastAsking(before: seq<Row>, asked: seq<Asking>, a: Asking, source: Source, awb: Awb, last: Version)
    requires TruthfulReports(asked + [a], source, awb, last) && UpsertBatches(before, a.batches, a.server).Some?
    requires VersionsOf(before, awb) == [last] <==> Brought(asked, awb, last)
    ensures VersionsOf(UpsertBatches(before, a.batches, a.server).value, awb) == [last] <==> Brought(asked + [a], awb, last)
  {
    ShorterIsTruthful(asked, a, source, awb, last);
    BroughtSnoc(asked, a, awb, last);
    AskedReportsAreCurrent(before, a.batches, a.server, RemoteAt(source, a.at), awb);
    LastReportShows(source, awb, last, a.at);
    if last.visibleAt > a.at { assert forall k :: 0 <= k < |asked| ==> !Brings(asked[k], awb, last); }
  }

  lemma LastReportShows(source: Source, awb: Awb, last: Version, at: Time)
    requires awb in source && source[awb] != [] && last == source[awb][|source[awb]| - 1]
    ensures last.visibleAt <= at <==> awb in RemoteAt(source, at) && RemoteAt(source, at)[awb] == last
  {
    CurrentIsVisible(source[awb], at);
    if last.visibleAt <= at { CurrentIsLast(source[awb], at); }
  }

  /** A change of a shipment in one of the tables: replies with rows show it in every window that covers it. */
  ghost predicate Showing(windows: seq<Fetch<string>>, awb: Awb, updatedAt: Time, visibleAt: Time) {
    forall k :: 0 <= k < |windows| && Delivers(windows[k], updatedAt, visibleAt) ==> awb in windows[k].reply.rows
  }

  /** Visible within the overlap, shown, and passed by the windows. */
  ghost predicate ChangeSettled(windows: seq<Fetch<string>>, cfg: Config, awb: Awb, updatedAt: Time, visibleAt: Time) {
    && visibleAt <= updatedAt + cfg.overlap
    && Spans(windows, cfg.overlap, updatedAt, visibleAt) && Showing(windows, awb, updatedAt, visibleAt)
  }

  lemma NamedHas(rows: seq<string>, awb: Awb)
    requires awb in rows && awb != ""
    ensures awb in Named(rows)
  {
    var i :| 0 <= i < |rows| && rows[i] == awb;
  }

  /** A shipment that changed in either table is asked for, unless the windows that cover the change were answered without rows. */
  lemma TimelyChangesAreAskedFor(runs: seq<ProxyRun>, cfg: Config, line: bool, awb: Awb, updatedAt: Time, visibleAt: Time) returns (k: nat)
    requires ValidConfig(cfg) && AllOrderly(runs) && awb != ""
    requires var p := AdvanceAll(runs, cfg);
             var windows := if line then p.lineWindows else p.actionWindows;
             ChangeSettled(windows, cfg, awb, updatedAt, visibleAt) && AllAnswered(windows)
    ensures var p := AdvanceAll(runs, cfg);
            && AllInStep(p) && k < |p.asked|
            && Asked(p.asked[k].batches, awb) && visibleAt <= p.asked[k].at
  {
    var p := AdvanceAll(runs, cfg);
    ProxyWindowsLeaveNoGap(runs, cfg);
    RunsStayInStep(runs, cfg);
    var windows := if line then p.lineWindows else p.actionWindows;
    k := TimelyRowsAreAskedFor(windows, cfg.overlap, updatedAt, visibleAt, 0);
    assert Delivers(windows[k], updatedAt, visibleAt);
    NamedHas(windows[k].reply.rows, awb);
    assert InStep(p, k);
  }

  predicate BatchesAnswered(a: Asking) { forall i :: 0 <= i < |a.batches| ==> a.server(a.batches[i]).Rows? }

  predicate AllBatchesAnswered(asked: seq<Asking>) { forall k :: 0 <= k < |asked| ==> BatchesAnswered(asked[k]) }

  /** Which queries may be answered without rows. */
  datatype Policy = Policy(lineItems: bool, actions: bool, batches: bool)

  const STRICT: Policy := Policy(false, false, false)

  ghost predicate Permits(policy: Policy, p: Proxy) {
    && (policy.lineItems || AllAnswered(p.lineWindows)) && (policy.actions || AllAnswered(p.actionWindows))
    && (policy.batches || AllBatchesAnswered(p.asked))
  }

  /** A shipment's last report, there by the time its change in one of the tables shows. */
  ghost predicate ReportSettled(p: Proxy, cfg: Config, line: bool, source: Source, awb: Awb, last: Version, updatedAt: Time, visibleAt: Time) {
    && awb != "" && last.visibleAt <= visibleAt && TruthfulReports(p.asked, source, awb, last)
    && ChangeSettled(if line then p.lineWindows else p.actionWindows, cfg, awb, updatedAt, visibleAt)
  }

  /** Once a change has been visible long enough, the local report of its shipment is the last one, if every query was answered with rows. */
  lemma ReportsConverge(runs: seq<ProxyRun>, cfg: Config, line: bool, source: Source, awb: Awb, last: Version, updatedAt: Time, visibleAt: Time)
    requires ValidConfig(cfg) && AllOrderly(runs) && Permits(STRICT, AdvanceAll(runs, cfg))
    requires ReportSettled(AdvanceAll(runs, cfg), cfg, line, source, awb, last, updatedAt, visibleAt)
    ensures VersionsOf(AdvanceAll(runs, cfg).reports, awb) == [last]
  {
    var p := AdvanceAll(runs, cfg);
    var k := TimelyChangesAreAskedFor(runs, cfg, line, awb, updatedAt, visibleAt);
    var i :| 0 <= i < |p.asked[k].batches| && awb in p.asked[k].batches[i];
    assert BatchesAnswered(p.asked[k]);
    assert Brings(p.asked[k], awb, last);
    ReportsAreExact(runs, cfg, source, awb, last);
  }

  ghost predicate Arrives(runs: seq<ProxyRun>, cfg: Config, policy: Policy, line: bool, source: Source, awb: Awb, last: Version,
                          updatedAt: Time, visibleAt: Time) {
    var p := AdvanceAll(runs, cfg);
    AllOrderly(runs) && Permits(policy, p) && ReportSettled(p, cfg, line, source, awb, last, updatedAt, visibleAt)
    ==> VersionsOf(p.reports, awb) == [last]
  }

  /** Every settled report arrives in every run exactly when none of the three kinds of query is answered without rows. */
  lemma ReportsArriveExactlyWithoutEmptyReplies(cfg: Config, policy: Policy)
    requires ValidConfig(cfg)
    ensures (forall runs, line, source, awb, last, updatedAt, visibleAt ::
               Arrives(runs, cfg, policy, line, source, awb, last, updatedAt, visibleAt)) <==> policy == STRICT
  {
    if policy == STRICT {
      forall runs, line, source, awb, last, updatedAt, visibleAt
        ensures Arrives(runs, cfg, policy, line, source, awb, last, updatedAt, visibleAt)
      {
        var p := AdvanceAll(runs, cfg);
        if AllOrderly(runs) && Permits(policy, p) && ReportSettled(p, cfg, line, source, awb, last, updatedAt, visibleAt) {
          ReportsConverge(runs, cfg, line, source, awb, last, updatedAt, visibleAt);
        }
      }
    } else {
      var runs, line, source, last := AReportStaysStale(cfg, policy);
      assert !Arrives(runs, cfg, policy, line, source, "a", last, 0.0, 0.0);
    }
  }

  // ---------------------------------------------------------------- one reply without rows

  function Nothing(batch: seq<Awb>): Reply<Row> { NoRows }

  /** A run before the change of shipment "a", which asks for nothing. */
  function Before(): ProxyRun { ProxyRun(0.0, true, Rows([]), 0.0, Rows([]), 0.0, Asking(0.0, [], Nothing)) }

  /** A run whose window covers the change, with these replies of the proxies, and batches answered without rows. */
  function Losing(cfg: Config, lineItems: Reply<string>, actions: Reply<string>, batches: seq<seq<Awb>>): ProxyRun {
    var upper := cfg.overlap + cfg.cadence + 1.0;
    ProxyRun(upper, true, lineItems, upper, actions, upper, Asking(upper, batches, Nothing))
  }

  lemma TwoRuns(cfg: Config, r: ProxyRun)
    requires ValidConfig(cfg) && r == Losing(cfg, r.lineItems, r.actions, r.asking.batches)
    requires !r.lineItems.Raised? && !r.actions.Raised? && |r.asking.batches| <= 1
    ensures var (p, first, upper) := (AdvanceAll([Before(), r], cfg), -cfg.lookback - cfg.overlap, r.upper);
            && p.lineWindows == [Fetch(first, 0.0, 0.0, Rows([])), Fetch(-cfg.overlap, upper, upper, r.lineItems)]
            && p.actionWindows == [Fetch(first, 0.0, 0.0, Rows([])), Fetch(-cfg.overlap, upper, upper, r.actions)]
            && p.asked == [Before().asking, r.asking] && p.reports == []
  {
    var runs := [Before(), r];
    assert runs[..1] == [Before()] && [Before()][..0] == [];
    assert AdvanceAll([Before()], cfg) == Advance(NO_WINDOWS, Before(), cfg);
    var batches := r.asking.batches;
    assert Upsert([], []) == [];
    if batches != [] { assert batches[..|batches| - 1] == []; }
    assert UpsertBatches([], batches, Nothing) == Some([]);
    assert AdvanceAll(runs, cfg) == Advance(AdvanceAll([Before()], cfg), r, cfg);
  }

  /** Two runs that never get the report of shipment "a", for one query answered without rows. */
  lemma AReportStaysStale(cfg: Config, policy: Policy) returns (runs: seq<ProxyRun>, line: bool, source: Source, last: Version)
    requires ValidConfig(cfg) && policy != STRICT
    ensures AllOrderly(runs) && Permits(policy, AdvanceAll(runs, cfg))
    ensures ReportSettled(AdvanceAll(runs, cfg), cfg, line, source, "a", last, 0.0, 0.0)
    ensures VersionsOf(AdvanceAll(runs, cfg).reports, "a") == []
  {
    last := Version(0.0, 0.0, "");
    source, line := map["a" := [last]], policy.lineItems || policy.batches;
    var r :=
      if policy.lineItems then Losing(cfg, NoRows, Rows([]), [])
      else if policy.batches then Losing(cfg, Rows(["a"]), Rows([]), [["a"]])
      else Losing(cfg, Rows([]), NoRows, []);
    runs := [Before(), r];
    TwoRuns(cfg, r);
    StaleRunsAreOrderly(cfg, r);
  }

  lemma StaleRunsAreOrderly(cfg: Config, r: ProxyRun)
    requires ValidConfig(cfg)
    requires r == Losing(cfg, NoRows, Rows([]), []) || r == Losing(cfg, Rows([]), NoRows, [])
             || r == Losing(cfg, Rows(["a"]), Rows([]), [["a"]])
    ensures AllOrderly([Before(), r])
  {
    assert Named(["a"]) == {"a"} by { NamedHas(["a"], "a"); }
    assert Orderly(Before());
    forall awb ensures Asked([["a"]], awb) <==> awb == "a" { if awb == "a" { assert awb in [["a"]][0]; } }
    assert Orderly(r);
  }

  // ================================================================ the unit

  class NdrProxyUnit {
    const cfg: Config
    const batchSize: nat
    var lineItems: Option<Time>
    var actionLog: Option<Time>
    var reports: seq<Row>
    ghost var lineWindows: seq<Fetch<string>>
    ghost var actionWindows: seq<Fetch<string>>
    ghost var asked: seq<Asking>

    ghost function State(): Proxy
      reads this
    {
      Proxy(lineItems, actionLog, lineWindows, actionWindows, asked, reports)
    }

    constructor (cfg: Config, batchSize: nat)
      requires batchSize > 0
      ensures this.cfg == cfg && this.batchSize == batchSize && State() == NO_WINDOWS
    {
      this.cfg, this.batchSize := cfg, batchSize;
      lineItems, actionLog, reports := None, None, [];
      lineWindows, actionWindows, asked := [], [], [];
    }

    /** The reports after all batches; on an error the transaction is rolled back by the caller. */
    method FetchReports(affected: set<Awb>, server: Server) returns (ok: bool, ghost batches: seq<seq<Awb>>)
      requires batchSize > 0
      modifies `reports
      ensures forall awb :: Asked(batches, awb) <==> awb in affected
      ensures forall i :: 0 <= i < |batches| ==> 0 < |batches[i]| <= batchSize
      ensures ok <==> UpsertBatches(old(reports), batches, server).Some?
      ensures ok ==> reports == UpsertBatches(old(reports), batches, server).value
      ensures !ok ==> reports == old(reports)
    {
      var list := ListOf(affected);
      var chunks := ChunkList(list, batchSize);
      batches := chunks;
      forall awb ensures Asked(batches, awb) <==> awb in affected { AskedIsFlattened(batches, awb); }
      var before := reports;
      for i := 0 to |chunks|
        invariant UpsertBatches(before, chunks[..i], server) == Some(reports)
      {
        assert chunks[..i + 1][..i] == chunks[..i] && chunks[..i + 1][i] == chunks[i];
        var reply := server(chunks[i]);
        if reply.Raised? {
          ErrorIsFinal(before, chunks, server, i + 1);
          reports := before;
          return false, batches;
        }
        var rows := if reply.Rows? then reply.rows else [];
        NothingStaged(reports);
        if rows != [] { reports := Upsert(reports, rows); }
      }
      assert chunks[..|chunks|] == chunks;
      return true, batches;
    }

    /**
     A run that raises nowhere moves both checkpoints to the same bound, whether or not its replies carry rows,
     and brings the reports of exactly the answered shipments up to date; any other run changes nothing.
     */
    method ProcessNdrProxyUnit(r: ProxyRun, ghost remote: Remote) returns (ok: bool, ghost batches: seq<seq<Awb>>)
      requires batchSize > 0
      modifies this
      ensures State() == Advance(old(State()), r.(asking := r.asking.(batches := batches)), cfg)
      ensures Proceeds(old(State()), r, cfg) ==> forall awb :: Asked(batches, awb) <==> awb in Affected(r)
      ensures forall i :: 0 <= i < |batches| ==> 0 < |batches[i]| <= batchSize
      ensures ok <==> Proceeds(old(State()), r, cfg) && UpsertBatches(old(reports), batches, r.asking.server).Some?
      ensures ok <==>
        && r.locked && !r.lineItems.Raised? && !r.actions.Raised?
        && (old(lineItems).Some? ==> r.upper - old(lineItems).value >= cfg.cadence)
        && forall i :: 0 <= i < |batches| ==> !r.asking.server(batches[i]).Raised?
      ensures ok ==> lineItems == Some(r.upper) && actionLog == Some(r.upper)
      ensures !ok ==> State() == old(State())
      ensures ok && Truthful(r.asking.server, remote) ==> forall awb ::
        VersionsOf(reports, awb) == if Answered(batches, r.asking.server, awb) && awb in remote
                                    then [remote[awb]] else VersionsOf(old(reports), awb)
    {
      batches := [];
      if !Due(lineItems, r.locked, r.upper, cfg) { return false, []; }
      if r.lineItems.Raised? || r.actions.Raised? { return false, []; }
      var fromLineItems := if r.lineItems.Rows? then r.lineItems.rows else [];
      var fromActions := if r.actions.Rows? then r.actions.rows else [];
      ok, batches := FetchReports(Named(fromLineItems) + Named(fromActions), r.asking.server);
      BatchesGoThrough(old(reports), batches, r.asking.server);
      if !ok { return; }
      if Truthful(r.asking.server, remote) {
        forall awb
          ensures VersionsOf(reports, awb) == if Answered(batches, r.asking.server, awb) && awb in remote
                                              then [remote[awb]] else VersionsOf(old(reports), awb)
        {
          AskedReportsAreCurrent(old(reports), batches, r.asking.server, remote, awb);
        }
      }
      lineWindows := lineWindows + [WindowOf(lineItems, LineAttempt(r), cfg)];
      actionWindows := actionWindows + [WindowOf(actionLog, ActionAttempt(r), cfg)];
      asked := asked + [r.asking.(batches := batches)];
      lineItems, actionLog := Some(r.upper), Some(r.upper);
    }
  }

  lemma {:induction false} ErrorIsFinal(table: seq<Row>, batches: seq<seq<Awb>>, server: Server, i: nat)
    requires i <= |batches| && UpsertBatches(table, batches[..i], server).None?
    ensures UpsertBatches(table, batches, server).None?
  {
    if i < |batches| {
      assert batches[..|batches| - 1][..i] == batches[..i];
      ErrorIsFinal(table, batches[..|batches| - 1], server, i);
    } else {
      assert batches[..i] == batches;
    }
  }
}
