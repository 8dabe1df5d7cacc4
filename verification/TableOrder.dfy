/**
 Deletion order of tables under foreign keys (Kahn's algorithm over the dependency graph).

 `g[t]` is the set of tables that `t` references, so `t` must be emptied before any table in `g[t]`.
 */
module TableOrder {

  type Table = string
  type Graph = map<Table, set<Table>>

  datatype SortResult = Sorted(order: seq<Table>) | CycleDetected

  predicate Distinct(s: seq<Table>) {
    forall i, j :: 0 <= i < j < |s| ==> s[i] != s[j]
  }

  function Members(s: seq<Table>): set<Table> { set t | t in s }

  /** The dependency graph restricted to the tables being deleted. */
  function Restricted(deps: Graph, tables: set<Table>): Graph {
    map t | t in tables :: if t in deps then deps[t] * tables else {}
  }

  ghost predicate Closed(g: Graph) {
    forall t :: t in g ==> g[t] <= g.Keys
  }

  /** A walk of at least one edge that returns to its start. */
  ghost predicate IsWalk(g: Graph, p: seq<Table>) {
    && |p| > 0
    && (forall i :: 0 <= i < |p| ==> p[i] in g)
    && (forall i :: 0 < i < |p| ==> p[i] in g[p[i - 1]])
  }

  ghost predicate HasCycle(g: Graph) {
    exists p :: IsWalk(g, p) && |p| >= 2 && p[0] == p[|p| - 1]
  }

  /** Every table is listed after all the tables that reference it. */
  ghost predicate DependentsFirst(g: Graph, order: seq<Table>) {
    forall j, d :: 0 <= j < |order| && d in g && order[j] in g[d] ==> d in order[..j]
  }

  // ---------------------------------------------------------------- in-degrees

  /** The tables outside `done` that reference `t`. */
  function Pending(g: Graph, done: seq<Table>, t: Table): set<Table> {
    set d | d in g && d !in done && t in g[d]
  }

  lemma PendingAfter(g: Graph, done: seq<Table>, curr: Table, t: Table)
    requires curr in g && curr !in done
    ensures Pending(g, done + [curr], t) == Pending(g, done, t) - {curr}
    ensures |Pending(g, done, t)| == |Pending(g, done + [curr], t)| + (if t in g[curr] then 1 else 0)
  {
  }

  // ---------------------------------------------------------------- finite graphs and cycles

  lemma {:induction false} DistinctCount(s: seq<Table>)
    requires Distinct(s)
    ensures |Members(s)| == |s|
  {
    if s != [] {
      var n := |s| - 1;
      DistinctCount(s[..n]);
      assert Members(s) == Members(s[..n]) + {s[n]};
    }
  }

  lemma SubsetCount(a: set<Table>, b: set<Table>)
    requires a <= b
    ensures |a| <= |b|
    ensures |a| == |b| ==> a == b
  {
    assert b == a + (b - a);
  }

  lemma {:induction false} WalkBackwards(g: Graph, s: set<Table>, n: nat) returns (p: seq<Table>)
    requires s != {} && s <= g.Keys
    requires forall t :: t in s ==> Pending(g, [], t) * s != {}
    ensures |p| == n + 1 && IsWalk(g, p) && forall i :: 0 <= i < |p| ==> p[i] in s
  {
    if n == 0 {
      var t :| t in s;
      p := [t];
    } else {
      var q := WalkBackwards(g, s, n - 1);
      assert q[0] in s;
      var d :| d in Pending(g, [], q[0]) * s;
      p := [d] + q;
    }
  }

  lemma RepeatClosesAWalk(g: Graph, p: seq<Table>, i: nat, j: nat)
    requires IsWalk(g, p) && i < j < |p| && p[i] == p[j]
    ensures HasCycle(g)
  {
    var cycle := p[i..j + 1];
    assert forall k :: 0 <= k < |cycle| ==> cycle[k] == p[i + k];
    assert IsWalk(g, cycle) by {
      forall k | 0 < k < |cycle| ensures cycle[k] in g[cycle[k - 1]] {
        assert cycle[k] == p[i + k] && cycle[k - 1] == p[i + k - 1];
      }
    }
    assert cycle[0] == cycle[|cycle| - 1];
  }

  /** A non-empty set in which every table is referenced from within holds a cycle. */
  lemma LeftoverHasCycle(g: Graph, s: set<Table>)
    requires s != {} && s <= g.Keys
    requires forall t :: t in s ==> Pending(g, [], t) * s != {}
    ensures HasCycle(g)
  {
    var p := WalkBackwards(g, s, |s|);
    if Distinct(p) {
      DistinctCount(p);
      SubsetCount(Members(p), s);
    }
    var i, j :| 0 <= i < j < |p| && p[i] == p[j];
    RepeatClosesAWalk(g, p, i, j);
  }

  lemma {:induction false} WalkGoesForward(g: Graph, order: seq<Table>, p: seq<Table>, i: nat, j: nat)
    requires DependentsFirst(g, order) && Distinct(order) && g.Keys <= Members(order)
    requires IsWalk(g, p) && |p| >= 2 && i < |order| && j < |order|
    requires order[i] == p[0] && order[j] == p[|p| - 1]
    ensures i < j
    decreases |p|
  {
    var n := |p| - 2;
    assert p[n + 1] in g[p[n]];
    assert p[n] in order[..j];
    var m :| 0 <= m < j && order[m] == p[n];
    if n > 0 {
      WalkGoesForward(g, order, p[..n + 1], i, m);
    }
  }

  lemma OrderedGraphHasNoCycle(g: Graph, order: seq<Table>)
    requires DependentsFirst(g, order) && Distinct(order) && g.Keys <= Members(order)
    ensures !HasCycle(g)
  {
    if HasCycle(g) {
      var p :| IsWalk(g, p) && |p| >= 2 && p[0] == p[|p| - 1];
      assert p[0] in Members(order);
      var i :| 0 <= i < |order| && order[i] == p[0];
      WalkGoesForward(g, order, p, i, i);
    }
  }

  // ---------------------------------------------------------------- the algorithm

  /** A dictionary with an empty entry per table, then one intersection per dependent table. */
  method FilterGraph(deps: Graph, tables: seq<Table>) returns (g: Graph)
    ensures g == Restricted(deps, Members(tables))
  {
    var all := set t | t in tables;
    g := map t | t in all :: {};
    var left := deps.Keys;
    while left != {}
      invariant left <= deps.Keys
      invariant g == map t | t in all :: if t in deps && t !in left then deps[t] * all else {}
    {
      var dt :| dt in left;
      left := left - {dt};
      if dt in tables {
        g := g[dt := deps[dt] * all];
      }
    }
  }

  function Bumped(inDegree: map<Table, int>, refs: set<Table>): map<Table, int> {
    map t | t in inDegree :: if t in refs then inDegree[t] + 1 else inDegree[t]
  }

  /** The inner counting loop: one more reference to each table of `references`. */
  method AddReferences(counts: map<Table, int>, references: set<Table>) returns (inDegree: map<Table, int>)
    requires references <= counts.Keys
    ensures inDegree == Bumped(counts, references)
  {
    inDegree := counts;
    var refs := references;
    while refs != {}
      invariant refs <= references
      invariant inDegree == Bumped(counts, references - refs)
    {
      var r :| r in refs;
      refs := refs - {r};
      inDegree := inDegree[r := inDegree[r] + 1];
    }
  }

  /** Counting references from the tables of `from` only. */
  function CountedFrom(g: Graph, from: set<Table>, t: Table): set<Table> {
    set d | d in g && d in from && t in g[d]
  }

  lemma CountOneMore(g: Graph, from: set<Table>, d: Table, t: Table)
    requires d in g && d !in from
    ensures |CountedFrom(g, from + {d}, t)| == |CountedFrom(g, from, t)| + (if t in g[d] then 1 else 0)
  {
    var before := CountedFrom(g, from, t);
    assert CountedFrom(g, from + {d}, t) == if t in g[d] then before + {d} else before;
  }

  method CountReferences(g: Graph) returns (inDegree: map<Table, int>)
    requires Closed(g)
    ensures inDegree.Keys == g.Keys
    ensures forall t :: t in g ==> inDegree[t] == |Pending(g, [], t)|
  {
    inDegree := map t | t in g.Keys :: 0;
    var left := g.Keys;
    assert forall t :: CountedFrom(g, g.Keys - left, t) == {};
    while left != {}
      invariant left <= g.Keys == inDegree.Keys
      invariant forall t :: t in g ==> inDegree[t] == |CountedFrom(g, g.Keys - left, t)|
    {
      var d :| d in left;
      var from := g.Keys - left;
      left := left - {d};
      inDegree := AddReferences(inDegree, g[d]);
      assert g.Keys - left == from + {d};
      forall t | t in g ensures inDegree[t] == |CountedFrom(g, g.Keys - left, t)| {
        CountOneMore(g, from, d, t);
      }
    }
    forall t | t in g ensures inDegree[t] == |Pending(g, [], t)| {
      assert CountedFrom(g, g.Keys - left, t) == Pending(g, [], t);
    }
  }

  /** The queue holds exactly the unlisted tables that nobody unlisted references. */
  ghost predicate Queued(g: Graph, order: seq<Table>, q: seq<Table>, inDegree: map<Table, int>) {
    && Distinct(order) && Distinct(q)
    && g.Keys == inDegree.Keys
    && (forall t :: t in order ==> t in g && t !in q)
    && (forall t :: t in q ==> t in g)
    && (forall t :: t in g ==> (t in order || t in q <==> inDegree[t] == 0))
  }

  /** In-degrees with the edges from the last listed table to `refs` still to be removed. */
  ghost predicate Counts(g: Graph, order: seq<Table>, inDegree: map<Table, int>, refs: set<Table>) {
    && g.Keys == inDegree.Keys
    && forall t :: t in g ==> inDegree[t] == |Pending(g, order, t)| + (if t in refs then 1 else 0)
  }

  lemma CountsAfter(g: Graph, order: seq<Table>, curr: Table, inDegree: map<Table, int>)
    requires Counts(g, order, inDegree, {}) && curr in g && curr !in order
    ensures Counts(g, order + [curr], inDegree, g[curr])
  {
    forall t | t in g ensures inDegree[t] == |Pending(g, order + [curr], t)| + (if t in g[curr] then 1 else 0) {
      PendingAfter(g, order, curr, t);
    }
  }

  lemma ListingKeepsDependentsFirst(g: Graph, order: seq<Table>, curr: Table)
    requires DependentsFirst(g, order) && Pending(g, order, curr) == {}
    ensures DependentsFirst(g, order + [curr])
  {
    var order' := order + [curr];
    forall j, d | 0 <= j < |order'| && d in g && order'[j] in g[d] ensures d in order'[..j] {
      if j < |order| {
        assert order'[..j] == order[..j];
      } else {
        assert order'[..j] == order;
        assert d !in Pending(g, order, curr);
      }
    }
  }

  /** The inner loop: remove the edges to `references`, queueing the tables this frees. */
  method RemoveEdges(g: Graph, ghost order: seq<Table>, queue: seq<Table>, counts: map<Table, int>, references: set<Table>)
    returns (q: seq<Table>, inDegree: map<Table, int>)
    requires Closed(g) && references <= g.Keys
    requires Queued(g, order, queue, counts) && Counts(g, order, counts, references)
    ensures Queued(g, order, q, inDegree) && Counts(g, order, inDegree, {})
  {
    q, inDegree := queue, counts;
    var refs := references;
    while refs != {}
      invariant refs <= g.Keys
      invariant Queued(g, order, q, inDegree) && Counts(g, order, inDegree, refs)
    {
      var r :| r in refs;
      refs := refs - {r};
      inDegree := inDegree[r := inDegree[r] - 1];
      if inDegree[r] == 0 {
        q := q + [r];
      }
    }
  }

  lemma DequeueKeepsQueued(g: Graph, order: seq<Table>, q: seq<Table>, inDegree: map<Table, int>)
    requires q != [] && Queued(g, order, q, inDegree)
    ensures Queued(g, order + [q[0]], q[1..], inDegree)
  {
    assert q == [q[0]] + q[1..];
    assert q[0] in q;
    assert forall t :: t in order + [q[0]] <==> t in order || t == q[0];
  }

  lemma ListFirstQueued(g: Graph, order: seq<Table>, q: seq<Table>, inDegree: map<Table, int>)
    requires q != [] && Closed(g)
    requires Queued(g, order, q, inDegree) && Counts(g, order, inDegree, {}) && DependentsFirst(g, order)
    ensures q[0] in g && g[q[0]] <= g.Keys && DependentsFirst(g, order + [q[0]])
    ensures Queued(g, order + [q[0]], q[1..], inDegree) && Counts(g, order + [q[0]], inDegree, g[q[0]])
    ensures |g.Keys - Members(order + [q[0]])| < |g.Keys - Members(order)|
  {
    var curr := q[0];
    assert curr in q && curr !in order && |Pending(g, order, curr)| == 0;
    CountsAfter(g, order, curr, inDegree);
    ListingKeepsDependentsFirst(g, order, curr);
    assert curr in g.Keys - Members(order);
    assert g.Keys - Members(order + [curr]) == (g.Keys - Members(order)) - {curr};
    DequeueKeepsQueued(g, order, q, inDegree);
  }

  /** What a drained queue means: a full listing, or a cycle. */
  lemma Drained(g: Graph, order: seq<Table>, inDegree: map<Table, int>, tables: seq<Table>)
    requires Distinct(tables) && g.Keys == Members(tables)
    requires Queued(g, order, [], inDegree) && Counts(g, order, inDegree, {}) && DependentsFirst(g, order)
    ensures |order| != |tables| <==> HasCycle(g)
    ensures |order| == |tables| ==> Members(order) == g.Keys
  {
    DistinctCount(order);
    DistinctCount(tables);
    assert Members(order) <= g.Keys;
    SubsetCount(Members(order), g.Keys);
    if |order| != |tables| {
      BlockedTablesHaveACycle(g, order, inDegree);
    } else {
      OrderedGraphHasNoCycle(g, order);
    }
  }

  method TopologicalSort(deps: Graph, tables: seq<Table>) returns (result: SortResult)
    requires Distinct(tables)
    ensures result.CycleDetected? <==> HasCycle(Restricted(deps, Members(tables)))
    ensures result.Sorted? ==>
      && Distinct(result.order) && Members(result.order) == Members(tables)
      && DependentsFirst(Restricted(deps, Members(tables)), result.order)
  {
    var g := FilterGraph(deps, tables);
    var inDegree := CountReferences(g);
    var q := StartQueue(tables, inDegree);
    var order: seq<Table> := [];
    while q != []
      invariant Queued(g, order, q, inDegree) && Counts(g, order, inDegree, {}) && DependentsFirst(g, order)
      decreases |g.Keys - Members(order)|
    {
      ListFirstQueued(g, order, q, inDegree);
      var curr := q[0];
      order := order + [curr];
      q, inDegree := RemoveEdges(g, order, q[1..], inDegree, g[curr]);
    }
    Drained(g, order, inDegree, tables);
    if |order| != |tables| {
      return CycleDetected;
    }
    return Sorted(order);
  }

  method StartQueue(tables: seq<Table>, inDegree: map<Table, int>) returns (q: seq<Table>)
    requires Distinct(tables) && Members(tables) == inDegree.Keys
    ensures Distinct(q) && forall t :: t in q <==> t in inDegree && inDegree[t] == 0
  {
    q := [];
    for i := 0 to |tables|
      invariant Distinct(q)
      invariant forall t :: t in q <==> t in tables[..i] && inDegree[t] == 0
    {
      assert tables[..i + 1] == tables[..i] + [tables[i]];
      if inDegree[tables[i]] == 0 {
        q := q + [tables[i]];
      }
    }
    assert tables[..|tables|] == tables;
    assert forall t :: t in tables <==> t in Members(tables);
  }

  /** When the queue runs dry early, every unlisted table is referenced by an unlisted one. */
  lemma BlockedTablesHaveACycle(g: Graph, order: seq<Table>, inDegree: map<Table, int>)
    requires Queued(g, order, [], inDegree) && Counts(g, order, inDegree, {})
    requires Members(order) != g.Keys
    ensures HasCycle(g)
  {
    var s := g.Keys - Members(order);
    assert Members(order) <= g.Keys;
    forall t | t in s ensures Pending(g, [], t) * s != {} {
      assert |Pending(g, order, t)| != 0;
      var d :| d in Pending(g, order, t);
      assert d in Pending(g, [], t) * s;
    }
    LeftoverHasCycle(g, s);
  }

  /** A table that references itself can never be ordered. */
  lemma SelfReferenceIsACycle(deps: Graph, tables: set<Table>, t: Table)
    requires t in tables && t in deps && t in deps[t]
    ensures HasCycle(Restricted(deps, tables))
  {
    var p := [t, t];
    assert IsWalk(Restricted(deps, tables), p) && p[0] == p[|p| - 1];
  }
}
