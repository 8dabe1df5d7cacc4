/**
 Mapping of raw physical evidence to canonical concepts: a nested payload is walked leaf by leaf, and
 each leaf ends up mapped, unmapped or ambiguous.
 */
module SemanticMapper {
  import opened Common

  type ConceptId = string

  /** A payload in the order of its keys; a leaf value is anything but a dictionary. */
  datatype Node<V> = Leaf(value: V) | Dict(entries: seq<Entry<V>>)

  datatype Entry<V> = Entry(key: string, node: Node<V>)

  /** A leaf as the walk meets it: its own key, its dotted path, and whether it is nested. */
  datatype Item<V> = Item(key: string, path: string, nested: bool, value: V)

  /** Several concepts for one leaf, or several leaves for one concept. */
  datatype Ambiguity<V> = Several(value: V, candidates: seq<ConceptId>) | Collision(values: seq<V>)

  datatype Evidence<V> = Evidence(mapped: map<ConceptId, V>, unmapped: map<string, V>, ambiguous: map<string, Ambiguity<V>>)

  type Resolver = string -> seq<ConceptId>

  function Path(prefix: string, key: string): string { if prefix != "" then prefix + "." + key else key }

  /** The leaves of a payload, in the order of the walk. */
  function Items<V>(entries: seq<Entry<V>>, prefix: string): seq<Item<V>>
    decreases entries
  {
    if entries == [] then []
    else
      ItemsOf(entries[0], prefix) + Items(entries[1..], prefix)
  }

  function ItemsOf<V>(entry: Entry<V>, prefix: string): seq<Item<V>>
    decreases entry
  {
    match entry.node
    case Leaf(v) => [Item(entry.key, Path(prefix, entry.key), prefix != "", v)]
    case Dict(inner) => Items(inner, Path(prefix, entry.key))
  }

  // ================================================================ which leaves a payload has

  /** Following these keys from entry to entry leads to a leaf with this value. */
  ghost predicate LeadsTo<V>(entries: seq<Entry<V>>, keys: seq<string>, value: V)
    decreases |keys|
  {
    exists i :: 0 <= i < |entries| && EntryLeadsTo(entries[i], keys, value)
  }

  ghost predicate EntryLeadsTo<V>(entry: Entry<V>, keys: seq<string>, value: V)
    decreases |keys|, 0
  {
    && keys != [] && entry.key == keys[0]
    && match entry.node
       case Leaf(v) => |keys| == 1 && v == value
       case Dict(inner) => |keys| > 1 && LeadsTo(inner, keys[1..], value)
  }

  /** The keys joined by dots behind a prefix; an empty prefix is none. */
  function Dotted(prefix: string, keys: seq<string>): string
    requires keys != []
    decreases |keys|
  {
    var first := if prefix == "" then keys[0] else prefix + "." + keys[0];
    if |keys| == 1 then first else Dotted(first, keys[1..])
  }

  /** What the last key is joined to. */
  function DottedBefore(prefix: string, keys: seq<string>): string
    requires keys != []
    decreases |keys|
  {
    if |keys| == 1 then prefix else DottedBefore(if prefix == "" then keys[0] else prefix + "." + keys[0], keys[1..])
  }

  /** The item for a leaf reached by these keys. */
  ghost predicate Locates<V>(item: Item<V>, prefix: string, keys: seq<string>) {
    && keys != [] && item.key == keys[|keys| - 1] && item.path == Dotted(prefix, keys)
    && (item.nested <==> DottedBefore(prefix, keys) != "")
  }

  ghost predicate Found<V>(entries: seq<Entry<V>>, item: Item<V>, prefix: string) {
    exists keys :: LeadsTo(entries, keys, item.value) && Locates(item, prefix, keys)
  }

  ghost predicate FoundIn<V>(entry: Entry<V>, item: Item<V>, prefix: string) {
    exists keys :: EntryLeadsTo(entry, keys, item.value) && Locates(item, prefix, keys)
  }

  lemma FoundInOneOf<V>(entries: seq<Entry<V>>, item: Item<V>, prefix: string)
    requires entries != []
    ensures Found(entries, item, prefix) <==> FoundIn(entries[0], item, prefix) || Found(entries[1..], item, prefix)
  {
    if keys :| EntryLeadsTo(entries[0], keys, item.value) && Locates(item, prefix, keys) { assert LeadsTo(entries, keys, item.value); }
    if keys :| LeadsTo(entries[1..], keys, item.value) && Locates(item, prefix, keys) {
      var i :| 0 <= i < |entries[1..]| && EntryLeadsTo(entries[1..][i], keys, item.value);
      assert EntryLeadsTo(entries[i + 1], keys, item.value);
      assert LeadsTo(entries, keys, item.value);
    }
    if keys :| LeadsTo(entries, keys, item.value) && Locates(item, prefix, keys) {
      var i :| 0 <= i < |entries| && EntryLeadsTo(entries[i], keys, item.value);
      if i > 0 {
        assert entries[1..][i - 1] == entries[i];
        assert LeadsTo(entries[1..], keys, item.value);
      }
    }
  }

  lemma FoundInDictionary<V>(entry: Entry<V>, item: Item<V>, prefix: string)
    requires entry.node.Dict?
    ensures FoundIn(entry, item, prefix) <==> Found(entry.node.entries, item, Path(prefix, entry.key))
  {
    if keys :| EntryLeadsTo(entry, keys, item.value) && Locates(item, prefix, keys) {
      assert Locates(item, Path(prefix, entry.key), keys[1..]);
    }
    if keys :| LeadsTo(entry.node.entries, keys, item.value) && Locates(item, Path(prefix, entry.key), keys) {
      var longer := [entry.key] + keys;
      assert longer[1..] == keys && EntryLeadsTo(entry, longer, item.value) && Locates(item, prefix, longer);
    }
  }

  lemma FoundInLeaf<V>(entry: Entry<V>, item: Item<V>, prefix: string)
    requires entry.node.Leaf?
    ensures FoundIn(entry, item, prefix) <==> item == Item(entry.key, Path(prefix, entry.key), prefix != "", entry.node.value)
  {
    if item == Item(entry.key, Path(prefix, entry.key), prefix != "", entry.node.value) {
      assert EntryLeadsTo(entry, [entry.key], item.value) && Locates(item, prefix, [entry.key]);
    }
  }

  /** The walk meets exactly the leaves of the payload, at any depth, each with its last key and its dotted path. */
  lemma {:induction false} TheWalkMeetsEveryLeaf<V>(entries: seq<Entry<V>>, item: Item<V>, prefix: string)
    ensures item in Items(entries, prefix) <==> Found(entries, item, prefix)
    decreases entries, 1
  {
    if entries != [] {
      FoundInOneOf(entries, item, prefix);
      TheWalkMeetsTheEntry(entries[0], item, prefix);
      TheWalkMeetsEveryLeaf(entries[1..], item, prefix);
    }
  }

  lemma {:induction false} TheWalkMeetsTheEntry<V>(entry: Entry<V>, item: Item<V>, prefix: string)
    ensures item in ItemsOf(entry, prefix) <==> FoundIn(entry, item, prefix)
    decreases entry, 0
  {
    match entry.node
    case Leaf(_) => FoundInLeaf(entry, item, prefix);
    case Dict(inner) =>
      FoundInDictionary(entry, item, prefix);
      TheWalkMeetsEveryLeaf(inner, item, Path(prefix, entry.key));
  }

  // ================================================================ one leaf

  /** The leaf's key first; a nested leaf may also resolve by its whole path. */
  function Candidates<V>(resolve: Resolver, item: Item<V>): seq<ConceptId> {
    if resolve(item.key) == [] && item.nested then resolve(item.path) else resolve(item.key)
  }

  /** The leaf's own key decides if it resolves at all; else the whole path of a nested leaf. */
  lemma KeysComeFirst<V>(resolve: Resolver, item: Item<V>)
    ensures resolve(item.key) != [] ==> Candidates(resolve, item) == resolve(item.key)
    ensures resolve(item.key) == [] ==> Candidates(resolve, item) == if item.nested then resolve(item.path) else []
  {
  }

  /** Absent when the code would append to an entry that is no list. */
  function Record<V>(e: Evidence<V>, item: Item<V>, candidates: seq<ConceptId>): Option<Evidence<V>> {
    if candidates == [] then Some(e.(unmapped := e.unmapped[item.path := item.value]))
    else if |candidates| > 1 then Some(e.(ambiguous := e.ambiguous[item.path := Several(item.value, candidates)]))
    else
      var id := candidates[0];
      if id !in e.mapped then Some(e.(mapped := e.mapped[id := item.value]))
      else if id !in e.ambiguous then
        Some(e.(mapped := e.mapped - {id}, ambiguous := e.ambiguous[id := Collision([e.mapped[id], item.value])]))
      else
        match e.ambiguous[id]
        case Several(_, _) => None
        case Collision(values) => Some(e.(ambiguous := e.ambiguous[id := Collision(values + [item.value])]))
  }

  function RecordAll<V>(e: Option<Evidence<V>>, items: seq<Item<V>>, resolve: Resolver): Option<Evidence<V>> {
    if items == [] then e
    else
      match RecordAll(e, items[..|items| - 1], resolve)
      case None => None
      case Some(before) => Record(before, items[|items| - 1], Candidates(resolve, items[|items| - 1]))
  }

  function Nothing<V>(): Evidence<V> { Evidence(map[], map[], map[]) }

  lemma {:induction false} RecordAppend<V>(e: Option<Evidence<V>>, a: seq<Item<V>>, b: seq<Item<V>>, resolve: Resolver)
    ensures RecordAll(e, a + b, resolve) == RecordAll(RecordAll(e, a, resolve), b, resolve)
  {
    if b == [] {
      assert a + b == a;
    } else {
      var n := |b| - 1;
      assert (a + b)[..|a + b| - 1] == a + b[..n];
      RecordAppend(e, a, b[..n], resolve);
    }
  }

  // ================================================================ the walk

  class SemanticEvidenceMapper<V> {
    const resolve: Resolver
    var mapped: map<ConceptId, V>
    var unmapped: map<string, V>
    var ambiguous: map<string, Ambiguity<V>>

    ghost function State(): Evidence<V>
      reads this
    {
      Evidence(mapped, unmapped, ambiguous)
    }

    constructor (resolve: Resolver)
      ensures this.resolve == resolve && State() == Nothing()
    {
      this.resolve := resolve;
      mapped, unmapped, ambiguous := map[], map[], map[];
    }

    method MapLeaf(item: Item<V>) returns (ok: bool)
      modifies this
      ensures ok <==> Record(old(State()), item, Candidates(resolve, item)).Some?
      ensures ok ==> State() == Record(old(State()), item, Candidates(resolve, item)).value
    {
      var candidates := resolve(item.key);
      if candidates == [] && item.nested { candidates := resolve(item.path); }
      if candidates == [] {
        unmapped := unmapped[item.path := item.value];
      } else if |candidates| == 1 {
        var id := candidates[0];
        if id in mapped {
          if id !in ambiguous {
            ambiguous := ambiguous[id := Collision([mapped[id], item.value])];
            mapped := mapped - {id};
          } else if ambiguous[id].Collision? {
            ambiguous := ambiguous[id := Collision(ambiguous[id].values + [item.value])];
          } else {
            return false;
          }
        } else {
          mapped := mapped[id := item.value];
        }
      } else {
        ambiguous := ambiguous[item.path := Several(item.value, candidates)];
      }
      return true;
    }

    /** The recursive walk; it stops at the first error. */
    method MapRecursive(entries: seq<Entry<V>>, prefix: string) returns (ok: bool)
      modifies this
      ensures ok <==> RecordAll(Some(old(State())), Items(entries, prefix), resolve).Some?
      ensures ok ==> State() == RecordAll(Some(old(State())), Items(entries, prefix), resolve).value
      decreases entries
    {
      if entries == [] { return true; }
      var entry := entries[0];
      RecordAppend(Some(State()), ItemsOf(entry, prefix), Items(entries[1..], prefix), resolve);
      match entry.node {
        case Dict(inner) =>
          ok := MapRecursive(inner, Path(prefix, entry.key));
        case Leaf(v) =>
          var item := Item(entry.key, Path(prefix, entry.key), prefix != "", v);
          OneItem(State(), item, resolve);
          ok := MapLeaf(item);
      }
      if ok {
        ok := MapRecursive(entries[1..], prefix);
      } else {
        FailureIsFinal<V>(Items(entries[1..], prefix), resolve);
      }
    }
  }

  lemma OneItem<V>(e: Evidence<V>, item: Item<V>, resolve: Resolver)
    ensures RecordAll(Some(e), [item], resolve) == Record(e, item, Candidates(resolve, item))
  {
  }

  lemma {:induction false} FailureIsFinal<V>(items: seq<Item<V>>, resolve: Resolver)
    ensures RecordAll(None, items, resolve) == None
  {
    if items != [] { FailureIsFinal(items[..|items| - 1], resolve); }
  }

  // ================================================================ where every leaf ends up

  /** The values of the leaves that resolve to this concept alone, in order. */
  function Hits<V>(items: seq<Item<V>>, resolve: Resolver, id: ConceptId): seq<V> {
    if items == [] then []
    else
      var n := |items| - 1;
      Hits(items[..n], resolve, id) + if Candidates(resolve, items[n]) == [id] then [items[n].value] else []
  }

  /** Flattened paths are distinct, and none is the id of a concept some leaf resolves to. */
  predicate Distinguishable<V>(items: seq<Item<V>>, resolve: Resolver) {
    && (forall i, j :: 0 <= i < j < |items| ==> items[i].path != items[j].path)
    && (forall i, j :: 0 <= i < |items| && 0 <= j < |items| ==> items[i].path !in Candidates(resolve, items[j]))
  }

  /** What is recorded of a concept that `hits` leaves resolve to alone: the third hit is mapped again. */
  predicate Settled<V(==)>(e: Evidence<V>, id: ConceptId, hits: seq<V>) {
    if hits == [] then id !in e.mapped && id !in e.ambiguous
    else if |hits| == 1 then id in e.mapped && e.mapped[id] == hits[0] && id !in e.ambiguous
    else if |hits| == 2 then id !in e.mapped && id in e.ambiguous && e.ambiguous[id] == Collision(hits)
    else && id in e.mapped && e.mapped[id] == hits[2]
         && id in e.ambiguous && e.ambiguous[id] == Collision(hits[..2] + hits[3..])
  }

  /** A leaf that resolves to nothing is unmapped under its path, one that resolves to several is ambiguous under it. */
  predicate LeafSettled<V(==)>(e: Evidence<V>, item: Item<V>, candidates: seq<ConceptId>) {
    && item.path !in e.mapped
    && (item.path in e.unmapped <==> candidates == []) && (item.path in e.ambiguous <==> |candidates| > 1)
    && (candidates == [] ==> e.unmapped[item.path] == item.value)
    && (|candidates| > 1 ==> e.ambiguous[item.path] == Several(item.value, candidates))
  }

  predicate Untouched<V>(e: Evidence<V>, path: string) { path !in e.mapped && path !in e.unmapped && path !in e.ambiguous }

  predicate IsPath<V>(items: seq<Item<V>>, k: string) { exists i :: 0 <= i < |items| && items[i].path == k }

  /** After the first `n` leaves: those are settled, the others have left no trace. */
  predicate LeavesSettled<V(==)>(e: Evidence<V>, items: seq<Item<V>>, n: nat, resolve: Resolver) {
    forall i :: 0 <= i < |items| ==>
      if i < n then LeafSettled(e, items[i], Candidates(resolve, items[i])) else Untouched(e, items[i].path)
  }

  /** The same for the concepts, and nothing is recorded under any other name. */
  ghost predicate ConceptsSettled<V>(e: Evidence<V>, items: seq<Item<V>>, n: nat, resolve: Resolver)
    requires n <= |items|
  {
    forall k: string :: !IsPath(items, k) ==> k !in e.unmapped && Settled(e, k, Hits(items[..n], resolve, k))
  }

  lemma HitsOfOneMore<V>(items: seq<Item<V>>, n: nat, resolve: Resolver, id: ConceptId)
    requires n < |items|
    ensures Hits(items[..n + 1], resolve, id)
         == Hits(items[..n], resolve, id) + if Candidates(resolve, items[n]) == [id] then [items[n].value] else []
  {
    assert items[..n + 1][..n] == items[..n];
  }

  lemma RecordOnlyTouches<V>(e: Evidence<V>, item: Item<V>, candidates: seq<ConceptId>, k: string)
    requires Record(e, item, candidates).Some?
    requires k != item.path || |candidates| == 1
    requires |candidates| != 1 || k != candidates[0]
    ensures var e' := Record(e, item, candidates).value;
            && (k in e'.mapped <==> k in e.mapped) && (k in e.mapped ==> e'.mapped[k] == e.mapped[k])
            && (k in e'.unmapped <==> k in e.unmapped) && (k in e.unmapped ==> e'.unmapped[k] == e.unmapped[k])
            && (k in e'.ambiguous <==> k in e.ambiguous) && (k in e.ambiguous ==> e'.ambiguous[k] == e.ambiguous[k])
  {
  }

  /** A leaf that resolves to one concept moves that concept on by one hit. */
  lemma OneMoreHit<V>(e: Evidence<V>, item: Item<V>, id: ConceptId, hits: seq<V>)
    requires Settled(e, id, hits)
    ensures Record(e, item, [id]).Some? && Settled(Record(e, item, [id]).value, id, hits + [item.value])
    ensures Record(e, item, [id]).value.unmapped == e.unmapped
  {
  }

  lemma SoleCandidateIsNoPath<V>(items: seq<Item<V>>, n: nat, resolve: Resolver)
    requires Distinguishable(items, resolve) && n < |items| && |Candidates(resolve, items[n])| == 1
    ensures !IsPath(items, Candidates(resolve, items[n])[0])
  {
  }

  lemma NextLeafIsRecorded<V>(e: Evidence<V>, items: seq<Item<V>>, n: nat, resolve: Resolver)
    requires Distinguishable(items, resolve) && n < |items| && ConceptsSettled(e, items, n, resolve)
    ensures Record(e, items[n], Candidates(resolve, items[n])).Some?
  {
    var candidates := Candidates(resolve, items[n]);
    if |candidates| == 1 {
      SoleCandidateIsNoPath(items, n, resolve);
      assert Settled(e, candidates[0], Hits(items[..n], resolve, candidates[0]));
    }
  }

  lemma NextLeafLeaves<V>(e: Evidence<V>, items: seq<Item<V>>, n: nat, resolve: Resolver)
    requires Distinguishable(items, resolve) && n < |items| && LeavesSettled(e, items, n, resolve)
    requires Record(e, items[n], Candidates(resolve, items[n])).Some?
    ensures LeavesSettled(Record(e, items[n], Candidates(resolve, items[n])).value, items, n + 1, resolve)
  {
  }

  lemma NextLeafConcept<V>(e: Evidence<V>, items: seq<Item<V>>, n: nat, resolve: Resolver, k: string)
    requires n < |items| && ConceptsSettled(e, items, n, resolve) && !IsPath(items, k)
    requires Record(e, items[n], Candidates(resolve, items[n])).Some?
    ensures var e' := Record(e, items[n], Candidates(resolve, items[n])).value;
            k !in e'.unmapped && Settled(e', k, Hits(items[..n + 1], resolve, k))
  {
    var candidates := Candidates(resolve, items[n]);
    HitsOfOneMore(items, n, resolve, k);
    assert k !in e.unmapped && Settled(e, k, Hits(items[..n], resolve, k));
    if |candidates| == 1 && candidates[0] == k {
      assert candidates == [k];
      OneMoreHit(e, items[n], k, Hits(items[..n], resolve, k));
    } else {
      assert candidates != [k] && items[n].path != k;
      RecordOnlyTouches(e, items[n], candidates, k);
    }
  }

  lemma NextLeaf<V>(e: Evidence<V>, items: seq<Item<V>>, n: nat, resolve: Resolver)
    requires Distinguishable(items, resolve) && n < |items|
    requires LeavesSettled(e, items, n, resolve) && ConceptsSettled(e, items, n, resolve)
    ensures var r := Record(e, items[n], Candidates(resolve, items[n]));
            r.Some? && LeavesSettled(r.value, items, n + 1, resolve) && ConceptsSettled(r.value, items, n + 1, resolve)
  {
    NextLeafIsRecorded(e, items, n, resolve);
    NextLeafLeaves(e, items, n, resolve);
    forall k: string | !IsPath(items, k)
      ensures var e' := Record(e, items[n], Candidates(resolve, items[n])).value;
              k !in e'.unmapped && Settled(e', k, Hits(items[..n + 1], resolve, k))
    {
      NextLeafConcept(e, items, n, resolve, k);
    }
  }

  lemma RecordNext<V>(e: Option<Evidence<V>>, items: seq<Item<V>>, n: nat, resolve: Resolver)
    requires 0 < n <= |items|
    ensures RecordAll(e, items[..n], resolve) ==
      match RecordAll(e, items[..n - 1], resolve)
      case None => None
      case Some(before) => Record(before, items[n - 1], Candidates(resolve, items[n - 1]))
  {
    assert items[..n][..n - 1] == items[..n - 1];
  }

  lemma {:induction false} LeavesSettle<V>(items: seq<Item<V>>, n: nat, resolve: Resolver)
    requires Distinguishable(items, resolve) && n <= |items|
    ensures var r := RecordAll(Some(Nothing()), items[..n], resolve);
            r.Some? && LeavesSettled(r.value, items, n, resolve) && ConceptsSettled(r.value, items, n, resolve)
  {
    if n > 0 {
      LeavesSettle(items, n - 1, resolve);
      RecordNext(Some(Nothing()), items, n, resolve);
      NextLeaf(RecordAll(Some(Nothing()), items[..n - 1], resolve).value, items, n - 1, resolve);
    }
  }

  // ================================================================ conservation

  /** Everything recorded of a concept. */
  function RecordedFor<V>(e: Evidence<V>, id: ConceptId): seq<V> {
    (if id in e.ambiguous && e.ambiguous[id].Collision? then e.ambiguous[id].values else [])
    + (if id in e.mapped then [e.mapped[id]] else [])
  }

  lemma SettledRecordsEveryHit<V>(e: Evidence<V>, id: ConceptId, hits: seq<V>)
    requires Settled(e, id, hits)
    ensures multiset(RecordedFor(e, id)) == multiset(hits)
  {
    if |hits| > 2 {
      assert hits == hits[..2] + [hits[2]] + hits[3..];
      assert RecordedFor(e, id) == hits[..2] + hits[3..] + [hits[2]];
    } else if |hits| == 2 {
      assert RecordedFor(e, id) == hits + [];
    } else if |hits| == 1 {
      assert RecordedFor(e, id) == hits;
    }
  }

  /**
   For a payload whose dotted paths are distinct and no concept ids, at any depth: the walk succeeds;
   every leaf that resolves to no or to several concepts is recorded once, under its path; and the
   values recorded of a concept are exactly those of the leaves that resolve to it alone.
   */
  lemma EveryLeafIsRecordedOnce<V>(entries: seq<Entry<V>>, resolve: Resolver, id: ConceptId)
    requires Distinguishable(Items(entries, ""), resolve)
    ensures var items, r := Items(entries, ""), RecordAll(Some(Nothing()), Items(entries, ""), resolve);
            && r.Some? && LeavesSettled(r.value, items, |items|, resolve)
            && (!IsPath(items, id) ==> multiset(RecordedFor(r.value, id)) == multiset(Hits(items, resolve, id)))
            && (forall k :: k in r.value.unmapped ==> IsPath(items, k))
  {
    var items := Items(entries, "");
    assert items[..|items|] == items;
    LeavesSettle(items, |items|, resolve);
    var e := RecordAll(Some(Nothing()), items, resolve).value;
    if !IsPath(items, id) { SettledRecordsEveryHit(e, id, Hits(items, resolve, id)); }
  }

  /**
   The exact verdict on a concept: mapped to the value of its only leaf, ambiguous and unmapped for two
   leaves, and for three or more both ambiguous and mapped, to the third value.
   */
  lemma VerdictByHits<V>(entries: seq<Entry<V>>, resolve: Resolver, id: ConceptId)
    requires Distinguishable(Items(entries, ""), resolve) && !IsPath(Items(entries, ""), id)
    ensures var items := Items(entries, "");
            var e, hits := RecordAll(Some(Nothing()), items, resolve), Hits(items, resolve, id);
            && e.Some?
            && (id in e.value.mapped <==> |hits| == 1 || |hits| >= 3)
            && (id in e.value.ambiguous <==> |hits| >= 2)
            && (|hits| == 1 ==> e.value.mapped[id] == hits[0])
            && (|hits| >= 3 ==> e.value.mapped[id] == hits[2])
  {
    var items := Items(entries, "");
    assert items[..|items|] == items;
    LeavesSettle(items, |items|, resolve);
    assert Settled(RecordAll(Some(Nothing()), items, resolve).value, id, Hits(items, resolve, id));
  }

  /** Three leaves, one of them nested, and a resolver that knows one concept. */
  const THREE_LEAVES: seq<Entry<int>> :=
    [Entry("a", Leaf(1)), Entry("b", Leaf(2)), Entry("d", Dict([Entry("c", Leaf(3))]))]

  const THREE_ITEMS: seq<Item<int>> := [Item("a", "a", false, 1)] + [Item("b", "b", false, 2)] + [Item("c", "d.c", true, 3)]

  function OneConcept(key: string): seq<ConceptId> { ["x"] }

  lemma ItemsOfThreeLeaves()
    ensures Items(THREE_LEAVES, "") == THREE_ITEMS
  {
    var entries, inner := THREE_LEAVES, [Entry("c", Leaf(3))];
    assert Path("d", "c") == "d.c" && inner[1..] == [];
    assert Items(inner, "d") == ItemsOf(inner[0], "d") + [];
    assert entries[1..][1..] == [entries[2]] && [entries[2]][1..] == [];
    assert Items([entries[2]], "") == Items(inner, "d") + [];
    assert Items(entries[1..], "") == ItemsOf(entries[1], "") + Items([entries[2]], "");
  }

  /** The concept of three leaves is ambiguous for the first two, and mapped to the third. */
  lemma ThreeLeavesOfOneConcept()
    ensures RecordAll(Some(Nothing()), Items(THREE_LEAVES, ""), OneConcept)
         == Some(Evidence(map["x" := 3], map[], map["x" := Collision([1, 2])]))
  {
    ItemsOfThreeLeaves();
    var a, b, c := THREE_ITEMS[0], THREE_ITEMS[1], THREE_ITEMS[2];
    var e1: Evidence<int>, e2: Evidence<int> := Evidence(map["x" := 1], map[], map[]), Evidence(map[], map[], map["x" := Collision([1, 2])]);
    RecordAppend(Some(Nothing()), [a] + [b], [c], OneConcept);
    RecordAppend(Some(Nothing()), [a], [b], OneConcept);
    OneItem(Nothing(), a, OneConcept);
    OneItem(e1, b, OneConcept);
    OneItem(e2, c, OneConcept);
    assert e1.mapped - {"x"} == map[];
  }
}
