/**
 The knowledge database and one ingestion into it: tables with check-then-write helpers, the writes of a
 configuration in order, and their transaction.
 */
module AzmStore {
  import opened Common

  type Id = int

  datatype Row<K, V> = Row(id: Id, key: K, value: V)

  type Table<K, V> = seq<Row<K, V>>

  /** What the outside decides: which writes raise, the identifiers drawn, and a fault in the counts after the commit. */
  datatype Chance = Chance(raises: nat -> bool, spare: nat -> Id, countsRaise: bool)

  // ================================================================ check, then write

  /** The first row with this key. */
  function Find<K(==), V>(t: Table<K, V>, key: K): (r: Option<nat>)
    ensures r.Some? ==> r.value < |t| && t[r.value].key == key
    ensures r.None? ==> forall i :: 0 <= i < |t| ==> t[i].key != key
  {
    if t == [] then None
    else
      match Find(t[..|t| - 1], key)
      case Some(i) => Some(i)
      case None => if t[|t| - 1].key == key then Some(|t| - 1) else None
  }

  function Ids<K, V>(t: Table<K, V>): set<Id> { set i | 0 <= i < |t| :: t[i].id }

  function Keys<K, V>(t: Table<K, V>): set<K> { set i | 0 <= i < |t| :: t[i].key }

  datatype Placed<K, V> = Raised | Placed(table: Table<K, V>, id: Id)

  /** Update the row with this key, or insert one under a drawn id; an id in use violates the primary key. */
  function Put<K(==), V>(t: Table<K, V>, key: K, value: V, merge: (V, V) -> V, n: nat, ch: Chance): Placed<K, V> {
    if ch.raises(n) then Raised
    else
      match Find(t, key)
      case Some(i) => Placed(t[i := t[i].(value := merge(t[i].value, value))], t[i].id)
      case None => if ch.spare(n) in Ids(t) then Raised else Placed(t + [Row(ch.spare(n), key, value)], ch.spare(n))
  }

  ghost predicate UniqueKeys<K, V>(t: Table<K, V>) { forall i, j :: 0 <= i < j < |t| ==> t[i].key != t[j].key }

  predicate UniqueIds<K, V>(t: Table<K, V>) { forall i, j :: 0 <= i < j < |t| ==> t[i].id != t[j].id }

  /** No row goes away or changes its id or key. */
  ghost predicate Kept<K, V>(t: Table<K, V>, t': Table<K, V>) {
    |t| <= |t'| && forall i :: 0 <= i < |t| ==> t'[i].id == t[i].id && t'[i].key == t[i].key
  }

  ghost predicate Sound<K, V>(t: Table<K, V>) { UniqueKeys(t) && UniqueIds(t) }

  lemma PutIsSound<K, V>(t: Table<K, V>, key: K, value: V, merge: (V, V) -> V, n: nat, ch: Chance)
    requires Sound(t)
    ensures var p := Put(t, key, value, merge, n, ch); p.Placed? ==> Sound(p.table) && Kept(t, p.table)
  {
  }

  /** A table's ids and keys grow by exactly the row that was put. */
  lemma PutGrows<K, V>(t: Table<K, V>, key: K, value: V, merge: (V, V) -> V, n: nat, ch: Chance)
    ensures var p := Put(t, key, value, merge, n, ch);
            p.Placed? ==> Ids(p.table) == Ids(t) + {p.id} && Keys(p.table) == Keys(t) + {key}
  {
    var p := Put(t, key, value, merge, n, ch);
    if p.Placed? {
      var t' := p.table;
      var at := match Find(t, key) case Some(i) => i case None => |t|;
      assert forall i :: 0 <= i < |t| ==> t'[i].id == t[i].id && t'[i].key == t[i].key;
      assert t'[at].id == p.id && t'[at].key == key;
      forall id | id in Ids(t) + {p.id} ensures id in Ids(t') {
        if id in Ids(t) { var i :| 0 <= i < |t| && t[i].id == id; assert t'[i].id == id; }
      }
      forall k | k in Keys(t) + {key} ensures k in Keys(t') {
        if k in Keys(t) { var i :| 0 <= i < |t| && t[i].key == k; assert t'[i].key == k; }
      }
    }
  }

  // ================================================================ the store

  datatype ConceptValue = ConceptValue(namespace: Id, name: string, kind: string, definition: string, provenance: Id)
  datatype Detail = Detail(text: string, description: string, provenance: Id)
  datatype AttrValue = AttrValue(kind: string, description: string, derived: bool, channel: bool, provenance: Id)

  /** A COMPLETED run; a run that is not committed leaves no row. */
  datatype RunRow = RunRow(id: Id, source: string, hash: int)

  datatype Store = Store(
    runs: seq<RunRow>,
    provenance: Table<Id, Id>,
    namespaces: Table<string, Detail>,
    concepts: Table<string, ConceptValue>,
    aliases: Table<(Id, string), Id>,
    relationships: Table<(Id, Id, string), Id>,
    refs: Table<(Id, string), Detail>,
    attrs: Table<(Id, string), AttrValue>,
    attrMappings: Table<(Id, Id), Id>,
    externals: Table<(Id, string, string), Detail>)

  const EMPTY: Store := Store([], [], [], [], [], [], [], [], [], [])

  /** Natural keys and ids are unique in every table. */
  ghost predicate AllSound(s: Store) {
    && Sound(s.namespaces) && Sound(s.concepts) && Sound(s.aliases) && Sound(s.relationships)
    && Sound(s.refs) && Sound(s.attrs) && Sound(s.attrMappings) && Sound(s.externals)
  }

  ghost predicate ConceptsLinked(concepts: Table<string, ConceptValue>, namespaces: set<Id>) {
    forall i :: 0 <= i < |concepts| ==> concepts[i].value.namespace in namespaces
  }

  ghost predicate FirstLinked<B>(keys: set<(Id, B)>, owners: set<Id>) { forall k :: k in keys ==> k.0 in owners }

  ghost predicate RelationshipsLinked(keys: set<(Id, Id, string)>, concepts: set<Id>) {
    forall k :: k in keys ==> k.0 in concepts && k.1 in concepts
  }

  ghost predicate MappingsLinked(keys: set<(Id, Id)>, concepts: set<Id>, attrs: set<Id>) {
    forall k :: k in keys ==> k.0 in concepts && k.1 in attrs
  }

  ghost predicate ExternalsLinked(keys: set<(Id, string, string)>, concepts: set<Id>) {
    forall k :: k in keys ==> k.0 in concepts
  }

  /** Every relationship and mapping points to existing rows, every field to its view, every view to its namespace. */
  ghost predicate Linked(s: Store) {
    && ConceptsLinked(s.concepts, Ids(s.namespaces)) && FirstLinked(Keys(s.aliases), Ids(s.concepts))
    && RelationshipsLinked(Keys(s.relationships), Ids(s.concepts)) && FirstLinked(Keys(s.refs), Ids(s.namespaces))
    && FirstLinked(Keys(s.attrs), Ids(s.refs)) && MappingsLinked(Keys(s.attrMappings), Ids(s.concepts), Ids(s.attrs))
    && ExternalsLinked(Keys(s.externals), Ids(s.concepts))
  }

  ghost predicate StoreOk(s: Store) { AllSound(s) && Linked(s) }

  /** Ids are stable: every row of every table keeps its id and its natural key. */
  ghost predicate AllKept(s: Store, s': Store) {
    && Kept(s.namespaces, s'.namespaces) && Kept(s.concepts, s'.concepts) && Kept(s.aliases, s'.aliases)
    && Kept(s.relationships, s'.relationships) && Kept(s.refs, s'.refs) && Kept(s.attrs, s'.attrs)
    && Kept(s.attrMappings, s'.attrMappings) && Kept(s.externals, s'.externals) && s.runs <= s'.runs
  }

  // ================================================================ configurations

  datatype ConceptDef = ConceptDef(key: string, name: string, kind: string, definition: string, aliases: seq<string>)
  datatype RelationshipDef = RelationshipDef(source: string, target: string, kind: string)
  datatype FieldDef = FieldDef(name: string, kind: string, description: string, derived: bool, channel: bool, mappedKey: string)
  datatype ViewDef = ViewDef(name: string, surface: string, description: string, fields: seq<FieldDef>)
  datatype ExternalDef = ExternalDef(nativeKey: string, system: string, externalKey: string, display: string)

  datatype Config = Config(
    source: string, namespace: string, namespaceDetail: string, semantic: string, schematic: string,
    concepts: seq<ConceptDef>, relationships: seq<RelationshipDef>, views: seq<ViewDef>, externals: seq<ExternalDef>)

  // ================================================================ the writes of one run

  /** The open transaction: its view of the store, the writes so far, and the ids the code keeps in variables. */
  datatype Work = Work(store: Store, used: nat, ids: map<string, Id>, run: Id, namespace: Id, provenance: Id, view: Id)

  /** A field names the view it belongs to; the code keeps that view's id in a variable. */
  datatype Command =
    | OpenNamespace(name: string, detail: string)
    | AddConcept(concept: ConceptDef)
    | AddRelationship(relationship: RelationshipDef)
    | OpenSchematic
    | AddView(view: ViewDef)
    | AddField(of: string, field: FieldDef)
    | AddExternal(mapping: ExternalDef)

  function Replace<V>(): (V, V) -> V { (row: V, given: V) => given }

  function Leave<V>(): (V, V) -> V { (row: V, given: V) => row }

  /** An existing concept stays in its namespace. */
  function StayInNamespace(): (ConceptValue, ConceptValue) -> ConceptValue {
    (row: ConceptValue, given: ConceptValue) => given.(namespace := row.namespace)
  }

  function Drawn(w: Work): Work { w.(used := w.used + 1) }

  /** A provenance row for the assertions that follow. */
  function Provenance(w: Work, ch: Chance): Option<Work> {
    var id := ch.spare(w.used);
    if ch.raises(w.used) || id in Ids(w.store.provenance) then None
    else Some(Drawn(w).(store := w.store.(provenance := w.store.provenance + [Row(id, id, w.run)]), provenance := id))
  }

  function PutAliases(w: Work, concept: Id, aliases: seq<string>, ch: Chance): Option<Work> {
    if aliases == [] then Some(w)
    else
      match PutAliases(w, concept, aliases[..|aliases| - 1], ch)
      case None => None
      case Some(w) =>
        match Put(w.store.aliases, (concept, aliases[|aliases| - 1]), 0, Leave(), w.used, ch)
        case Raised => None
        case Placed(t, _) => Some(Drawn(w).(store := w.store.(aliases := t)))
  }

  function PutNamespace(w: Work, name: string, detail: string, ch: Chance): Option<Work> {
    match Put(w.store.namespaces, name, Detail(detail, "", 0), Leave(), w.used, ch)
    case Raised => None
    case Placed(t, id) => Some(Drawn(w).(store := w.store.(namespaces := t), namespace := id))
  }

  function PutConcept(w: Work, c: ConceptDef, ch: Chance): Option<(Work, Id)> {
    var value := ConceptValue(w.namespace, c.name, c.kind, c.definition, w.provenance);
    match Put(w.store.concepts, c.key, value, StayInNamespace(), w.used, ch)
    case Raised => None
    case Placed(t, id) => Some((Drawn(w).(store := w.store.(concepts := t), ids := w.ids[c.key := id]), id))
  }

  function PutRelationship(w: Work, source: Id, target: Id, kind: string, ch: Chance): Option<Work> {
    match Put(w.store.relationships, (source, target, kind), w.provenance, Replace(), w.used, ch)
    case Raised => None
    case Placed(t, _) => Some(Drawn(w).(store := w.store.(relationships := t)))
  }

  function PutView(w: Work, v: ViewDef, ch: Chance): Option<Work> {
    match Put(w.store.refs, (w.namespace, v.name), Detail(v.surface, v.description, w.provenance), Replace(), w.used, ch)
    case Raised => None
    case Placed(t, id) => Some(Drawn(w).(store := w.store.(refs := t), view := id))
  }

  function AttrOf(f: FieldDef, provenance: Id): AttrValue { AttrValue(f.kind, f.description, f.derived, f.channel, provenance) }

  function PutField(w: Work, f: FieldDef, ch: Chance): Option<(Work, Id)> {
    match Put(w.store.attrs, (w.view, f.name), AttrOf(f, w.provenance), Replace(), w.used, ch)
    case Raised => None
    case Placed(t, id) => Some((Drawn(w).(store := w.store.(attrs := t)), id))
  }

  function PutMapping(w: Work, concept: Id, attr: Id, ch: Chance): Option<Work> {
    match Put(w.store.attrMappings, (concept, attr), w.provenance, Replace(), w.used, ch)
    case Raised => None
    case Placed(t, _) => Some(Drawn(w).(store := w.store.(attrMappings := t)))
  }

  function PutExternal(w: Work, concept: Id, m: ExternalDef, ch: Chance): Option<Work> {
    match Put(w.store.externals, (concept, m.system, m.externalKey), Detail(m.display, "", w.provenance), Replace(), w.used, ch)
    case Raised => None
    case Placed(t, _) => Some(Drawn(w).(store := w.store.(externals := t)))
  }

  /** The concept of this run with the key, else one of any namespace. */
  function NativeConcept(w: Work, key: string): Option<Id> {
    if key in w.ids then Some(w.ids[key])
    else match Find(w.store.concepts, key) case Some(i) => Some(w.store.concepts[i].id) case None => None
  }

  function Exec(w: Work, c: Command, ch: Chance): Option<Work> {
    match c
    case OpenNamespace(name, detail) => PutNamespace(w, name, detail, ch)
    case AddConcept(def) => ExecConcept(w, def, ch)
    case AddRelationship(def) => ExecRelationship(w, def, ch)
    case OpenSchematic => Provenance(w, ch)
    case AddView(v) => PutView(w, v, ch)
    case AddField(_, f) => ExecField(w, f, ch)
    case AddExternal(m) =>
      var concept := NativeConcept(w, m.nativeKey);
      if concept.None? then Some(w) else PutExternal(w, concept.value, m, ch)
  }

  function ExecConcept(w: Work, c: ConceptDef, ch: Chance): Option<Work> {
    match Provenance(w, ch)
    case None => None
    case Some(w) =>
      match PutConcept(w, c, ch)
      case None => None
      case Some((w, id)) => PutAliases(w, id, c.aliases, ch)
  }

  /** Both ends must be concepts of this configuration. */
  function ExecRelationship(w: Work, r: RelationshipDef, ch: Chance): Option<Work> {
    if r.source !in w.ids || r.target !in w.ids then None
    else
      match Provenance(w, ch)
      case None => None
      case Some(w') => PutRelationship(w', w.ids[r.source], w.ids[r.target], r.kind, ch)
  }

  /** A field whose mapped key is no concept of this configuration gets no mapping. */
  function ExecField(w: Work, f: FieldDef, ch: Chance): Option<Work> {
    match PutField(w, f, ch)
    case None => None
    case Some((w', attr)) =>
      if f.mappedKey != "" && f.mappedKey in w'.ids then PutMapping(w', w'.ids[f.mappedKey], attr, ch) else Some(w')
  }

  function ExecAll(w: Option<Work>, commands: seq<Command>, ch: Chance): Option<Work> {
    if commands == [] then w
    else
      match ExecAll(w, commands[..|commands| - 1], ch)
      case None => None
      case Some(before) => Exec(before, commands[|commands| - 1], ch)
  }

  function Concepts(defs: seq<ConceptDef>): seq<Command> {
    if defs == [] then [] else Concepts(defs[..|defs| - 1]) + [AddConcept(defs[|defs| - 1])]
  }

  function Relationships(defs: seq<RelationshipDef>): seq<Command> {
    if defs == [] then [] else Relationships(defs[..|defs| - 1]) + [AddRelationship(defs[|defs| - 1])]
  }

  function Fields(of: string, defs: seq<FieldDef>): seq<Command> {
    if defs == [] then [] else Fields(of, defs[..|defs| - 1]) + [AddField(of, defs[|defs| - 1])]
  }

  function Views(defs: seq<ViewDef>): seq<Command> {
    if defs == [] then []
    else Views(defs[..|defs| - 1]) + [AddView(defs[|defs| - 1])] + Fields(defs[|defs| - 1].name, defs[|defs| - 1].fields)
  }

  function Externals(defs: seq<ExternalDef>): seq<Command> {
    if defs == [] then [] else Externals(defs[..|defs| - 1]) + [AddExternal(defs[|defs| - 1])]
  }

  function Writes(c: Config): seq<Command> {
    [OpenNamespace(c.namespace, c.namespaceDetail)] + Concepts(c.concepts) + Relationships(c.relationships)
    + [OpenSchematic] + Views(c.views) + Externals(c.externals)
  }

  // ================================================================ one ingestion

  datatype Status = Skipped | Completed | Failed | Escaped

  predicate AlreadyIngested(runs: seq<RunRow>, source: string, hash: int) {
    exists i :: 0 <= i < |runs| && runs[i].source == source && runs[i].hash == hash
  }

  function Start(s: Store, ch: Chance): Work { Work(s, 1, map[], ch.spare(0), 0, 0, 0) }

  /** Writes, completion of the run and commit, as far as they get. */
  function Transaction(s: Store, c: Config, hash: int, ch: Chance): Option<Store> {
    match ExecAll(Some(Start(s, ch)), Writes(c), ch)
    case None => None
    case Some(w) =>
      if ch.raises(w.used) || ch.raises(w.used + 1) then None
      else Some(w.store.(runs := w.store.runs + [RunRow(w.run, c.source, hash)]))
  }

  function Joined(c: Config): string { c.semantic + c.schematic }

  /**
   The hash is taken over both contracts joined. The run row is inserted before the error handling
   begins; the rollback removes it, so the handler's own update finds nothing to mark as failed.
   */
  function IngestStore(s: Store, c: Config, digest: string -> int, ch: Chance): (Store, Status) {
    var hash := digest(Joined(c));
    if AlreadyIngested(s.runs, c.source, hash) then (s, Skipped)
    else if ch.raises(0) || exists i :: 0 <= i < |s.runs| && s.runs[i].id == ch.spare(0) then (s, Escaped)
    else
      match Transaction(s, c, hash, ch)
      case None => (s, Failed)
      case Some(s') => (s', if ch.countsRaise then Failed else Completed)
  }
}
