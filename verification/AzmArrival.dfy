/** What a committed run leaves in the store: every definition of its configuration, between the right rows. */
module AzmArrival {
  import opened Common
  import opened AzmStore
  import opened AzmInvariants

  // ================================================================ arrival

  predicate ConceptSays(row: Row<string, ConceptValue>, id: Id, def: ConceptDef) {
    && row.id == id && row.key == def.key
    && row.value.name == def.name && row.value.kind == def.kind && row.value.definition == def.definition
  }

  ghost predicate ConceptIn(t: Table<string, ConceptValue>, id: Id, def: ConceptDef) {
    exists i :: 0 <= i < |t| && ConceptSays(t[i], id, def)
  }

  predicate AliasesIn(keys: set<(Id, string)>, id: Id, aliases: seq<string>) {
    forall i :: 0 <= i < |aliases| ==> (id, aliases[i]) in keys
  }

  predicate ViewSays(row: Row<(Id, string), Detail>, namespace: Id, v: ViewDef) {
    row.key == (namespace, v.name) && row.value.text == v.surface && row.value.description == v.description
  }

  ghost predicate ViewIn(t: Table<(Id, string), Detail>, namespace: Id, v: ViewDef) {
    exists i :: 0 <= i < |t| && ViewSays(t[i], namespace, v)
  }

  predicate FieldSays(row: Row<(Id, string), AttrValue>, f: FieldDef) {
    && row.key.1 == f.name && row.value.kind == f.kind && row.value.description == f.description
    && row.value.derived == f.derived && row.value.channel == f.channel
  }

  /** The field's row lies under its view, and its mapping leads from the concept it names, when this run has it. */
  ghost predicate FieldAt(w: Work, of: string, f: FieldDef, i: nat) {
    && i < |w.store.attrs| && FieldSays(w.store.attrs[i], f)
    && HasRow(w.store.refs, (w.namespace, of), w.store.attrs[i].key.0)
    && (f.mappedKey != "" && f.mappedKey in w.ids ==> (w.ids[f.mappedKey], w.store.attrs[i].id) in Keys(w.store.attrMappings))
  }

  predicate ExternalSays(row: Row<(Id, string, string), Detail>, concept: Id, m: ExternalDef) {
    row.key == (concept, m.system, m.externalKey) && row.value.text == m.display
  }

  ghost predicate ExternalIn(t: Table<(Id, string, string), Detail>, concept: Id, m: ExternalDef) {
    exists i :: 0 <= i < |t| && ExternalSays(t[i], concept, m)
  }

  /** What a definition asks for is in the store; an external mapping asks for nothing when no concept has its key. */
  ghost predicate Arrived(w: Work, c: Command) {
    match c
    case AddConcept(def) =>
      && def.key in w.ids && ConceptIn(w.store.concepts, w.ids[def.key], def)
      && AliasesIn(Keys(w.store.aliases), w.ids[def.key], def.aliases)
    case AddRelationship(r) =>
      && r.source in w.ids && r.target in w.ids
      && (w.ids[r.source], w.ids[r.target], r.kind) in Keys(w.store.relationships)
    case AddView(v) => ViewIn(w.store.refs, w.namespace, v)
    case AddField(of, f) => exists i: nat :: FieldAt(w, of, f, i)
    case AddExternal(m) =>
      forall i :: 0 <= i < |w.store.concepts| && w.store.concepts[i].key == m.nativeKey
        ==> ExternalIn(w.store.externals, w.store.concepts[i].id, m)
    case OpenNamespace(name, _) => HasRow(w.store.namespaces, name, w.namespace)
    case OpenSchematic => true
  }

  // ================================================================ what a command leaves alone

  /** Only rows with the changed keys are rewritten. */
  ghost predicate Same<K, V>(t: Table<K, V>, t': Table<K, V>, changed: set<K>) {
    |t| <= |t'| && forall i :: 0 <= i < |t| && t[i].key !in changed ==> t'[i] == t[i]
  }

  function ViewKeys(w: Work, c: Command): set<(Id, string)> { if c.AddView? then {(w.namespace, c.view.name)} else {} }

  function FieldKeys(w: Work, c: Command): set<(Id, string)> { if c.AddField? then {(w.view, c.field.name)} else {} }

  function ExternalKeys(w: Work, c: Command): set<(Id, string, string)> {
    if c.AddExternal? && NativeConcept(w, c.mapping.nativeKey).Some?
    then {(NativeConcept(w, c.mapping.nativeKey).value, c.mapping.system, c.mapping.externalKey)} else {}
  }

  ghost predicate ConceptsPreserved(w: Work, w': Work, c: Command) {
    && Same(w.store.concepts, w'.store.concepts, Named(c))
    && (forall k :: k in w.ids ==> k in w'.ids && w'.ids[k] == w.ids[k])
    && (!c.AddConcept? ==> w'.store.concepts == w.store.concepts && w'.ids == w.ids)
  }

  ghost predicate LinksPreserved(w: Work, w': Work) {
    && Keys(w.store.aliases) <= Keys(w'.store.aliases) && Keys(w.store.relationships) <= Keys(w'.store.relationships)
    && Keys(w.store.attrMappings) <= Keys(w'.store.attrMappings)
  }

  ghost predicate ViewsPreserved(w: Work, w': Work, c: Command) {
    && Same(w.store.refs, w'.store.refs, ViewKeys(w, c)) && Kept(w.store.refs, w'.store.refs)
    && Same(w.store.attrs, w'.store.attrs, FieldKeys(w, c)) && Same(w.store.externals, w'.store.externals, ExternalKeys(w, c))
  }

  ghost predicate Preserves(w: Work, w': Work, c: Command) {
    && w'.namespace == w.namespace && w'.store.namespaces == w.store.namespaces
    && ConceptsPreserved(w, w', c) && LinksPreserved(w, w') && ViewsPreserved(w, w', c)
  }

  // ================================================================ each write arrives

  /** A write rewrites no row but the one with its key. */
  lemma PutPreserves<K, V>(t: Table<K, V>, key: K, value: V, merge: (V, V) -> V, n: nat, ch: Chance)
    ensures var p := Put(t, key, value, merge, n, ch);
            p.Placed? ==> Same(t, p.table, {key}) && Kept(t, p.table) && Keys(t) <= Keys(p.table) && key in Keys(p.table)
  {
    PutGrows(t, key, value, merge, n, ch);
  }

  /** A write that replaces leaves its row. */
  lemma PutReplaces<K, V>(t: Table<K, V>, key: K, value: V, n: nat, ch: Chance)
    ensures var p := Put(t, key, value, Replace(), n, ch);
            p.Placed? ==> exists i :: 0 <= i < |p.table| && p.table[i] == Row(p.id, key, value)
  {
    var p := Put(t, key, value, Replace(), n, ch);
    if p.Placed? {
      var at := match Find(t, key) case Some(i) => i case None => |t|;
      assert p.table[at] == Row(p.id, key, value);
    }
  }

  lemma ConceptArrives(w: Work, c: ConceptDef, ch: Chance)
    requires WorkOk(w)
    ensures var r := PutConcept(w, c, ch);
            r.Some? ==> Preserves(w, r.value.0, AddConcept(c)) && r.value.0.ids == w.ids[c.key := r.value.1]
                        && ConceptIn(r.value.0.store.concepts, r.value.1, c)
  {
    var r := PutConcept(w, c, ch);
    if r.Some? {
      var t, t' := w.store.concepts, r.value.0.store.concepts;
      var at := match Find(t, c.key) case Some(i) => i case None => |t|;
      assert ConceptSays(t'[at], r.value.1, c);
      if c.key in w.ids {
        var i :| 0 <= i < |t| && t[i].key == c.key && t[i].id == w.ids[c.key];
        assert i == at;
      }
    }
  }

  /** Nothing but aliases is added. */
  predicate OnlyAliases(w: Work, w': Work) {
    w' == w.(used := w'.used, store := w.store.(aliases := w'.store.aliases))
  }

  lemma {:induction false} AliasesArrive(w: Work, concept: Id, aliases: seq<string>, ch: Chance)
    ensures var r := PutAliases(w, concept, aliases, ch);
            r.Some? ==> OnlyAliases(w, r.value) && Keys(w.store.aliases) <= Keys(r.value.store.aliases)
                        && AliasesIn(Keys(r.value.store.aliases), concept, aliases)
  {
    if aliases != [] {
      var n := |aliases| - 1;
      AliasesArrive(w, concept, aliases[..n], ch);
      var before := PutAliases(w, concept, aliases[..n], ch);
      if before.Some? {
        PutGrows(before.value.store.aliases, (concept, aliases[n]), 0, Leave(), before.value.used, ch);
        if PutAliases(w, concept, aliases, ch).Some? {
          var keys := Keys(PutAliases(w, concept, aliases, ch).value.store.aliases);
          forall i | 0 <= i < |aliases| ensures (concept, aliases[i]) in keys {
            if i < n { assert aliases[..n][i] == aliases[i]; }
          }
        }
      }
    }
  }

  lemma ExecConceptArrives(w: Work, c: ConceptDef, ch: Chance)
    requires WorkOk(w)
    ensures var r := ExecConcept(w, c, ch); r.Some? ==> Preserves(w, r.value, AddConcept(c)) && Arrived(r.value, AddConcept(c))
  {
    ProvenanceKeeps(w, ch);
    if Provenance(w, ch).Some? {
      var a := Provenance(w, ch).value;
      ConceptArrives(a, c, ch);
      if PutConcept(a, c, ch).Some? {
        var (b, id) := PutConcept(a, c, ch).value;
        AliasesArrive(b, id, c.aliases, ch);
      }
    }
  }

  lemma ExecRelationshipArrives(w: Work, r: RelationshipDef, ch: Chance)
    ensures var x := ExecRelationship(w, r, ch);
            x.Some? ==> Preserves(w, x.value, AddRelationship(r)) && Arrived(x.value, AddRelationship(r))
  {
    if r.source in w.ids && r.target in w.ids && Provenance(w, ch).Some? {
      var a := Provenance(w, ch).value;
      PutGrows(a.store.relationships, (w.ids[r.source], w.ids[r.target], r.kind), a.provenance, Replace(), a.used, ch);
    }
  }

  lemma ExecViewArrives(w: Work, v: ViewDef, ch: Chance)
    ensures var r := PutView(w, v, ch); r.Some? ==> Preserves(w, r.value, AddView(v)) && Arrived(r.value, AddView(v))
  {
    var value := Detail(v.surface, v.description, w.provenance);
    PutPreserves(w.store.refs, (w.namespace, v.name), value, Replace(), w.used, ch);
    PutReplaces(w.store.refs, (w.namespace, v.name), value, w.used, ch);
    var r := PutView(w, v, ch);
    if r.Some? {
      var t := r.value.store.refs;
      var i :| 0 <= i < |t| && t[i] == Row(r.value.view, (w.namespace, v.name), value);
      assert ViewSays(t[i], w.namespace, v);
    }
  }

  lemma ExecFieldArrives(w: Work, of: string, f: FieldDef, ch: Chance)
    requires ViewIs(w, of)
    ensures var r := ExecField(w, f, ch); r.Some? ==> Preserves(w, r.value, AddField(of, f)) && Arrived(r.value, AddField(of, f))
  {
    PutPreserves(w.store.attrs, (w.view, f.name), AttrOf(f, w.provenance), Replace(), w.used, ch);
    PutReplaces(w.store.attrs, (w.view, f.name), AttrOf(f, w.provenance), w.used, ch);
    var p := PutField(w, f, ch);
    if p.Some? {
      var (a, attr) := p.value;
      var i :| 0 <= i < |a.store.attrs| && a.store.attrs[i] == Row(attr, (w.view, f.name), AttrOf(f, w.provenance));
      if f.mappedKey in a.ids { PutGrows(a.store.attrMappings, (a.ids[f.mappedKey], attr), a.provenance, Replace(), a.used, ch); }
      var r := ExecField(w, f, ch);
      if r.Some? { assert r.value.store.attrs == a.store.attrs && FieldAt(r.value, of, f, i); }
    }
  }

  lemma PutExternalArrives(w: Work, concept: Id, m: ExternalDef, ch: Chance)
    ensures var r := PutExternal(w, concept, m, ch);
            r.Some? ==> && r.value == Drawn(w).(store := w.store.(externals := r.value.store.externals))
                        && Same(w.store.externals, r.value.store.externals, {(concept, m.system, m.externalKey)})
                        && ExternalIn(r.value.store.externals, concept, m)
  {
    var key, value := (concept, m.system, m.externalKey), Detail(m.display, "", w.provenance);
    PutPreserves(w.store.externals, key, value, Replace(), w.used, ch);
    PutReplaces(w.store.externals, key, value, w.used, ch);
    var r := PutExternal(w, concept, m, ch);
    if r.Some? {
      var t := r.value.store.externals;
      var i :| 0 <= i < |t| && t[i].key == key && t[i].value == value;
      assert ExternalSays(t[i], concept, m);
    }
  }

  lemma ExecExternalArrives(w: Work, m: ExternalDef, ch: Chance)
    requires WorkOk(w)
    ensures var r := Exec(w, AddExternal(m), ch);
            r.Some? ==> Preserves(w, r.value, AddExternal(m)) && Arrived(r.value, AddExternal(m))
  {
    NativeConceptIsARow(w, m.nativeKey);
    var concept := NativeConcept(w, m.nativeKey);
    if concept.Some? { PutExternalArrives(w, concept.value, m, ch); }
    forall i | 0 <= i < |w.store.concepts| && w.store.concepts[i].key == m.nativeKey
      ensures concept == Some(w.store.concepts[i].id)
    {
      assert HasRow(w.store.concepts, m.nativeKey, w.store.concepts[i].id);
    }
  }

  /** A command brings about what its definition asks for and rewrites nothing else. */
  lemma ExecArrives(w: Work, c: Command, ch: Chance)
    requires WorkOk(w) && Fits(w, c)
    ensures var r := Exec(w, c, ch); r.Some? ==> Arrived(r.value, c) && (!c.OpenNamespace? ==> Preserves(w, r.value, c))
  {
    match c
    case OpenNamespace(name, detail) => PutPlaces(w.store.namespaces, name, Detail(detail, "", 0), Leave(), w.used, ch);
    case AddConcept(def) => ExecConceptArrives(w, def, ch);
    case AddRelationship(r) => ExecRelationshipArrives(w, r, ch);
    case OpenSchematic =>
    case AddView(v) => ExecViewArrives(w, v, ch);
    case AddField(of, f) => ExecFieldArrives(w, of, f, ch);
    case AddExternal(m) => ExecExternalArrives(w, m, ch);
  }

  // ================================================================ what arrived stays

  /** The later definition does not define again what the first one defines. */
  predicate Compatible(first: Command, later: Command) {
    match (first, later)
    case (_, OpenNamespace(_, _)) => false
    case (AddConcept(a), AddConcept(b)) => a.key != b.key
    case (AddView(a), AddView(b)) => a.name != b.name
    case (AddField(v, a), AddField(w, b)) => (v, a.name) != (w, b.name)
    case (AddExternal(a), AddExternal(b)) => (a.nativeKey, a.system, a.externalKey) != (b.nativeKey, b.system, b.externalKey)
    case (AddField(_, _), AddConcept(_)) => false
    case (AddExternal(_), AddConcept(_)) => false
    case _ => true
  }

  lemma ConceptStays(w: Work, w': Work, def: ConceptDef, next: Command)
    requires Preserves(w, w', next) && Arrived(w, AddConcept(def)) && Compatible(AddConcept(def), next)
    ensures Arrived(w', AddConcept(def))
  {
    var t, t' := w.store.concepts, w'.store.concepts;
    var i :| 0 <= i < |t| && ConceptSays(t[i], w.ids[def.key], def);
    assert t'[i] == t[i];
  }

  lemma ViewStays(w: Work, w': Work, v: ViewDef, next: Command)
    requires Preserves(w, w', next) && Arrived(w, AddView(v)) && Compatible(AddView(v), next)
    ensures Arrived(w', AddView(v))
  {
    var t, t' := w.store.refs, w'.store.refs;
    var i :| 0 <= i < |t| && ViewSays(t[i], w.namespace, v);
    assert t'[i] == t[i];
  }

  lemma OneKeyPerId<K, V>(t: Table<K, V>, k: K, i: Id, l: K, j: Id)
    requires UniqueIds(t) && HasRow(t, k, i) && HasRow(t, l, j)
    ensures i == j ==> k == l
  {
    var a :| 0 <= a < |t| && t[a].key == k && t[a].id == i;
    var b :| 0 <= b < |t| && t[b].key == l && t[b].id == j;
    if i == j { assert a == b; }
  }

  lemma FieldStays(w: Work, w': Work, of: string, f: FieldDef, next: Command)
    requires Preserves(w, w', next) && Arrived(w, AddField(of, f)) && Compatible(AddField(of, f), next)
    requires Sound(w.store.refs) && Fits(w, next)
    ensures Arrived(w', AddField(of, f))
  {
    var t, t' := w.store.attrs, w'.store.attrs;
    var i: nat :| FieldAt(w, of, f, i);
    assert FieldAt(w, of, f, i);
    if next.AddField? { OneKeyPerId(w.store.refs, (w.namespace, of), t[i].key.0, (w.namespace, next.of), w.view); }
    assert t'[i] == t[i];
    KeptRow(w.store.refs, w'.store.refs, (w.namespace, of), t[i].key.0);
    assert FieldAt(w', of, f, i);
  }

  lemma ExternalStays(w: Work, w': Work, m: ExternalDef, next: Command)
    requires Preserves(w, w', next) && Arrived(w, AddExternal(m)) && Compatible(AddExternal(m), next) && WorkOk(w)
    ensures Arrived(w', AddExternal(m))
  {
    if next.AddExternal? { NativeConceptIsARow(w, next.mapping.nativeKey); }
    var concepts, t, t' := w.store.concepts, w.store.externals, w'.store.externals;
    forall i | 0 <= i < |concepts| && concepts[i].key == m.nativeKey ensures ExternalIn(t', concepts[i].id, m) {
      var j :| 0 <= j < |t| && ExternalSays(t[j], concepts[i].id, m);
      assert t[j].key !in ExternalKeys(w, next);
      assert t'[j] == t[j];
    }
  }

  lemma ArrivedStays(w: Work, w': Work, c: Command, next: Command)
    requires WorkOk(w) && Fits(w, next) && Preserves(w, w', next) && Arrived(w, c) && Compatible(c, next)
    ensures Arrived(w', c)
  {
    match c
    case AddConcept(def) => ConceptStays(w, w', def, next);
    case AddView(v) => ViewStays(w, w', v, next);
    case AddField(of, f) => FieldStays(w, w', of, f, next);
    case AddExternal(m) => ExternalStays(w, w', m, next);
    case _ =>
  }

  /** No later command defines again what this one defines. */
  predicate Final(commands: seq<Command>, i: nat)
    requires i < |commands|
  {
    forall j {:trigger Compatible(commands[i], commands[j])} :: i < j < |commands| ==> Compatible(commands[i], commands[j])
  }

  /** No definition is made twice. */
  predicate WellDefined(commands: seq<Command>) {
    forall i, j {:trigger Compatible(commands[i], commands[j])} :: 0 <= i < j < |commands| ==> Compatible(commands[i], commands[j])
  }

  /** One more command: its definition arrives, and what had arrived stays. */
  lemma StepArrives(w: Work, next: Command, ch: Chance, c: Command)
    requires WorkOk(w) && Fits(w, next) && Exec(w, next, ch).Some?
    ensures Arrived(Exec(w, next, ch).value, next)
    ensures Arrived(w, c) && Compatible(c, next) ==> Arrived(Exec(w, next, ch).value, c)
  {
    ExecArrives(w, next, ch);
    if Arrived(w, c) && Compatible(c, next) { ArrivedStays(w, Exec(w, next, ch).value, c, next); }
  }

  lemma BeforeTheLast(w: Work, commands: seq<Command>, ch: Chance)
    requires WorkOk(w) && commands != [] && InOrder(commands) && ExecAll(Some(w), commands[..|commands| - 1], ch).Some?
    ensures var before := ExecAll(Some(w), commands[..|commands| - 1], ch).value;
            WorkOk(before) && Fits(before, commands[|commands| - 1])
  {
    InOrderPrefix(commands);
    ExecAllKeeps(w, commands[..|commands| - 1], ch);
    StandsFits(ExecAll(Some(w), commands[..|commands| - 1], ch).value, commands);
  }

  lemma LastArrives(w: Work, commands: seq<Command>, ch: Chance, c: Command)
    requires WorkOk(w) && commands != [] && InOrder(commands) && ExecAll(Some(w), commands, ch).Some?
    ensures Arrived(ExecAll(Some(w), commands, ch).value, commands[|commands| - 1])
    ensures (Arrived(ExecAll(Some(w), commands[..|commands| - 1], ch).value, c) && Compatible(c, commands[|commands| - 1]))
            ==> Arrived(ExecAll(Some(w), commands, ch).value, c)
  {
    BeforeTheLast(w, commands, ch);
    StepArrives(ExecAll(Some(w), commands[..|commands| - 1], ch).value, commands[|commands| - 1], ch, c);
  }

  lemma {:induction false} FinalCommandsArrive(w: Work, commands: seq<Command>, ch: Chance, i: nat)
    requires WorkOk(w) && InOrder(commands) && i < |commands| && Final(commands, i)
    requires ExecAll(Some(w), commands, ch).Some?
    ensures Arrived(ExecAll(Some(w), commands, ch).value, commands[i])
  {
    var n := |commands| - 1;
    LastArrives(w, commands, ch, commands[i]);
    if i < n {
      InOrderPrefix(commands);
      FinalInPrefix(commands, i);
      FinalCommandsArrive(w, commands[..n], ch, i);
      assert Compatible(commands[i], commands[n]);
    }
  }

  lemma FinalInPrefix(commands: seq<Command>, i: nat)
    requires i < |commands| - 1 && Final(commands, i)
    ensures Final(commands[..|commands| - 1], i)
  {
  }

  // ================================================================ configurations without repeated definitions

  predicate DistinctConcepts(defs: seq<ConceptDef>) { forall i, j :: 0 <= i < j < |defs| ==> defs[i].key != defs[j].key }

  predicate DistinctFields(defs: seq<FieldDef>) { forall i, j :: 0 <= i < j < |defs| ==> defs[i].name != defs[j].name }

  predicate DistinctViews(defs: seq<ViewDef>) {
    && (forall i, j :: 0 <= i < j < |defs| ==> defs[i].name != defs[j].name)
    && (forall i :: 0 <= i < |defs| ==> DistinctFields(defs[i].fields))
  }

  predicate DistinctExternals(defs: seq<ExternalDef>) {
    forall i, j :: 0 <= i < j < |defs| ==>
      (defs[i].nativeKey, defs[i].system, defs[i].externalKey) != (defs[j].nativeKey, defs[j].system, defs[j].externalKey)
  }

  /** No concept, view, field of a view or external key is defined twice. */
  predicate DistinctDefinitions(c: Config) {
    DistinctConcepts(c.concepts) && DistinctViews(c.views) && DistinctExternals(c.externals)
  }

  lemma WellDefinedAppend(a: seq<Command>, b: seq<Command>)
    requires WellDefined(a) && WellDefined(b)
    requires forall i, j :: 0 <= i < |a| && 0 <= j < |b| ==> Compatible(a[i], b[j])
    ensures WellDefined(a + b)
  {
  }

  lemma {:induction false} ConceptsInOrder(defs: seq<ConceptDef>)
    ensures |Concepts(defs)| == |defs| && forall i :: 0 <= i < |defs| ==> Concepts(defs)[i] == AddConcept(defs[i])
  {
    if defs != [] { ConceptsInOrder(defs[..|defs| - 1]); }
  }

  lemma {:induction false} RelationshipsInOrder(defs: seq<RelationshipDef>)
    ensures |Relationships(defs)| == |defs| && forall i :: 0 <= i < |defs| ==> Relationships(defs)[i] == AddRelationship(defs[i])
  {
    if defs != [] { RelationshipsInOrder(defs[..|defs| - 1]); }
  }

  lemma {:induction false} FieldsInOrder(of: string, defs: seq<FieldDef>)
    ensures |Fields(of, defs)| == |defs| && forall i :: 0 <= i < |defs| ==> Fields(of, defs)[i] == AddField(of, defs[i])
  {
    if defs != [] { FieldsInOrder(of, defs[..|defs| - 1]); }
  }

  lemma {:induction false} ExternalsInOrder(defs: seq<ExternalDef>)
    ensures |Externals(defs)| == |defs| && forall i :: 0 <= i < |defs| ==> Externals(defs)[i] == AddExternal(defs[i])
  {
    if defs != [] { ExternalsInOrder(defs[..|defs| - 1]); }
  }

  function ViewNames(defs: seq<ViewDef>): set<string> { set i | 0 <= i < |defs| :: defs[i].name }

  /** A view or one of its fields, for a view among these. */
  predicate Under(c: Command, views: set<string>) { (c.AddView? && c.view.name in views) || (c.AddField? && c.of in views) }

  predicate AllUnder(commands: seq<Command>, views: set<string>) {
    forall i {:trigger Under(commands[i], views)} :: 0 <= i < |commands| ==> Under(commands[i], views)
  }

  lemma OneViewIsWellDefined(v: ViewDef)
    requires DistinctFields(v.fields)
    ensures WellDefined([AddView(v)] + Fields(v.name, v.fields)) && AllUnder([AddView(v)] + Fields(v.name, v.fields), {v.name})
  {
    FieldsInOrder(v.name, v.fields);
    WellDefinedAppend([AddView(v)], Fields(v.name, v.fields));
  }

  lemma ViewsAppend(a: seq<Command>, some: set<string>, b: seq<Command>, view: string)
    requires WellDefined(a) && AllUnder(a, some) && WellDefined(b) && AllUnder(b, {view}) && view !in some
    ensures WellDefined(a + b) && AllUnder(a + b, some + {view})
  {
    forall i, j | 0 <= i < |a| && 0 <= j < |b| ensures Compatible(a[i], b[j]) {
      assert Under(a[i], some) && Under(b[j], {view});
    }
    WellDefinedAppend(a, b);
    forall i | 0 <= i < |a + b| ensures Under((a + b)[i], some + {view}) {
      if i < |a| { assert Under(a[i], some); } else { assert Under(b[i - |a|], {view}); }
    }
  }

  lemma {:induction false} ViewsAreWellDefined(defs: seq<ViewDef>)
    requires DistinctViews(defs)
    ensures WellDefined(Views(defs)) && AllUnder(Views(defs), ViewNames(defs))
  {
    if defs != [] {
      var n := |defs| - 1;
      var last := [AddView(defs[n])] + Fields(defs[n].name, defs[n].fields);
      ViewsAreWellDefined(defs[..n]);
      OneViewIsWellDefined(defs[n]);
      ViewsAppend(Views(defs[..n]), ViewNames(defs[..n]), last, defs[n].name);
      assert Views(defs) == Views(defs[..n]) + last;
      assert ViewNames(defs) == ViewNames(defs[..n]) + {defs[n].name} by {
        forall i | 0 <= i < n ensures defs[i].name in ViewNames(defs[..n]) { assert defs[..n][i] == defs[i]; }
      }
    }
  }

  /** The place of a command among the parts of a configuration. */
  function Rank(c: Command): nat {
    match c
    case OpenNamespace(_, _) => 0
    case AddConcept(_) => 1
    case AddRelationship(_) => 2
    case OpenSchematic => 3
    case AddView(_) => 4
    case AddField(_, _) => 4
    case AddExternal(_) => 5
  }

  /** Well-defined commands of these parts. */
  predicate Part(commands: seq<Command>, from: nat, to: nat) {
    && WellDefined(commands)
    && forall i {:trigger Rank(commands[i])} :: 0 <= i < |commands| ==> from <= Rank(commands[i]) <= to
  }

  lemma RanksAreCompatible(c: Command, d: Command)
    requires Rank(c) < Rank(d)
    ensures Compatible(c, d)
  {
  }

  lemma PartsAppend(a: seq<Command>, b: seq<Command>, part: nat)
    requires part > 0 && Part(a, 0, part - 1) && Part(b, part, part)
    ensures Part(a + b, 0, part)
  {
    forall i, j | 0 <= i < |a| && 0 <= j < |b| ensures Compatible(a[i], b[j]) { RanksAreCompatible(a[i], b[j]); }
    WellDefinedAppend(a, b);
    forall i | 0 <= i < |a + b| ensures 0 <= Rank((a + b)[i]) <= part {
      if i < |a| { assert Rank(a[i]) <= part - 1; } else { assert Rank(b[i - |a|]) == part; }
    }
  }

  lemma DefinitionsAreParts(c: Config)
    requires DistinctDefinitions(c)
    ensures Part(Concepts(c.concepts), 1, 1) && Part(Relationships(c.relationships), 2, 2) && Part(Externals(c.externals), 5, 5)
  {
    ConceptsInOrder(c.concepts);
    RelationshipsInOrder(c.relationships);
    ExternalsInOrder(c.externals);
  }

  lemma ViewsAreAPart(defs: seq<ViewDef>)
    requires DistinctViews(defs)
    ensures Part(Views(defs), 4, 4)
  {
    ViewsAreWellDefined(defs);
    var v := Views(defs);
    forall i | 0 <= i < |v| ensures 4 <= Rank(v[i]) <= 4 { assert Under(v[i], ViewNames(defs)); }
  }

  lemma JoinParts(a: seq<Command>, b: seq<Command>, c: seq<Command>, d: seq<Command>, e: seq<Command>, f: seq<Command>)
    requires Part(a, 0, 0) && Part(b, 1, 1) && Part(c, 2, 2) && Part(d, 3, 3) && Part(e, 4, 4) && Part(f, 5, 5)
    ensures Part(a + b + c + d + e + f, 0, 5)
  {
    PartsAppend(a, b, 1);
    PartsAppend(a + b, c, 2);
    PartsAppend(a + b + c, d, 3);
    PartsAppend(a + b + c + d, e, 4);
    PartsAppend(a + b + c + d + e, f, 5);
  }

  /** Configurations without repeated definitions give well-defined writes. */
  lemma WritesAreWellDefined(c: Config)
    requires DistinctDefinitions(c)
    ensures WellDefined(Writes(c))
  {
    DefinitionsAreParts(c);
    ViewsAreAPart(c.views);
    var a := [OpenNamespace(c.namespace, c.namespaceDetail)];
    JoinParts(a, Concepts(c.concepts), Relationships(c.relationships), [OpenSchematic], Views(c.views), Externals(c.externals));
  }

  /**
   After a committed run each namespace, concept with its aliases, relationship, view, field with its mapping,
   and external key is in the store as its last definition says, between the right rows.
   */
  lemma LastDefinitionsArrive(s: Store, c: Config, hash: int, ch: Chance, i: nat)
    requires StoreOk(s) && Transaction(s, c, hash, ch).Some? && i < |Writes(c)| && Final(Writes(c), i)
    ensures var w := ExecAll(Some(Start(s, ch)), Writes(c), ch);
            && w.Some? && Arrived(w.value, Writes(c)[i])
            && Transaction(s, c, hash, ch).value == w.value.store.(runs := s.runs + [RunRow(w.value.run, c.source, hash)])
  {
    WritesAreInOrder(c);
    FinalCommandsArrive(Start(s, ch), Writes(c), ch, i);
    WritesKeepRuns(Some(Start(s, ch)), Writes(c), ch);
  }

  /** When no definition is repeated, every definition arrives. */
  lemma EveryDefinitionArrives(s: Store, c: Config, hash: int, ch: Chance, i: nat)
    requires StoreOk(s) && DistinctDefinitions(c) && Transaction(s, c, hash, ch).Some? && i < |Writes(c)|
    ensures Arrived(ExecAll(Some(Start(s, ch)), Writes(c), ch).value, Writes(c)[i])
  {
    WritesAreWellDefined(c);
    LastDefinitionsArrive(s, c, hash, ch, i);
  }

  // ================================================================ the configuration, in the store

  /** The concept's row says what the definition says, and has its aliases. */
  ghost predicate ConceptStored(t: Store, def: ConceptDef) {
    exists i: nat :: ConceptStoredAt(t, def, i)
  }

  ghost predicate ConceptStoredAt(t: Store, def: ConceptDef, i: nat) {
    && i < |t.concepts| && t.concepts[i].key == def.key
    && t.concepts[i].value.name == def.name && t.concepts[i].value.kind == def.kind
    && t.concepts[i].value.definition == def.definition
    && forall a :: 0 <= a < |def.aliases| ==> (t.concepts[i].id, def.aliases[a]) in Keys(t.aliases)
  }

  /** The relationship leads from its source concept's row to its target's. */
  ghost predicate RelationshipStored(t: Store, r: RelationshipDef) {
    exists source, target ::
      HasRow(t.concepts, r.source, source) && HasRow(t.concepts, r.target, target) && (source, target, r.kind) in Keys(t.relationships)
  }

  /** The view's row lies in the namespace. */
  ghost predicate ViewStored(t: Store, namespace: Id, v: ViewDef) {
    exists i :: 0 <= i < |t.refs| && t.refs[i].key == (namespace, v.name)
                && t.refs[i].value.text == v.surface && t.refs[i].value.description == v.description
  }

  /** The field's row lies under its view's. */
  ghost predicate FieldStoredAt(t: Store, namespace: Id, v: ViewDef, f: FieldDef, i: nat) {
    && i < |t.attrs| && HasRow(t.refs, (namespace, v.name), t.attrs[i].key.0) && t.attrs[i].key.1 == f.name
    && t.attrs[i].value.kind == f.kind && t.attrs[i].value.description == f.description
    && t.attrs[i].value.derived == f.derived && t.attrs[i].value.channel == f.channel
  }

  ghost predicate MappedFrom(t: Store, key: string, attr: Id) {
    exists concept :: HasRow(t.concepts, key, concept) && (concept, attr) in Keys(t.attrMappings)
  }

  /** With a mapping from the concept it names, if the configuration has that concept. */
  ghost predicate FieldStored(t: Store, namespace: Id, v: ViewDef, f: FieldDef, concepts: seq<ConceptDef>) {
    exists i: nat ::
      FieldStoredAt(t, namespace, v, f, i)
      && (f.mappedKey != "" && (exists k :: 0 <= k < |concepts| && concepts[k].key == f.mappedKey)
          ==> MappedFrom(t, f.mappedKey, t.attrs[i].id))
  }

  /** Every row of the native concept, if there is one, has the external key. */
  ghost predicate ExternalStored(t: Store, m: ExternalDef) {
    forall concept :: HasRow(t.concepts, m.nativeKey, concept) ==>
      exists i :: 0 <= i < |t.externals| && t.externals[i].key == (concept, m.system, m.externalKey)
                  && t.externals[i].value.text == m.display
  }

  /** All of a configuration, under its namespace's row. */
  ghost predicate StoredUnder(t: Store, c: Config, namespace: Id) {
    && HasRow(t.namespaces, c.namespace, namespace)
    && (forall i :: 0 <= i < |c.concepts| ==> ConceptStored(t, c.concepts[i]))
    && (forall i :: 0 <= i < |c.relationships| ==> RelationshipStored(t, c.relationships[i]))
    && (forall j :: 0 <= j < |c.views| ==> ViewStored(t, namespace, c.views[j]))
    && (forall j, k :: 0 <= j < |c.views| && 0 <= k < |c.views[j].fields| ==>
          FieldStored(t, namespace, c.views[j], c.views[j].fields[k], c.concepts))
    && (forall i :: 0 <= i < |c.externals| ==> ExternalStored(t, c.externals[i]))
  }

  ghost predicate ConfigurationStored(t: Store, c: Config) { exists namespace :: StoredUnder(t, c, namespace) }

  // ---------------------------------------------------------------- every definition is written

  lemma {:induction false} FieldsAreWritten(defs: seq<ViewDef>, j: nat, k: nat)
    requires j < |defs| && k < |defs[j].fields|
    ensures AddField(defs[j].name, defs[j].fields[k]) in Views(defs)
  {
    var n := |defs| - 1;
    if j < n {
      FieldsAreWritten(defs[..n], j, k);
    } else {
      FieldsInOrder(defs[n].name, defs[n].fields);
      assert Fields(defs[n].name, defs[n].fields)[k] == AddField(defs[j].name, defs[j].fields[k]);
    }
  }

  lemma {:induction false} ViewsAreWritten(defs: seq<ViewDef>, j: nat)
    requires j < |defs|
    ensures AddView(defs[j]) in Views(defs)
  {
    if j < |defs| - 1 { ViewsAreWritten(defs[..|defs| - 1], j); }
  }

  lemma ConceptsAreWritten(c: Config, i: nat)
    requires i < |c.concepts|
    ensures AddConcept(c.concepts[i]) in Writes(c)
  {
    ConceptsInOrder(c.concepts);
    assert Concepts(c.concepts)[i] in Concepts(c.concepts);
  }

  lemma RelationshipsAreWritten(c: Config, i: nat)
    requires i < |c.relationships|
    ensures AddRelationship(c.relationships[i]) in Writes(c)
  {
    RelationshipsInOrder(c.relationships);
    assert Relationships(c.relationships)[i] in Relationships(c.relationships);
  }

  lemma ExternalsAreWritten(c: Config, i: nat)
    requires i < |c.externals|
    ensures AddExternal(c.externals[i]) in Writes(c)
  {
    ExternalsInOrder(c.externals);
    assert Externals(c.externals)[i] in Externals(c.externals);
  }

  /** Where a committed run's writes end. */
  ghost predicate EndsAt(w: Work, c: Config) {
    && WorkOk(w)
    && forall i :: 0 <= i < |Writes(c)| ==> Arrived(w, Writes(c)[i])
  }

  lemma CommittedRunEnds(s: Store, c: Config, hash: int, ch: Chance) returns (w: Work)
    requires StoreOk(s) && DistinctDefinitions(c) && Transaction(s, c, hash, ch).Some?
    ensures EndsAt(w, c)
    ensures Transaction(s, c, hash, ch).value == w.store.(runs := s.runs + [RunRow(w.run, c.source, hash)])
  {
    w := ExecAll(Some(Start(s, ch)), Writes(c), ch).value;
    WritesAreInOrder(c);
    ExecAllKeeps(Start(s, ch), Writes(c), ch);
    WritesAreWellDefined(c);
    forall i | 0 <= i < |Writes(c)| ensures Arrived(w, Writes(c)[i]) { LastDefinitionsArrive(s, c, hash, ch, i); }
    WritesKeepRuns(Some(Start(s, ch)), Writes(c), ch);
  }

  lemma WhatIsWrittenArrives(w: Work, c: Config, command: Command)
    requires EndsAt(w, c) && command in Writes(c)
    ensures Arrived(w, command)
  {
    var i :| 0 <= i < |Writes(c)| && Writes(c)[i] == command;
  }

  lemma ArrivedConceptIsStored(w: Work, t: Store, def: ConceptDef)
    requires Arrived(w, AddConcept(def)) && t.concepts == w.store.concepts && t.aliases == w.store.aliases
    ensures ConceptStored(t, def)
  {
    var i: nat :| i < |w.store.concepts| && ConceptSays(w.store.concepts[i], w.ids[def.key], def);
    assert ConceptStoredAt(t, def, i);
  }

  lemma ArrivedRelationshipIsStored(w: Work, t: Store, r: RelationshipDef)
    requires WorkOk(w) && Arrived(w, AddRelationship(r)) && t.concepts == w.store.concepts && t.relationships == w.store.relationships
    ensures RelationshipStored(t, r)
  {
    assert HasRow(t.concepts, r.source, w.ids[r.source]) && HasRow(t.concepts, r.target, w.ids[r.target]);
  }

  lemma ArrivedFieldIsStored(w: Work, t: Store, v: ViewDef, f: FieldDef, concepts: seq<ConceptDef>)
    requires WorkOk(w) && Arrived(w, AddField(v.name, f)) && t == w.store.(runs := t.runs)
    requires forall k :: 0 <= k < |concepts| ==> concepts[k].key in w.ids
    ensures FieldStored(t, w.namespace, v, f, concepts)
  {
    var i: nat :| FieldAt(w, v.name, f, i);
    assert FieldAt(w, v.name, f, i) && FieldStoredAt(t, w.namespace, v, f, i);
    if f.mappedKey != "" && exists k :: 0 <= k < |concepts| && concepts[k].key == f.mappedKey {
      assert f.mappedKey in w.ids && HasRow(t.concepts, f.mappedKey, w.ids[f.mappedKey]);
      assert MappedFrom(t, f.mappedKey, t.attrs[i].id);
    }
  }

  lemma ArrivedExternalIsStored(w: Work, t: Store, m: ExternalDef)
    requires Arrived(w, AddExternal(m)) && t.concepts == w.store.concepts && t.externals == w.store.externals
    ensures ExternalStored(t, m)
  {
    forall concept | HasRow(t.concepts, m.nativeKey, concept)
      ensures exists i :: 0 <= i < |t.externals| && t.externals[i].key == (concept, m.system, m.externalKey)
                          && t.externals[i].value.text == m.display
    {
      var k :| 0 <= k < |t.concepts| && t.concepts[k].key == m.nativeKey && t.concepts[k].id == concept;
      var i :| 0 <= i < |w.store.externals| && ExternalSays(w.store.externals[i], w.store.concepts[k].id, m);
    }
  }

  /**
   After a committed run of a configuration without repeated definitions, all of it is in the store: each concept
   with its aliases, each relationship between its concepts, each view in the namespace, each field under its view
   with the mapping from its concept, and each external key of a known concept.
   */
  lemma CommittedConfigurationIsStored(s: Store, c: Config, hash: int, ch: Chance)
    requires StoreOk(s) && DistinctDefinitions(c) && Transaction(s, c, hash, ch).Some?
    ensures ConfigurationStored(Transaction(s, c, hash, ch).value, c)
  {
    var t := Transaction(s, c, hash, ch).value;
    var w := CommittedRunEnds(s, c, hash, ch);
    WhatIsWrittenArrives(w, c, OpenNamespace(c.namespace, c.namespaceDetail));
    forall i | 0 <= i < |c.concepts| ensures ConceptStored(t, c.concepts[i]) && c.concepts[i].key in w.ids {
      ConceptsAreWritten(c, i);
      WhatIsWrittenArrives(w, c, AddConcept(c.concepts[i]));
      ArrivedConceptIsStored(w, t, c.concepts[i]);
    }
    forall i | 0 <= i < |c.relationships| ensures RelationshipStored(t, c.relationships[i]) {
      RelationshipsAreWritten(c, i);
      WhatIsWrittenArrives(w, c, AddRelationship(c.relationships[i]));
      ArrivedRelationshipIsStored(w, t, c.relationships[i]);
    }
    CommittedViewsAreStored(w, t, c);
    forall i | 0 <= i < |c.externals| ensures ExternalStored(t, c.externals[i]) {
      ExternalsAreWritten(c, i);
      WhatIsWrittenArrives(w, c, AddExternal(c.externals[i]));
      ArrivedExternalIsStored(w, t, c.externals[i]);
    }
    assert StoredUnder(t, c, w.namespace);
  }

  lemma CommittedViewsAreStored(w: Work, t: Store, c: Config)
    requires EndsAt(w, c) && t == w.store.(runs := t.runs)
    requires forall k :: 0 <= k < |c.concepts| ==> c.concepts[k].key in w.ids
    ensures forall j :: 0 <= j < |c.views| ==> ViewStored(t, w.namespace, c.views[j])
    ensures forall j, k :: 0 <= j < |c.views| && 0 <= k < |c.views[j].fields| ==>
              FieldStored(t, w.namespace, c.views[j], c.views[j].fields[k], c.concepts)
  {
    forall j | 0 <= j < |c.views| ensures ViewStored(t, w.namespace, c.views[j]) {
      ViewsAreWritten(c.views, j);
      WhatIsWrittenArrives(w, c, AddView(c.views[j]));
      var i :| 0 <= i < |w.store.refs| && ViewSays(w.store.refs[i], w.namespace, c.views[j]);
      assert t.refs[i] == w.store.refs[i];
    }
    forall j, k | 0 <= j < |c.views| && 0 <= k < |c.views[j].fields|
      ensures FieldStored(t, w.namespace, c.views[j], c.views[j].fields[k], c.concepts)
    {
      FieldsAreWritten(c.views, j, k);
      WhatIsWrittenArrives(w, c, AddField(c.views[j].name, c.views[j].fields[k]));
      ArrivedFieldIsStored(w, t, c.views[j], c.views[j].fields[k], c.concepts);
    }
  }
}
