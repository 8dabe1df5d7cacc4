/**
 What every ingestion keeps, over any sequence of configurations and faults: unique natural keys, valid
 links and stable ids; and when an ingestion is undone or skipped.
 */
module AzmInvariants {
  import opened Common
  import opened AzmStore

  // ================================================================ what each write keeps

  ghost predicate HasRow<K, V>(t: Table<K, V>, key: K, id: Id) { exists i :: 0 <= i < |t| && t[i].key == key && t[i].id == id }

  lemma PutPlaces<K, V>(t: Table<K, V>, key: K, value: V, merge: (V, V) -> V, n: nat, ch: Chance)
    ensures var p := Put(t, key, value, merge, n, ch); p.Placed? ==> HasRow(p.table, key, p.id)
  {
    var p := Put(t, key, value, merge, n, ch);
    if p.Placed? {
      var at := match Find(t, key) case Some(i) => i case None => |t|;
      assert p.table[at].key == key && p.table[at].id == p.id;
    }
  }

  lemma RowExists<K, V>(t: Table<K, V>, key: K, id: Id)
    requires HasRow(t, key, id)
    ensures id in Ids(t)
  {
  }

  /** The variable holding concept ids agrees with the concept table. */
  ghost predicate IdsAgree(ids: map<string, Id>, concepts: Table<string, ConceptValue>) {
    forall k :: k in ids ==> HasRow(concepts, k, ids[k])
  }

  lemma AgreementSurvives(ids: map<string, Id>, concepts: Table<string, ConceptValue>, concepts': Table<string, ConceptValue>)
    requires IdsAgree(ids, concepts) && Kept(concepts, concepts')
    ensures IdsAgree(ids, concepts')
  {
  }

  lemma KeptRow<K, V>(t: Table<K, V>, t': Table<K, V>, key: K, id: Id)
    requires Kept(t, t') && HasRow(t, key, id)
    ensures HasRow(t', key, id)
  {
    var i :| 0 <= i < |t| && t[i].key == key && t[i].id == id;
    assert t'[i].key == key && t'[i].id == id;
  }

  ghost predicate WorkOk(w: Work) { StoreOk(w.store) && IdsAgree(w.ids, w.store.concepts) }

  ghost predicate InNamespace(w: Work) { w.namespace in Ids(w.store.namespaces) }

  /** The open view is the one of this name in the open namespace. */
  ghost predicate ViewIs(w: Work, name: string) { HasRow(w.store.refs, (w.namespace, name), w.view) }

  /** One write's outcome: sound, nothing lost, and the open namespace still there. */
  ghost predicate Progress(w: Work, w': Work) {
    WorkOk(w') && AllKept(w.store, w'.store) && (InNamespace(w) ==> InNamespace(w'))
  }

  /** The variables for the namespace and the view are as they were. */
  predicate Steady(w: Work, w': Work) { w'.namespace == w.namespace && w'.view == w.view }

  lemma ProgressTransitively(a: Work, b: Work, c: Work)
    requires Progress(a, b) && Progress(b, c)
    ensures Progress(a, c)
  {
  }

  lemma ProvenanceKeeps(w: Work, ch: Chance)
    requires WorkOk(w)
    ensures var r := Provenance(w, ch); r.Some? ==> Progress(w, r.value) && Steady(w, r.value) && r.value.ids == w.ids
  {
  }

  lemma NamespaceKeeps(w: Work, name: string, detail: string, ch: Chance)
    requires WorkOk(w)
    ensures var r := PutNamespace(w, name, detail, ch); r.Some? ==> Progress(w, r.value) && InNamespace(r.value) && r.value.ids == w.ids
  {
    PutIsSound(w.store.namespaces, name, Detail(detail, "", 0), Leave(), w.used, ch);
    PutGrows(w.store.namespaces, name, Detail(detail, "", 0), Leave(), w.used, ch);
  }

  lemma ConceptKeeps(w: Work, c: ConceptDef, ch: Chance)
    requires WorkOk(w) && InNamespace(w)
    ensures var r := PutConcept(w, c, ch);
            r.Some? ==> Progress(w, r.value.0) && Steady(w, r.value.0) && r.value.1 in Ids(r.value.0.store.concepts)
                        && r.value.0.ids.Keys == w.ids.Keys + {c.key}
  {
    var value := ConceptValue(w.namespace, c.name, c.kind, c.definition, w.provenance);
    PutIsSound(w.store.concepts, c.key, value, StayInNamespace(), w.used, ch);
    PutGrows(w.store.concepts, c.key, value, StayInNamespace(), w.used, ch);
    PutPlaces(w.store.concepts, c.key, value, StayInNamespace(), w.used, ch);
    var r := PutConcept(w, c, ch);
    if r.Some? {
      AgreementSurvives(w.ids, w.store.concepts, r.value.0.store.concepts);
      ConceptsStayLinked(w, value, c.key, ch);
    }
  }

  lemma ConceptsStayLinked(w: Work, value: ConceptValue, key: string, ch: Chance)
    requires ConceptsLinked(w.store.concepts, Ids(w.store.namespaces)) && value.namespace in Ids(w.store.namespaces)
    ensures var p := Put(w.store.concepts, key, value, StayInNamespace(), w.used, ch);
            p.Placed? ==> ConceptsLinked(p.table, Ids(w.store.namespaces))
  {
  }

  lemma AliasKeeps(w: Work, concept: Id, alias: string, ch: Chance)
    requires WorkOk(w) && concept in Ids(w.store.concepts)
    ensures var p := Put(w.store.aliases, (concept, alias), 0, Leave(), w.used, ch);
            p.Placed? ==> Progress(w, Drawn(w).(store := w.store.(aliases := p.table)))
  {
    PutIsSound(w.store.aliases, (concept, alias), 0, Leave(), w.used, ch);
    PutGrows(w.store.aliases, (concept, alias), 0, Leave(), w.used, ch);
  }

  lemma {:induction false} AliasesKeep(w: Work, concept: Id, aliases: seq<string>, ch: Chance)
    requires WorkOk(w) && concept in Ids(w.store.concepts)
    ensures var r := PutAliases(w, concept, aliases, ch);
            r.Some? ==> Progress(w, r.value) && Steady(w, r.value) && r.value.ids == w.ids && r.value.store.concepts == w.store.concepts
  {
    if aliases != [] {
      var n := |aliases| - 1;
      AliasesKeep(w, concept, aliases[..n], ch);
      var before := PutAliases(w, concept, aliases[..n], ch);
      if before.Some? && PutAliases(w, concept, aliases, ch).Some? {
        AliasKeeps(before.value, concept, aliases[n], ch);
        ProgressTransitively(w, before.value, PutAliases(w, concept, aliases, ch).value);
      }
    }
  }

  lemma RelationshipKeeps(w: Work, source: Id, target: Id, kind: string, ch: Chance)
    requires WorkOk(w) && source in Ids(w.store.concepts) && target in Ids(w.store.concepts)
    ensures var r := PutRelationship(w, source, target, kind, ch); r.Some? ==> Progress(w, r.value)
  {
    PutIsSound(w.store.relationships, (source, target, kind), w.provenance, Replace(), w.used, ch);
    PutGrows(w.store.relationships, (source, target, kind), w.provenance, Replace(), w.used, ch);
  }

  lemma ViewKeeps(w: Work, v: ViewDef, ch: Chance)
    requires WorkOk(w) && InNamespace(w)
    ensures var r := PutView(w, v, ch);
            r.Some? ==> Progress(w, r.value) && ViewIs(r.value, v.name) && r.value.namespace == w.namespace && r.value.ids == w.ids
  {
    var value := Detail(v.surface, v.description, w.provenance);
    PutIsSound(w.store.refs, (w.namespace, v.name), value, Replace(), w.used, ch);
    PutGrows(w.store.refs, (w.namespace, v.name), value, Replace(), w.used, ch);
    PutPlaces(w.store.refs, (w.namespace, v.name), value, Replace(), w.used, ch);
  }

  lemma FieldKeeps(w: Work, f: FieldDef, ch: Chance)
    requires WorkOk(w) && w.view in Ids(w.store.refs)
    ensures var r := PutField(w, f, ch);
            r.Some? ==> Progress(w, r.value.0) && r.value.1 in Ids(r.value.0.store.attrs) && r.value.0.ids == w.ids
                        && Steady(w, r.value.0)
  {
    PutIsSound(w.store.attrs, (w.view, f.name), AttrOf(f, w.provenance), Replace(), w.used, ch);
    PutGrows(w.store.attrs, (w.view, f.name), AttrOf(f, w.provenance), Replace(), w.used, ch);
  }

  lemma MappingKeeps(w: Work, concept: Id, attr: Id, ch: Chance)
    requires WorkOk(w) && concept in Ids(w.store.concepts) && attr in Ids(w.store.attrs)
    ensures var r := PutMapping(w, concept, attr, ch); r.Some? ==> Progress(w, r.value)
  {
    PutIsSound(w.store.attrMappings, (concept, attr), w.provenance, Replace(), w.used, ch);
    PutGrows(w.store.attrMappings, (concept, attr), w.provenance, Replace(), w.used, ch);
  }

  lemma ExternalKeeps(w: Work, concept: Id, m: ExternalDef, ch: Chance)
    requires WorkOk(w) && concept in Ids(w.store.concepts)
    ensures var r := PutExternal(w, concept, m, ch); r.Some? ==> Progress(w, r.value)
  {
    PutIsSound(w.store.externals, (concept, m.system, m.externalKey), Detail(m.display, "", w.provenance), Replace(), w.used, ch);
    PutGrows(w.store.externals, (concept, m.system, m.externalKey), Detail(m.display, "", w.provenance), Replace(), w.used, ch);
  }

  // ================================================================ what each command keeps

  /** What a command needs of the commands before it. */
  ghost predicate Fits(w: Work, c: Command) {
    match c
    case OpenNamespace(_, _) => true
    case AddField(of, _) => InNamespace(w) && ViewIs(w, of)
    case _ => InNamespace(w)
  }

  /** The concept key a command defines, and those it refers to. */
  function Named(c: Command): set<string> { if c.AddConcept? then {c.concept.key} else {} }

  function Ends(c: Command): set<string> {
    if c.AddRelationship? then {c.relationship.source, c.relationship.target} else {}
  }

  /** What a command that went through leaves. */
  ghost predicate Executed(w: Work, c: Command, w': Work) {
    && Progress(w, w') && InNamespace(w') && w'.ids.Keys == w.ids.Keys + Named(c) && Ends(c) <= w.ids.Keys
    && (!c.OpenNamespace? ==> w'.namespace == w.namespace)
    && (if c.AddView? then ViewIs(w', c.view.name) else c.OpenNamespace? || w'.view == w.view)
  }

  lemma ExecConceptKeeps(w: Work, c: ConceptDef, ch: Chance)
    requires WorkOk(w) && InNamespace(w)
    ensures var r := ExecConcept(w, c, ch); r.Some? ==> Executed(w, AddConcept(c), r.value)
  {
    ProvenanceKeeps(w, ch);
    if Provenance(w, ch).Some? {
      var a := Provenance(w, ch).value;
      ConceptKeeps(a, c, ch);
      if PutConcept(a, c, ch).Some? {
        var (b, id) := PutConcept(a, c, ch).value;
        ProgressTransitively(w, a, b);
        AliasesKeep(b, id, c.aliases, ch);
        if PutAliases(b, id, c.aliases, ch).Some? { ProgressTransitively(w, b, PutAliases(b, id, c.aliases, ch).value); }
      }
    }
  }

  lemma ExecRelationshipKeeps(w: Work, r: RelationshipDef, ch: Chance)
    requires WorkOk(w) && InNamespace(w)
    ensures var x := ExecRelationship(w, r, ch); x.Some? ==> Executed(w, AddRelationship(r), x.value)
  {
    ProvenanceKeeps(w, ch);
    if r.source in w.ids && r.target in w.ids && Provenance(w, ch).Some? {
      var a := Provenance(w, ch).value;
      RowExists(a.store.concepts, r.source, w.ids[r.source]);
      RowExists(a.store.concepts, r.target, w.ids[r.target]);
      RelationshipKeeps(a, w.ids[r.source], w.ids[r.target], r.kind, ch);
      var x := PutRelationship(a, w.ids[r.source], w.ids[r.target], r.kind, ch);
      if x.Some? { ProgressTransitively(w, a, x.value); }
    }
  }

  lemma ExecFieldKeeps(w: Work, of: string, f: FieldDef, ch: Chance)
    requires WorkOk(w) && InNamespace(w) && ViewIs(w, of)
    ensures var r := ExecField(w, f, ch); r.Some? ==> Executed(w, AddField(of, f), r.value)
  {
    RowExists(w.store.refs, (w.namespace, of), w.view);
    FieldKeeps(w, f, ch);
    if PutField(w, f, ch).Some? {
      var (a, attr) := PutField(w, f, ch).value;
      if f.mappedKey != "" && f.mappedKey in a.ids {
        RowExists(a.store.concepts, f.mappedKey, a.ids[f.mappedKey]);
        MappingKeeps(a, a.ids[f.mappedKey], attr, ch);
        var x := PutMapping(a, a.ids[f.mappedKey], attr, ch);
        if x.Some? { ProgressTransitively(w, a, x.value); }
      }
    }
  }

  lemma NativeConceptIsARow(w: Work, key: string)
    requires WorkOk(w)
    ensures NativeConcept(w, key).Some? ==> HasRow(w.store.concepts, key, NativeConcept(w, key).value)
  {
  }

  lemma ExecExternalKeeps(w: Work, m: ExternalDef, ch: Chance)
    requires WorkOk(w) && InNamespace(w)
    ensures var r := Exec(w, AddExternal(m), ch); r.Some? ==> Executed(w, AddExternal(m), r.value)
  {
    NativeConceptIsARow(w, m.nativeKey);
    var concept := NativeConcept(w, m.nativeKey);
    if concept.Some? {
      RowExists(w.store.concepts, m.nativeKey, concept.value);
      ExternalKeeps(w, concept.value, m, ch);
    }
  }

  lemma ExecKeeps(w: Work, c: Command, ch: Chance)
    requires WorkOk(w) && Fits(w, c)
    ensures var r := Exec(w, c, ch); r.Some? ==> Executed(w, c, r.value)
  {
    match c
    case OpenNamespace(name, detail) => NamespaceKeeps(w, name, detail, ch);
    case AddConcept(def) => ExecConceptKeeps(w, def, ch);
    case AddRelationship(def) => ExecRelationshipKeeps(w, def, ch);
    case OpenSchematic => ProvenanceKeeps(w, ch);
    case AddView(v) => ViewKeeps(w, v, ch);
    case AddField(of, f) => ExecFieldKeeps(w, of, f, ch);
    case AddExternal(m) => ExecExternalKeeps(w, m, ch);
  }

  // ================================================================ what a transaction keeps

  /** The name of the last view a list of commands opens. */
  function CurrentView(commands: seq<Command>): Option<string> {
    if commands == [] then None
    else if commands[|commands| - 1].AddView? then Some(commands[|commands| - 1].view.name)
    else CurrentView(commands[..|commands| - 1])
  }

  /** Commands that can follow an open namespace: every field comes under its own view. */
  predicate Follows(commands: seq<Command>) {
    forall i :: 0 <= i < |commands| ==>
      !commands[i].OpenNamespace? && (commands[i].AddField? ==> CurrentView(commands[..i]) == Some(commands[i].of))
  }

  /** The namespace is opened first and only then. */
  predicate InOrder(commands: seq<Command>) {
    && (commands != [] ==> commands[0].OpenNamespace?)
    && forall i :: 0 < i < |commands| ==>
         !commands[i].OpenNamespace? && (commands[i].AddField? ==> CurrentView(commands[..i]) == Some(commands[i].of))
  }

  lemma InOrderPrefix(commands: seq<Command>)
    requires commands != [] && InOrder(commands)
    ensures InOrder(commands[..|commands| - 1])
  {
    var shorter := commands[..|commands| - 1];
    forall i | 0 < i < |shorter|
      ensures !shorter[i].OpenNamespace? && (shorter[i].AddField? ==> CurrentView(shorter[..i]) == Some(shorter[i].of))
    {
      assert shorter[..i] == commands[..i] && shorter[i] == commands[i];
    }
  }

  /** Where the commands so far leave the open namespace and view. */
  ghost predicate Stands(w: Work, commands: seq<Command>) {
    && (commands != [] ==> InNamespace(w))
    && (CurrentView(commands).Some? ==> ViewIs(w, CurrentView(commands).value))
  }

  lemma StandsFits(w: Work, commands: seq<Command>)
    requires commands != [] && InOrder(commands) && Stands(w, commands[..|commands| - 1])
    ensures Fits(w, commands[|commands| - 1])
  {
  }

  lemma ExecutedStands(w: Work, w': Work, commands: seq<Command>)
    requires commands != [] && InOrder(commands) && Stands(w, commands[..|commands| - 1])
    requires Executed(w, commands[|commands| - 1], w')
    ensures Stands(w', commands)
  {
    var n := |commands| - 1;
    if !commands[n].AddView? && CurrentView(commands).Some? {
      assert n > 0 && !commands[n].OpenNamespace?;
      KeptRow(w.store.refs, w'.store.refs, (w.namespace, CurrentView(commands).value), w.view);
    }
  }

  lemma {:induction false} ExecAllKeeps(w: Work, commands: seq<Command>, ch: Chance)
    requires WorkOk(w) && InOrder(commands)
    ensures var r := ExecAll(Some(w), commands, ch); r.Some? ==> Progress(w, r.value) && Stands(r.value, commands)
  {
    if commands != [] {
      var n := |commands| - 1;
      InOrderPrefix(commands);
      ExecAllKeeps(w, commands[..n], ch);
      var r := ExecAll(Some(w), commands[..n], ch);
      if r.Some? && Exec(r.value, commands[n], ch).Some? {
        var after := Exec(r.value, commands[n], ch).value;
        StandsFits(r.value, commands);
        ExecKeeps(r.value, commands[n], ch);
        ProgressTransitively(w, r.value, after);
        ExecutedStands(r.value, after, commands);
      }
    }
  }

  // ---------------------------------------------------------------- the writes of a configuration are in order

  lemma {:induction false} CurrentViewAppend(a: seq<Command>, b: seq<Command>)
    ensures CurrentView(a + b) == if CurrentView(b).Some? then CurrentView(b) else CurrentView(a)
  {
    if b == [] {
      assert a + b == a;
    } else {
      assert (a + b)[..|a + b| - 1] == a + b[..|b| - 1];
      CurrentViewAppend(a, b[..|b| - 1]);
    }
  }

  lemma FollowAppend(a: seq<Command>, b: seq<Command>)
    requires Follows(a) && Follows(b)
    ensures Follows(a + b)
  {
    var c := a + b;
    forall i | 0 <= i < |c|
      ensures !c[i].OpenNamespace? && (c[i].AddField? ==> CurrentView(c[..i]) == Some(c[i].of))
    {
      if i < |a| {
        assert c[..i] == a[..i];
      } else {
        assert c[..i] == a + b[..i - |a|] && c[i] == b[i - |a|];
        CurrentViewAppend(a, b[..i - |a|]);
      }
    }
  }

  lemma OneFollows(c: Command)
    requires !c.OpenNamespace? && !c.AddField?
    ensures Follows([c])
  {
  }

  lemma {:induction false} ConceptsFollow(defs: seq<ConceptDef>)
    ensures Follows(Concepts(defs))
  {
    if defs != [] {
      var n := |defs| - 1;
      ConceptsFollow(defs[..n]);
      FollowAppend(Concepts(defs[..n]), [AddConcept(defs[n])]);
    }
  }

  lemma {:induction false} RelationshipsFollow(defs: seq<RelationshipDef>)
    ensures Follows(Relationships(defs))
  {
    if defs != [] {
      var n := |defs| - 1;
      RelationshipsFollow(defs[..n]);
      FollowAppend(Relationships(defs[..n]), [AddRelationship(defs[n])]);
    }
  }

  lemma {:induction false} ExternalsFollow(defs: seq<ExternalDef>)
    ensures Follows(Externals(defs))
  {
    if defs != [] {
      var n := |defs| - 1;
      ExternalsFollow(defs[..n]);
      FollowAppend(Externals(defs[..n]), [AddExternal(defs[n])]);
    }
  }

  /** One more field under the view that is open. */
  lemma FieldFollows(a: seq<Command>, of: string, f: FieldDef)
    requires Follows(a) && CurrentView(a) == Some(of)
    ensures Follows(a + [AddField(of, f)]) && CurrentView(a + [AddField(of, f)]) == Some(of)
  {
    var c := a + [AddField(of, f)];
    forall i | 0 <= i < |c|
      ensures !c[i].OpenNamespace? && (c[i].AddField? ==> CurrentView(c[..i]) == Some(c[i].of))
    {
      if i < |a| { assert c[..i] == a[..i]; } else { assert c[..i] == a; }
    }
    assert c[..|a|] == a;
  }

  lemma {:induction false} FieldsFollowTheirView(a: seq<Command>, of: string, defs: seq<FieldDef>)
    requires Follows(a) && CurrentView(a) == Some(of)
    ensures Follows(a + Fields(of, defs)) && CurrentView(a + Fields(of, defs)) == Some(of)
  {
    if defs == [] {
      assert a + [] == a;
    } else {
      var n := |defs| - 1;
      FieldsFollowTheirView(a, of, defs[..n]);
      FieldFollows(a + Fields(of, defs[..n]), of, defs[n]);
      assert a + Fields(of, defs) == a + Fields(of, defs[..n]) + [AddField(of, defs[n])];
    }
  }

  lemma {:induction false} ViewsFollow(defs: seq<ViewDef>)
    ensures Follows(Views(defs))
  {
    if defs != [] {
      var n := |defs| - 1;
      ViewsFollow(defs[..n]);
      FollowAppend(Views(defs[..n]), [AddView(defs[n])]);
      FieldsFollowTheirView(Views(defs[..n]) + [AddView(defs[n])], defs[n].name, defs[n].fields);
    }
  }

  lemma JoinFollow(a: seq<Command>, b: seq<Command>, c: seq<Command>, d: seq<Command>, e: seq<Command>)
    requires Follows(a) && Follows(b) && Follows(c) && Follows(d) && Follows(e)
    ensures Follows(a + b + c + d + e)
  {
    FollowAppend(a, b);
    FollowAppend(a + b, c);
    FollowAppend(a + b + c, d);
    FollowAppend(a + b + c + d, e);
  }

  lemma WritesAreInOrder(c: Config)
    ensures InOrder(Writes(c))
  {
    ConceptsFollow(c.concepts);
    RelationshipsFollow(c.relationships);
    OneFollows(OpenSchematic);
    ViewsFollow(c.views);
    ExternalsFollow(c.externals);
    JoinFollow(Concepts(c.concepts), Relationships(c.relationships), [OpenSchematic], Views(c.views), Externals(c.externals));
    OpeningFirstIsInOrder(OpenNamespace(c.namespace, c.namespaceDetail), AfterOpening(c));
    WritesOpenFirst(c);
  }

  function AfterOpening(c: Config): seq<Command> {
    Concepts(c.concepts) + Relationships(c.relationships) + [OpenSchematic] + Views(c.views) + Externals(c.externals)
  }

  lemma WritesOpenFirst(c: Config)
    ensures Writes(c) == [OpenNamespace(c.namespace, c.namespaceDetail)] + AfterOpening(c)
  {
    Regroup([OpenNamespace(c.namespace, c.namespaceDetail)], Concepts(c.concepts), Relationships(c.relationships),
            [OpenSchematic], Views(c.views), Externals(c.externals));
  }

  lemma Regroup<T>(a: seq<T>, b: seq<T>, c: seq<T>, d: seq<T>, e: seq<T>, f: seq<T>)
    ensures a + b + c + d + e + f == a + (b + c + d + e + f)
  {
    assert a + b + c == a + (b + c);
    assert a + (b + c) + d == a + (b + c + d);
    assert a + (b + c + d) + e == a + (b + c + d + e);
  }

  lemma OpeningFirstIsInOrder(open: Command, rest: seq<Command>)
    requires open.OpenNamespace? && Follows(rest)
    ensures InOrder([open] + rest)
  {
    var c := [open] + rest;
    forall i | 0 < i < |c|
      ensures !c[i].OpenNamespace? && (c[i].AddField? ==> CurrentView(c[..i]) == Some(c[i].of))
    {
      assert c[..i] == [open] + rest[..i - 1] && c[i] == rest[i - 1];
      CurrentViewAppend([open], rest[..i - 1]);
    }
  }

  // ================================================================ the main statements

  lemma TransactionKeepsTheStore(s: Store, c: Config, hash: int, ch: Chance)
    requires StoreOk(s)
    ensures var t := Transaction(s, c, hash, ch);
            t.Some? ==> StoreOk(t.value) && AllKept(s, t.value) && AlreadyIngested(t.value.runs, c.source, hash)
  {
    WritesAreInOrder(c);
    ExecAllKeeps(Start(s, ch), Writes(c), ch);
    var t := Transaction(s, c, hash, ch);
    if t.Some? {
      var last := t.value.runs[|t.value.runs| - 1];
      assert last.source == c.source && last.hash == hash;
    }
  }

  lemma IngestKeepsTheStore(s: Store, c: Config, digest: string -> int, ch: Chance)
    requires StoreOk(s)
    ensures StoreOk(IngestStore(s, c, digest, ch).0) && AllKept(s, IngestStore(s, c, digest, ch).0)
  {
    TransactionKeepsTheStore(s, c, digest(Joined(c)), ch);
  }

  datatype Request = Request(config: Config, chance: Chance)

  /** The store after a sequence of ingestions, whatever faults they meet. */
  function IngestAll(s: Store, requests: seq<Request>, digest: string -> int): Store
    decreases |requests|
  {
    if requests == [] then s
    else
      var r := requests[|requests| - 1];
      IngestStore(IngestAll(s, requests[..|requests| - 1], digest), r.config, digest, r.chance).0
  }

  lemma KeptTransitively(a: Store, b: Store, c: Store)
    requires AllKept(a, b) && AllKept(b, c)
    ensures AllKept(a, c)
  {
  }

  /**
   Over any sequence of configurations and faults: natural keys stay unique, every relationship and
   mapping points to existing rows, and every row keeps its id.
   */
  lemma {:induction false} EveryHistoryKeepsTheStore(s: Store, requests: seq<Request>, digest: string -> int)
    requires StoreOk(s)
    ensures StoreOk(IngestAll(s, requests, digest)) && AllKept(s, IngestAll(s, requests, digest))
    decreases |requests|
  {
    if requests != [] {
      var n := |requests| - 1;
      var before, r := IngestAll(s, requests[..n], digest), requests[n];
      EveryHistoryKeepsTheStore(s, requests[..n], digest);
      IngestKeepsTheStore(before, r.config, digest, r.chance);
      KeptTransitively(s, before, IngestAll(s, requests, digest));
    }
  }

  /** From the empty store each natural key belongs to one row, and that row keeps its id in every longer history. */
  lemma OneStableIdPerConcept(requests: seq<Request>, more: seq<Request>, digest: string -> int, i: nat, j: nat)
    requires i < |IngestAll(EMPTY, requests, digest).concepts|
    requires j < |IngestAll(IngestAll(EMPTY, requests, digest), more, digest).concepts|
    requires IngestAll(EMPTY, requests, digest).concepts[i].key
          == IngestAll(IngestAll(EMPTY, requests, digest), more, digest).concepts[j].key
    ensures IngestAll(EMPTY, requests, digest).concepts[i].id
         == IngestAll(IngestAll(EMPTY, requests, digest), more, digest).concepts[j].id
  {
    var s := IngestAll(EMPTY, requests, digest);
    assert StoreOk(EMPTY);
    EveryHistoryKeepsTheStore(EMPTY, requests, digest);
    EveryHistoryKeepsTheStore(s, more, digest);
    var s' := IngestAll(s, more, digest);
    assert s'.concepts[i].key == s.concepts[i].key;
    assert i == j;
  }

  /** Nothing but a fault in the counts after the commit makes a failed run change the store. */
  lemma FailedRunsAreUndoneUnlessCommitted(s: Store, c: Config, digest: string -> int, ch: Chance)
    requires IngestStore(s, c, digest, ch).1 == Failed
    ensures IngestStore(s, c, digest, ch).0 == s <==> Transaction(s, c, digest(Joined(c)), ch).None?
    ensures IngestStore(s, c, digest, ch).0 != s ==> ch.countsRaise
  {
    WritesKeepRuns(Some(Start(s, ch)), Writes(c), ch);
  }

  /** A run answered FAILED, among those whose counts after the commit may (`countsMayRaise`) or may not raise, left no trace. */
  ghost predicate FailureIsUndone(s: Store, c: Config, digest: string -> int, ch: Chance, countsMayRaise: bool) {
    (countsMayRaise || !ch.countsRaise) && IngestStore(s, c, digest, ch).1 == Failed ==> IngestStore(s, c, digest, ch).0 == s
  }

  /** Whatever faults strike the writes, for all stores and configurations a FAILED run is undone exactly when the counts cannot raise. */
  lemma FailedRunsAreUndoneExactlyWithoutCountFaults(digest: string -> int, countsMayRaise: bool)
    ensures (forall s, c, ch :: FailureIsUndone(s, c, digest, ch, countsMayRaise)) <==> !countsMayRaise
  {
    if countsMayRaise {
      var c, ch := FailureAfterTheCommit(digest);
      assert !FailureIsUndone(EMPTY, c, digest, ch, countsMayRaise);
    } else {
      forall s, c, ch ensures FailureIsUndone(s, c, digest, ch, countsMayRaise) {
        if IngestStore(s, c, digest, ch).1 == Failed { FailedRunsAreUndoneUnlessCommitted(s, c, digest, ch); }
      }
    }
  }

  lemma {:induction false} WritesKeepRuns(w: Option<Work>, commands: seq<Command>, ch: Chance)
    ensures w.Some? && ExecAll(w, commands, ch).Some? ==> ExecAll(w, commands, ch).value.store.runs == w.value.store.runs
                                                          && ExecAll(w, commands, ch).value.run == w.value.run
    ensures w.None? ==> ExecAll(w, commands, ch).None?
  {
    if commands != [] {
      var n := |commands| - 1;
      WritesKeepRuns(w, commands[..n], ch);
      if ExecAll(w, commands[..n], ch).Some? { WriteKeepsRuns(ExecAll(w, commands[..n], ch).value, commands[n], ch); }
    }
  }

  lemma WriteKeepsRuns(w: Work, c: Command, ch: Chance)
    ensures Exec(w, c, ch).Some? ==> Exec(w, c, ch).value.store.runs == w.store.runs && Exec(w, c, ch).value.run == w.run
  {
    if c.AddConcept? && Provenance(w, ch).Some? && PutConcept(Provenance(w, ch).value, c.concept, ch).Some? {
      var (b, id) := PutConcept(Provenance(w, ch).value, c.concept, ch).value;
      AliasesKeepRuns(b, id, c.concept.aliases, ch);
    }
  }

  lemma {:induction false} AliasesKeepRuns(w: Work, concept: Id, aliases: seq<string>, ch: Chance)
    ensures var r := PutAliases(w, concept, aliases, ch); r.Some? ==> r.value.store.runs == w.store.runs && r.value.run == w.run
  {
    if aliases != [] { AliasesKeepRuns(w, concept, aliases[..|aliases| - 1], ch); }
  }

  /** Without definitions and faults a first run commits. */
  lemma AnEmptyConfigurationCommits(c: Config, hash: int, ch: Chance)
    requires c.concepts == [] && c.relationships == [] && c.views == [] && c.externals == []
    requires forall n :: !ch.raises(n)
    ensures Transaction(EMPTY, c, hash, ch).Some? && Transaction(EMPTY, c, hash, ch).value.runs == [RunRow(ch.spare(0), c.source, hash)]
  {
    var writes := Writes(c);
    assert writes == [OpenNamespace(c.namespace, c.namespaceDetail), OpenSchematic];
    assert writes[..1] == [OpenNamespace(c.namespace, c.namespaceDetail)] && writes[..1][..0] == [];
    var start := Start(EMPTY, ch);
    assert Ids(start.store.namespaces) == {} && Ids(start.store.provenance) == {};
    var started := PutNamespace(start, c.namespace, c.namespaceDetail, ch);
    assert started.Some? && started.value.store.provenance == start.store.provenance;
    assert ExecAll(Some(start), writes[..1], ch) == started;
    assert Provenance(started.value, ch).Some?;
    WritesKeepRuns(Some(start), writes, ch);
  }

  /** The response says FAILED although the run was committed. */
  lemma FailureAfterTheCommit(digest: string -> int) returns (c: Config, ch: Chance)
    ensures IngestStore(EMPTY, c, digest, ch).1 == Failed && IngestStore(EMPTY, c, digest, ch).0 != EMPTY
  {
    c := Config("catalog", "catalog", "", "semantic", "schematic", [], [], [], []);
    ch := Chance(n => false, n => n, true);
    AnEmptyConfigurationCommits(c, digest(Joined(c)), ch);
  }

  /** Once committed, the same joined contract of the same source is skipped in every longer history. */
  lemma RepeatedContractsAreSkipped(s: Store, first: Request, between: seq<Request>, again: Request, digest: string -> int)
    requires StoreOk(s) && IngestStore(s, first.config, digest, first.chance).1 == Completed
    requires again.config.source == first.config.source
    requires Joined(again.config) == Joined(first.config)
    ensures var later := IngestAll(IngestStore(s, first.config, digest, first.chance).0, between, digest);
            IngestStore(later, again.config, digest, again.chance) == (later, Skipped)
  {
    var hash := digest(Joined(first.config));
    TransactionKeepsTheStore(s, first.config, hash, first.chance);
    var done := IngestStore(s, first.config, digest, first.chance).0;
    EveryHistoryKeepsTheStore(done, between, digest);
    var later := IngestAll(done, between, digest);
    var i :| 0 <= i < |done.runs| && done.runs[i].source == first.config.source && done.runs[i].hash == hash;
    assert later.runs[i] == done.runs[i];
  }

  // ---------------------------------------------------------------- which contracts are taken for known ones

  /** The request at this place of a history from the empty store committed. */
  ghost predicate CommitsAt(requests: seq<Request>, digest: string -> int, i: nat)
    requires i < |requests|
  {
    var before := IngestAll(EMPTY, requests[..i], digest);
    IngestStore(before, requests[i].config, digest, requests[i].chance).0.runs != before.runs
  }

  ghost predicate CommitsAs(requests: seq<Request>, digest: string -> int, i: nat, source: string, hash: int)
    requires i < |requests|
  {
    CommitsAt(requests, digest, i) && requests[i].config.source == source && digest(Joined(requests[i].config)) == hash
  }

  lemma RunsAfter(s: Store, c: Config, digest: string -> int, ch: Chance)
    ensures var s' := IngestStore(s, c, digest, ch).0;
            s'.runs == s.runs || s'.runs == s.runs + [RunRow(ch.spare(0), c.source, digest(Joined(c)))]
  {
    WritesKeepRuns(Some(Start(s, ch)), Writes(c), ch);
  }

  lemma KnownAfter(runs: seq<RunRow>, row: RunRow, source: string, hash: int)
    ensures AlreadyIngested(runs + [row], source, hash) <==> AlreadyIngested(runs, source, hash) || (row.source == source && row.hash == hash)
  {
    var longer := runs + [row];
    if i :| 0 <= i < |runs| && runs[i].source == source && runs[i].hash == hash { assert longer[i] == runs[i]; }
    assert longer[|runs|] == row;
  }

  /** The completed runs are exactly those that committed. */
  lemma {:induction false} KnownExactlyWhenCommitted(requests: seq<Request>, digest: string -> int, source: string, hash: int)
    ensures AlreadyIngested(IngestAll(EMPTY, requests, digest).runs, source, hash)
       <==> exists i :: 0 <= i < |requests| && CommitsAs(requests, digest, i, source, hash)
    decreases |requests|
  {
    if requests != [] {
      var n := |requests| - 1;
      var r, before := requests[n], IngestAll(EMPTY, requests[..n], digest);
      KnownExactlyWhenCommitted(requests[..n], digest, source, hash);
      RunsAfter(before, r.config, digest, r.chance);
      KnownAfter(before.runs, RunRow(r.chance.spare(0), r.config.source, digest(Joined(r.config))), source, hash);
      forall i | 0 <= i < n
        ensures CommitsAs(requests, digest, i, source, hash) <==> CommitsAs(requests[..n], digest, i, source, hash)
      {
        assert requests[..n][..i] == requests[..i] && requests[..n][i] == requests[i];
      }
      assert CommitsAs(requests, digest, n, source, hash) <==>
             CommitsAt(requests, digest, n) && r.config.source == source && digest(Joined(r.config)) == hash;
    }
  }

  /** After any history, an ingestion is skipped exactly when a run of its source with the digest of its joined contract committed. */
  lemma SkippedExactlyForAKnownDigest(requests: seq<Request>, c: Config, ch: Chance, digest: string -> int)
    ensures IngestStore(IngestAll(EMPTY, requests, digest), c, digest, ch).1 == Skipped
       <==> exists i :: 0 <= i < |requests| && CommitsAs(requests, digest, i, c.source, digest(Joined(c)))
  {
    KnownExactlyWhenCommitted(requests, digest, c.source, digest(Joined(c)));
  }

  /** No committed run of the source had this pair of contracts. */
  ghost predicate IsNew(requests: seq<Request>, digest: string -> int, c: Config) {
    forall i :: 0 <= i < |requests| && CommitsAt(requests, digest, i) && requests[i].config.source == c.source
      ==> (requests[i].config.semantic, requests[i].config.schematic) != (c.semantic, c.schematic)
  }

  ghost predicate Injective(digest: string -> int) { forall a, b :: digest(a) == digest(b) ==> a == b }

  /** The same joined text of the same source was committed. */
  ghost predicate RepeatsTheText(requests: seq<Request>, digest: string -> int, i: nat, c: Config)
    requires i < |requests|
  {
    CommitsAt(requests, digest, i) && requests[i].config.source == c.source && Joined(requests[i].config) == Joined(c)
  }

  /**
   A contract whose pair of texts is new to its source should be ingested. It is skipped exactly when a
   committed pair of that source, split elsewhere, joins to the same text, even when digests never collide.
   */
  lemma NewContractsAreSkippedExactlyWhenResplit(requests: seq<Request>, c: Config, ch: Chance, digest: string -> int)
    requires IsNew(requests, digest, c) && Injective(digest)
    ensures IngestStore(IngestAll(EMPTY, requests, digest), c, digest, ch).1 == Skipped
       <==> exists i :: 0 <= i < |requests| && RepeatsTheText(requests, digest, i, c)
    ensures forall i :: 0 <= i < |requests| && RepeatsTheText(requests, digest, i, c) ==> requests[i].config.semantic != c.semantic
  {
    SkippedExactlyForAKnownDigest(requests, c, ch, digest);
    forall i | 0 <= i < |requests|
      ensures CommitsAs(requests, digest, i, c.source, digest(Joined(c))) <==> RepeatsTheText(requests, digest, i, c)
    {
    }
    forall i | 0 <= i < |requests| && RepeatsTheText(requests, digest, i, c) ensures requests[i].config.semantic != c.semantic {
      SameStartSameRest(c.semantic, requests[i].config.schematic, c.schematic);
    }
  }

  lemma SameStartSameRest(a: string, b: string, c: string)
    ensures a + b == a + c ==> b == c
  {
    assert (a + b)[|a|..] == b && (a + c)[|a|..] == c;
  }

  /** Two configurations with the same text split differently: the second is new, skipped, and its concept never arrives. */
  lemma SplitsShareAHash(digest: string -> int, concept: ConceptDef) returns (first: Request, second: Config)
    ensures second.concepts == [concept] && IsNew([first], digest, second)
    ensures var s := IngestAll(EMPTY, [first], digest);
            s != EMPTY && IngestStore(s, second, digest, first.chance) == (s, Skipped)
  {
    first := Request(Config("catalog", "catalog", "", "ab", "c", [], [], [], []), Chance(n => false, n => n, false));
    second := Config("catalog", "catalog", "", "a", "bc", [concept], [], [], []);
    assert Joined(first.config) == Joined(second);
    assert [first][..0] == [] && IngestAll(EMPTY, [], digest) == EMPTY;
    AnEmptyConfigurationCommits(first.config, digest(Joined(first.config)), first.chance);
    var s := IngestAll(EMPTY, [first], digest);
    assert s == IngestStore(EMPTY, first.config, digest, first.chance).0;
    assert s.runs[0].source == second.source && s.runs[0].hash == digest(Joined(second));
  }

  // ================================================================ what a committed run contains

  lemma StepCollects(w: Work, commands: seq<Command>, ch: Chance)
    requires WorkOk(w) && commands != [] && InOrder(commands) && ExecAll(Some(w), commands, ch).Some?
    ensures var n := |commands| - 1;
            var before, after := ExecAll(Some(w), commands[..n], ch).value.ids, ExecAll(Some(w), commands, ch).value.ids;
            after.Keys == before.Keys + Named(commands[n]) && Ends(commands[n]) <= before.Keys
  {
    var n := |commands| - 1;
    InOrderPrefix(commands);
    ExecAllKeeps(w, commands[..n], ch);
    StandsFits(ExecAll(Some(w), commands[..n], ch).value, commands);
    ExecKeeps(ExecAll(Some(w), commands[..n], ch).value, commands[n], ch);
  }

  lemma {:induction false} ConceptsAreCollected(w: Work, commands: seq<Command>, ch: Chance)
    requires WorkOk(w) && InOrder(commands) && ExecAll(Some(w), commands, ch).Some?
    ensures forall k :: k in ExecAll(Some(w), commands, ch).value.ids <==> k in w.ids || Defines(commands, k)
  {
    if commands != [] {
      InOrderPrefix(commands);
      ConceptsAreCollected(w, commands[..|commands| - 1], ch);
      StepCollects(w, commands, ch);
      DefinesSnoc(commands);
    }
  }

  lemma {:induction false} EndsAreCollected(w: Work, commands: seq<Command>, ch: Chance, i: nat)
    requires WorkOk(w) && InOrder(commands) && ExecAll(Some(w), commands, ch).Some? && i < |commands|
    ensures Ends(commands[i]) <= ExecAll(Some(w), commands, ch).value.ids.Keys
  {
    InOrderPrefix(commands);
    StepCollects(w, commands, ch);
    if i < |commands| - 1 { EndsAreCollected(w, commands[..|commands| - 1], ch, i); }
  }

  ghost predicate Defines(commands: seq<Command>, k: string) { exists i :: 0 <= i < |commands| && k in Named(commands[i]) }

  lemma DefinesSnoc(commands: seq<Command>)
    requires commands != []
    ensures var n := |commands| - 1; forall k :: Defines(commands, k) <==> Defines(commands[..n], k) || k in Named(commands[n])
  {
  }

  /** In a committed run every concept has its row, and every end of a relationship is a concept of the configuration. */
  lemma CommittedRunsAreComplete(s: Store, c: Config, hash: int, ch: Chance, k: string)
    requires StoreOk(s) && Transaction(s, c, hash, ch).Some?
    ensures Defines(Writes(c), k) ==> exists id :: HasRow(Transaction(s, c, hash, ch).value.concepts, k, id)
    ensures forall i :: 0 <= i < |Writes(c)| && k in Ends(Writes(c)[i]) ==> Defines(Writes(c), k)
  {
    WritesAreInOrder(c);
    ExecAllKeeps(Start(s, ch), Writes(c), ch);
    ConceptsAreCollected(Start(s, ch), Writes(c), ch);
    var w := ExecAll(Some(Start(s, ch)), Writes(c), ch).value;
    forall i | 0 <= i < |Writes(c)| && k in Ends(Writes(c)[i]) ensures Defines(Writes(c), k) {
      EndsAreCollected(Start(s, ch), Writes(c), ch, i);
    }
    if Defines(Writes(c), k) { assert k in w.ids && HasRow(w.store.concepts, k, w.ids[k]); }
  }
}
