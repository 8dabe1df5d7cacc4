/** When an ingestion succeeds: nothing but a fault, an identifier in use or an undefined end of a relationship stops it. */
module AzmOutcome {
  import opened Common
  import opened AzmStore
  import opened AzmInvariants
  import opened AzmArrival

  // ================================================================ unhindered writes

  /** No row of any table has this id. */
  ghost predicate Unused(s: Store, id: Id) {
    && id !in Ids(s.provenance) && id !in Ids(s.namespaces) && id !in Ids(s.concepts) && id !in Ids(s.aliases)
    && id !in Ids(s.relationships) && id !in Ids(s.refs) && id !in Ids(s.attrs) && id !in Ids(s.attrMappings)
    && id !in Ids(s.externals)
  }

  /** No call raises, and identifiers are drawn only once. */
  ghost predicate NoFaults(ch: Chance) {
    (forall n: nat :: !ch.raises(n)) && forall m: nat, n: nat :: m < n ==> ch.spare(m) != ch.spare(n)
  }

  /** The identifiers yet to be drawn are in use nowhere. */
  ghost predicate Fresh(w: Work, ch: Chance) { forall n: nat :: n >= w.used ==> Unused(w.store, ch.spare(n)) }

  lemma PutGoesThrough<K, V>(t: Table<K, V>, key: K, value: V, merge: (V, V) -> V, n: nat, ch: Chance)
    requires NoFaults(ch) && ch.spare(n) !in Ids(t)
    ensures Put(t, key, value, merge, n, ch).Placed?
    ensures forall m: nat :: m > n && ch.spare(m) !in Ids(t) ==> ch.spare(m) !in Ids(Put(t, key, value, merge, n, ch).table)
  {
    PutGrows(t, key, value, merge, n, ch);
  }

  /** The one thing besides faults that can stop a command. */
  predicate Possible(w: Work, c: Command) { Ends(c) <= w.ids.Keys }

  lemma ProvenanceGoesThrough(w: Work, ch: Chance)
    requires NoFaults(ch) && Fresh(w, ch)
    ensures Provenance(w, ch).Some? && Fresh(Provenance(w, ch).value, ch)
  {
    assert Unused(w.store, ch.spare(w.used));
    var t, t' := w.store.provenance, w.store.provenance + [Row(ch.spare(w.used), ch.spare(w.used), w.run)];
    forall n: nat | n > w.used ensures ch.spare(n) !in Ids(t') {
      assert Unused(w.store, ch.spare(n));
    }
  }

  lemma {:induction false} AliasesGoThrough(w: Work, concept: Id, aliases: seq<string>, ch: Chance)
    requires NoFaults(ch) && Fresh(w, ch)
    ensures PutAliases(w, concept, aliases, ch).Some? && Fresh(PutAliases(w, concept, aliases, ch).value, ch)
  {
    if aliases != [] {
      var n := |aliases| - 1;
      AliasesGoThrough(w, concept, aliases[..n], ch);
      var before := PutAliases(w, concept, aliases[..n], ch).value;
      assert Unused(before.store, ch.spare(before.used));
      PutGoesThrough(before.store.aliases, (concept, aliases[n]), 0, Leave(), before.used, ch);
    }
  }

  lemma ConceptGoesThrough(w: Work, c: ConceptDef, ch: Chance)
    requires NoFaults(ch) && Fresh(w, ch)
    ensures ExecConcept(w, c, ch).Some? && Fresh(ExecConcept(w, c, ch).value, ch)
  {
    ProvenanceGoesThrough(w, ch);
    var a := Provenance(w, ch).value;
    assert Unused(a.store, ch.spare(a.used));
    var value := ConceptValue(a.namespace, c.name, c.kind, c.definition, a.provenance);
    PutGoesThrough(a.store.concepts, c.key, value, StayInNamespace(), a.used, ch);
    var (b, id) := PutConcept(a, c, ch).value;
    assert Fresh(b, ch);
    AliasesGoThrough(b, id, c.aliases, ch);
  }

  lemma RelationshipGoesThrough(w: Work, r: RelationshipDef, ch: Chance)
    requires NoFaults(ch) && Fresh(w, ch) && Possible(w, AddRelationship(r))
    ensures ExecRelationship(w, r, ch).Some? && Fresh(ExecRelationship(w, r, ch).value, ch)
  {
    ProvenanceGoesThrough(w, ch);
    var a := Provenance(w, ch).value;
    assert Unused(a.store, ch.spare(a.used));
    assert r.source in Ends(AddRelationship(r)) && r.target in Ends(AddRelationship(r));
    PutGoesThrough(a.store.relationships, (w.ids[r.source], w.ids[r.target], r.kind), a.provenance, Replace(), a.used, ch);
  }

  lemma FieldGoesThrough(w: Work, f: FieldDef, ch: Chance)
    requires NoFaults(ch) && Fresh(w, ch)
    ensures ExecField(w, f, ch).Some? && Fresh(ExecField(w, f, ch).value, ch)
  {
    assert Unused(w.store, ch.spare(w.used));
    PutGoesThrough(w.store.attrs, (w.view, f.name), AttrOf(f, w.provenance), Replace(), w.used, ch);
    var (a, attr) := PutField(w, f, ch).value;
    assert Fresh(a, ch);
    if f.mappedKey != "" && f.mappedKey in a.ids {
      assert Unused(a.store, ch.spare(a.used));
      PutGoesThrough(a.store.attrMappings, (a.ids[f.mappedKey], attr), a.provenance, Replace(), a.used, ch);
    }
  }

  lemma ExternalGoesThrough(w: Work, m: ExternalDef, ch: Chance)
    requires NoFaults(ch) && Fresh(w, ch)
    ensures Exec(w, AddExternal(m), ch).Some? && Fresh(Exec(w, AddExternal(m), ch).value, ch)
  {
    var concept := NativeConcept(w, m.nativeKey);
    if concept.Some? {
      assert Unused(w.store, ch.spare(w.used));
      PutGoesThrough(w.store.externals, (concept.value, m.system, m.externalKey), Detail(m.display, "", w.provenance), Replace(), w.used, ch);
    }
  }

  /** Without faults every possible command goes through, and leaves the remaining identifiers unused. */
  lemma CommandGoesThrough(w: Work, c: Command, ch: Chance)
    requires NoFaults(ch) && Fresh(w, ch) && Possible(w, c)
    ensures Exec(w, c, ch).Some? && Fresh(Exec(w, c, ch).value, ch)
  {
    assert Unused(w.store, ch.spare(w.used));
    match c
    case OpenNamespace(name, detail) =>
      PutGoesThrough(w.store.namespaces, name, Detail(detail, "", 0), Leave(), w.used, ch);
    case AddConcept(def) => ConceptGoesThrough(w, def, ch);
    case AddRelationship(r) => RelationshipGoesThrough(w, r, ch);
    case OpenSchematic => ProvenanceGoesThrough(w, ch);
    case AddView(v) =>
      PutGoesThrough(w.store.refs, (w.namespace, v.name), Detail(v.surface, v.description, w.provenance), Replace(), w.used, ch);
    case AddField(_, f) => FieldGoesThrough(w, f, ch);
    case AddExternal(m) => ExternalGoesThrough(w, m, ch);
  }

  // ================================================================ whole configurations

  /** Every end of a relationship is defined by an earlier command. */
  ghost predicate EndsDefined(commands: seq<Command>) {
    forall i {:trigger commands[i]} :: 0 <= i < |commands| ==> forall k :: k in Ends(commands[i]) ==> Defines(commands[..i], k)
  }

  lemma EndsDefinedPrefix(commands: seq<Command>)
    requires commands != [] && EndsDefined(commands)
    ensures EndsDefined(commands[..|commands| - 1])
  {
    var shorter := commands[..|commands| - 1];
    forall i | 0 <= i < |shorter| ensures forall k :: k in Ends(shorter[i]) ==> Defines(shorter[..i], k) {
      assert shorter[..i] == commands[..i] && shorter[i] == commands[i];
    }
  }

  lemma LastIsPossible(w: Work, commands: seq<Command>, ch: Chance)
    requires WorkOk(w) && commands != [] && InOrder(commands) && EndsDefined(commands)
    requires ExecAll(Some(w), commands[..|commands| - 1], ch).Some?
    ensures Possible(ExecAll(Some(w), commands[..|commands| - 1], ch).value, commands[|commands| - 1])
  {
    var n := |commands| - 1;
    InOrderPrefix(commands);
    ConceptsAreCollected(w, commands[..n], ch);
    assert forall k :: k in Ends(commands[n]) ==> Defines(commands[..n], k);
  }

  lemma {:induction false} CommandsGoThrough(w: Work, commands: seq<Command>, ch: Chance)
    requires NoFaults(ch) && Fresh(w, ch) && WorkOk(w) && InOrder(commands) && EndsDefined(commands)
    ensures ExecAll(Some(w), commands, ch).Some? && Fresh(ExecAll(Some(w), commands, ch).value, ch)
  {
    if commands != [] {
      InOrderPrefix(commands);
      EndsDefinedPrefix(commands);
      CommandsGoThrough(w, commands[..|commands| - 1], ch);
      LastIsPossible(w, commands, ch);
      CommandGoesThrough(ExecAll(Some(w), commands[..|commands| - 1], ch).value, commands[|commands| - 1], ch);
    }
  }

  predicate IsConceptKey(concepts: seq<ConceptDef>, key: string) { exists j :: 0 <= j < |concepts| && concepts[j].key == key }

  /** Both ends of every relationship are concepts of the configuration. */
  predicate EndsAreConcepts(c: Config) {
    forall i :: 0 <= i < |c.relationships| ==>
      IsConceptKey(c.concepts, c.relationships[i].source) && IsConceptKey(c.concepts, c.relationships[i].target)
  }

  /** Neither a concept nor a relationship. */
  predicate Plain(c: Command) { !c.AddConcept? && !c.AddRelationship? }

  lemma {:induction false} ViewsArePlain(defs: seq<ViewDef>)
    ensures forall i :: 0 <= i < |Views(defs)| ==> Plain(Views(defs)[i])
  {
    if defs != [] {
      ViewsArePlain(defs[..|defs| - 1]);
      FieldsInOrder(defs[|defs| - 1].name, defs[|defs| - 1].fields);
    }
  }

  function Tail(c: Config): seq<Command> { [OpenSchematic] + Views(c.views) + Externals(c.externals) }

  lemma TailIsPlain(c: Config)
    ensures forall i :: 0 <= i < |Tail(c)| ==> Plain(Tail(c)[i])
  {
    ViewsArePlain(c.views);
    ExternalsInOrder(c.externals);
  }

  /** The parts of a configuration's writes that matter here. */
  lemma WritesInParts(c: Config)
    ensures Writes(c) == ([OpenNamespace(c.namespace, c.namespaceDetail)] + Concepts(c.concepts)) + Relationships(c.relationships) + Tail(c)
  {
    var a := [OpenNamespace(c.namespace, c.namespaceDetail)] + Concepts(c.concepts) + Relationships(c.relationships);
    assert a + [OpenSchematic] + Views(c.views) + Externals(c.externals) == a + Tail(c);
  }

  lemma DefinitionsOfConcepts(c: Config, k: string)
    ensures Defines(Writes(c), k) <==> IsConceptKey(c.concepts, k)
    ensures IsConceptKey(c.concepts, k) ==> Defines([OpenNamespace(c.namespace, c.namespaceDetail)] + Concepts(c.concepts), k)
  {
    var writes, head := Writes(c), [OpenNamespace(c.namespace, c.namespaceDetail)] + Concepts(c.concepts);
    WritesInParts(c);
    ConceptsInOrder(c.concepts);
    RelationshipsInOrder(c.relationships);
    TailIsPlain(c);
    if j :| 0 <= j < |c.concepts| && c.concepts[j].key == k {
      assert head[j + 1] == AddConcept(c.concepts[j]) && writes[j + 1] == head[j + 1];
    }
    if i :| 0 <= i < |writes| && k in Named(writes[i]) {
      assert writes[i].AddConcept?;
      assert 0 < i < |head| && writes[i] == head[i] == AddConcept(c.concepts[i - 1]);
    }
  }

  lemma WritesDefineTheirEnds(c: Config)
    requires EndsAreConcepts(c)
    ensures EndsDefined(Writes(c))
  {
    var writes, head := Writes(c), [OpenNamespace(c.namespace, c.namespaceDetail)] + Concepts(c.concepts);
    WritesInParts(c);
    ConceptsInOrder(c.concepts);
    RelationshipsInOrder(c.relationships);
    TailIsPlain(c);
    forall i | 0 <= i < |writes| ensures forall k :: k in Ends(writes[i]) ==> Defines(writes[..i], k) {
      if writes[i].AddRelationship? {
        assert |head| <= i < |head| + |c.relationships| && writes[i] == AddRelationship(c.relationships[i - |head|]);
        assert writes[..i] == head + writes[..i][|head|..];
        forall k | k in Ends(writes[i]) ensures Defines(writes[..i], k) {
          DefinitionsOfConcepts(c, k);
          DefinesLonger(head, writes[..i][|head|..], k);
        }
      }
    }
  }

  lemma DefinesLonger(a: seq<Command>, b: seq<Command>, k: string)
    requires Defines(a, k)
    ensures Defines(a + b, k)
  {
    var i :| 0 <= i < |a| && k in Named(a[i]);
    assert (a + b)[i] == a[i];
  }

  /** Without faults and with identifiers that are in use nowhere, a run commits exactly when its relationships end at its own concepts. */
  lemma UnhinderedRunsCommit(s: Store, c: Config, hash: int, ch: Chance)
    requires StoreOk(s) && NoFaults(ch) && forall n: nat :: Unused(s, ch.spare(n))
    ensures Transaction(s, c, hash, ch).Some? <==> EndsAreConcepts(c)
  {
    WritesAreInOrder(c);
    if EndsAreConcepts(c) {
      WritesDefineTheirEnds(c);
      CommandsGoThrough(Start(s, ch), Writes(c), ch);
    }
    if Transaction(s, c, hash, ch).Some? { CommittedEndsAreConcepts(s, c, hash, ch); }
  }

  lemma CommittedEndsAreConcepts(s: Store, c: Config, hash: int, ch: Chance)
    requires StoreOk(s) && Transaction(s, c, hash, ch).Some?
    ensures EndsAreConcepts(c)
  {
    forall i | 0 <= i < |c.relationships|
      ensures IsConceptKey(c.concepts, c.relationships[i].source) && IsConceptKey(c.concepts, c.relationships[i].target)
    {
      var r := c.relationships[i];
      RelationshipsAreWritten(c, i);
      var j :| 0 <= j < |Writes(c)| && Writes(c)[j] == AddRelationship(r);
      CommittedRunsAreComplete(s, c, hash, ch, r.source);
      CommittedRunsAreComplete(s, c, hash, ch, r.target);
      assert r.source in Ends(Writes(c)[j]) && r.target in Ends(Writes(c)[j]);
      DefinitionsOfConcepts(c, r.source);
      DefinitionsOfConcepts(c, r.target);
    }
  }

  /** The answer to an unhindered ingestion of a contract not yet known. */
  lemma IngestionVerdict(s: Store, c: Config, digest: string -> int, ch: Chance)
    requires StoreOk(s) && NoFaults(ch) && forall n: nat :: Unused(s, ch.spare(n))
    requires forall i :: 0 <= i < |s.runs| ==> s.runs[i].id != ch.spare(0)
    requires forall i :: 0 <= i < |s.runs| && s.runs[i].source == c.source ==> s.runs[i].hash != digest(Joined(c))
    ensures IngestStore(s, c, digest, ch).1 == if EndsAreConcepts(c) && !ch.countsRaise then Completed else Failed
  {
    UnhinderedRunsCommit(s, c, digest(Joined(c)), ch);
  }
}
