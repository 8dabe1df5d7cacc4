/** The ingester: its loops carry out the writes of a configuration one after the other. */
module AzmIngestion {
  import opened Common
  import opened AzmStore
  import opened AzmInvariants
  import opened AzmArrival

  // ================================================================ the ingester

  lemma {:induction false} ExecAppend(w: Option<Work>, a: seq<Command>, b: seq<Command>, ch: Chance)
    ensures ExecAll(w, a + b, ch) == ExecAll(ExecAll(w, a, ch), b, ch)
  {
    if b == [] {
      assert a + b == a;
    } else {
      var n := |b| - 1;
      assert (a + b)[..|a + b| - 1] == a + b[..n];
      ExecAppend(w, a, b[..n], ch);
    }
  }

  /** An ingestion keeps the store; one that completes leaves all of its configuration there. */
  lemma IngestionStores(s: Store, c: Config, digest: string -> int, ch: Chance)
    requires StoreOk(s)
    ensures var (after, status) := IngestStore(s, c, digest, ch);
            && StoreOk(after) && AllKept(s, after)
            && (status == Completed && DistinctDefinitions(c) ==> ConfigurationStored(after, c))
  {
    IngestKeepsTheStore(s, c, digest, ch);
    if IngestStore(s, c, digest, ch).1 == Completed && DistinctDefinitions(c) {
      CommittedConfigurationIsStored(s, c, digest(Joined(c)), ch);
    }
  }

  class UniversalAzmIngester {
    /** The committed database. */
    var store: Store
    const digest: string -> int

    constructor (digest: string -> int)
      ensures store == EMPTY && this.digest == digest
    {
      this.digest := digest;
      store := EMPTY;
    }

    /** Runs one command in the open transaction; after an error nothing more is run. */
    method Step(w: Option<Work>, c: Command, ch: Chance) returns (next: Option<Work>)
      ensures next == ExecAll(w, [c], ch)
    {
      assert [c][..0] == [] && ExecAll(w, [], ch) == w;
      if w.None? { return None; }
      return Exec(w.value, c, ch);
    }

    method AddConcepts(start: Option<Work>, defs: seq<ConceptDef>, ch: Chance) returns (w: Option<Work>)
      ensures w == ExecAll(start, Concepts(defs), ch)
    {
      w := start;
      for i := 0 to |defs|
        invariant w == ExecAll(start, Concepts(defs[..i]), ch)
      {
        assert defs[..i + 1][..i] == defs[..i] && defs[..i + 1][i] == defs[i];
        ExecAppend(start, Concepts(defs[..i]), [AddConcept(defs[i])], ch);
        w := Step(w, AddConcept(defs[i]), ch);
      }
      assert defs[..|defs|] == defs;
    }

    method AddRelationships(start: Option<Work>, defs: seq<RelationshipDef>, ch: Chance) returns (w: Option<Work>)
      ensures w == ExecAll(start, Relationships(defs), ch)
    {
      w := start;
      for i := 0 to |defs|
        invariant w == ExecAll(start, Relationships(defs[..i]), ch)
      {
        assert defs[..i + 1][..i] == defs[..i] && defs[..i + 1][i] == defs[i];
        ExecAppend(start, Relationships(defs[..i]), [AddRelationship(defs[i])], ch);
        w := Step(w, AddRelationship(defs[i]), ch);
      }
      assert defs[..|defs|] == defs;
    }

    method AddFields(start: Option<Work>, of: string, defs: seq<FieldDef>, ch: Chance) returns (w: Option<Work>)
      ensures w == ExecAll(start, Fields(of, defs), ch)
    {
      w := start;
      for i := 0 to |defs|
        invariant w == ExecAll(start, Fields(of, defs[..i]), ch)
      {
        assert defs[..i + 1][..i] == defs[..i] && defs[..i + 1][i] == defs[i];
        ExecAppend(start, Fields(of, defs[..i]), [AddField(of, defs[i])], ch);
        w := Step(w, AddField(of, defs[i]), ch);
      }
      assert defs[..|defs|] == defs;
    }

    method AddViews(start: Option<Work>, defs: seq<ViewDef>, ch: Chance) returns (w: Option<Work>)
      ensures w == ExecAll(start, Views(defs), ch)
    {
      w := start;
      for i := 0 to |defs|
        invariant w == ExecAll(start, Views(defs[..i]), ch)
      {
        assert defs[..i + 1][..i] == defs[..i] && defs[..i + 1][i] == defs[i];
        ExecAppend(start, Views(defs[..i]), [AddView(defs[i])], ch);
        ExecAppend(start, Views(defs[..i]) + [AddView(defs[i])], Fields(defs[i].name, defs[i].fields), ch);
        w := Step(w, AddView(defs[i]), ch);
        w := AddFields(w, defs[i].name, defs[i].fields, ch);
      }
      assert defs[..|defs|] == defs;
    }

    method AddExternals(start: Option<Work>, defs: seq<ExternalDef>, ch: Chance) returns (w: Option<Work>)
      ensures w == ExecAll(start, Externals(defs), ch)
    {
      w := start;
      for i := 0 to |defs|
        invariant w == ExecAll(start, Externals(defs[..i]), ch)
      {
        assert defs[..i + 1][..i] == defs[..i] && defs[..i + 1][i] == defs[i];
        ExecAppend(start, Externals(defs[..i]), [AddExternal(defs[i])], ch);
        w := Step(w, AddExternal(defs[i]), ch);
      }
      assert defs[..|defs|] == defs;
    }

    method WriteAll(c: Config, ch: Chance) returns (w: Option<Work>)
      ensures w == ExecAll(Some(Start(store, ch)), Writes(c), ch)
    {
      var start := Some(Start(store, ch));
      ghost var a := [OpenNamespace(c.namespace, c.namespaceDetail)];
      ghost var b := a + Concepts(c.concepts);
      ghost var d := b + Relationships(c.relationships) + [OpenSchematic];
      w := Step(start, OpenNamespace(c.namespace, c.namespaceDetail), ch);
      w := AddConcepts(w, c.concepts, ch);
      ExecAppend(start, a, Concepts(c.concepts), ch);
      w := AddRelationships(w, c.relationships, ch);
      ExecAppend(start, b, Relationships(c.relationships), ch);
      w := Step(w, OpenSchematic, ch);
      ExecAppend(start, b + Relationships(c.relationships), [OpenSchematic], ch);
      w := AddViews(w, c.views, ch);
      ExecAppend(start, d, Views(c.views), ch);
      w := AddExternals(w, c.externals, ch);
      ExecAppend(start, d + Views(c.views), Externals(c.externals), ch);
    }

    method IsAlreadyIngested(source: string, hash: int) returns (found: bool)
      ensures found == AlreadyIngested(store.runs, source, hash)
    {
      for i := 0 to |store.runs|
        invariant forall j :: 0 <= j < i ==> !(store.runs[j].source == source && store.runs[j].hash == hash)
      {
        if store.runs[i].source == source && store.runs[i].hash == hash { return true; }
      }
      return false;
    }

    /** `Escaped` is the one error outside the handler: the run row could not be inserted. */
    method Ingest(c: Config, ch: Chance) returns (status: Status)
      modifies this
      ensures (store, status) == IngestStore(old(store), c, digest, ch)
      ensures old(StoreOk(store)) ==> StoreOk(store) && AllKept(old(store), store)
      ensures old(StoreOk(store)) && status == Completed && DistinctDefinitions(c) ==> ConfigurationStored(store, c)
    {
      var hash := digest(Joined(c));
      if StoreOk(store) { IngestionStores(store, c, digest, ch); }
      var known := IsAlreadyIngested(c.source, hash);
      if known { return Skipped; }
      if ch.raises(0) || exists i :: 0 <= i < |store.runs| && store.runs[i].id == ch.spare(0) { return Escaped; }
      var w := WriteAll(c, ch);
      if w.None? || ch.raises(w.value.used) || ch.raises(w.value.used + 1) { return Failed; }
      store := w.value.store.(runs := w.value.store.runs + [RunRow(w.value.run, c.source, hash)]);
      return if ch.countsRaise then Failed else Completed;
    }
  }
}
