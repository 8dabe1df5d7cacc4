/** What the statements of one payload leave in each row and in the ledger, inputs that target one row several times included. */
module CatalogWrites {
  import opened Common
  import opened CatalogModel
  import opened CatalogValidation
  import opened CatalogStore

  // ================================================================ the rows

  function Found(skus: map<Uuid, Sku>, id: Uuid): Option<Sku> { if id in skus then Some(skus[id]) else None }

  /** The row one input leaves, over the row it found. */
  function RowAfter(row: Option<Sku>, parent: Uuid, given: SkuContent): Sku {
    match row
    case Some(r) => Sku(r.parent, StoredSku(MergeSku(r.content, given)))
    case None => Sku(parent, StoredSku(given))
  }

  /** The inputs that target one row, laid over it in order. */
  function RowOf(row: Option<Sku>, parent: Uuid, skus: seq<SkuInput>, spare: Supply, id: Uuid): Option<Sku> {
    if skus == [] then row
    else
      var n := |skus| - 1;
      var before := RowOf(row, parent, skus[..n], spare, id);
      if TargetId(skus[n], spare(n)) == id then Some(RowAfter(before, parent, skus[n].content)) else before
  }

  lemma WriteSkuRow(shelf: Shelf, parent: Uuid, s: SkuInput, spare: Uuid)
    requires WriteSku(shelf, parent, s, spare).Stored?
    ensures var id := TargetId(s, spare);
            WriteSku(shelf, parent, s, spare).value.skus == shelf.skus[id := RowAfter(Found(shelf.skus, id), parent, s.content)]
  {
  }

  /** Whatever rows the inputs name, and however often, each row is the merge of its own inputs in their order. */
  lemma {:induction false} EachRowIsTheMergeOfItsInputs(base: Shelf, parent: Uuid, skus: seq<SkuInput>, spare: Supply, id: Uuid)
    requires WriteSkus(base, parent, skus, spare).Stored?
    ensures Found(WriteSkus(base, parent, skus, spare).value.skus, id) == RowOf(Found(base.skus, id), parent, skus, spare, id)
  {
    if skus != [] {
      var n := |skus| - 1;
      EachRowIsTheMergeOfItsInputs(base, parent, skus[..n], spare, id);
      WriteSkuRow(WriteSkus(base, parent, skus[..n], spare).value, parent, skus[n], spare(n));
    }
  }

  predicate DistinctIds(ids: seq<Uuid>) { forall i, j :: 0 <= i < j < |ids| ==> ids[i] != ids[j] }

  lemma {:induction false} UntargetedRow(row: Option<Sku>, parent: Uuid, skus: seq<SkuInput>, spare: Supply, id: Uuid)
    requires id !in Targets(skus, spare)
    ensures RowOf(row, parent, skus, spare, id) == row
  {
    if skus != [] {
      var n := |skus| - 1;
      var ids := Targets(skus, spare);
      assert ids[n] == TargetId(skus[n], spare(n)) && Targets(skus[..n], spare) == ids[..n];
      UntargetedRow(row, parent, skus[..n], spare, id);
    }
  }

  lemma {:induction false} RowTargetedOnce(row: Option<Sku>, parent: Uuid, skus: seq<SkuInput>, spare: Supply, i: nat)
    requires i < |skus| && DistinctIds(Targets(skus, spare))
    ensures RowOf(row, parent, skus, spare, Targets(skus, spare)[i]) == Some(RowAfter(row, parent, skus[i].content))
  {
    var n := |skus| - 1;
    var ids := Targets(skus, spare);
    assert ids[n] == TargetId(skus[n], spare(n)) && Targets(skus[..n], spare) == ids[..n];
    if i < n {
      RowTargetedOnce(row, parent, skus[..n], spare, i);
    } else {
      UntargetedRow(row, parent, skus[..n], spare, ids[n]);
    }
  }

  /** Each targeted row is the merge of its input over what was there, and no other row is added or changed. */
  ghost predicate ExactlyWritten(base: map<Uuid, Sku>, after: map<Uuid, Sku>, parent: Uuid, skus: seq<SkuInput>, ids: seq<Uuid>)
    requires |ids| == |skus|
  {
    && (forall i :: 0 <= i < |skus| ==> Found(after, ids[i]) == Some(RowAfter(Found(base, ids[i]), parent, skus[i].content)))
    && (forall id :: id !in ids ==> Found(after, id) == Found(base, id))
  }

  /** When no two inputs target one row, the payload is written exactly. */
  lemma ThePayloadIsWrittenExactly(base: Shelf, parent: Uuid, skus: seq<SkuInput>, spare: Supply)
    requires WriteSkus(base, parent, skus, spare).Stored? && DistinctIds(Targets(skus, spare))
    ensures ExactlyWritten(base.skus, WriteSkus(base, parent, skus, spare).value.skus, parent, skus, Targets(skus, spare))
  {
    var after, ids := WriteSkus(base, parent, skus, spare).value.skus, Targets(skus, spare);
    forall i | 0 <= i < |skus| ensures Found(after, ids[i]) == Some(RowAfter(Found(base.skus, ids[i]), parent, skus[i].content)) {
      EachRowIsTheMergeOfItsInputs(base, parent, skus, spare, ids[i]);
      RowTargetedOnce(Found(base.skus, ids[i]), parent, skus, spare, i);
    }
    forall id | id !in ids ensures Found(after, id) == Found(base.skus, id) {
      EachRowIsTheMergeOfItsInputs(base, parent, skus, spare, id);
      UntargetedRow(Found(base.skus, id), parent, skus, spare, id);
    }
  }

  // ================================================================ readiness of the written rows

  function ImagesOf(row: Option<Sku>): seq<Url> { if row.Some? then row.value.content.media else [] }

  /** The images a row ends up with: those of the last input for it that brings any, else its own. */
  function LastMedia(row: Option<Sku>, skus: seq<SkuInput>, spare: Supply, id: Uuid): seq<Url> {
    if skus == [] then ImagesOf(row)
    else
      var n := |skus| - 1;
      if TargetId(skus[n], spare(n)) == id && skus[n].content.media != [] then skus[n].content.media
      else LastMedia(row, skus[..n], spare, id)
  }

  lemma {:induction false} RowsKeepTheLastImages(row: Option<Sku>, parent: Uuid, skus: seq<SkuInput>, spare: Supply, id: Uuid)
    ensures ImagesOf(RowOf(row, parent, skus, spare, id)) == LastMedia(row, skus, spare, id)
  {
    if skus != [] { RowsKeepTheLastImages(row, parent, skus[..|skus| - 1], spare, id); }
  }

  predicate AllInputsValid(skus: seq<SkuInput>) { forall i :: 0 <= i < |skus| ==> SkuValid(skus[i].content) }

  lemma RowAfterIsValid(row: Option<Sku>, parent: Uuid, given: SkuContent)
    requires SkuValid(given) && (row.Some? ==> SkuValid(row.value.content))
    requires StorableSku(if row.Some? then MergeSku(row.value.content, given) else given)
    ensures SkuValid(RowAfter(row, parent, given).content)
  {
  }

  ghost predicate AllRowsValid(skus: map<Uuid, Sku>, parent: Uuid) {
    forall id :: id in skus && skus[id].parent == parent ==> SkuValid(skus[id].content)
  }

  lemma WriteSkuKeepsValid(shelf: Shelf, parent: Uuid, s: SkuInput, spare: Uuid)
    requires AllRowsValid(shelf.skus, parent) && SkuValid(s.content) && Belongs(shelf.skus, parent, s)
    requires WriteSku(shelf, parent, s, spare).Stored?
    ensures AllRowsValid(WriteSku(shelf, parent, s, spare).value.skus, parent)
  {
    WriteSkuRow(shelf, parent, s, spare);
    RowAfterIsValid(Found(shelf.skus, TargetId(s, spare)), parent, s.content);
  }

  /** When its turn comes, the last input still names one of this product's rows, or none. */
  lemma LastInputBelongs(base: Shelf, parent: Uuid, skus: seq<SkuInput>, spare: Supply)
    requires ShelfOk(base) && AllCleared(base, parent, skus) && DistinctInputs(skus)
    requires skus != [] && WriteSkus(base, parent, skus, spare).Stored?
    ensures var n := |skus| - 1; Belongs(WriteSkus(base, parent, skus[..n], spare).value.skus, parent, skus[n])
  {
    var n := |skus| - 1;
    WriteSkusAreSound(base, parent, skus[..n], spare);
    assert Cleared(base, parent, skus[n]);
    ClearedStays(base, WriteSkus(base, parent, skus[..n], spare).value, parent, skus[..n], skus[n]);
  }

  lemma {:induction false} WrittenRowsAreValid(base: Shelf, parent: Uuid, skus: seq<SkuInput>, spare: Supply)
    requires ShelfOk(base) && AllCleared(base, parent, skus) && DistinctInputs(skus)
    requires AllRowsValid(base.skus, parent) && AllInputsValid(skus) && WriteSkus(base, parent, skus, spare).Stored?
    ensures AllRowsValid(WriteSkus(base, parent, skus, spare).value.skus, parent)
  {
    if skus != [] {
      var n := |skus| - 1;
      WrittenRowsAreValid(base, parent, skus[..n], spare);
      LastInputBelongs(base, parent, skus, spare);
      WriteSkuKeepsValid(WriteSkus(base, parent, skus[..n], spare).value, parent, skus[n], spare(n));
    }
  }

  ghost predicate IsOf(skus: map<Uuid, Sku>, parent: Uuid, id: Uuid) { id in skus && skus[id].parent == parent }

  lemma WriteSkuOwners(shelf: Shelf, parent: Uuid, s: SkuInput, spare: Uuid, id: Uuid)
    requires Belongs(shelf.skus, parent, s) && WriteSku(shelf, parent, s, spare).Stored?
    ensures id == TargetId(s, spare) || IsOf(shelf.skus, parent, id) ==> IsOf(WriteSku(shelf, parent, s, spare).value.skus, parent, id)
  {
    WriteSkuRow(shelf, parent, s, spare);
  }

  lemma {:induction false} TargetsAreOfTheParent(base: Shelf, parent: Uuid, skus: seq<SkuInput>, spare: Supply, i: nat)
    requires ShelfOk(base) && AllCleared(base, parent, skus) && DistinctInputs(skus)
    requires WriteSkus(base, parent, skus, spare).Stored? && i < |skus|
    ensures IsOf(WriteSkus(base, parent, skus, spare).value.skus, parent, TargetId(skus[i], spare(i)))
  {
    var n := |skus| - 1;
    if i < n { TargetsAreOfTheParent(base, parent, skus[..n], spare, i); }
    LastInputBelongs(base, parent, skus, spare);
    WriteSkuOwners(WriteSkus(base, parent, skus[..n], spare).value, parent, skus[n], spare(n), TargetId(skus[i], spare(i)));
  }

  /** The row this input targets ends up with an image. */
  predicate KeepsImages(base: map<Uuid, Sku>, skus: seq<SkuInput>, spare: Supply, i: nat)
    requires i < |skus|
  {
    var id := TargetId(skus[i], spare(i)); HasImage(LastMedia(Found(base, id), skus, spare, id))
  }

  predicate AllKeepImages(base: map<Uuid, Sku>, skus: seq<SkuInput>, spare: Supply) {
    forall i :: 0 <= i < |skus| ==> KeepsImages(base, skus, spare, i)
  }

  lemma {:induction false} TargetedSomewhere(skus: seq<SkuInput>, spare: Supply, id: Uuid) returns (i: nat)
    requires id in Targets(skus, spare)
    ensures i < |skus| && TargetId(skus[i], spare(i)) == id
  {
    var n := |skus| - 1;
    i := n;
    if TargetId(skus[n], spare(n)) != id { i := TargetedSomewhere(skus[..n], spare, id); }
  }

  lemma WrittenImages(base: Shelf, parent: Uuid, skus: seq<SkuInput>, spare: Supply, id: Uuid)
    requires WriteSkus(base, parent, skus, spare).Stored? && id in WriteSkus(base, parent, skus, spare).value.skus
    ensures WriteSkus(base, parent, skus, spare).value.skus[id].content.media == LastMedia(Found(base.skus, id), skus, spare, id)
    ensures id !in Targets(skus, spare) ==> Found(WriteSkus(base, parent, skus, spare).value.skus, id) == Found(base.skus, id)
  {
    EachRowIsTheMergeOfItsInputs(base, parent, skus, spare, id);
    RowsKeepTheLastImages(Found(base.skus, id), parent, skus, spare, id);
    if id !in Targets(skus, spare) { UntargetedRow(Found(base.skus, id), parent, skus, spare, id); }
  }

  lemma ReadyFamilyKeepsImages(base: Shelf, parent: Uuid, skus: seq<SkuInput>, spare: Supply)
    requires ShelfOk(base) && AllCleared(base, parent, skus) && DistinctInputs(skus)
    requires WriteSkus(base, parent, skus, spare).Stored? && AllRowsReady(WriteSkus(base, parent, skus, spare).value.skus, parent)
    ensures AllKeepImages(base.skus, skus, spare)
  {
    forall i | 0 <= i < |skus| ensures KeepsImages(base.skus, skus, spare, i) {
      TargetsAreOfTheParent(base, parent, skus, spare, i);
      WrittenImages(base, parent, skus, spare, TargetId(skus[i], spare(i)));
    }
  }

  /** Over a complete family, the written one is complete exactly when every targeted row ends up with an image. */
  lemma WrittenFamilyIsReady(base: Shelf, parent: Uuid, skus: seq<SkuInput>, spare: Supply)
    requires ShelfOk(base) && AllCleared(base, parent, skus) && DistinctInputs(skus)
    requires AllRowsReady(base.skus, parent) && AllInputsValid(skus) && WriteSkus(base, parent, skus, spare).Stored?
    ensures AllRowsReady(WriteSkus(base, parent, skus, spare).value.skus, parent) <==> AllKeepImages(base.skus, skus, spare)
  {
    var after := WriteSkus(base, parent, skus, spare).value.skus;
    if AllRowsReady(after, parent) {
      ReadyFamilyKeepsImages(base, parent, skus, spare);
    } else if AllKeepImages(base.skus, skus, spare) {
      WrittenRowsAreValid(base, parent, skus, spare);
      forall id | id in after && after[id].parent == parent ensures SkuReady(after[id].content) {
        WrittenImages(base, parent, skus, spare, id);
        if id in Targets(skus, spare) {
          var i := TargetedSomewhere(skus, spare, id);
          assert KeepsImages(base.skus, skus, spare, i);
        }
      }
    }
  }

  /** Without a repeated internal id, a row keeps its images exactly when its input brings real ones, or none to a row that has some. */
  lemma OneInputKeepsImages(base: map<Uuid, Sku>, skus: seq<SkuInput>, spare: Supply, i: nat)
    requires i < |skus| && DistinctIds(Targets(skus, spare))
    ensures var row := Found(base, TargetId(skus[i], spare(i)));
            KeepsImages(base, skus, spare, i) <==> HasImage(if skus[i].content.media != [] then skus[i].content.media else ImagesOf(row))
  {
    var id := TargetId(skus[i], spare(i));
    TargetAt(skus, spare, i);
    RowTargetedOnce(Found(base, id), id, skus, spare, i);
    RowsKeepTheLastImages(Found(base, id), id, skus, spare, id);
  }

  lemma {:induction false} TargetAt(skus: seq<SkuInput>, spare: Supply, i: nat)
    requires i < |skus|
    ensures Targets(skus, spare)[i] == TargetId(skus[i], spare(i))
  {
    if i < |skus| - 1 { TargetAt(skus[..|skus| - 1], spare, i); }
  }

  // ================================================================ when the statements go through

  /** The row this input finds, after the inputs before it. */
  function Meets(base: map<Uuid, Sku>, parent: Uuid, skus: seq<SkuInput>, spare: Supply, i: nat): Option<Sku>
    requires i < |skus|
  {
    var id := TargetId(skus[i], spare(i)); RowOf(Found(base, id), parent, skus[..i], spare, id)
  }

  /** The statement for this input meets no column constraint; without an internal id it needs an id not in use. */
  predicate Writable(base: map<Uuid, Sku>, parent: Uuid, skus: seq<SkuInput>, spare: Supply, i: nat)
    requires i < |skus|
  {
    match Meets(base, parent, skus, spare, i)
    case Some(row) => skus[i].id.Some? && StorableSku(MergeSku(row.content, skus[i].content))
    case None => StorableSku(skus[i].content)
  }

  predicate AllWritable(base: map<Uuid, Sku>, parent: Uuid, skus: seq<SkuInput>, spare: Supply) {
    forall i :: 0 <= i < |skus| ==> Writable(base, parent, skus, spare, i)
  }

  lemma AllWritableSnoc(base: map<Uuid, Sku>, parent: Uuid, skus: seq<SkuInput>, spare: Supply)
    requires skus != []
    ensures AllWritable(base, parent, skus, spare)
       <==> AllWritable(base, parent, skus[..|skus| - 1], spare) && Writable(base, parent, skus, spare, |skus| - 1)
  {
    var n := |skus| - 1;
    forall i | 0 <= i < n ensures Writable(base, parent, skus[..n], spare, i) <==> Writable(base, parent, skus, spare, i) {
      assert skus[..n][..i] == skus[..i];
    }
  }

  /** After the checks the payload's statements all go through exactly when each row they would leave fits its columns. */
  lemma {:induction false} StatementsGoThrough(base: Shelf, parent: Uuid, skus: seq<SkuInput>, spare: Supply)
    requires ShelfOk(base) && AllCleared(base, parent, skus) && DistinctInputs(skus)
    ensures WriteSkus(base, parent, skus, spare).Stored? <==> AllWritable(base.skus, parent, skus, spare)
  {
    if skus != [] {
      var n := |skus| - 1;
      StatementsGoThrough(base, parent, skus[..n], spare);
      AllWritableSnoc(base.skus, parent, skus, spare);
      if WriteSkus(base, parent, skus[..n], spare).Stored? { LastStatementGoesThrough(base, parent, skus, spare); }
    }
  }

  lemma LastStatementGoesThrough(base: Shelf, parent: Uuid, skus: seq<SkuInput>, spare: Supply)
    requires ShelfOk(base) && AllCleared(base, parent, skus) && DistinctInputs(skus)
    requires skus != [] && WriteSkus(base, parent, skus[..|skus| - 1], spare).Stored?
    ensures WriteSkus(base, parent, skus, spare).Stored? <==> Writable(base.skus, parent, skus, spare, |skus| - 1)
  {
    var n := |skus| - 1;
    EachRowIsTheMergeOfItsInputs(base, parent, skus[..n], spare, TargetId(skus[n], spare(n)));
    WriteSkusAreSound(base, parent, skus, spare);
    OneStatement(WriteSkus(base, parent, skus[..n], spare).value, parent, skus[n], spare(n));
  }

  lemma OneStatement(shelf: Shelf, parent: Uuid, s: SkuInput, spare: Uuid)
    requires WriteSku(shelf, parent, s, spare) != Refused
    ensures WriteSku(shelf, parent, s, spare).Stored? <==>
      match Found(shelf.skus, TargetId(s, spare))
      case Some(row) => s.id.Some? && StorableSku(MergeSku(row.content, s.content))
      case None => StorableSku(s.content)
  {
  }

  // ================================================================ the ledger

  predicate RecordsAChange(e: Entry) { e.previous != Some(e.current) }

  predicate AllChanges(ledger: seq<Entry>) { forall i :: 0 <= i < |ledger| ==> RecordsAChange(ledger[i]) }

  /** The prices differ, but only below the precision of the columns. */
  predicate DifferBelowPrecision(row: Prices, given: Prices) { given != row && StoredPrices(given) == row }

  predicate ReplacesByTheSame(base: map<Uuid, Sku>, parent: Uuid, skus: seq<SkuInput>, spare: Supply, i: nat)
    requires i < |skus|
  {
    var row := Meets(base, parent, skus, spare, i);
    row.Some? && DifferBelowPrecision(row.value.content.prices, skus[i].content.prices)
  }

  lemma WriteSkuRecords(shelf: Shelf, parent: Uuid, s: SkuInput, spare: Uuid)
    requires WriteSku(shelf, parent, s, spare).Stored?
    ensures var row := Found(shelf.skus, TargetId(s, spare));
            AllChanges(WriteSku(shelf, parent, s, spare).value.ledger)
            <==> AllChanges(shelf.ledger) && !(row.Some? && DifferBelowPrecision(row.value.content.prices, s.content.prices))
  {
    var before, after := shelf.ledger, WriteSku(shelf, parent, s, spare).value.ledger;
    assert before <= after;
    if |after| > |before| { assert AllChanges(after) <==> AllChanges(before) && RecordsAChange(after[|before|]); }
  }

  lemma LastWriteRecords(base: Shelf, parent: Uuid, skus: seq<SkuInput>, spare: Supply)
    requires skus != [] && WriteSkus(base, parent, skus, spare).Stored?
    ensures var n := |skus| - 1;
            AllChanges(WriteSkus(base, parent, skus, spare).value.ledger)
            <==> AllChanges(WriteSkus(base, parent, skus[..n], spare).value.ledger)
                 && !ReplacesByTheSame(base.skus, parent, skus, spare, n)
  {
    var n := |skus| - 1;
    WriteSkuRecords(WriteSkus(base, parent, skus[..n], spare).value, parent, skus[n], spare(n));
    EachRowIsTheMergeOfItsInputs(base, parent, skus[..n], spare, TargetId(skus[n], spare(n)));
  }

  predicate NoneReplaces(base: map<Uuid, Sku>, parent: Uuid, skus: seq<SkuInput>, spare: Supply) {
    forall i :: 0 <= i < |skus| ==> !ReplacesByTheSame(base, parent, skus, spare, i)
  }

  lemma NoneReplacesSnoc(base: map<Uuid, Sku>, parent: Uuid, skus: seq<SkuInput>, spare: Supply)
    requires skus != []
    ensures NoneReplaces(base, parent, skus, spare)
       <==> NoneReplaces(base, parent, skus[..|skus| - 1], spare) && !ReplacesByTheSame(base, parent, skus, spare, |skus| - 1)
  {
    var n := |skus| - 1;
    forall i | 0 <= i < n
      ensures ReplacesByTheSame(base, parent, skus[..n], spare, i) <==> ReplacesByTheSame(base, parent, skus, spare, i)
    {
      assert skus[..n][..i] == skus[..i];
    }
  }

  /** Exactly the inputs that replace prices by the same ones, to column precision, record a change that is none. */
  lemma {:induction false} WritesRecordChanges(base: Shelf, parent: Uuid, skus: seq<SkuInput>, spare: Supply)
    requires WriteSkus(base, parent, skus, spare).Stored?
    ensures AllChanges(WriteSkus(base, parent, skus, spare).value.ledger)
       <==> AllChanges(base.ledger) && NoneReplaces(base.skus, parent, skus, spare)
  {
    if skus != [] {
      WritesRecordChanges(base, parent, skus[..|skus| - 1], spare);
      LastWriteRecords(base, parent, skus, spare);
      NoneReplacesSnoc(base.skus, parent, skus, spare);
    }
  }
}
