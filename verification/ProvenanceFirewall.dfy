/**
 The provenance firewall: which proposed operational fields of a catalog draft may be taken over from
 historical evidence, and what happens to all the others.
 */
module ProvenanceFirewall {
  import opened Common

  /**
   A dynamically typed value, as far as the firewall looks at it: its equality class, its text, the
   number it converts to (absent when the conversion fails), and its truth value.
   */
  datatype Value = Value(same: int, text: string, num: Option<real>, truthy: bool)

  datatype Provenance = UserProvided | ImageInferred | SabaqReused | AzmDerived | BusinessConfig | AiProposed | Unknown

  /** The reference to an evidence record is a hint; "" stands for none. */
  datatype Field = Field(value: Option<Value>, provenance: Provenance, reference: string)

  const UNKNOWN: Field := Field(None, Unknown, "")

  datatype Attr = Length | Breadth | Height | Weight | Mrp | SellingPrice | CostPrice | Size | PackConfiguration | Other(name: string)

  datatype Evidence = Evidence(id: string, payload: map<string, Value>)

  datatype Scenario = A | B | C | D

  datatype Verification = Verification(found: bool, active: bool, productCode: Option<Value>)

  datatype Reason =
    | PolicyRejection | EvidenceNotFound | MissingReference | FamilyMismatch | SizeMismatch | PackMismatch
    | ValueMismatch | BoundsRejection | Reused

  datatype Diagnosis = Diagnosis(reason: Reason, evidence: Option<string>)

  predicate Operational(attr: Attr) { attr.Length? || attr.Breadth? || attr.Height? || attr.Weight? || attr.Mrp? }

  // ================================================================ scenario

  /** Scenario A is never granted here, and an unverified or inactive family is a new one. */
  function ClassifyScenario(cem: Option<Verification>): (s: Scenario)
    ensures s == B <==> cem.Some? && cem.value.found && cem.value.active
    ensures s == B || s == D
  {
    if cem.None? then D else if cem.value.found && cem.value.active then B else D
  }

  // ================================================================ the judgement of one proposal

  /** Everything outside the field itself that its judgement depends on. */
  datatype Context = Context(index: map<string, Evidence>, code: Option<Value>, size: Option<Value>, pack: Option<Value>, policy: bool)

  function HistoricalKey(attr: Attr): string {
    match attr
    case Length => "Packaging Length (in cm)"
    case Breadth => "Packaging Breadth (in cm)"
    case Height => "Packaging Height (in cm)"
    case Weight => "Packaging Weight (in kg)"
    case _ => "MRP"
  }

  function Get(payload: map<string, Value>, key: string): Option<Value> { if key in payload then Some(payload[key]) else None }

  /** `str` of a missing value is the word None. */
  function Text(v: Option<Value>): string { if v.Some? then v.value.text else "None" }

  /** Missing equals missing. */
  predicate SameValue(a: Option<Value>, b: Option<Value>) { a.Some? == b.Some? && (a.Some? ==> a.value.same == b.value.same) }

  predicate SameNumber(a: Option<Value>, b: Option<Value>) {
    a.Some? && b.Some? && a.value.num.Some? && b.value.num == a.value.num
  }

  predicate InBounds(attr: Attr, v: Option<Value>) {
    v.Some? && v.value.num.Some? && if attr.Weight? then 0.05 <= v.value.num.value <= 50.0 else 1.0 <= v.value.num.value <= 150.0
  }

  function Lookup(index: map<string, Evidence>, reference: string): Option<Evidence> {
    if reference != "" && reference in index then Some(index[reference]) else None
  }

  predicate Truthy(v: Option<Value>) { v.Some? && v.value.truthy }

  /** The checks in their order; packaging has two that the MRP has not, and the MRP one of its own. */
  function Judge(ctx: Context, attr: Attr, f: Field): Reason {
    var evidence := Lookup(ctx.index, f.reference);
    if attr.Mrp? && !ctx.policy then PolicyRejection
    else if evidence.None? then if f.reference != "" then EvidenceNotFound else MissingReference
    else
      var payload := evidence.value.payload;
      if !SameValue(Get(payload, "Product Code"), ctx.code) then FamilyMismatch
      else if !(Truthy(ctx.size) && Text(Get(payload, "Size")) == Text(ctx.size)) then SizeMismatch
      else if !attr.Mrp? && Truthy(ctx.pack) && Text(Get(payload, "Pack Configuration")) != Text(ctx.pack) then PackMismatch
      else if !SameNumber(Get(payload, HistoricalKey(attr)), f.value) then ValueMismatch
      else if !attr.Mrp? && !InBounds(attr, f.value) then BoundsRejection
      else Reused
  }

  /** Only a proposal is judged. */
  function Judged(ctx: Context, attr: Attr, f: Field): Field {
    if !f.provenance.AiProposed? then f
    else if Judge(ctx, attr, f).Reused? then Field(f.value, SabaqReused, f.reference)
    else UNKNOWN
  }

  function Index(results: seq<Evidence>): map<string, Evidence> {
    if results == [] then map[]
    else Index(results[..|results| - 1])[results[|results| - 1].id := results[|results| - 1]]
  }

  /** A draft holds every field of the schema. */
  type Fields = map<Attr, Field>

  predicate WholeDraft(fields: Fields) {
    forall attr :: attr in {Length, Breadth, Height, Weight, Mrp, SellingPrice, CostPrice, Size, PackConfiguration} ==> attr in fields
  }

  function ContextOf(fields: Fields, results: seq<Evidence>, code: Option<Value>, policy: bool): Context
    requires WholeDraft(fields)
  {
    Context(Index(results), code, fields[Size].value, fields[PackConfiguration].value, policy)
  }

  /** The whole draft after the firewall. */
  function Firewall(fields: Fields, scenario: Scenario, ctx: Context): Fields {
    map attr | attr in fields ::
      if attr.SellingPrice? || attr.CostPrice? then UNKNOWN
      else if !Operational(attr) then fields[attr]
      else if scenario.B? || scenario.C? then Judged(ctx, attr, fields[attr])
      else if fields[attr].provenance.AiProposed? then UNKNOWN
      else fields[attr]
  }

  // ================================================================ what the firewall guarantees

  /** The column of a historical record that a field is compared with. */
  const COLUMNS: map<Attr, string> := map[
    Length := "Packaging Length (in cm)", Breadth := "Packaging Breadth (in cm)", Height := "Packaging Height (in cm)",
    Weight := "Packaging Weight (in kg)", Mrp := "MRP"]

  /** The record is of the family with this product code, or neither has a code. */
  predicate OfFamily(payload: map<string, Value>, code: Option<Value>) {
    && ("Product Code" in payload <==> code.Some?)
    && (code.Some? ==> payload["Product Code"].same == code.value.same)
  }

  /** The draft has a size, and the record's reads the same; a missing one reads None. */
  predicate OfSize(payload: map<string, Value>, size: Option<Value>) {
    && size.Some? && size.value.truthy
    && size.value.text == if "Size" in payload then payload["Size"].text else "None"
  }

  /** The record's pack reads like the draft's, if the draft has one. */
  predicate OfPack(payload: map<string, Value>, pack: Option<Value>) {
    pack.Some? && pack.value.truthy
    ==> pack.value.text == if "Pack Configuration" in payload then payload["Pack Configuration"].text else "None"
  }

  /** The record has the proposed number in the field's column. */
  predicate HasNumber(payload: map<string, Value>, attr: Attr, value: Option<Value>)
    requires attr in COLUMNS
  {
    && COLUMNS[attr] in payload && payload[COLUMNS[attr]].num.Some?
    && value.Some? && value.value.num == payload[COLUMNS[attr]].num
  }

  /** A weight of 50 g to 50 kg, any other dimension of 1 to 150 cm. */
  predicate Plausible(attr: Attr, value: Option<Value>) {
    && value.Some? && value.value.num.Some?
    && (attr == Weight ==> 0.05 <= value.value.num.value <= 50.0)
    && (attr != Weight ==> 1.0 <= value.value.num.value <= 150.0)
  }

  /** The conditions under which a record supports a proposal. */
  predicate Supports(payload: map<string, Value>, ctx: Context, attr: Attr, f: Field)
    requires attr in COLUMNS
  {
    && OfFamily(payload, ctx.code) && OfSize(payload, ctx.size) && HasNumber(payload, attr, f.value)
    && (attr == Mrp ==> ctx.policy)
    && (attr != Mrp ==> OfPack(payload, ctx.pack) && Plausible(attr, f.value))
  }

  /** The referenced record is there and supports the proposal. */
  predicate Vouched(ctx: Context, attr: Attr, f: Field) {
    && attr in COLUMNS && f.reference != "" && f.reference in ctx.index
    && Supports(ctx.index[f.reference].payload, ctx, attr, f)
  }

  /** The reason of a judgement is the first condition that fails, in this order. */
  lemma JudgementVerdict(ctx: Context, attr: Attr, f: Field)
    requires attr in COLUMNS
    ensures var reason := Judge(ctx, attr, f);
            if attr == Mrp && !ctx.policy then reason == PolicyRejection
            else if f.reference == "" then reason == MissingReference
            else if f.reference !in ctx.index then reason == EvidenceNotFound
            else
              var payload := ctx.index[f.reference].payload;
              && (!OfFamily(payload, ctx.code) ==> reason == FamilyMismatch)
              && (OfFamily(payload, ctx.code) && !OfSize(payload, ctx.size) ==> reason == SizeMismatch)
              && (OfFamily(payload, ctx.code) && OfSize(payload, ctx.size) ==>
                    if attr != Mrp && !OfPack(payload, ctx.pack) then reason == PackMismatch
                    else if !HasNumber(payload, attr, f.value) then reason == ValueMismatch
                    else if attr != Mrp && !Plausible(attr, f.value) then reason == BoundsRejection
                    else reason == Reused)
  {
  }

  /** Of several records with one id, the last counts. */
  predicate LastWithId(results: seq<Evidence>, id: string, i: nat) {
    i < |results| && results[i].id == id && forall j :: i < j < |results| ==> results[j].id != id
  }

  lemma {:induction false} TheIndexHoldsTheLast(results: seq<Evidence>, id: string)
    ensures id in Index(results) <==> exists i :: 0 <= i < |results| && results[i].id == id
    ensures forall i: nat :: LastWithId(results, id, i) ==> id in Index(results) && Index(results)[id] == results[i]
  {
    if results != [] {
      var n := |results| - 1;
      TheIndexHoldsTheLast(results[..n], id);
      forall i: nat | LastWithId(results, id, i) ensures id in Index(results) && Index(results)[id] == results[i] {
        if i < n { assert LastWithId(results[..n], id, i); }
      }
    }
  }

  /** The last record with the referenced id supports the proposal. */
  ghost predicate Supported(fields: Fields, results: seq<Evidence>, code: Option<Value>, policy: bool, attr: Attr)
    requires WholeDraft(fields) && attr in COLUMNS
  {
    var ctx := Context(map[], code, fields[Size].value, fields[PackConfiguration].value, policy);
    fields[attr].reference != ""
    && exists i: nat :: LastWithId(results, fields[attr].reference, i) && Supports(results[i].payload, ctx, attr, fields[attr])
  }

  /**
   In the draft's own terms: a proposal of an operational field is reused exactly when the family is verified and the
   last record with the referenced id supports it, for the draft's size and pack and the verified product code.
   */
  lemma ReuseVerdict(fields: Fields, results: seq<Evidence>, cem: Option<Verification>, policy: bool, attr: Attr)
    requires WholeDraft(fields) && attr in COLUMNS && fields[attr].provenance == AiProposed
    ensures var code := if cem.Some? then cem.value.productCode else None;
            var after := Firewall(fields, ClassifyScenario(cem), ContextOf(fields, results, code, policy))[attr];
            after == if cem.Some? && cem.value.found && cem.value.active && Supported(fields, results, code, policy, attr)
                     then Field(fields[attr].value, SabaqReused, fields[attr].reference) else UNKNOWN
  {
    var code := if cem.Some? then cem.value.productCode else None;
    var ctx := ContextOf(fields, results, code, policy);
    ReusedExactlyWhenVouched(fields, ClassifyScenario(cem), ctx, attr);
    TheIndexHoldsTheLast(results, fields[attr].reference);
    if fields[attr].reference in ctx.index {
      var i := LastRecord(results, fields[attr].reference);
      assert ctx.index[fields[attr].reference] == results[i];
    }
  }

  lemma {:induction false} LastRecord(results: seq<Evidence>, id: string) returns (i: nat)
    requires exists j :: 0 <= j < |results| && results[j].id == id
    ensures LastWithId(results, id, i)
  {
    i := |results| - 1;
    if results[i].id != id { i := LastRecord(results[..i], id); }
  }

  /** A field becomes reused exactly when it was proposed, the family is verified, and the evidence vouches for it. */
  lemma ReusedExactlyWhenVouched(fields: Fields, scenario: Scenario, ctx: Context, attr: Attr)
    requires attr in fields && fields[attr].provenance != SabaqReused
    ensures Firewall(fields, scenario, ctx)[attr].provenance == SabaqReused
       <==> Operational(attr) && (scenario == B || scenario == C) && fields[attr].provenance == AiProposed && Vouched(ctx, attr, fields[attr])
  {
  }

  /**
   After the firewall no operational field is a mere proposal, the selling and cost price are unknown,
   every other field and every field someone else vouched for is as it was, and a reused value is the
   proposed one.
   */
  lemma FirewallGuarantee(fields: Fields, scenario: Scenario, ctx: Context, attr: Attr)
    requires attr in fields
    ensures var (before, after) := (fields[attr], Firewall(fields, scenario, ctx)[attr]);
            && (Operational(attr) ==> after.provenance != AiProposed)
            && (attr == SellingPrice || attr == CostPrice ==> after == UNKNOWN)
            && (Operational(attr) && before.provenance != AiProposed ==> after == before)
            && (!Operational(attr) && attr != SellingPrice && attr != CostPrice ==> after == before)
            && (after.provenance == SabaqReused ==> after.value == before.value && after.reference == before.reference)
  {
  }

  /** What happens to one field does not depend on the others, beyond the draft's size and pack. */
  lemma FieldsAreIndependent(a: Fields, b: Fields, results: seq<Evidence>, code: Option<Value>, policy: bool, scenario: Scenario, attr: Attr)
    requires WholeDraft(a) && WholeDraft(b) && attr in a && attr in b && a[attr] == b[attr]
    requires a[Size].value == b[Size].value && a[PackConfiguration].value == b[PackConfiguration].value
    ensures Firewall(a, scenario, ContextOf(a, results, code, policy))[attr] == Firewall(b, scenario, ContextOf(b, results, code, policy))[attr]
  {
  }

  /** A second application changes nothing, whatever scenario and evidence it is given. */
  lemma SecondApplicationChangesNothing(fields: Fields, scenario: Scenario, ctx: Context, scenario': Scenario, ctx': Context)
    ensures var once := Firewall(fields, scenario, ctx); Firewall(once, scenario', ctx') == once
  {
  }

  /** Without a verified, active family nothing new is reused. */
  lemma UnverifiedFamiliesReuseNothing(fields: Fields, cem: Option<Verification>, ctx: Context, attr: Attr)
    requires attr in fields && fields[attr].provenance != SabaqReused
    requires Firewall(fields, ClassifyScenario(cem), ctx)[attr].provenance == SabaqReused
    ensures cem.Some? && cem.value.found && cem.value.active
  {
  }

  // ================================================================ what the product-code match is worth

  /** The evidence behind a field carries a product code, and it is the verified one. */
  predicate CarriesTheCode(ctx: Context, f: Field) {
    && ctx.code.Some? && Lookup(ctx.index, f.reference).Some?
    && var code := Get(Lookup(ctx.index, f.reference).value.payload, "Product Code");
       code.Some? && code.value.same == ctx.code.value.same
  }

  predicate NewlyReused(before: Field, after: Field) { before.provenance != SabaqReused && after.provenance == SabaqReused }

  /** The evidence behind a newly reused field carries the verified code exactly when the verification has one at all. */
  lemma ReuseCarriesTheCode(fields: Fields, scenario: Scenario, ctx: Context, attr: Attr)
    requires attr in fields && NewlyReused(fields[attr], Firewall(fields, scenario, ctx)[attr])
    ensures CarriesTheCode(ctx, fields[attr]) <==> ctx.code.Some?
  {
    ReusedExactlyWhenVouched(fields, scenario, ctx, attr);
  }

  /** One run of the firewall after a verification reuses nothing without the verified code. */
  ghost predicate RunKeepsToTheFamily(cem: Verification, fields: Fields, results: seq<Evidence>, policy: bool, attr: Attr) {
    WholeDraft(fields) && attr in fields
    ==> var ctx := ContextOf(fields, results, cem.productCode, policy);
        NewlyReused(fields[attr], Firewall(fields, ClassifyScenario(Some(cem)), ctx)[attr]) ==> CarriesTheCode(ctx, fields[attr])
  }

  ghost predicate KeepsToTheFamily(cem: Verification) {
    forall fields, results, policy, attr :: RunKeepsToTheFamily(cem, fields, results, policy, attr)
  }

  /**
   The product codes must match, but a code missing on both sides matches too: for a found and active
   family, every run stays within it exactly when the verification names its product code.
   */
  lemma ReuseStaysInTheFamily(cem: Verification)
    requires cem.found && cem.active
    ensures KeepsToTheFamily(cem) <==> cem.productCode.Some?
  {
    if cem.productCode.Some? {
      forall fields, results, policy, attr ensures RunKeepsToTheFamily(cem, fields, results, policy, attr) {
        if WholeDraft(fields) && attr in fields {
          var ctx := ContextOf(fields, results, cem.productCode, policy);
          if NewlyReused(fields[attr], Firewall(fields, ClassifyScenario(Some(cem)), ctx)[attr]) {
            ReuseCarriesTheCode(fields, ClassifyScenario(Some(cem)), ctx, attr);
          }
        }
      }
    } else {
      var fields, results := MissingCodesMatch(cem);
      assert !RunKeepsToTheFamily(cem, fields, results, false, Height);
    }
  }

  /** A run that reuses the height of a record without a product code, after a verification without one. */
  lemma MissingCodesMatch(cem: Verification) returns (fields: Fields, results: seq<Evidence>)
    requires cem.found && cem.active && cem.productCode.None?
    ensures WholeDraft(fields) && Height in fields
    ensures var ctx := ContextOf(fields, results, cem.productCode, false);
            && NewlyReused(fields[Height], Firewall(fields, ClassifyScenario(Some(cem)), ctx)[Height])
            && !CarriesTheCode(ctx, fields[Height])
  {
    var ten, king := Value(0, "10", Some(10.0), true), Value(1, "King", None, true);
    var evidence := Evidence("ev-1", map["Size" := king, "Packaging Height (in cm)" := ten]);
    var given := Field(Some(king), UserProvided, "");
    fields := map[Length := UNKNOWN, Breadth := UNKNOWN, Height := Field(Some(ten), AiProposed, "ev-1"), Weight := UNKNOWN,
                  Mrp := UNKNOWN, SellingPrice := UNKNOWN, CostPrice := UNKNOWN, Size := given, PackConfiguration := UNKNOWN];
    results := [evidence];
    assert results[..0] == [] && Index(results) == map["ev-1" := evidence];
    var ctx := ContextOf(fields, results, cem.productCode, false);
    assert Get(evidence.payload, "Product Code") == None;
    assert Vouched(ctx, Height, fields[Height]);
    ReusedExactlyWhenVouched(fields, ClassifyScenario(Some(cem)), ctx, Height);
  }

  // ================================================================ the draft, changed in place

  class CatalogDraft {
    var fields: Fields
    var diagnostics: map<Attr, Diagnosis>

    constructor (fields: Fields)
      requires WholeDraft(fields)
      ensures this.fields == fields && WholeDraft(this.fields) && diagnostics == map[]
    {
      this.fields := fields;
      diagnostics := map[];
    }
  }

  /** A report replaces an older one only if it names evidence. */
  function Reported(diagnostics: map<Attr, Diagnosis>, attr: Attr, d: Diagnosis): map<Attr, Diagnosis> {
    if d.evidence.None? && attr in diagnostics then diagnostics else diagnostics[attr := d]
  }

  function DiagnosisOf(ctx: Context, attr: Attr, f: Field): Diagnosis {
    var evidence := Lookup(ctx.index, f.reference);
    Diagnosis(Judge(ctx, attr, f), if evidence.Some? && !(attr.Mrp? && !ctx.policy) then Some(evidence.value.id) else None)
  }

  /** A diagnosis names the referenced record, when it is there and the judgement looked at it. */
  lemma DiagnosisVerdict(ctx: Context, attr: Attr, f: Field)
    ensures var (d, found) := (DiagnosisOf(ctx, attr, f), f.reference != "" && f.reference in ctx.index && (attr == Mrp ==> ctx.policy));
            && d.reason == Judge(ctx, attr, f)
            && (found ==> d.evidence == Some(ctx.index[f.reference].id)) && (!found ==> d.evidence == None)
  {
  }

  /** The diagnostics after the fields of `attrs` were judged in this order. */
  function DiagnosedAll(diagnostics: map<Attr, Diagnosis>, fields: Fields, ctx: Context, attrs: seq<Attr>): map<Attr, Diagnosis>
    requires forall i :: 0 <= i < |attrs| ==> attrs[i] in fields
  {
    if attrs == [] then diagnostics
    else
      var n := |attrs| - 1;
      var before := DiagnosedAll(diagnostics, fields, ctx, attrs[..n]);
      if fields[attrs[n]].provenance.AiProposed? then Reported(before, attrs[n], DiagnosisOf(ctx, attrs[n], fields[attrs[n]]))
      else before
  }

  const JUDGED: seq<Attr> := [Length, Breadth, Height, Weight, Mrp]

  /** Every judged proposal has a report, and it gives the reason of its judgement unless an older report without evidence stands. */
  lemma {:induction false} EveryProposalIsDiagnosed(diagnostics: map<Attr, Diagnosis>, fields: Fields, ctx: Context, attrs: seq<Attr>, i: nat)
    requires i < |attrs| && (forall k :: 0 <= k < |attrs| ==> attrs[k] in fields)
    requires (forall k, l :: 0 <= k < l < |attrs| ==> attrs[k] != attrs[l]) && fields[attrs[i]].provenance.AiProposed?
    ensures var (after, attr) := (DiagnosedAll(diagnostics, fields, ctx, attrs), attrs[i]);
            && attr in after
            && after[attr] == if attr !in diagnostics || DiagnosisOf(ctx, attr, fields[attr]).evidence.Some?
                              then DiagnosisOf(ctx, attr, fields[attr]) else diagnostics[attr]
  {
    var n := |attrs| - 1;
    if i < n {
      EveryProposalIsDiagnosed(diagnostics, fields, ctx, attrs[..n], i);
    } else {
      OthersUndiagnosed(diagnostics, fields, ctx, attrs[..n], attrs[n]);
    }
  }

  lemma {:induction false} OthersUndiagnosed(diagnostics: map<Attr, Diagnosis>, fields: Fields, ctx: Context, attrs: seq<Attr>, attr: Attr)
    requires (forall k :: 0 <= k < |attrs| ==> attrs[k] in fields) && attr !in attrs
    ensures var after := DiagnosedAll(diagnostics, fields, ctx, attrs);
            (attr in after <==> attr in diagnostics) && (attr in diagnostics ==> after[attr] == diagnostics[attr])
  {
    if attrs != [] { OthersUndiagnosed(diagnostics, fields, ctx, attrs[..|attrs| - 1], attr); }
  }

  method BuildIndex(results: seq<Evidence>) returns (index: map<string, Evidence>)
    ensures index == Index(results)
  {
    index := map[];
    for i := 0 to |results|
      invariant index == Index(results[..i])
    {
      assert results[..i + 1][..i] == results[..i] && results[..i + 1][i] == results[i];
      index := index[results[i].id := results[i]];
    }
    assert results[..|results|] == results;
  }

  lemma {:induction false} IndexedById(results: seq<Evidence>, id: string)
    ensures id in Index(results) ==> Index(results)[id].id == id
  {
    if results != [] { IndexedById(results[..|results| - 1], id); }
  }

  /** One field, evaluated on its own. */
  method EvaluateField(draft: CatalogDraft, ctx: Context, attr: Attr)
    requires WholeDraft(draft.fields) && Operational(attr)
    requires forall id :: id in ctx.index ==> ctx.index[id].id == id
    modifies draft
    ensures draft.fields == old(draft.fields)[attr := Judged(ctx, attr, old(draft.fields)[attr])]
    ensures draft.diagnostics == if old(draft.fields)[attr].provenance.AiProposed?
      then Reported(old(draft.diagnostics), attr, DiagnosisOf(ctx, attr, old(draft.fields)[attr]))
      else old(draft.diagnostics)
  {
    var f := draft.fields[attr];
    if !f.provenance.AiProposed? {
      assert draft.fields == draft.fields[attr := f];
      return;
    }
    var evidence := Lookup(ctx.index, f.reference);
    var reason := Judge(ctx, attr, f);
    if evidence.Some? && reason != PolicyRejection {
      draft.diagnostics := draft.diagnostics[attr := Diagnosis(reason, Some(evidence.value.id))];
    } else if attr !in draft.diagnostics {
      draft.diagnostics := draft.diagnostics[attr := Diagnosis(reason, None)];
    }
    if reason.Reused? {
      draft.fields := draft.fields[attr := Field(f.value, SabaqReused, evidence.value.id)];
    } else {
      draft.fields := draft.fields[attr := UNKNOWN];
    }
  }

  const FIVE: set<Attr> := {Length, Breadth, Height, Weight, Mrp}

  function JudgedIn(fields: Fields, ctx: Context, done: set<Attr>): Fields {
    map attr | attr in fields :: if attr in done then Judged(ctx, attr, fields[attr]) else fields[attr]
  }

  function BlockedIn(fields: Fields, done: set<Attr>): Fields {
    map attr | attr in fields :: if attr in done && fields[attr].provenance.AiProposed? then UNKNOWN else fields[attr]
  }

  lemma OneMoreJudged(fields: Fields, ctx: Context, done: set<Attr>, attr: Attr)
    requires attr in fields && attr !in done
    ensures JudgedIn(fields, ctx, done)[attr := Judged(ctx, attr, JudgedIn(fields, ctx, done)[attr])]
         == JudgedIn(fields, ctx, done + {attr})
  {
  }

  function WithoutPrices(fields: Fields): Fields { fields[SellingPrice := UNKNOWN][CostPrice := UNKNOWN] }

  lemma FirewallInSteps(fields: Fields, scenario: Scenario, ctx: Context)
    requires WholeDraft(fields)
    ensures Firewall(fields, scenario, ctx)
         == if scenario.B? || scenario.C? then JudgedIn(WithoutPrices(fields), ctx, FIVE) else BlockedIn(WithoutPrices(fields), FIVE)
  {
  }

  /** Scenarios A and D: proposals for operational fields are dropped. */
  method BlockProposals(draft: CatalogDraft)
    requires WholeDraft(draft.fields)
    modifies draft
    ensures draft.fields == BlockedIn(old(draft.fields), FIVE) && draft.diagnostics == old(draft.diagnostics)
  {
    ghost var before := draft.fields;
    var attrs := [Length, Breadth, Height, Weight, Mrp];
    for i := 0 to |attrs|
      invariant draft.diagnostics == old(draft.diagnostics)
      invariant draft.fields == BlockedIn(before, set j | 0 <= j < i :: attrs[j])
    {
      if draft.fields[attrs[i]].provenance.AiProposed? { draft.fields := draft.fields[attrs[i] := UNKNOWN]; }
      assert (set j | 0 <= j < i + 1 :: attrs[j]) == (set j | 0 <= j < i :: attrs[j]) + {attrs[i]};
    }
    assert (set j | 0 <= j < |attrs| :: attrs[j]) == FIVE by {
      assert attrs[0] == Length && attrs[1] == Breadth && attrs[2] == Height && attrs[3] == Weight && attrs[4] == Mrp;
    }
  }

  lemma OneMoreDiagnosed(diagnostics: map<Attr, Diagnosis>, fields: Fields, ctx: Context, attrs: seq<Attr>, attr: Attr)
    requires attr in fields && forall i :: 0 <= i < |attrs| ==> attrs[i] in fields
    ensures var before := DiagnosedAll(diagnostics, fields, ctx, attrs);
            DiagnosedAll(diagnostics, fields, ctx, attrs + [attr])
            == if fields[attr].provenance.AiProposed? then Reported(before, attr, DiagnosisOf(ctx, attr, fields[attr])) else before
  {
    assert (attrs + [attr])[..|attrs|] == attrs;
  }

  function Listed(attrs: seq<Attr>): set<Attr> { set attr | attr in attrs }

  /** The draft after the fields of `done` were judged, from the fields and diagnostics it began with. */
  ghost predicate JudgedSoFar(draft: CatalogDraft, ctx: Context, fields: Fields, diagnostics: map<Attr, Diagnosis>, done: seq<Attr>)
    reads draft
  {
    && WholeDraft(fields) && (forall i :: 0 <= i < |done| ==> done[i] in FIVE)
    && draft.fields == JudgedIn(fields, ctx, Listed(done)) && draft.diagnostics == DiagnosedAll(diagnostics, fields, ctx, done)
  }

  /** One more field judged, with its report. */
  method JudgeNext(draft: CatalogDraft, ctx: Context, attr: Attr, ghost fields: Fields, ghost diagnostics: map<Attr, Diagnosis>, ghost done: seq<Attr>)
    requires attr in FIVE && attr !in done && JudgedSoFar(draft, ctx, fields, diagnostics, done)
    requires forall id :: id in ctx.index ==> ctx.index[id].id == id
    modifies draft
    ensures JudgedSoFar(draft, ctx, fields, diagnostics, done + [attr])
  {
    OneMoreJudged(fields, ctx, Listed(done), attr);
    OneMoreDiagnosed(diagnostics, fields, ctx, done, attr);
    assert Listed(done + [attr]) == Listed(done) + {attr};
    EvaluateField(draft, ctx, attr);
  }

  method JudgePackaging(draft: CatalogDraft, ctx: Context)
    requires WholeDraft(draft.fields)
    requires forall id :: id in ctx.index ==> ctx.index[id].id == id
    modifies draft
    ensures JudgedSoFar(draft, ctx, old(draft.fields), old(draft.diagnostics), [Length, Breadth, Height])
  {
    ghost var fields, diagnostics := draft.fields, draft.diagnostics;
    var packaging := [Length, Breadth, Height];
    assert draft.fields == JudgedIn(fields, ctx, Listed([]));
    for i := 0 to |packaging|
      invariant JudgedSoFar(draft, ctx, fields, diagnostics, packaging[..i])
    {
      assert packaging[..i + 1] == packaging[..i] + [packaging[i]];
      JudgeNext(draft, ctx, packaging[i], fields, diagnostics, packaging[..i]);
    }
    assert packaging[..3] == packaging;
  }

  /** Scenarios B and C: each axis, then the weight, then the MRP, each on its own. */
  method EvaluateProposals(draft: CatalogDraft, ctx: Context)
    requires WholeDraft(draft.fields)
    requires forall id :: id in ctx.index ==> ctx.index[id].id == id
    modifies draft
    ensures draft.fields == JudgedIn(old(draft.fields), ctx, FIVE)
    ensures draft.diagnostics == DiagnosedAll(old(draft.diagnostics), old(draft.fields), ctx, JUDGED)
  {
    ghost var fields, diagnostics := draft.fields, draft.diagnostics;
    JudgePackaging(draft, ctx);
    JudgeNext(draft, ctx, Weight, fields, diagnostics, [Length, Breadth, Height]);
    JudgeNext(draft, ctx, Mrp, fields, diagnostics, [Length, Breadth, Height] + [Weight]);
    assert [Length, Breadth, Height] + [Weight] + [Mrp] == JUDGED && Listed(JUDGED) == FIVE;
  }

  method EvaluateProvenancePromotion(draft: CatalogDraft, results: seq<Evidence>, scenario: Scenario, policy: bool, cem: Option<Verification>)
    requires WholeDraft(draft.fields)
    modifies draft
    ensures var code := if cem.Some? then cem.value.productCode else None;
            draft.fields == Firewall(old(draft.fields), scenario, ContextOf(old(draft.fields), results, code, policy))
    ensures scenario.A? || scenario.D? ==> draft.diagnostics == old(draft.diagnostics)
    ensures var code := if cem.Some? then cem.value.productCode else None;
            scenario.B? || scenario.C? ==>
              draft.diagnostics == DiagnosedAll(old(draft.diagnostics), WithoutPrices(old(draft.fields)),
                                                ContextOf(old(draft.fields), results, code, policy), JUDGED)
  {
    var code := if cem.Some? then cem.value.productCode else None;
    FirewallInSteps(draft.fields, scenario, ContextOf(draft.fields, results, code, policy));
    var index := BuildIndex(results);
    draft.fields := draft.fields[SellingPrice := UNKNOWN];
    draft.fields := draft.fields[CostPrice := UNKNOWN];
    if !(scenario.B? || scenario.C?) {
      BlockProposals(draft);
      return;
    }
    var ctx := Context(index, code, draft.fields[Size].value, draft.fields[PackConfiguration].value, policy);
    forall id | id in index ensures index[id].id == id { IndexedById(results, id); }
    EvaluateProposals(draft, ctx);
  }
}
