/** The compact wire output, and the lemma that the generic reference walk sees exactly its reference lists. */
module WireOutput {
  import opened Domain
  import opened JsonSchemas
  import opened Normalizer
  import opened References

  // ---- the wire model ----

  datatype CompactRegime = CompactRegime(classification: string, strength: real, confidence: real, refs: seq<string>)
  datatype CompactHigher = CompactHigher(bias: string, summary: string, refs: seq<string>)
  datatype CompactStructure =
    CompactStructure(shortTerm: string, mediumTerm: string, recentChange: string, refs: seq<string>)
  datatype CompactLiquidity =
    CompactLiquidity(summary: string, events: seq<string>, unresolved: seq<string>, refs: seq<string>)
  datatype CompactZones =
    CompactZones(summary: string, supplyRef: Option<string>, demandRef: Option<string>, refs: seq<string>)
  datatype CompactMomentum = CompactMomentum(direction: string, strength: real, trend: string, refs: seq<string>)
  datatype CompactVolatility = CompactVolatility(state: string, trend: string, refs: seq<string>)
  datatype CompactScenario = CompactScenario(name: string, description: string, probability: real, refs: seq<string>)

  datatype Wire = Wire(
    schemaVersion: string,
    profile: string,
    regime: CompactRegime,
    higher: CompactHigher,
    structure: CompactStructure,
    liquidity: CompactLiquidity,
    zones: CompactZones,
    momentum: CompactMomentum,
    volatility: CompactVolatility,
    bullish: seq<string>,
    bearish: seq<string>,
    contradictions: seq<string>,
    keyRisks: seq<string>,
    invalidations: seq<string>,
    warnings: seq<string>,
    scenarios: seq<CompactScenario>,
    confidence: real,
    summary: string)

  // ---- `model_dump` ----

  function Texts(values: seq<string>): Json {
    List(seq(|values|, i requires 0 <= i < |values| => Text(values[i])))
  }

  function TextOrNull(value: Option<string>): Json {
    match value case Some(t) => Text(t) case None => Null
  }

  function DumpRegime(m: CompactRegime): Json {
    Object([Field("classification", Text(m.classification)), Field("strength", Number(m.strength)),
            Field("confidence", Number(m.confidence)), Field("evidence_refs", Texts(m.refs))])
  }

  function DumpHigher(m: CompactHigher): Json {
    Object([Field("bias", Text(m.bias)), Field("summary", Text(m.summary)), Field("evidence_refs", Texts(m.refs))])
  }

  function DumpStructure(m: CompactStructure): Json {
    Object([Field("short_term", Text(m.shortTerm)), Field("medium_term", Text(m.mediumTerm)),
            Field("recent_change", Text(m.recentChange)), Field("evidence_refs", Texts(m.refs))])
  }

  function DumpLiquidity(m: CompactLiquidity): Json {
    Object([Field("summary", Text(m.summary)), Field("events", Texts(m.events)),
            Field("unresolved", Texts(m.unresolved)), Field("evidence_refs", Texts(m.refs))])
  }

  function DumpZones(m: CompactZones): Json {
    Object([Field("summary", Text(m.summary)), Field("nearest_supply_ref", TextOrNull(m.supplyRef)),
            Field("nearest_demand_ref", TextOrNull(m.demandRef)), Field("evidence_refs", Texts(m.refs))])
  }

  function DumpMomentum(m: CompactMomentum): Json {
    Object([Field("direction", Text(m.direction)), Field("strength", Number(m.strength)),
            Field("trend", Text(m.trend)), Field("evidence_refs", Texts(m.refs))])
  }

  function DumpVolatility(m: CompactVolatility): Json {
    Object([Field("state", Text(m.state)), Field("trend", Text(m.trend)), Field("evidence_refs", Texts(m.refs))])
  }

  function DumpScenario(m: CompactScenario): Json {
    Object([Field("name", Text(m.name)), Field("description", Text(m.description)),
            Field("probability", Number(m.probability)), Field("evidence_refs", Texts(m.refs))])
  }

  function DumpScenarios(scenarios: seq<CompactScenario>): Json {
    List(seq(|scenarios|, i requires 0 <= i < |scenarios| => DumpScenario(scenarios[i])))
  }

  function SectionFields(w: Wire): seq<Field> {
    [Field("analysis_schema_version", Text(w.schemaVersion)), Field("output_profile", Text(w.profile)),
     Field("market_regime", DumpRegime(w.regime)), Field("higher_timeframe_context", DumpHigher(w.higher)),
     Field("market_structure", DumpStructure(w.structure)), Field("liquidity_analysis", DumpLiquidity(w.liquidity)),
     Field("supply_demand_analysis", DumpZones(w.zones)), Field("momentum_analysis", DumpMomentum(w.momentum)),
     Field("volatility_analysis", DumpVolatility(w.volatility))]
  }

  function ListFields(w: Wire): seq<Field> {
    [Field("bullish_evidence_refs", Texts(w.bullish)), Field("bearish_evidence_refs", Texts(w.bearish)),
     Field("contradiction_refs", Texts(w.contradictions)), Field("key_risk_refs", Texts(w.keyRisks)),
     Field("invalidation_conditions", Texts(w.invalidations)), Field("data_quality_warnings", Texts(w.warnings)),
     Field("alternative_scenarios", DumpScenarios(w.scenarios)),
     Field("analysis_confidence", Number(w.confidence)), Field("executive_summary", Text(w.summary))]
  }

  function Dump(w: Wire): Json {
    Object(SectionFields(w) + ListFields(w))
  }

  // ---- the walk over the dump sees exactly the reference lists of the model ----

  ghost predicate ScenariosGood(scenarios: seq<CompactScenario>, allowed: set<string>) {
    forall i | 0 <= i < |scenarios| :: GoodRefs(scenarios[i].refs, allowed)
  }

  ghost predicate WireRefsGood(w: Wire, allowed: set<string>) {
    && GoodRefs(w.regime.refs, allowed) && GoodRefs(w.higher.refs, allowed) && GoodRefs(w.structure.refs, allowed)
    && GoodRefs(w.liquidity.refs, allowed) && GoodRefs(w.zones.refs, allowed) && GoodRefs(w.momentum.refs, allowed)
    && GoodRefs(w.volatility.refs, allowed)
    && GoodRefs(w.bullish, allowed) && GoodRefs(w.bearish, allowed)
    && GoodRefs(w.contradictions, allowed) && GoodRefs(w.keyRisks, allowed)
    && ScenariosGood(w.scenarios, allowed)
  }

  lemma TextsRoundTrip(values: seq<string>)
    ensures AllTexts(Texts(values)) && TextsOf(Texts(values).items) == values
  {}

  /** A field that the walk passes through without finding a reference list. */
  lemma QuietField(f: Field, allowed: set<string>)
    requires !IsRefsKey(f.key)
    requires f.value.Text? || f.value.Number? || f.value.Null? || exists values :: f.value == Texts(values)
    ensures WellTypedField(f) && FieldGood(f, allowed)
  {}

  lemma RefsField(f: Field, values: seq<string>, allowed: set<string>)
    requires IsRefsKey(f.key) && f.value == Texts(values)
    ensures WellTypedField(f) && (FieldGood(f, allowed) <==> GoodRefs(values, allowed))
  {
    TextsRoundTrip(values);
  }

  /** A dumped section: its last field is its reference list, the others hold no reference. */
  ghost predicate IsSection(v: Json, refs: seq<string>) {
    && v.Object? && |v.fields| > 0
    && v.fields[|v.fields| - 1] == Field("evidence_refs", Texts(refs))
    && forall i | 0 <= i < |v.fields| - 1 ::
         && !IsRefsKey(v.fields[i].key)
         && (v.fields[i].value.Text? || v.fields[i].value.Number? || v.fields[i].value.Null?
             || exists values :: v.fields[i].value == Texts(values))
  }

  lemma SectionSeesItsRefs(v: Json, refs: seq<string>, allowed: set<string>)
    requires IsSection(v, refs)
    ensures WellTyped(v) && (RefsGood(v, allowed) <==> GoodRefs(refs, allowed))
  {
    var last := |v.fields| - 1;
    RefsField(v.fields[last], refs, allowed);
    forall i | 0 <= i < last ensures WellTypedField(v.fields[i]) && FieldGood(v.fields[i], allowed) {
      QuietField(v.fields[i], allowed);
    }
    assert forall i | 0 <= i < |v.fields| :: WellTypedField(v.fields[i]);
  }

  lemma MarketSections(w: Wire)
    ensures IsSection(DumpRegime(w.regime), w.regime.refs)
    ensures IsSection(DumpHigher(w.higher), w.higher.refs)
    ensures IsSection(DumpStructure(w.structure), w.structure.refs)
    ensures IsSection(DumpLiquidity(w.liquidity), w.liquidity.refs)
  {}

  lemma SignalSections(w: Wire)
    ensures IsSection(DumpZones(w.zones), w.zones.refs)
    ensures IsSection(DumpMomentum(w.momentum), w.momentum.refs)
    ensures IsSection(DumpVolatility(w.volatility), w.volatility.refs)
  {}

  lemma ScenarioSection(m: CompactScenario)
    ensures IsSection(DumpScenario(m), m.refs)
  {}

  lemma SectionField(f: Field, refs: seq<string>, allowed: set<string>)
    requires !IsRefsKey(f.key) && IsSection(f.value, refs)
    ensures WellTypedField(f) && (FieldGood(f, allowed) <==> GoodRefs(refs, allowed))
  {
    SectionSeesItsRefs(f.value, refs, allowed);
  }

  lemma ScenariosField(f: Field, scenarios: seq<CompactScenario>, allowed: set<string>)
    requires !IsRefsKey(f.key) && f.value == DumpScenarios(scenarios)
    ensures WellTypedField(f)
    ensures FieldGood(f, allowed) <==> ScenariosGood(scenarios, allowed)
  {
    var items := f.value.items;
    forall i | 0 <= i < |items|
      ensures WellTyped(items[i]) && (RefsGood(items[i], allowed) <==> GoodRefs(scenarios[i].refs, allowed))
    {
      ScenarioSection(scenarios[i]);
      SectionSeesItsRefs(items[i], scenarios[i].refs, allowed);
    }
  }

  ghost predicate IsSectionField(f: Field, refs: seq<string>) {
    !IsRefsKey(f.key) && IsSection(f.value, refs)
  }

  ghost predicate IsPlainField(f: Field) {
    && !IsRefsKey(f.key)
    && (f.value.Text? || f.value.Number? || exists values :: f.value == Texts(values))
  }

  ghost predicate IsRefsField(f: Field, refs: seq<string>) {
    IsRefsKey(f.key) && f.value == Texts(refs)
  }

  lemma SectionFieldKinds(w: Wire)
    ensures var f := SectionFields(w);
      && |f| == 9 && IsPlainField(f[0]) && IsPlainField(f[1])
      && IsSectionField(f[2], w.regime.refs) && IsSectionField(f[3], w.higher.refs)
      && IsSectionField(f[4], w.structure.refs) && IsSectionField(f[5], w.liquidity.refs)
      && IsSectionField(f[6], w.zones.refs) && IsSectionField(f[7], w.momentum.refs)
      && IsSectionField(f[8], w.volatility.refs)
  {
    MarketSections(w);
    SignalSections(w);
  }

  lemma ListFieldKinds(w: Wire)
    ensures var f := ListFields(w);
      && |f| == 9 && IsRefsField(f[0], w.bullish) && IsRefsField(f[1], w.bearish)
      && IsRefsField(f[2], w.contradictions) && IsRefsField(f[3], w.keyRisks)
      && IsPlainField(f[4]) && IsPlainField(f[5])
      && !IsRefsKey(f[6].key) && f[6].value == DumpScenarios(w.scenarios)
      && IsPlainField(f[7]) && IsPlainField(f[8])
  {}

  /** Nine fields, each with its own condition for being good. */
  lemma NineFields(f: seq<Field>, good: seq<bool>, allowed: set<string>)
    requires |f| == |good| == 9
    requires forall i | 0 <= i < 9 :: WellTypedField(f[i]) && (FieldGood(f[i], allowed) <==> good[i])
    ensures (forall i | 0 <= i < 9 :: FieldGood(f[i], allowed)) <==>
      good[0] && good[1] && good[2] && good[3] && good[4] && good[5] && good[6] && good[7] && good[8]
  {}

  lemma PlainField(f: Field, allowed: set<string>)
    requires IsPlainField(f)
    ensures WellTypedField(f) && FieldGood(f, allowed)
  {}

  lemma SectionFieldsSeen(w: Wire, f: seq<Field>, allowed: set<string>)
    requires |f| == 9 && IsPlainField(f[0]) && IsPlainField(f[1])
    requires IsSectionField(f[2], w.regime.refs) && IsSectionField(f[3], w.higher.refs)
    requires IsSectionField(f[4], w.structure.refs) && IsSectionField(f[5], w.liquidity.refs)
    requires IsSectionField(f[6], w.zones.refs) && IsSectionField(f[7], w.momentum.refs)
    requires IsSectionField(f[8], w.volatility.refs)
    ensures forall i | 0 <= i < |f| :: WellTypedField(f[i])
    ensures (forall i | 0 <= i < |f| :: FieldGood(f[i], allowed)) <==>
      && GoodRefs(w.regime.refs, allowed) && GoodRefs(w.higher.refs, allowed)
      && GoodRefs(w.structure.refs, allowed) && GoodRefs(w.liquidity.refs, allowed)
      && GoodRefs(w.zones.refs, allowed) && GoodRefs(w.momentum.refs, allowed)
      && GoodRefs(w.volatility.refs, allowed)
  {
    PlainField(f[0], allowed);
    PlainField(f[1], allowed);
    SectionField(f[2], w.regime.refs, allowed);
    SectionField(f[3], w.higher.refs, allowed);
    SectionField(f[4], w.structure.refs, allowed);
    SectionField(f[5], w.liquidity.refs, allowed);
    SectionField(f[6], w.zones.refs, allowed);
    SectionField(f[7], w.momentum.refs, allowed);
    SectionField(f[8], w.volatility.refs, allowed);
    NineFields(f, [true, true, GoodRefs(w.regime.refs, allowed), GoodRefs(w.higher.refs, allowed),
                   GoodRefs(w.structure.refs, allowed), GoodRefs(w.liquidity.refs, allowed),
                   GoodRefs(w.zones.refs, allowed), GoodRefs(w.momentum.refs, allowed),
                   GoodRefs(w.volatility.refs, allowed)], allowed);
  }

  lemma ListFieldsSeen(w: Wire, f: seq<Field>, allowed: set<string>)
    requires |f| == 9 && IsRefsField(f[0], w.bullish) && IsRefsField(f[1], w.bearish)
    requires IsRefsField(f[2], w.contradictions) && IsRefsField(f[3], w.keyRisks)
    requires IsPlainField(f[4]) && IsPlainField(f[5])
    requires !IsRefsKey(f[6].key) && f[6].value == DumpScenarios(w.scenarios)
    requires IsPlainField(f[7]) && IsPlainField(f[8])
    ensures forall i | 0 <= i < |f| :: WellTypedField(f[i])
    ensures (forall i | 0 <= i < |f| :: FieldGood(f[i], allowed)) <==>
      && GoodRefs(w.bullish, allowed) && GoodRefs(w.bearish, allowed)
      && GoodRefs(w.contradictions, allowed) && GoodRefs(w.keyRisks, allowed)
      && ScenariosGood(w.scenarios, allowed)
  {
    RefsField(f[0], w.bullish, allowed);
    RefsField(f[1], w.bearish, allowed);
    RefsField(f[2], w.contradictions, allowed);
    RefsField(f[3], w.keyRisks, allowed);
    PlainField(f[4], allowed);
    PlainField(f[5], allowed);
    ScenariosField(f[6], w.scenarios, allowed);
    PlainField(f[7], allowed);
    PlainField(f[8], allowed);
    NineFields(f, [GoodRefs(w.bullish, allowed), GoodRefs(w.bearish, allowed), GoodRefs(w.contradictions, allowed),
                   GoodRefs(w.keyRisks, allowed), true, true, ScenariosGood(w.scenarios, allowed), true, true],
               allowed);
  }

  lemma ConcatFields(a: seq<Field>, b: seq<Field>, allowed: set<string>)
    requires (forall i | 0 <= i < |a| :: WellTypedField(a[i])) && (forall i | 0 <= i < |b| :: WellTypedField(b[i]))
    ensures WellTyped(Object(a + b))
    ensures RefsGood(Object(a + b), allowed) <==>
      (forall i | 0 <= i < |a| :: FieldGood(a[i], allowed)) && (forall i | 0 <= i < |b| :: FieldGood(b[i], allowed))
  {
    var all := a + b;
    assert forall i | 0 <= i < |all| :: all[i] == if i < |a| then a[i] else b[i - |a|];
    assert forall i | 0 <= i < |a| :: a[i] == all[i];
    assert forall i | 0 <= i < |b| :: b[i] == all[|a| + i];
  }

  /** The generic walk over the dumped output reaches every reference list of the model and nothing else. */
  lemma WalkSeesTheModel(w: Wire, allowed: set<string>)
    ensures WellTyped(Dump(w))
    ensures FirstFault(Dump(w), allowed, []).None? <==> WireRefsGood(w, allowed)
  {
    SectionFieldKinds(w);
    SectionFieldsSeen(w, SectionFields(w), allowed);
    ListFieldKinds(w);
    ListFieldsSeen(w, ListFields(w), allowed);
    ConcatFields(SectionFields(w), ListFields(w), allowed);
    WalkAcceptsExactly(Dump(w), allowed, []);
  }
}
