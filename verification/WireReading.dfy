/** Reading a dumped output back, field by field and by name: the dump says everything the model says, and a parser as
  * the recovery laws ask for exists. */
module WireReading {
  import opened Domain
  import opened JsonSchemas
  import opened Normalizer
  import opened WireOutput
  import opened CompactContract
  import opened WireRoundTrip
  import Resolver

  // ---- reading by name ----

  function Find(fields: seq<Field>, key: string): Json {
    if fields == [] then Null else if fields[0].key == key then fields[0].value else Find(fields[1..], key)
  }

  function At(v: Json, key: string): Json {
    if v.Object? then Find(v.fields, key) else Null
  }

  function TextAt(v: Json, key: string): string {
    if At(v, key).Text? then At(v, key).text else ""
  }

  function OptionalAt(v: Json, key: string): Option<string> {
    if At(v, key).Text? then Some(At(v, key).text) else None
  }

  function NumberAt(v: Json, key: string): real {
    if At(v, key).Number? then At(v, key).number else 0.0
  }

  function TextsIn(items: seq<Json>): seq<string> {
    if items == [] then [] else [if items[0].Text? then items[0].text else ""] + TextsIn(items[1..])
  }

  function TextsAt(v: Json, key: string): seq<string> {
    if At(v, key).List? then TextsIn(At(v, key).items) else []
  }

  function ReadRegime(v: Json): CompactRegime {
    CompactRegime(TextAt(v, "classification"), NumberAt(v, "strength"), NumberAt(v, "confidence"),
                  TextsAt(v, "evidence_refs"))
  }

  function ReadHigher(v: Json): CompactHigher {
    CompactHigher(TextAt(v, "bias"), TextAt(v, "summary"), TextsAt(v, "evidence_refs"))
  }

  function ReadStructure(v: Json): CompactStructure {
    CompactStructure(TextAt(v, "short_term"), TextAt(v, "medium_term"), TextAt(v, "recent_change"),
                     TextsAt(v, "evidence_refs"))
  }

  function ReadLiquidity(v: Json): CompactLiquidity {
    CompactLiquidity(TextAt(v, "summary"), TextsAt(v, "events"), TextsAt(v, "unresolved"), TextsAt(v, "evidence_refs"))
  }

  function ReadZones(v: Json): CompactZones {
    CompactZones(TextAt(v, "summary"), OptionalAt(v, "nearest_supply_ref"), OptionalAt(v, "nearest_demand_ref"),
                 TextsAt(v, "evidence_refs"))
  }

  function ReadMomentum(v: Json): CompactMomentum {
    CompactMomentum(TextAt(v, "direction"), NumberAt(v, "strength"), TextAt(v, "trend"), TextsAt(v, "evidence_refs"))
  }

  function ReadVolatility(v: Json): CompactVolatility {
    CompactVolatility(TextAt(v, "state"), TextAt(v, "trend"), TextsAt(v, "evidence_refs"))
  }

  function ReadScenario(v: Json): CompactScenario {
    CompactScenario(TextAt(v, "name"), TextAt(v, "description"), NumberAt(v, "probability"),
                    TextsAt(v, "evidence_refs"))
  }

  function ReadScenarios(items: seq<Json>): seq<CompactScenario> {
    if items == [] then [] else [ReadScenario(items[0])] + ReadScenarios(items[1..])
  }

  function Read(v: Json): Wire {
    var scenarios := At(v, "alternative_scenarios");
    Wire(TextAt(v, "analysis_schema_version"), TextAt(v, "output_profile"),
         ReadRegime(At(v, "market_regime")), ReadHigher(At(v, "higher_timeframe_context")),
         ReadStructure(At(v, "market_structure")), ReadLiquidity(At(v, "liquidity_analysis")),
         ReadZones(At(v, "supply_demand_analysis")), ReadMomentum(At(v, "momentum_analysis")),
         ReadVolatility(At(v, "volatility_analysis")),
         TextsAt(v, "bullish_evidence_refs"), TextsAt(v, "bearish_evidence_refs"), TextsAt(v, "contradiction_refs"),
         TextsAt(v, "key_risk_refs"), TextsAt(v, "invalidation_conditions"), TextsAt(v, "data_quality_warnings"),
         if scenarios.List? then ReadScenarios(scenarios.items) else [],
         NumberAt(v, "analysis_confidence"), TextAt(v, "executive_summary"))
  }

  // ---- reading what was dumped ----

  lemma {:induction false} FindsItsField(fields: seq<Field>, k: nat)
    requires k < |fields| && forall j | 0 <= j < k :: fields[j].key != fields[k].key
    ensures Find(fields, fields[k].key) == fields[k].value
    decreases |fields|
  {
    if k > 0 { FindsItsField(fields[1..], k - 1); }
  }

  /** The fields carry the names of the properties, in order. */
  predicate NamedBy(fields: seq<Field>, properties: seq<Property>) {
    |fields| == |properties| && forall i | 0 <= i < |fields| :: fields[i].key == properties[i].key
  }

  lemma FindsByName(fields: seq<Field>, properties: seq<Property>)
    requires NamedBy(fields, properties) && DistinctKeys(properties)
    ensures forall k | 0 <= k < |fields| :: At(Object(fields), fields[k].key) == fields[k].value
  {
    forall k | 0 <= k < |fields| ensures Find(fields, fields[k].key) == fields[k].value { FindsItsField(fields, k); }
  }

  lemma {:induction false} TextsAreRead(values: seq<string>)
    ensures TextsIn(Texts(values).items) == values
    decreases |values|
  {
    if values != [] {
      assert Texts(values).items[1..] == Texts(values[1..]).items;
      TextsAreRead(values[1..]);
    }
  }

  lemma RegimeIsRead(m: CompactRegime)
    ensures ReadRegime(DumpRegime(m)) == m
  {
    SectionKeysDiffer();
    FindsByName(DumpRegime(m).fields, REGIME.properties);
    var f := DumpRegime(m).fields;
    assert At(DumpRegime(m), f[0].key) == f[0].value && At(DumpRegime(m), f[1].key) == f[1].value;
    assert At(DumpRegime(m), f[2].key) == f[2].value && At(DumpRegime(m), f[3].key) == f[3].value;
    TextsAreRead(m.refs);
  }

  lemma HigherIsRead(m: CompactHigher)
    ensures ReadHigher(DumpHigher(m)) == m
  {
    SectionKeysDiffer();
    FindsByName(DumpHigher(m).fields, HIGHER_TIMEFRAME.properties);
    var f := DumpHigher(m).fields;
    assert At(DumpHigher(m), f[0].key) == f[0].value && At(DumpHigher(m), f[1].key) == f[1].value;
    assert At(DumpHigher(m), f[2].key) == f[2].value;
    TextsAreRead(m.refs);
  }

  lemma StructureIsRead(m: CompactStructure)
    ensures ReadStructure(DumpStructure(m)) == m
  {
    SectionKeysDiffer();
    FindsByName(DumpStructure(m).fields, STRUCTURE.properties);
    var f := DumpStructure(m).fields;
    assert At(DumpStructure(m), f[0].key) == f[0].value && At(DumpStructure(m), f[1].key) == f[1].value;
    assert At(DumpStructure(m), f[2].key) == f[2].value && At(DumpStructure(m), f[3].key) == f[3].value;
    TextsAreRead(m.refs);
  }

  lemma LiquidityIsRead(m: CompactLiquidity)
    ensures ReadLiquidity(DumpLiquidity(m)) == m
  {
    SectionKeysDiffer();
    FindsByName(DumpLiquidity(m).fields, LIQUIDITY.properties);
    var f := DumpLiquidity(m).fields;
    assert At(DumpLiquidity(m), f[0].key) == f[0].value && At(DumpLiquidity(m), f[1].key) == f[1].value;
    assert At(DumpLiquidity(m), f[2].key) == f[2].value && At(DumpLiquidity(m), f[3].key) == f[3].value;
    TextsAreRead(m.events);
    TextsAreRead(m.unresolved);
    TextsAreRead(m.refs);
  }

  lemma ZonesAreRead(m: CompactZones)
    ensures ReadZones(DumpZones(m)) == m
  {
    OtherKeysDiffer();
    FindsByName(DumpZones(m).fields, SUPPLY_DEMAND.properties);
    var f := DumpZones(m).fields;
    assert At(DumpZones(m), f[0].key) == f[0].value && At(DumpZones(m), f[1].key) == f[1].value;
    assert At(DumpZones(m), f[2].key) == f[2].value && At(DumpZones(m), f[3].key) == f[3].value;
    TextsAreRead(m.refs);
  }

  lemma MomentumIsRead(m: CompactMomentum)
    ensures ReadMomentum(DumpMomentum(m)) == m
  {
    OtherKeysDiffer();
    FindsByName(DumpMomentum(m).fields, MOMENTUM.properties);
    var f := DumpMomentum(m).fields;
    assert At(DumpMomentum(m), f[0].key) == f[0].value && At(DumpMomentum(m), f[1].key) == f[1].value;
    assert At(DumpMomentum(m), f[2].key) == f[2].value && At(DumpMomentum(m), f[3].key) == f[3].value;
    TextsAreRead(m.refs);
  }

  lemma VolatilityIsRead(m: CompactVolatility)
    ensures ReadVolatility(DumpVolatility(m)) == m
  {
    OtherKeysDiffer();
    FindsByName(DumpVolatility(m).fields, VOLATILITY.properties);
    var f := DumpVolatility(m).fields;
    assert At(DumpVolatility(m), f[0].key) == f[0].value && At(DumpVolatility(m), f[1].key) == f[1].value;
    assert At(DumpVolatility(m), f[2].key) == f[2].value;
    TextsAreRead(m.refs);
  }

  lemma ScenarioIsRead(m: CompactScenario)
    ensures ReadScenario(DumpScenario(m)) == m
  {
    OtherKeysDiffer();
    FindsByName(DumpScenario(m).fields, SCENARIO.properties);
    var f := DumpScenario(m).fields;
    assert At(DumpScenario(m), f[0].key) == f[0].value && At(DumpScenario(m), f[1].key) == f[1].value;
    assert At(DumpScenario(m), f[2].key) == f[2].value && At(DumpScenario(m), f[3].key) == f[3].value;
    TextsAreRead(m.refs);
  }

  lemma {:induction false} ScenariosAreRead(scenarios: seq<CompactScenario>)
    ensures ReadScenarios(DumpScenarios(scenarios).items) == scenarios
    decreases |scenarios|
  {
    if scenarios != [] {
      ScenarioIsRead(scenarios[0]);
      assert DumpScenarios(scenarios).items[1..] == DumpScenarios(scenarios[1..]).items;
      ScenariosAreRead(scenarios[1..]);
    }
  }

  lemma DumpIsNamed(w: Wire)
    ensures NamedBy(Dump(w).fields, ROOT.properties)
  {
    assert |ROOT.properties| == 18 && |SectionFields(w)| == 9 && |ListFields(w)| == 9;
    assert NamedBy(SectionFields(w), ROOT.properties[..9]);
    assert NamedBy(ListFields(w), ROOT.properties[9..]);
  }

  /** A value at its place in the dump is found by its name. */
  lemma DumpHas(w: Wire, k: nat)
    requires k < 18
    ensures |Dump(w).fields| == 18 && At(Dump(w), Dump(w).fields[k].key) == Dump(w).fields[k].value
  {
    DumpIsNamed(w);
    RootKeysDiffer();
    FindsByName(Dump(w).fields, ROOT.properties);
  }

  lemma SectionsAreFound(w: Wire)
    ensures At(Dump(w), "analysis_schema_version") == Text(w.schemaVersion)
    ensures At(Dump(w), "output_profile") == Text(w.profile)
    ensures At(Dump(w), "market_regime") == DumpRegime(w.regime)
    ensures At(Dump(w), "higher_timeframe_context") == DumpHigher(w.higher)
    ensures At(Dump(w), "market_structure") == DumpStructure(w.structure)
    ensures At(Dump(w), "liquidity_analysis") == DumpLiquidity(w.liquidity)
    ensures At(Dump(w), "supply_demand_analysis") == DumpZones(w.zones)
    ensures At(Dump(w), "momentum_analysis") == DumpMomentum(w.momentum)
    ensures At(Dump(w), "volatility_analysis") == DumpVolatility(w.volatility)
  {
    DumpHas(w, 0);
    DumpHas(w, 1);
    DumpHas(w, 2);
    DumpHas(w, 3);
    DumpHas(w, 4);
    DumpHas(w, 5);
    DumpHas(w, 6);
    DumpHas(w, 7);
    DumpHas(w, 8);
  }

  lemma ListsAreFound(w: Wire)
    ensures At(Dump(w), "bullish_evidence_refs") == Texts(w.bullish)
    ensures At(Dump(w), "bearish_evidence_refs") == Texts(w.bearish)
    ensures At(Dump(w), "contradiction_refs") == Texts(w.contradictions)
    ensures At(Dump(w), "key_risk_refs") == Texts(w.keyRisks)
    ensures At(Dump(w), "invalidation_conditions") == Texts(w.invalidations)
    ensures At(Dump(w), "data_quality_warnings") == Texts(w.warnings)
    ensures At(Dump(w), "alternative_scenarios") == DumpScenarios(w.scenarios)
    ensures At(Dump(w), "analysis_confidence") == Number(w.confidence)
    ensures At(Dump(w), "executive_summary") == Text(w.summary)
  {
    DumpHas(w, 9);
    DumpHas(w, 10);
    DumpHas(w, 11);
    DumpHas(w, 12);
    DumpHas(w, 13);
    DumpHas(w, 14);
    DumpHas(w, 15);
    DumpHas(w, 16);
    DumpHas(w, 17);
  }

  lemma SectionsAreRead(w: Wire)
    ensures var r := Read(Dump(w));
      && r.schemaVersion == w.schemaVersion && r.profile == w.profile && r.regime == w.regime && r.higher == w.higher
      && r.structure == w.structure && r.liquidity == w.liquidity && r.zones == w.zones
      && r.momentum == w.momentum && r.volatility == w.volatility
  {
    SectionsAreFound(w);
    RegimeIsRead(w.regime);
    HigherIsRead(w.higher);
    StructureIsRead(w.structure);
    LiquidityIsRead(w.liquidity);
    ZonesAreRead(w.zones);
    MomentumIsRead(w.momentum);
    VolatilityIsRead(w.volatility);
  }

  lemma ListsAreRead(w: Wire)
    ensures var r := Read(Dump(w));
      && r.bullish == w.bullish && r.bearish == w.bearish && r.contradictions == w.contradictions
      && r.keyRisks == w.keyRisks && r.invalidations == w.invalidations && r.warnings == w.warnings
      && r.scenarios == w.scenarios && r.confidence == w.confidence && r.summary == w.summary
  {
    ListsAreFound(w);
    TextsAreRead(w.bullish);
    TextsAreRead(w.bearish);
    TextsAreRead(w.contradictions);
    TextsAreRead(w.keyRisks);
    TextsAreRead(w.invalidations);
    TextsAreRead(w.warnings);
    ScenariosAreRead(w.scenarios);
  }

  /** Reading by name gives back what was dumped: the dump puts every value under its own name and loses nothing. */
  lemma DumpIsRead(w: Wire)
    ensures Read(Dump(w)) == w
  {
    SectionsAreRead(w);
    ListsAreRead(w);
  }

  // ---- a parser as the recovery laws ask for ----

  /** Takes exactly the dumps of outputs with the enums' labels. */
  function Parse(v: Json): Option<Wire> {
    var w := Read(v);
    if KnownLabels(w) && Dump(w) == v then Some(w) else None
  }

  /** With it recovery never changes an analysis, whatever is validated first and however often it is repeated. */
  lemma ReaderIsFaithful()
    ensures Resolver.FaithfulParser(Parse)
  {
    forall v, w | Parse(v) == Some(w) ensures KnownLabels(w) && Parse(Dump(w)) == Some(w) { DumpIsRead(w); }
  }
}
