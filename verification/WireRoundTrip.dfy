/** The dump of a parsed output, which is what is stored and read again, is a fixed point of the normaliser. */
module WireRoundTrip {
  import opened Domain
  import opened JsonSchemas
  import opened Normalizer
  import opened NormalizerMeaning
  import opened WireOutput
  import opened CompactContract
  import NormalizerLaws

  /** What the wire model's enum fields guarantee of a parsed output. */
  predicate KnownLabels(w: Wire) {
    && w.regime.classification in REGIMES && w.higher.bias in BIASES
    && w.momentum.direction in BIASES && w.momentum.trend in MOMENTUM_TRENDS
    && w.volatility.state in VOLATILITY_STATES && w.volatility.trend in VOLATILITY_TRENDS
  }

  // ---- leaves ----

  lemma TextIsCanonical(defs: Definitions, t: string)
    ensures Canonical(defs, Text(t), PLAIN_TEXT) && Canonical(defs, Text(t), PROSE)
  {}

  lemma NumberIsCanonical(defs: Definitions, n: real)
    ensures Canonical(defs, Number(n), NUMBER)
  {}

  lemma {:induction false} TextItemsAreCanonical(defs: Definitions, items: seq<Json>)
    requires forall v | v in items :: v.Text?
    ensures CanonicalItems(defs, items, PLAIN_TEXT)
    decreases |items|
  {
    if items != [] {
      TextIsCanonical(defs, items[0].text);
      TextItemsAreCanonical(defs, items[1..]);
    }
  }

  lemma TextsAreCanonical(defs: Definitions, values: seq<string>)
    ensures Canonical(defs, Texts(values), TEXTS)
  {
    TextItemsAreCanonical(defs, Texts(values).items);
  }

  lemma TextOrNullIsCanonical(defs: Definitions, value: Option<string>)
    ensures Canonical(defs, TextOrNull(value), TEXT_OR_NULL)
  {
    assert TEXT_OR_NULL.anyOf[0] == PLAIN_TEXT && TEXT_OR_NULL.anyOf[1].kind == Some("null");
    assert |"string"| == 6 && |"null"| == 4;
  }

  /** A label of an enum is left as it is. */
  lemma LabelIsCanonical(defs: Definitions, s: Schema, name: string, labels: seq<string>, text: string)
    requires Resolve(defs, s) == EnumOf(name, labels) && PlainLabels(labels) && text in labels
    ensures Canonical(defs, Text(text), s)
  {
    TextValuesAllAllowed(labels);
    forall i | 0 <= i < |labels| ensures EnumToken(labels[i]) == labels[i] { PlainTokensStay(labels[i]); }
    NormalizerLaws.OneLabelPerToken(labels, text);
  }

  // ---- objects ----

  predicate DistinctKeys(properties: seq<Property>) {
    forall i, j | 0 <= i < j < |properties| :: properties[i].key != properties[j].key
  }

  lemma {:induction false} SchemaOfProperty(properties: seq<Property>, k: nat)
    requires DistinctKeys(properties) && k < |properties|
    ensures PropertySchema(properties, properties[k].key) == properties[k].schema
    decreases |properties|
  {
    if k > 0 { SchemaOfProperty(properties[1..], k - 1); }
  }

  ghost predicate FitsAt(defs: Definitions, f: Field, p: Property) {
    f.key == p.key && Canonical(defs, f.value, p.schema)
  }

  /** The fields are the properties in order, each with a canonical value. */
  ghost predicate Fits(defs: Definitions, fields: seq<Field>, properties: seq<Property>) {
    |fields| == |properties| && forall i | 0 <= i < |fields| :: FitsAt(defs, fields[i], properties[i])
  }

  lemma {:induction false} FittingFieldsFrom(defs: Definitions, fields: seq<Field>, node: Schema, k: nat)
    requires DistinctKeys(node.properties) && Fits(defs, fields, node.properties) && k <= |fields|
    ensures CanonicalFields(defs, fields[k..], node)
    decreases |fields| - k
  {
    if k < |fields| {
      SchemaOfProperty(node.properties, k);
      assert FitsAt(defs, fields[k], node.properties[k]);
      FittingFieldsFrom(defs, fields, node, k + 1);
      assert fields[k..][1..] == fields[k + 1..];
    }
  }

  lemma FittingObjectIsCanonical(defs: Definitions, fields: seq<Field>, s: Schema, properties: seq<Property>)
    requires Resolve(defs, s) == ModelOf(properties) && DistinctKeys(properties) && Fits(defs, fields, properties)
    ensures Canonical(defs, Object(fields), s)
  {
    FittingFieldsFrom(defs, fields, ModelOf(properties), 0);
    assert fields[0..] == fields;
  }

  lemma OneFits(defs: Definitions, f: Field, p: Property)
    requires f.key == p.key && Canonical(defs, f.value, p.schema)
    ensures FitsAt(defs, f, p)
  {}

  lemma ThreeFit(defs: Definitions, k1: string, k2: string, k3: string, a: Json, b: Json, c: Json, s1: Schema,
                 s2: Schema, s3: Schema) returns (fields: seq<Field>, properties: seq<Property>)
    requires Canonical(defs, a, s1) && Canonical(defs, b, s2) && Canonical(defs, c, s3)
    ensures fields == [Field(k1, a), Field(k2, b), Field(k3, c)]
    ensures properties == [Property(k1, s1), Property(k2, s2), Property(k3, s3)]
    ensures Fits(defs, fields, properties)
  {
    fields := [Field(k1, a), Field(k2, b), Field(k3, c)];
    properties := [Property(k1, s1), Property(k2, s2), Property(k3, s3)];
    OneFits(defs, fields[0], properties[0]);
    OneFits(defs, fields[1], properties[1]);
    OneFits(defs, fields[2], properties[2]);
  }

  lemma FitsConcatenates(defs: Definitions, fields: seq<Field>, more: seq<Field>, properties: seq<Property>,
                         others: seq<Property>)
    requires Fits(defs, fields, properties) && Fits(defs, more, others)
    ensures Fits(defs, fields + more, properties + others)
  {}

  lemma FourFit(defs: Definitions, k1: string, k2: string, k3: string, k4: string, a: Json, b: Json, c: Json, d: Json,
                s1: Schema, s2: Schema, s3: Schema, s4: Schema) returns (fields: seq<Field>, properties: seq<Property>)
    requires Canonical(defs, a, s1) && Canonical(defs, b, s2) && Canonical(defs, c, s3) && Canonical(defs, d, s4)
    ensures fields == [Field(k1, a), Field(k2, b), Field(k3, c), Field(k4, d)]
    ensures properties == [Property(k1, s1), Property(k2, s2), Property(k3, s3), Property(k4, s4)]
    ensures Fits(defs, fields, properties)
  {
    fields := [Field(k1, a), Field(k2, b), Field(k3, c), Field(k4, d)];
    properties := [Property(k1, s1), Property(k2, s2), Property(k3, s3), Property(k4, s4)];
    OneFits(defs, fields[0], properties[0]);
    OneFits(defs, fields[1], properties[1]);
    OneFits(defs, fields[2], properties[2]);
    OneFits(defs, fields[3], properties[3]);
  }

  // ---- the definitions ----

  /** The definitions hold the contract's models and enums under their names. */
  ghost predicate HasModels(defs: Definitions) {
    && Resolve(defs, RefTo("CompactRegime")) == REGIME
    && Resolve(defs, RefTo("CompactHigherTimeframe")) == HIGHER_TIMEFRAME
    && Resolve(defs, RefTo("CompactStructure")) == STRUCTURE
    && Resolve(defs, RefTo("CompactLiquidity")) == LIQUIDITY
    && Resolve(defs, RefTo("CompactSupplyDemand")) == SUPPLY_DEMAND
    && Resolve(defs, RefTo("CompactMomentum")) == MOMENTUM
    && Resolve(defs, RefTo("CompactVolatility")) == VOLATILITY
    && Resolve(defs, RefTo("CompactScenario")) == SCENARIO
  }

  ghost predicate HasEnums(defs: Definitions) {
    && Resolve(defs, RefTo("RegimeClassification")) == EnumOf("RegimeClassification", REGIMES)
    && Resolve(defs, RefTo("AnalysisBias")) == EnumOf("AnalysisBias", BIASES)
    && Resolve(defs, RefTo("MomentumTrend")) == EnumOf("MomentumTrend", MOMENTUM_TRENDS)
    && Resolve(defs, RefTo("VolatilityState")) == EnumOf("VolatilityState", VOLATILITY_STATES)
    && Resolve(defs, RefTo("VolatilityTrend")) == EnumOf("VolatilityTrend", VOLATILITY_TRENDS)
  }

  // ---- the enum fields ----

  lemma ClassificationIsCanonical(defs: Definitions, text: string)
    requires HasEnums(defs) && text in REGIMES
    ensures Canonical(defs, Text(text), RefTo("RegimeClassification"))
  {
    RegimesArePlain();
    LabelIsCanonical(defs, RefTo("RegimeClassification"), "RegimeClassification", REGIMES, text);
  }

  lemma BiasIsCanonical(defs: Definitions, text: string)
    requires HasEnums(defs) && text in BIASES
    ensures Canonical(defs, Text(text), RefTo("AnalysisBias"))
  {
    BiasesArePlain();
    LabelIsCanonical(defs, RefTo("AnalysisBias"), "AnalysisBias", BIASES, text);
  }

  lemma MomentumTrendIsCanonical(defs: Definitions, text: string)
    requires HasEnums(defs) && text in MOMENTUM_TRENDS
    ensures Canonical(defs, Text(text), RefTo("MomentumTrend"))
  {
    MomentumTrendsArePlain();
    LabelIsCanonical(defs, RefTo("MomentumTrend"), "MomentumTrend", MOMENTUM_TRENDS, text);
  }

  lemma VolatilityStateIsCanonical(defs: Definitions, text: string)
    requires HasEnums(defs) && text in VOLATILITY_STATES
    ensures Canonical(defs, Text(text), RefTo("VolatilityState"))
  {
    VolatilityStatesArePlain();
    LabelIsCanonical(defs, RefTo("VolatilityState"), "VolatilityState", VOLATILITY_STATES, text);
  }

  lemma VolatilityTrendIsCanonical(defs: Definitions, text: string)
    requires HasEnums(defs) && text in VOLATILITY_TRENDS
    ensures Canonical(defs, Text(text), RefTo("VolatilityTrend"))
  {
    VolatilityTrendsArePlain();
    LabelIsCanonical(defs, RefTo("VolatilityTrend"), "VolatilityTrend", VOLATILITY_TRENDS, text);
  }

  // ---- the sections ----

  lemma SectionKeysDiffer()
    ensures DistinctKeys(REGIME.properties) && DistinctKeys(HIGHER_TIMEFRAME.properties)
    ensures DistinctKeys(STRUCTURE.properties) && DistinctKeys(LIQUIDITY.properties)
  {}

  lemma OtherKeysDiffer()
    ensures DistinctKeys(SUPPLY_DEMAND.properties) && DistinctKeys(MOMENTUM.properties)
    ensures DistinctKeys(VOLATILITY.properties) && DistinctKeys(SCENARIO.properties)
  {}

  lemma RegimeIsCanonical(defs: Definitions, s: Schema, m: CompactRegime)
    requires HasEnums(defs) && Resolve(defs, s) == REGIME && m.classification in REGIMES
    ensures Canonical(defs, DumpRegime(m), s)
  {
    ClassificationIsCanonical(defs, m.classification);
    NumberIsCanonical(defs, m.strength);
    NumberIsCanonical(defs, m.confidence);
    TextsAreCanonical(defs, m.refs);
    var fields, properties := FourFit(defs, "classification", "strength", "confidence", "evidence_refs",
                                      Text(m.classification), Number(m.strength), Number(m.confidence), Texts(m.refs),
                                      RefTo("RegimeClassification"), NUMBER, NUMBER, TEXTS);
    SectionKeysDiffer();
    FittingObjectIsCanonical(defs, fields, s, properties);
  }

  lemma HigherIsCanonical(defs: Definitions, s: Schema, m: CompactHigher)
    requires HasEnums(defs) && Resolve(defs, s) == HIGHER_TIMEFRAME && m.bias in BIASES
    ensures Canonical(defs, DumpHigher(m), s)
  {
    BiasIsCanonical(defs, m.bias);
    TextIsCanonical(defs, m.summary);
    TextsAreCanonical(defs, m.refs);
    var fields, properties := ThreeFit(defs, "bias", "summary", "evidence_refs",
                                       Text(m.bias), Text(m.summary), Texts(m.refs),
                                       RefTo("AnalysisBias"), PROSE, TEXTS);
    SectionKeysDiffer();
    FittingObjectIsCanonical(defs, fields, s, properties);
  }

  lemma StructureIsCanonical(defs: Definitions, s: Schema, m: CompactStructure)
    requires Resolve(defs, s) == STRUCTURE
    ensures Canonical(defs, DumpStructure(m), s)
  {
    TextIsCanonical(defs, m.shortTerm);
    TextIsCanonical(defs, m.mediumTerm);
    TextIsCanonical(defs, m.recentChange);
    TextsAreCanonical(defs, m.refs);
    var fields, properties := FourFit(defs, "short_term", "medium_term", "recent_change", "evidence_refs",
                                      Text(m.shortTerm), Text(m.mediumTerm), Text(m.recentChange), Texts(m.refs),
                                      PROSE, PROSE, PROSE, TEXTS);
    SectionKeysDiffer();
    FittingObjectIsCanonical(defs, fields, s, properties);
  }

  lemma LiquidityIsCanonical(defs: Definitions, s: Schema, m: CompactLiquidity)
    requires Resolve(defs, s) == LIQUIDITY
    ensures Canonical(defs, DumpLiquidity(m), s)
  {
    TextIsCanonical(defs, m.summary);
    TextsAreCanonical(defs, m.events);
    TextsAreCanonical(defs, m.unresolved);
    TextsAreCanonical(defs, m.refs);
    var fields, properties := FourFit(defs, "summary", "events", "unresolved", "evidence_refs",
                                      Text(m.summary), Texts(m.events), Texts(m.unresolved), Texts(m.refs),
                                      PROSE, TEXTS, TEXTS, TEXTS);
    SectionKeysDiffer();
    FittingObjectIsCanonical(defs, fields, s, properties);
  }

  lemma ZonesAreCanonical(defs: Definitions, s: Schema, m: CompactZones)
    requires Resolve(defs, s) == SUPPLY_DEMAND
    ensures Canonical(defs, DumpZones(m), s)
  {
    TextIsCanonical(defs, m.summary);
    TextOrNullIsCanonical(defs, m.supplyRef);
    TextOrNullIsCanonical(defs, m.demandRef);
    TextsAreCanonical(defs, m.refs);
    var fields, properties := FourFit(defs, "summary", "nearest_supply_ref", "nearest_demand_ref", "evidence_refs",
                                      Text(m.summary), TextOrNull(m.supplyRef), TextOrNull(m.demandRef), Texts(m.refs),
                                      PROSE, TEXT_OR_NULL, TEXT_OR_NULL, TEXTS);
    OtherKeysDiffer();
    FittingObjectIsCanonical(defs, fields, s, properties);
  }

  lemma MomentumIsCanonical(defs: Definitions, s: Schema, m: CompactMomentum)
    requires HasEnums(defs) && Resolve(defs, s) == MOMENTUM && m.direction in BIASES && m.trend in MOMENTUM_TRENDS
    ensures Canonical(defs, DumpMomentum(m), s)
  {
    BiasIsCanonical(defs, m.direction);
    NumberIsCanonical(defs, m.strength);
    MomentumTrendIsCanonical(defs, m.trend);
    TextsAreCanonical(defs, m.refs);
    var fields, properties := FourFit(defs, "direction", "strength", "trend", "evidence_refs",
                                      Text(m.direction), Number(m.strength), Text(m.trend), Texts(m.refs),
                                      RefTo("AnalysisBias"), NUMBER, RefTo("MomentumTrend"), TEXTS);
    OtherKeysDiffer();
    FittingObjectIsCanonical(defs, fields, s, properties);
  }

  lemma VolatilityIsCanonical(defs: Definitions, s: Schema, m: CompactVolatility)
    requires HasEnums(defs) && Resolve(defs, s) == VOLATILITY
    requires m.state in VOLATILITY_STATES && m.trend in VOLATILITY_TRENDS
    ensures Canonical(defs, DumpVolatility(m), s)
  {
    VolatilityStateIsCanonical(defs, m.state);
    VolatilityTrendIsCanonical(defs, m.trend);
    TextsAreCanonical(defs, m.refs);
    var fields, properties := ThreeFit(defs, "state", "trend", "evidence_refs",
                                       Text(m.state), Text(m.trend), Texts(m.refs),
                                       RefTo("VolatilityState"), RefTo("VolatilityTrend"), TEXTS);
    OtherKeysDiffer();
    FittingObjectIsCanonical(defs, fields, s, properties);
  }

  lemma ScenarioIsCanonical(defs: Definitions, s: Schema, m: CompactScenario)
    requires Resolve(defs, s) == SCENARIO
    ensures Canonical(defs, DumpScenario(m), s)
  {
    TextIsCanonical(defs, m.name);
    TextIsCanonical(defs, m.description);
    NumberIsCanonical(defs, m.probability);
    TextsAreCanonical(defs, m.refs);
    var fields, properties := FourFit(defs, "name", "description", "probability", "evidence_refs",
                                      Text(m.name), Text(m.description), Number(m.probability), Texts(m.refs),
                                      PROSE, PROSE, NUMBER, TEXTS);
    OtherKeysDiffer();
    FittingObjectIsCanonical(defs, fields, s, properties);
  }

  lemma {:induction false} ScenarioItemsAreCanonical(defs: Definitions, scenarios: seq<CompactScenario>)
    requires HasModels(defs)
    ensures CanonicalItems(defs, DumpScenarios(scenarios).items, RefTo("CompactScenario"))
  {
    if scenarios != [] {
      ScenarioIsCanonical(defs, RefTo("CompactScenario"), scenarios[0]);
      ScenarioItemsAreCanonical(defs, scenarios[1..]);
      assert DumpScenarios(scenarios).items[1..] == DumpScenarios(scenarios[1..]).items;
    }
  }

  lemma ScenariosAreCanonical(defs: Definitions, scenarios: seq<CompactScenario>)
    requires HasModels(defs)
    ensures Canonical(defs, DumpScenarios(scenarios), SCENARIOS)
  {
    ScenarioItemsAreCanonical(defs, scenarios);
  }

  // ---- the whole output ----

  lemma HeadFits(defs: Definitions, w: Wire)
    requires HasModels(defs) && HasEnums(defs) && KnownLabels(w)
    ensures Fits(defs, SectionFields(w)[..3], ROOT.properties[..3])
  {
    TextIsCanonical(defs, w.schemaVersion);
    TextIsCanonical(defs, w.profile);
    RegimeIsCanonical(defs, RefTo("CompactRegime"), w.regime);
    var fs, ps := ThreeFit(defs, "analysis_schema_version", "output_profile", "market_regime",
                           Text(w.schemaVersion), Text(w.profile), DumpRegime(w.regime),
                           PLAIN_TEXT, PLAIN_TEXT, RefTo("CompactRegime"));
    assert SectionFields(w)[..3] == fs && ROOT.properties[..3] == ps;
  }

  lemma ContextFits(defs: Definitions, w: Wire)
    requires HasModels(defs) && HasEnums(defs) && KnownLabels(w)
    ensures Fits(defs, SectionFields(w)[3..6], ROOT.properties[3..6])
  {
    HigherIsCanonical(defs, RefTo("CompactHigherTimeframe"), w.higher);
    StructureIsCanonical(defs, RefTo("CompactStructure"), w.structure);
    LiquidityIsCanonical(defs, RefTo("CompactLiquidity"), w.liquidity);
    var fs, ps := ThreeFit(defs, "higher_timeframe_context", "market_structure", "liquidity_analysis",
                           DumpHigher(w.higher), DumpStructure(w.structure), DumpLiquidity(w.liquidity),
                           RefTo("CompactHigherTimeframe"), RefTo("CompactStructure"), RefTo("CompactLiquidity"));
    assert SectionFields(w)[3..6] == fs && ROOT.properties[3..6] == ps;
  }

  lemma SignalsFit(defs: Definitions, w: Wire)
    requires HasModels(defs) && HasEnums(defs) && KnownLabels(w)
    ensures Fits(defs, SectionFields(w)[6..], ROOT.properties[6..9])
  {
    ZonesAreCanonical(defs, RefTo("CompactSupplyDemand"), w.zones);
    MomentumIsCanonical(defs, RefTo("CompactMomentum"), w.momentum);
    VolatilityIsCanonical(defs, RefTo("CompactVolatility"), w.volatility);
    var fs, ps := ThreeFit(defs, "supply_demand_analysis", "momentum_analysis", "volatility_analysis",
                           DumpZones(w.zones), DumpMomentum(w.momentum), DumpVolatility(w.volatility),
                           RefTo("CompactSupplyDemand"), RefTo("CompactMomentum"), RefTo("CompactVolatility"));
    assert SectionFields(w)[6..] == fs && ROOT.properties[6..9] == ps;
  }

  lemma EvidenceFits(defs: Definitions, w: Wire)
    ensures Fits(defs, ListFields(w)[..3], ROOT.properties[9..12])
  {
    TextsAreCanonical(defs, w.bullish);
    TextsAreCanonical(defs, w.bearish);
    TextsAreCanonical(defs, w.contradictions);
    var fs, ps := ThreeFit(defs, "bullish_evidence_refs", "bearish_evidence_refs", "contradiction_refs",
                           Texts(w.bullish), Texts(w.bearish), Texts(w.contradictions),
                           TEXTS, TEXTS, TEXTS);
    assert ListFields(w)[..3] == fs && ROOT.properties[9..12] == ps;
  }

  lemma RisksFit(defs: Definitions, w: Wire)
    ensures Fits(defs, ListFields(w)[3..6], ROOT.properties[12..15])
  {
    TextsAreCanonical(defs, w.keyRisks);
    TextsAreCanonical(defs, w.invalidations);
    TextsAreCanonical(defs, w.warnings);
    var fs, ps := ThreeFit(defs, "key_risk_refs", "invalidation_conditions", "data_quality_warnings",
                           Texts(w.keyRisks), Texts(w.invalidations), Texts(w.warnings),
                           TEXTS, TEXTS, TEXTS);
    assert ListFields(w)[3..6] == fs && ROOT.properties[12..15] == ps;
  }

  lemma TailFits(defs: Definitions, w: Wire)
    requires HasModels(defs)
    ensures Fits(defs, ListFields(w)[6..], ROOT.properties[15..18])
  {
    ScenariosAreCanonical(defs, w.scenarios);
    NumberIsCanonical(defs, w.confidence);
    TextIsCanonical(defs, w.summary);
    var fs, ps := ThreeFit(defs, "alternative_scenarios", "analysis_confidence", "executive_summary",
                           DumpScenarios(w.scenarios), Number(w.confidence), Text(w.summary),
                           SCENARIOS, NUMBER, PROSE);
    assert ListFields(w)[6..] == fs && ROOT.properties[15..18] == ps;
  }

  lemma ThreeParts(defs: Definitions, fs: seq<Field>, ps: seq<Property>, k: nat)
    requires |fs| == 9 && k + 9 <= |ps|
    requires Fits(defs, fs[..3], ps[k..k + 3]) && Fits(defs, fs[3..6], ps[k + 3..k + 6])
    requires Fits(defs, fs[6..], ps[k + 6..k + 9])
    ensures Fits(defs, fs, ps[k..k + 9])
  {
    FitsConcatenates(defs, fs[..3], fs[3..6], ps[k..k + 3], ps[k + 3..k + 6]);
    FitsConcatenates(defs, fs[..3] + fs[3..6], fs[6..], ps[k..k + 3] + ps[k + 3..k + 6], ps[k + 6..k + 9]);
    assert fs[..3] + fs[3..6] + fs[6..] == fs;
    assert ps[k..k + 3] + ps[k + 3..k + 6] + ps[k + 6..k + 9] == ps[k..k + 9];
  }

  lemma SectionsFit(defs: Definitions, w: Wire)
    requires HasModels(defs) && HasEnums(defs) && KnownLabels(w)
    ensures Fits(defs, SectionFields(w), ROOT.properties[..9])
  {
    HeadFits(defs, w);
    ContextFits(defs, w);
    SignalsFit(defs, w);
    ThreeParts(defs, SectionFields(w), ROOT.properties, 0);
  }

  lemma ListsFit(defs: Definitions, w: Wire)
    requires HasModels(defs)
    ensures Fits(defs, ListFields(w), ROOT.properties[9..])
  {
    EvidenceFits(defs, w);
    RisksFit(defs, w);
    TailFits(defs, w);
    ThreeParts(defs, ListFields(w), ROOT.properties, 9);
  }

  lemma SectionNamesDiffer()
    ensures DistinctKeys(ROOT.properties[..9])
  {}

  lemma ListNamesDiffer()
    ensures DistinctKeys(ROOT.properties[9..])
  {}

  lemma NoSectionIsAList()
    ensures forall i, j | 0 <= i < 9 <= j < 18 :: ROOT.properties[i].key != ROOT.properties[j].key
  {}

  lemma DistinctHalves(properties: seq<Property>, k: nat)
    requires k <= |properties| && DistinctKeys(properties[..k]) && DistinctKeys(properties[k..])
    requires forall i, j | 0 <= i < k <= j < |properties| :: properties[i].key != properties[j].key
    ensures DistinctKeys(properties)
  {
    forall i, j | 0 <= i < j < |properties| ensures properties[i].key != properties[j].key {
      if j < k {
        assert properties[..k][i] == properties[i] && properties[..k][j] == properties[j];
      } else if k <= i {
        assert properties[k..][i - k] == properties[i] && properties[k..][j - k] == properties[j];
      }
    }
  }

  lemma RootKeysDiffer()
    ensures DistinctKeys(ROOT.properties)
  {
    SectionNamesDiffer();
    ListNamesDiffer();
    NoSectionIsAList();
    DistinctHalves(ROOT.properties, 9);
  }

  lemma DumpIsCanonical(defs: Definitions, w: Wire)
    requires HasModels(defs) && HasEnums(defs) && KnownLabels(w)
    ensures Canonical(defs, Dump(w), ROOT)
  {
    SectionsFit(defs, w);
    ListsFit(defs, w);
    FitsConcatenates(defs, SectionFields(w), ListFields(w), ROOT.properties[..9], ROOT.properties[9..]);
    assert ROOT.properties[..9] + ROOT.properties[9..] == ROOT.properties;
    RootKeysDiffer();
    FittingObjectIsCanonical(defs, SectionFields(w) + ListFields(w), ROOT, ROOT.properties);
  }

  lemma RefResolves(name: string)
    requires name in DEFS
    ensures Resolve(DEFS, RefTo(name)) == DEFS[name]
  {
    assert (DEFS_PREFIX + name)[|DEFS_PREFIX|..] == name;
  }

  lemma MarketModelsResolve()
    ensures Resolve(DEFS, RefTo("CompactRegime")) == REGIME
    ensures Resolve(DEFS, RefTo("CompactHigherTimeframe")) == HIGHER_TIMEFRAME
    ensures Resolve(DEFS, RefTo("CompactStructure")) == STRUCTURE
    ensures Resolve(DEFS, RefTo("CompactLiquidity")) == LIQUIDITY
  {
    RefResolves("CompactRegime");
    RefResolves("CompactHigherTimeframe");
    RefResolves("CompactStructure");
    RefResolves("CompactLiquidity");
  }

  lemma SignalModelsResolve()
    ensures Resolve(DEFS, RefTo("CompactSupplyDemand")) == SUPPLY_DEMAND
    ensures Resolve(DEFS, RefTo("CompactMomentum")) == MOMENTUM
    ensures Resolve(DEFS, RefTo("CompactVolatility")) == VOLATILITY
    ensures Resolve(DEFS, RefTo("CompactScenario")) == SCENARIO
  {
    RefResolves("CompactSupplyDemand");
    RefResolves("CompactMomentum");
    RefResolves("CompactVolatility");
    RefResolves("CompactScenario");
  }

  lemma ContractHasModels()
    ensures HasModels(DEFS)
  {
    MarketModelsResolve();
    SignalModelsResolve();
  }

  lemma ContractHasEnums()
    ensures HasEnums(DEFS)
  {
    RefResolves("RegimeClassification");
    RefResolves("AnalysisBias");
    RefResolves("MomentumTrend");
    RefResolves("VolatilityState");
    RefResolves("VolatilityTrend");
  }

  /** The dump of every parsed output is canonical: the normaliser returns it with an empty change list. */
  lemma DumpIsAFixedPoint(w: Wire)
    requires KnownLabels(w)
    ensures Canonical(DEFS, Dump(w), ROOT)
    ensures Normalized(Dump(w)) == Visited(Dump(w), [])
  {
    ContractHasModels();
    ContractHasEnums();
    DumpIsCanonical(DEFS, w);
    CanonicalIsFixed(Dump(w));
  }

  lemma CanonicalIsFixed(v: Json)
    requires Canonical(DEFS, v, ROOT)
    ensures Normalized(v) == Visited(v, [])
  {
    CompactSchemaIsOk();
    QuietExactlyWhenCanonical(DEFS, v, ROOT, []);
    NormalizerIsIdempotent(DEFS, v, ROOT);
  }
}
