/** The wire schema of the compact analysis contract, and the normaliser's laws for it without any assumption. */
module CompactContract {
  import opened Domain
  import opened JsonSchemas
  import opened Normalizer
  import NormalizerMeaning

  const PLAIN_TEXT := EMPTY_SCHEMA.(kind := Some("string"))
  const NUMBER := EMPTY_SCHEMA.(kind := Some("number"))
  const PROSE := PLAIN_TEXT.(normalize := {JOIN})
  const TEXTS := EMPTY_SCHEMA.(kind := Some("array"), items := Some(PLAIN_TEXT), normalize := {WRAP})
  const TEXT_OR_NULL := EMPTY_SCHEMA.(anyOf := [PLAIN_TEXT, EMPTY_SCHEMA.(kind := Some("null"))])

  function RefTo(name: string): Schema {
    EMPTY_SCHEMA.(ref := Some(DEFS_PREFIX + name))
  }

  function ModelOf(properties: seq<Property>): Schema {
    EMPTY_SCHEMA.(kind := Some("object"), properties := properties)
  }

  function TextValues(labels: seq<string>): seq<Json> {
    seq(|labels|, i requires 0 <= i < |labels| => Text(labels[i]))
  }

  function EnumOf(name: string, labels: seq<string>): Schema {
    PLAIN_TEXT.(enumeration := Some(TextValues(labels)), title := Some(name))
  }

  const REGIMES := ["bullish", "bearish", "ranging", "transitional", "uncertain"]
  const BIASES := ["bullish", "bearish", "neutral", "mixed", "uncertain"]
  const MOMENTUM_TRENDS := ["strengthening", "weakening", "stable", "uncertain"]
  const VOLATILITY_STATES := ["low", "normal", "high", "extreme", "uncertain"]
  const VOLATILITY_TRENDS := ["expanding", "contracting", "stable", "uncertain"]

  const REGIME := ModelOf([
    Property("classification", RefTo("RegimeClassification")), Property("strength", NUMBER),
    Property("confidence", NUMBER), Property("evidence_refs", TEXTS)])
  const HIGHER_TIMEFRAME := ModelOf([
    Property("bias", RefTo("AnalysisBias")), Property("summary", PROSE), Property("evidence_refs", TEXTS)])
  const STRUCTURE := ModelOf([
    Property("short_term", PROSE), Property("medium_term", PROSE), Property("recent_change", PROSE),
    Property("evidence_refs", TEXTS)])
  const LIQUIDITY := ModelOf([
    Property("summary", PROSE), Property("events", TEXTS), Property("unresolved", TEXTS),
    Property("evidence_refs", TEXTS)])
  const SUPPLY_DEMAND := ModelOf([
    Property("summary", PROSE), Property("nearest_supply_ref", TEXT_OR_NULL),
    Property("nearest_demand_ref", TEXT_OR_NULL), Property("evidence_refs", TEXTS)])
  const MOMENTUM := ModelOf([
    Property("direction", RefTo("AnalysisBias")), Property("strength", NUMBER),
    Property("trend", RefTo("MomentumTrend")), Property("evidence_refs", TEXTS)])
  const VOLATILITY := ModelOf([
    Property("state", RefTo("VolatilityState")), Property("trend", RefTo("VolatilityTrend")),
    Property("evidence_refs", TEXTS)])
  const SCENARIO := ModelOf([
    Property("name", PROSE), Property("description", PROSE), Property("probability", NUMBER),
    Property("evidence_refs", TEXTS)])
  const SCENARIOS := EMPTY_SCHEMA.(kind := Some("array"), items := Some(RefTo("CompactScenario")))

  const ROOT := ModelOf([
    Property("analysis_schema_version", PLAIN_TEXT), Property("output_profile", PLAIN_TEXT),
    Property("market_regime", RefTo("CompactRegime")),
    Property("higher_timeframe_context", RefTo("CompactHigherTimeframe")),
    Property("market_structure", RefTo("CompactStructure")),
    Property("liquidity_analysis", RefTo("CompactLiquidity")),
    Property("supply_demand_analysis", RefTo("CompactSupplyDemand")),
    Property("momentum_analysis", RefTo("CompactMomentum")),
    Property("volatility_analysis", RefTo("CompactVolatility")),
    Property("bullish_evidence_refs", TEXTS), Property("bearish_evidence_refs", TEXTS),
    Property("contradiction_refs", TEXTS), Property("key_risk_refs", TEXTS),
    Property("invalidation_conditions", TEXTS), Property("data_quality_warnings", TEXTS),
    Property("alternative_scenarios", SCENARIOS), Property("analysis_confidence", NUMBER),
    Property("executive_summary", PROSE)])

  const DEFS: Definitions := map[
    "CompactRegime" := REGIME, "CompactHigherTimeframe" := HIGHER_TIMEFRAME, "CompactStructure" := STRUCTURE,
    "CompactLiquidity" := LIQUIDITY, "CompactSupplyDemand" := SUPPLY_DEMAND, "CompactMomentum" := MOMENTUM,
    "CompactVolatility" := VOLATILITY, "CompactScenario" := SCENARIO,
    "RegimeClassification" := EnumOf("RegimeClassification", REGIMES),
    "AnalysisBias" := EnumOf("AnalysisBias", BIASES),
    "MomentumTrend" := EnumOf("MomentumTrend", MOMENTUM_TRENDS),
    "VolatilityState" := EnumOf("VolatilityState", VOLATILITY_STATES),
    "VolatilityTrend" := EnumOf("VolatilityTrend", VOLATILITY_TRENDS)]

  // ---- the schema meets the normaliser's conditions ----

  lemma {:induction false} TextValuesAllAllowed(labels: seq<string>)
    ensures AllowedStrings(TextValues(labels)) == labels
  {
    if labels != [] {
      assert TextValues(labels)[1..] == TextValues(labels[1..]);
      TextValuesAllAllowed(labels[1..]);
    }
  }

  predicate PlainLabels(labels: seq<string>) {
    && (forall i | 0 <= i < |labels| :: forall c | c in labels[i] :: IsTokenChar(c))
    && (forall i, j | 0 <= i < j < |labels| :: labels[i] != labels[j])
  }

  lemma EnumIsOk(defs: Definitions, name: string, labels: seq<string>)
    requires PlainLabels(labels)
    ensures SchemaOk(defs, EnumOf(name, labels))
  {
    TextValuesAllAllowed(labels);
    forall i | 0 <= i < |labels| ensures EnumToken(labels[i]) == labels[i] { PlainTokensStay(labels[i]); }
  }

  /** The shapes a field of the contract can have. */
  predicate IsFieldShape(s: Schema) {
    || s in {PLAIN_TEXT, NUMBER, PROSE, TEXTS, TEXT_OR_NULL, SCENARIOS}
    || s == EMPTY_SCHEMA.(ref := s.ref)
  }

  predicate IsModelOf(s: Schema, properties: seq<Property>) {
    s == ModelOf(properties) && forall i | 0 <= i < |properties| :: IsFieldShape(properties[i].schema)
  }

  lemma ModelIsOk(defs: Definitions, s: Schema, properties: seq<Property>)
    requires IsModelOf(s, properties)
    ensures SchemaOk(defs, s)
  {}

  lemma MarketModelsAreOk(defs: Definitions)
    ensures SchemaOk(defs, REGIME) && SchemaOk(defs, HIGHER_TIMEFRAME) && SchemaOk(defs, STRUCTURE)
    ensures SchemaOk(defs, LIQUIDITY)
  {
    ModelIsOk(defs, REGIME, REGIME.properties);
    ModelIsOk(defs, HIGHER_TIMEFRAME, HIGHER_TIMEFRAME.properties);
    ModelIsOk(defs, STRUCTURE, STRUCTURE.properties);
    ModelIsOk(defs, LIQUIDITY, LIQUIDITY.properties);
  }

  lemma SignalModelsAreOk(defs: Definitions)
    ensures SchemaOk(defs, SUPPLY_DEMAND) && SchemaOk(defs, MOMENTUM) && SchemaOk(defs, VOLATILITY)
    ensures SchemaOk(defs, SCENARIO)
  {
    ModelIsOk(defs, SUPPLY_DEMAND, SUPPLY_DEMAND.properties);
    ModelIsOk(defs, MOMENTUM, MOMENTUM.properties);
    ModelIsOk(defs, VOLATILITY, VOLATILITY.properties);
    ModelIsOk(defs, SCENARIO, SCENARIO.properties);
  }

  lemma RegimesArePlain()
    ensures PlainLabels(REGIMES)
  {}

  lemma BiasesArePlain()
    ensures PlainLabels(BIASES)
  {}

  lemma MomentumTrendsArePlain()
    ensures PlainLabels(MOMENTUM_TRENDS)
  {}

  lemma VolatilityStatesArePlain()
    ensures PlainLabels(VOLATILITY_STATES)
  {}

  lemma VolatilityTrendsArePlain()
    ensures PlainLabels(VOLATILITY_TRENDS)
  {}

  lemma EnumsAreOk(defs: Definitions)
    ensures SchemaOk(defs, EnumOf("RegimeClassification", REGIMES))
    ensures SchemaOk(defs, EnumOf("AnalysisBias", BIASES))
    ensures SchemaOk(defs, EnumOf("MomentumTrend", MOMENTUM_TRENDS))
    ensures SchemaOk(defs, EnumOf("VolatilityState", VOLATILITY_STATES))
    ensures SchemaOk(defs, EnumOf("VolatilityTrend", VOLATILITY_TRENDS))
  {
    EnumIsOk(defs, "RegimeClassification", REGIMES) by { RegimesArePlain(); }
    EnumIsOk(defs, "AnalysisBias", BIASES) by { BiasesArePlain(); }
    EnumIsOk(defs, "MomentumTrend", MOMENTUM_TRENDS) by { MomentumTrendsArePlain(); }
    EnumIsOk(defs, "VolatilityState", VOLATILITY_STATES) by { VolatilityStatesArePlain(); }
    EnumIsOk(defs, "VolatilityTrend", VOLATILITY_TRENDS) by { VolatilityTrendsArePlain(); }
  }

  predicate IsDefinition(s: Schema) {
    || s in {REGIME, HIGHER_TIMEFRAME, STRUCTURE, LIQUIDITY, SUPPLY_DEMAND, MOMENTUM, VOLATILITY, SCENARIO}
    || s == EnumOf("RegimeClassification", REGIMES) || s == EnumOf("AnalysisBias", BIASES)
    || s == EnumOf("MomentumTrend", MOMENTUM_TRENDS) || s == EnumOf("VolatilityState", VOLATILITY_STATES)
    || s == EnumOf("VolatilityTrend", VOLATILITY_TRENDS)
  }

  lemma DefinitionIsOk(defs: Definitions, s: Schema)
    requires IsDefinition(s)
    ensures SchemaOk(defs, s)
  {
    MarketModelsAreOk(defs);
    SignalModelsAreOk(defs);
    EnumsAreOk(defs);
  }

  lemma EveryNameIsDefined()
    ensures forall name | name in DEFS :: IsDefinition(DEFS[name])
  {}

  /** The contract's schema meets every condition the normaliser's laws are stated under. */
  lemma CompactSchemaIsOk()
    ensures SchemasOk(DEFS, ROOT)
  {
    EveryNameIsDefined();
    forall name | name in DEFS ensures SchemaOk(DEFS, DEFS[name]) { DefinitionIsOk(DEFS, DEFS[name]); }
    ModelIsOk(DEFS, ROOT, ROOT.properties);
  }

  // ---- main result ----

  ghost function Normalized(raw: Json): Visited {
    CompactSchemaIsOk();
    Visit(DEFS, raw, ROOT, [])
  }

  /** For every JSON value a provider can send: nothing is lost, a second pass is the identity with an empty change
    * list, and the change list of the first pass is empty exactly when nothing changed. */
  lemma CompactNormalizationSettles(raw: Json)
    ensures NormalizerMeaning.Lossless(raw, Normalized(raw).value)
    ensures Normalized(Normalized(raw).value) == Visited(Normalized(raw).value, [])
    ensures Normalized(raw).changes == [] <==> Normalized(raw).value == raw
  {
    CompactSchemaIsOk();
    NormalizerMeaning.NormalizerIsIdempotent(DEFS, raw, ROOT);
    NormalizerMeaning.NormalizationIsLossless(DEFS, raw, ROOT, []);
  }

  method NormalizeCompactOutputShapes(raw: Json) returns (value: Json, changes: seq<Change>)
    ensures Visited(value, changes) == Normalized(raw)
  {
    CompactSchemaIsOk();
    value, changes := NormalizeShapes(DEFS, ROOT, raw);
  }
}
