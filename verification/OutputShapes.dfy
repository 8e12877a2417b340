/** Which fields of the contract take which container variants, by name, and what becomes of their values in a whole
  * output. */
module OutputShapes {
  import opened Domain
  import opened JsonSchemas
  import opened Normalizer
  import opened CompactContract
  import opened EnumLabels
  import WireRoundTrip

  // ---- what the two normalised shapes do ----

  lemma ShapesAreOk()
    ensures SchemasOk(DEFS, PROSE) && SchemasOk(DEFS, TEXTS) && SchemasOk(DEFS, PLAIN_TEXT)
  {
    CompactSchemaIsOk();
    ModelIsOk(DEFS, ROOT, ROOT.properties);
  }

  predicate ListOfTexts(v: Json) {
    v.List? && v.items != [] && forall item | item in v.items :: NonBlankText(item)
  }

  /** A prose field: a non-empty list of non-blank texts is joined and recorded so, anything else stays as it is. */
  lemma ProseIsRead(v: Json, path: seq<PathStep>)
    ensures SchemasOk(DEFS, PROSE)
    ensures Visit(DEFS, v, PROSE, path) ==
      if ListOfTexts(v) then
        var text := Text(Joined(v.items));
        Visited(text, [Change(path, "non_empty_string_list_to_string", v, text)])
      else Visited(v, [])
  {
    ShapesAreOk();
    assert Governing(DEFS, PROSE, v) == PROSE && AtNode(path, v, PROSE) == Visited(v, []);
    assert Joins(PROSE, v) <==> ListOfTexts(v);
    if ListOfTexts(v) {
      VisitOfJoined(DEFS, v, PROSE, path);
    } else {
      VisitOfLeaf(DEFS, v, PROSE, path);
    }
  }

  lemma PlainTextStays(v: Json, path: seq<PathStep>)
    ensures SchemasOk(DEFS, PLAIN_TEXT) && Visit(DEFS, v, PLAIN_TEXT, path) == Visited(v, [])
  {
    ShapesAreOk();
    assert Governing(DEFS, PLAIN_TEXT, v) == PLAIN_TEXT && AtNode(path, v, PLAIN_TEXT) == Visited(v, []);
    VisitOfLeaf(DEFS, v, PLAIN_TEXT, path);
  }

  lemma {:induction false} PlainItemsStay(items: seq<Json>, path: seq<PathStep>, index: nat)
    ensures SchemasOk(DEFS, PLAIN_TEXT) && VisitItems(DEFS, items, PLAIN_TEXT, path, index) == (items, [])
    decreases |items|
  {
    ShapesAreOk();
    if items != [] {
      PlainTextStays(items[0], path + [Index(index)]);
      PlainItemsStay(items[1..], path, index + 1);
      VisitOfItems(DEFS, items[0], items[1..], PLAIN_TEXT, path, index);
      assert items == [items[0]] + items[1..];
      var none: seq<Change> := [];
      assert none + none == none;
    }
  }

  /** A list of texts: a single non-blank text is wrapped and recorded so, anything else stays as it is. */
  lemma ListIsRead(v: Json, path: seq<PathStep>)
    ensures SchemasOk(DEFS, TEXTS)
    ensures Visit(DEFS, v, TEXTS, path) ==
      if NonBlankText(v) then
        var list := List([Text(Strip(v.text))]);
        Visited(list, [Change(path, "non_empty_string_to_string_list", v, list)])
      else Visited(v, [])
  {
    ShapesAreOk();
    assert Governing(DEFS, TEXTS, v) == TEXTS && AtNode(path, v, TEXTS) == Visited(v, []);
    assert ItemSchema(TEXTS) == PLAIN_TEXT && Resolve(DEFS, PLAIN_TEXT) == PLAIN_TEXT;
    if NonBlankText(v) {
      VisitOfWrap(DEFS, v, TEXTS, path);
      PlainTextStays(Text(Strip(v.text)), path + [Index(0)]);
    } else if v.List? {
      PlainItemsStay(v.items, path, 0);
      assert !Joins(TEXTS, v);
    } else {
      VisitOfLeaf(DEFS, v, TEXTS, path);
    }
  }

  // ---- the fields by name ----

  /** The fields of a section that hold prose, and those that hold a list of texts. */
  predicate ProseIn(section: string, key: string) {
    || (section == "higher_timeframe_context" && key == "summary")
    || (section == "market_structure" && (key == "short_term" || key == "medium_term" || key == "recent_change"))
    || (section == "liquidity_analysis" && key == "summary")
    || (section == "supply_demand_analysis" && key == "summary")
  }

  predicate ListIn(section: string, key: string) {
    key == "evidence_refs" || (section == "liquidity_analysis" && (key == "events" || key == "unresolved"))
  }

  predicate IsSection(section: string) {
    || section == "market_regime" || section == "higher_timeframe_context" || section == "market_structure"
    || section == "liquidity_analysis" || section == "supply_demand_analysis" || section == "momentum_analysis"
    || section == "volatility_analysis"
  }

  function Model(section: string): Schema
    requires IsSection(section)
  {
    if section == "market_regime" then REGIME
    else if section == "higher_timeframe_context" then HIGHER_TIMEFRAME
    else if section == "market_structure" then STRUCTURE
    else if section == "liquidity_analysis" then LIQUIDITY
    else if section == "supply_demand_analysis" then SUPPLY_DEMAND
    else if section == "momentum_analysis" then MOMENTUM
    else VOLATILITY
  }

  lemma SchemaOfCons(p: Property, rest: seq<Property>, key: string)
    ensures PropertySchema([p] + rest, key) == if key == p.key then p.schema else PropertySchema(rest, key)
  {}

  lemma SchemaOfThree(p0: Property, p1: Property, p2: Property, key: string)
    ensures PropertySchema([p0, p1, p2], key) ==
      if key == p0.key then p0.schema else if key == p1.key then p1.schema else if key == p2.key then p2.schema
      else EMPTY_SCHEMA
  {
    assert [p0, p1, p2] == [p0] + ([p1] + ([p2] + []));
    SchemaOfCons(p0, [p1] + ([p2] + []), key);
    SchemaOfCons(p1, [p2] + [], key);
    SchemaOfCons(p2, [], key);
  }

  lemma SchemaOfFour(p0: Property, p1: Property, p2: Property, p3: Property, key: string)
    ensures PropertySchema([p0, p1, p2, p3], key) ==
      if key == p0.key then p0.schema else if key == p1.key then p1.schema else if key == p2.key then p2.schema
      else if key == p3.key then p3.schema else EMPTY_SCHEMA
  {
    assert [p0, p1, p2, p3] == [p0] + [p1, p2, p3];
    SchemaOfCons(p0, [p1, p2, p3], key);
    SchemaOfThree(p1, p2, p3, key);
  }

  /** The shape is prose, a list of texts, or nothing that is normalised. */
  predicate Shaped(s: Schema, prose: bool, list: bool) {
    if prose then s == PROSE else if list then s == TEXTS else s.normalize == {}
  }

  lemma RegimeShapes(key: string)
    ensures Shaped(PropertySchema(REGIME.properties, key), false, key == "evidence_refs")
  {
    var p := REGIME.properties;
    SchemaOfFour(p[0], p[1], p[2], p[3], key);
    assert p == [p[0], p[1], p[2], p[3]];
  }

  lemma HigherShapes(key: string)
    ensures Shaped(PropertySchema(HIGHER_TIMEFRAME.properties, key), key == "summary", key == "evidence_refs")
  {
    var p := HIGHER_TIMEFRAME.properties;
    SchemaOfThree(p[0], p[1], p[2], key);
    assert p == [p[0], p[1], p[2]];
  }

  lemma StructureShapes(key: string)
    ensures Shaped(PropertySchema(STRUCTURE.properties, key),
                   key == "short_term" || key == "medium_term" || key == "recent_change", key == "evidence_refs")
  {
    var p := STRUCTURE.properties;
    SchemaOfFour(p[0], p[1], p[2], p[3], key);
    assert p == [p[0], p[1], p[2], p[3]];
  }

  lemma LiquidityShapes(key: string)
    ensures Shaped(PropertySchema(LIQUIDITY.properties, key), key == "summary",
                   key == "events" || key == "unresolved" || key == "evidence_refs")
  {
    var p := LIQUIDITY.properties;
    SchemaOfFour(p[0], p[1], p[2], p[3], key);
    assert p == [p[0], p[1], p[2], p[3]];
  }

  lemma ZoneShapes(key: string)
    ensures Shaped(PropertySchema(SUPPLY_DEMAND.properties, key), key == "summary", key == "evidence_refs")
  {
    var p := SUPPLY_DEMAND.properties;
    SchemaOfFour(p[0], p[1], p[2], p[3], key);
    assert p == [p[0], p[1], p[2], p[3]];
  }

  lemma MomentumShapes(key: string)
    ensures Shaped(PropertySchema(MOMENTUM.properties, key), false, key == "evidence_refs")
  {
    var p := MOMENTUM.properties;
    SchemaOfFour(p[0], p[1], p[2], p[3], key);
    assert p == [p[0], p[1], p[2], p[3]];
  }

  lemma VolatilityShapes(key: string)
    ensures Shaped(PropertySchema(VOLATILITY.properties, key), false, key == "evidence_refs")
  {
    var p := VOLATILITY.properties;
    SchemaOfThree(p[0], p[1], p[2], key);
    assert p == [p[0], p[1], p[2]];
  }

  lemma ScenarioShapes(key: string)
    ensures Shaped(PropertySchema(SCENARIO.properties, key), key == "name" || key == "description",
                   key == "evidence_refs")
  {
    var p := SCENARIO.properties;
    SchemaOfFour(p[0], p[1], p[2], p[3], key);
    assert p == [p[0], p[1], p[2], p[3]];
  }

  /** In every section exactly the named fields take the variants. */
  lemma SectionShapes(section: string, key: string)
    requires IsSection(section)
    ensures Shaped(PropertySchema(Model(section).properties, key), ProseIn(section, key), ListIn(section, key))
  {
    RegimeShapes(key);
    HigherShapes(key);
    StructureShapes(key);
    LiquidityShapes(key);
    ZoneShapes(key);
    MomentumShapes(key);
    VolatilityShapes(key);
  }

  // ---- in a whole output ----

  /** The field at position i is the section, and its field at position j holds the value under the key. */
  predicate HasAt(v: Json, i: nat, section: string, j: nat, key: string, value: Json) {
    && v.Object? && i < |v.fields| && v.fields[i].key == section && v.fields[i].value.Object?
    && j < |v.fields[i].value.fields| && v.fields[i].value.fields[j] == Field(key, value)
  }

  lemma PositionOf(k: nat, section: string, name: string)
    requires k < |ROOT.properties| && ROOT.properties[k] == Property(section, RefTo(name))
    ensures PropertySchema(ROOT.properties, section) == RefTo(name)
  {
    WireRoundTrip.RootKeysDiffer();
    PropertyIsFound(ROOT.properties, k);
  }

  lemma RootSections()
    ensures |ROOT.properties| == 18
    ensures ROOT.properties[2] == Property("market_regime", RefTo("CompactRegime"))
    ensures ROOT.properties[3] == Property("higher_timeframe_context", RefTo("CompactHigherTimeframe"))
    ensures ROOT.properties[4] == Property("market_structure", RefTo("CompactStructure"))
    ensures ROOT.properties[5] == Property("liquidity_analysis", RefTo("CompactLiquidity"))
    ensures ROOT.properties[6] == Property("supply_demand_analysis", RefTo("CompactSupplyDemand"))
    ensures ROOT.properties[7] == Property("momentum_analysis", RefTo("CompactMomentum"))
    ensures ROOT.properties[8] == Property("volatility_analysis", RefTo("CompactVolatility"))
  {}

  lemma FirstSectionIsFound(section: string) returns (name: string)
    requires section in ["market_regime", "higher_timeframe_context", "market_structure"]
    ensures IsSection(section)
    ensures PropertySchema(ROOT.properties, section) == RefTo(name) && Resolve(DEFS, RefTo(name)) == Model(section)
  {
    WireRoundTrip.ContractHasModels();
    RootSections();
    if section == "market_regime" {
      name := "CompactRegime";
      PositionOf(2, section, name);
    } else if section == "higher_timeframe_context" {
      name := "CompactHigherTimeframe";
      PositionOf(3, section, name);
    } else {
      name := "CompactStructure";
      PositionOf(4, section, name);
    }
  }

  lemma LastSectionIsFound(section: string) returns (name: string)
    requires section in ["liquidity_analysis", "supply_demand_analysis", "momentum_analysis", "volatility_analysis"]
    ensures IsSection(section)
    ensures PropertySchema(ROOT.properties, section) == RefTo(name) && Resolve(DEFS, RefTo(name)) == Model(section)
  {
    WireRoundTrip.ContractHasModels();
    RootSections();
    if section == "liquidity_analysis" {
      name := "CompactLiquidity";
      PositionOf(5, section, name);
    } else if section == "supply_demand_analysis" {
      name := "CompactSupplyDemand";
      PositionOf(6, section, name);
    } else if section == "momentum_analysis" {
      name := "CompactMomentum";
      PositionOf(7, section, name);
    } else {
      name := "CompactVolatility";
      PositionOf(8, section, name);
    }
  }

  lemma SectionIsFound(section: string) returns (name: string)
    requires IsSection(section)
    ensures PropertySchema(ROOT.properties, section) == RefTo(name) && Resolve(DEFS, RefTo(name)) == Model(section)
  {
    if section in ["market_regime", "higher_timeframe_context", "market_structure"] {
      name := FirstSectionIsFound(section);
    } else {
      name := LastSectionIsFound(section);
    }
  }

  lemma SectionIsOk(section: string, name: string)
    requires IsSection(section) && PropertySchema(ROOT.properties, section) == RefTo(name)
    requires Resolve(DEFS, RefTo(name)) == Model(section)
    ensures SchemasOk(DEFS, ROOT) && SchemasOk(DEFS, RefTo(name)) && SchemasOk(DEFS, Model(section))
    ensures Model(section) == ModelOf(Model(section).properties)
  {
    CompactSchemaIsOk();
    PropertyIsOk(DEFS, ROOT.properties, section);
    MarketModelsAreOk(DEFS);
    SignalModelsAreOk(DEFS);
  }

  /** Two levels of objects, in general: the inner value is visited at its field's schema, where it stands. */
  lemma InnerFieldIsVisited(fields: seq<Field>, outer: Schema, i: nat, j: nat, inner: Schema)
    requires SchemasOk(DEFS, outer) && outer == ModelOf(outer.properties) && i < |fields| && fields[i].value.Object?
    requires var s := PropertySchema(outer.properties, fields[i].key); SchemasOk(DEFS, s) && Resolve(DEFS, s) == inner
    requires SchemasOk(DEFS, inner) && inner == ModelOf(inner.properties) && j < |fields[i].value.fields|
    requires SchemasOk(DEFS, PropertySchema(inner.properties, fields[i].value.fields[j].key))
    ensures var f := fields[i].value.fields[j]; var out := VisitFields(DEFS, fields, outer, []).0;
      && i < |out| && out[i].key == fields[i].key && out[i].value.Object? && j < |out[i].value.fields|
      && out[i].value.fields[j] == Field(f.key, Visit(DEFS, f.value, PropertySchema(inner.properties, f.key),
                                                      [Key(fields[i].key), Key(f.key)]).value)
  {
    var path := [Key(fields[i].key)];
    FieldIsVisitedInPlace(DEFS, fields, outer, [], i);
    assert [] + path == path && path + [Key(fields[i].value.fields[j].key)]
        == [Key(fields[i].key), Key(fields[i].value.fields[j].key)];
    var section := fields[i].value;
    ObjectIsVisited(DEFS, section.fields, PropertySchema(outer.properties, fields[i].key), inner.properties, path);
    FieldIsVisitedInPlace(DEFS, section.fields, inner, path, j);
  }

  /** A value inside a section is visited at its field's own schema, where it stands. */
  lemma SectionFieldIsVisited(raw: Json, i: nat, section: string, j: nat, key: string, value: Json)
    requires IsSection(section) && HasAt(raw, i, section, j, key, value)
    ensures SchemasOk(DEFS, PropertySchema(Model(section).properties, key))
    ensures HasAt(Normalized(raw).value, i, section, j, key,
                  Visit(DEFS, value, PropertySchema(Model(section).properties, key), [Key(section), Key(key)]).value)
  {
    var name := SectionIsFound(section);
    SectionIsOk(section, name);
    PropertyIsOk(DEFS, Model(section).properties, key);
    RootIsVisited(raw);
    InnerFieldIsVisited(raw.fields, ROOT, i, j, Model(section));
  }

  lemma RootIsVisited(raw: Json)
    requires raw.Object?
    ensures SchemasOk(DEFS, ROOT) && ROOT == ModelOf(ROOT.properties)
    ensures Normalized(raw).value == Object(VisitFields(DEFS, raw.fields, ROOT, []).0)
  {
    CompactSchemaIsOk();
    ObjectIsVisited(DEFS, raw.fields, ROOT, ROOT.properties, []);
  }

  /** In every output: each prose field of a section that holds a list of texts is joined where it stands, and every other
    * value of such a field stays. */
  lemma ProseOfSectionIsJoined(raw: Json, i: nat, section: string, j: nat, key: string, value: Json)
    requires IsSection(section) && ProseIn(section, key) && HasAt(raw, i, section, j, key, value)
    ensures HasAt(Normalized(raw).value, i, section, j, key,
                  if ListOfTexts(value) then Text(Joined(value.items)) else value)
  {
    SectionFieldIsVisited(raw, i, section, j, key, value);
    SectionShapes(section, key);
    ProseIsRead(value, [Key(section), Key(key)]);
  }

  /** And each list field that holds a single text is wrapped. */
  lemma ListOfSectionIsWrapped(raw: Json, i: nat, section: string, j: nat, key: string, value: Json)
    requires IsSection(section) && ListIn(section, key) && HasAt(raw, i, section, j, key, value)
    ensures HasAt(Normalized(raw).value, i, section, j, key,
                  if NonBlankText(value) then List([Text(Strip(value.text))]) else value)
  {
    SectionFieldIsVisited(raw, i, section, j, key, value);
    SectionShapes(section, key);
    ListIsRead(value, [Key(section), Key(key)]);
  }

  // ---- the fields of the output itself ----

  predicate RootList(key: string) {
    || key == "bullish_evidence_refs" || key == "bearish_evidence_refs" || key == "contradiction_refs"
    || key == "key_risk_refs" || key == "invalidation_conditions" || key == "data_quality_warnings"
  }

  lemma RootShapes()
    ensures PropertySchema(ROOT.properties, "executive_summary") == PROSE
    ensures forall key | RootList(key) :: PropertySchema(ROOT.properties, key) == TEXTS
  {
    WireRoundTrip.RootKeysDiffer();
    PropertyIsFound(ROOT.properties, 9);
    PropertyIsFound(ROOT.properties, 10);
    PropertyIsFound(ROOT.properties, 11);
    PropertyIsFound(ROOT.properties, 12);
    PropertyIsFound(ROOT.properties, 13);
    PropertyIsFound(ROOT.properties, 14);
    PropertyIsFound(ROOT.properties, 17);
  }

  /** The same for the summary and the six lists of the output itself. */
  lemma RootFieldIsRead(raw: Json, i: nat)
    requires raw.Object? && i < |raw.fields|
    requires raw.fields[i].key == "executive_summary" || RootList(raw.fields[i].key)
    ensures var out := Normalized(raw).value; var value := raw.fields[i].value;
      && out.Object? && |out.fields| == |raw.fields| && out.fields[i].key == raw.fields[i].key
      && out.fields[i].value ==
           if raw.fields[i].key == "executive_summary" then
             if ListOfTexts(value) then Text(Joined(value.items)) else value
           else if NonBlankText(value) then List([Text(Strip(value.text))]) else value
  {
    var key := raw.fields[i].key;
    CompactSchemaIsOk();
    RootShapes();
    PropertyIsOk(DEFS, ROOT.properties, key);
    ObjectIsVisited(DEFS, raw.fields, ROOT, ROOT.properties, []);
    FieldIsVisitedInPlace(DEFS, raw.fields, ROOT, [], i);
    if key == "executive_summary" { ProseIsRead(raw.fields[i].value, [] + [Key(key)]); }
    else { ListIsRead(raw.fields[i].value, [] + [Key(key)]); }
  }

  // ---- the other enums ----

  function Labelled(text: string, labels: seq<string>): string {
    if EnumToken(text) in labels then EnumToken(text) else text
  }

  // Which texts become a label of the other enums: exactly those with its letters, whatever their case and signs.

  lemma BiasTextsAnswer(text: string, path: seq<PathStep>)
    ensures SchemasOk(DEFS, RefTo("AnalysisBias"))
    ensures Visit(DEFS, Text(text), RefTo("AnalysisBias"), path).value
         == Text(Labelled(text, ["bullish", "bearish", "neutral", "mixed", "uncertain"]))
  {
    CompactSchemaIsOk();
    WireRoundTrip.ContractHasEnums();
    BiasesArePlain();
    LabelTextsAnswer("AnalysisBias", BIASES, text, path);
  }

  lemma MomentumTextsAnswer(text: string, path: seq<PathStep>)
    ensures SchemasOk(DEFS, RefTo("MomentumTrend"))
    ensures Visit(DEFS, Text(text), RefTo("MomentumTrend"), path).value
         == Text(Labelled(text, ["strengthening", "weakening", "stable", "uncertain"]))
  {
    CompactSchemaIsOk();
    WireRoundTrip.ContractHasEnums();
    MomentumTrendsArePlain();
    LabelTextsAnswer("MomentumTrend", MOMENTUM_TRENDS, text, path);
  }

  lemma VolatilityTextsAnswer(text: string, path: seq<PathStep>)
    ensures SchemasOk(DEFS, RefTo("VolatilityState"))
    ensures Visit(DEFS, Text(text), RefTo("VolatilityState"), path).value
         == Text(Labelled(text, ["low", "normal", "high", "extreme", "uncertain"]))
  {
    CompactSchemaIsOk();
    WireRoundTrip.ContractHasEnums();
    VolatilityStatesArePlain();
    LabelTextsAnswer("VolatilityState", VOLATILITY_STATES, text, path);
  }

  lemma VolatilityTrendTextsAnswer(text: string, path: seq<PathStep>)
    ensures SchemasOk(DEFS, RefTo("VolatilityTrend"))
    ensures Visit(DEFS, Text(text), RefTo("VolatilityTrend"), path).value
         == Text(Labelled(text, ["expanding", "contracting", "stable", "uncertain"]))
  {
    CompactSchemaIsOk();
    WireRoundTrip.ContractHasEnums();
    VolatilityTrendsArePlain();
    LabelTextsAnswer("VolatilityTrend", VOLATILITY_TRENDS, text, path);
  }

  /** Which fields are labelled by which enum. */
  lemma EnumFields()
    ensures PropertySchema(REGIME.properties, "classification") == RefTo("RegimeClassification")
    ensures PropertySchema(HIGHER_TIMEFRAME.properties, "bias") == RefTo("AnalysisBias")
    ensures PropertySchema(MOMENTUM.properties, "direction") == RefTo("AnalysisBias")
    ensures PropertySchema(MOMENTUM.properties, "trend") == RefTo("MomentumTrend")
    ensures PropertySchema(VOLATILITY.properties, "state") == RefTo("VolatilityState")
    ensures PropertySchema(VOLATILITY.properties, "trend") == RefTo("VolatilityTrend")
  {
    WireRoundTrip.SectionKeysDiffer();
    WireRoundTrip.OtherKeysDiffer();
    PropertyIsFound(REGIME.properties, 0);
    PropertyIsFound(HIGHER_TIMEFRAME.properties, 0);
    PropertyIsFound(MOMENTUM.properties, 0);
    PropertyIsFound(MOMENTUM.properties, 2);
    PropertyIsFound(VOLATILITY.properties, 0);
    PropertyIsFound(VOLATILITY.properties, 1);
  }
}
