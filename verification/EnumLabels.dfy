/** What the normaliser makes of enum texts, label by label and without reference to its alias table. */
module EnumLabels {
  import opened Domain
  import opened JsonSchemas
  import opened Normalizer
  import opened CompactContract
  import opened NormalizerLaws
  import opened RegimeTokens
  import WireRoundTrip

  // ---- the regime labels ----

  lemma LabelsAreTheirTokens(labels: seq<string>)
    requires PlainLabels(labels)
    ensures DistinctTokens(labels) && forall l | l in labels :: EnumToken(l) == l
  {
    forall i | 0 <= i < |labels| ensures EnumToken(labels[i]) == labels[i] { PlainTokensStay(labels[i]); }
  }

  /** The label a text is replaced by, for labels that are their own tokens. */
  lemma LabelByToken(text: string, labels: seq<string>, regime: bool)
    requires PlainLabels(labels)
    ensures var token := EnumToken(text);
      CanonicalLabel(text, labels, regime) ==
        if token in labels then (if token == text then None else Some((token, "enum_format_to_canonical")))
        else if !regime || AliasFor(REGIME_ALIASES, token).None? || AliasFor(REGIME_ALIASES, token).value !in labels then
          None
        else Some((AliasFor(REGIME_ALIASES, token).value, "enum_alias_to_canonical"))
  {
    var token := EnumToken(text);
    LabelsAreTheirTokens(labels);
    if token in labels {
      OneLabelPerToken(labels, token);
    } else {
      NoLabelWithToken(labels, token);
    }
  }

  lemma RegimesByHead()
    ensures REGIMES == [BULLISH[0], BEARISH[0], RANGING[0], TRANSITIONAL[0], UNCERTAIN[0]]
    ensures BULLISH[0] == "bullish" && BEARISH[0] == "bearish" && RANGING[0] == "ranging"
    ensures TRANSITIONAL[0] == "transitional" && UNCERTAIN[0] == "uncertain"
  {}

  lemma HeadOrTail(tokens: seq<string>, token: string)
    requires tokens != []
    ensures token in tokens <==> token == tokens[0] || token in tokens[1..]
  {
    assert tokens == [tokens[0]] + tokens[1..];
  }

  lemma RegimeOfTrends()
    ensures RegimeOf("bullish") == Some("bullish") && RegimeOf("bearish") == Some("bearish")
    ensures RegimeOf("ranging") == Some("ranging")
  {}

  lemma RegimeOfRest()
    ensures RegimeOf("transitional") == Some("transitional") && RegimeOf("uncertain") == Some("uncertain")
  {}

  lemma RegimeOfAliases(token: string)
    requires token !in REGIMES
    ensures RegimeOf(token) == AliasOf(token) && (AliasOf(token).Some? ==> AliasOf(token).value in REGIMES)
  {
    RegimesByHead();
    HeadOrTail(BULLISH, token);
    HeadOrTail(BEARISH, token);
    HeadOrTail(RANGING, token);
    HeadOrTail(TRANSITIONAL, token);
    HeadOrTail(UNCERTAIN, token);
  }

  lemma RegimeOfLabel(token: string)
    requires token in REGIMES
    ensures RegimeOf(token) == Some(token)
  {
    RegimesByHead();
    RegimeOfTrends();
    RegimeOfRest();
  }

  lemma RegimeIsRead(text: string)
    ensures var token := EnumToken(text); var given := CanonicalLabel(text, REGIMES, true);
      match RegimeOf(token)
      case None => given.None?
      case Some(regime) =>
        if text == regime then given.None?
        else given == Some((regime, if token in REGIMES then "enum_format_to_canonical" else "enum_alias_to_canonical"))
  {
    var token := EnumToken(text);
    RegimesArePlain();
    LabelByToken(text, REGIMES, true);
    if token in REGIMES {
      RegimeOfLabel(token);
    } else {
      AliasTable(token);
      RegimeOfAliases(token);
      LabelsAreTheirTokens(REGIMES);
    }
  }

  // ---- which texts each label answers to ----

  predicate Apart(a: seq<string>, b: seq<string>) {
    forall x | x in a :: x !in b
  }

  lemma BullishHasU()
    ensures forall t | t in BULLISH :: 'u' in t
  {}

  lemma BearishHasNoU()
    ensures forall t | t in BEARISH :: 'u' !in t
  {}

  lemma RangingIsApart()
    ensures Apart(RANGING, BULLISH) && Apart(RANGING, BEARISH)
  {}

  lemma TransitionalIsApart()
    ensures Apart(TRANSITIONAL, BULLISH) && Apart(TRANSITIONAL, BEARISH) && Apart(TRANSITIONAL, RANGING)
  {}

  lemma UncertainIsApart()
    ensures Apart(UNCERTAIN, BULLISH) && Apart(UNCERTAIN, BEARISH) && Apart(UNCERTAIN, RANGING)
    ensures Apart(UNCERTAIN, TRANSITIONAL)
  {}

  /** What the normaliser puts in the place of a regime text. */
  ghost function ReadAsRegime(text: string): Visited {
    CompactSchemaIsOk();
    Visit(DEFS, Text(text), RefTo("RegimeClassification"), [])
  }

  lemma EnumNodeOf(name: string, labels: seq<string>, text: string)
    requires Resolve(DEFS, RefTo(name)) == EnumOf(name, labels)
    ensures Governing(DEFS, RefTo(name), Text(text)) == EnumOf(name, labels)
  {}

  /** A text at an enum node: the label that `CanonicalLabel` gives, recorded, or the text as it is. */
  lemma EnumTextIsVisited(name: string, labels: seq<string>, text: string, path: seq<PathStep>)
    requires SchemasOk(DEFS, RefTo(name)) && Resolve(DEFS, RefTo(name)) == EnumOf(name, labels)
    ensures var given := CanonicalLabel(text, labels, name == "RegimeClassification");
      Visit(DEFS, Text(text), RefTo(name), path) ==
        if given.None? then Visited(Text(text), [])
        else Visited(Text(given.value.0), [Change(path, given.value.1, Text(text), Text(given.value.0))])
  {
    EnumNodeOf(name, labels, text);
    TextValuesAllAllowed(labels);
    VisitOfLeaf(DEFS, Text(text), RefTo(name), path);
  }

  lemma RegimeTextIsVisited(text: string, path: seq<PathStep>)
    ensures SchemasOk(DEFS, RefTo("RegimeClassification"))
    ensures var given := CanonicalLabel(text, REGIMES, true);
      Visit(DEFS, Text(text), RefTo("RegimeClassification"), path) ==
        if given.None? then Visited(Text(text), [])
        else Visited(Text(given.value.0), [Change(path, given.value.1, Text(text), Text(given.value.0))])
  {
    CompactSchemaIsOk();
    WireRoundTrip.ContractHasEnums();
    EnumTextIsVisited("RegimeClassification", REGIMES, text, path);
  }

  lemma RegimeOfExactly(token: string)
    ensures RegimeOf(token) == Some("bullish") <==> token in BULLISH
    ensures RegimeOf(token) == Some("bearish") <==> token in BEARISH
    ensures RegimeOf(token) == Some("ranging") <==> token in RANGING
    ensures RegimeOf(token) == Some("transitional") <==> token in TRANSITIONAL
    ensures RegimeOf(token) == Some("uncertain") <==> token in UNCERTAIN
  {
    BullishHasU();
    BearishHasNoU();
    RangingIsApart();
    TransitionalIsApart();
    UncertainIsApart();
    LabelsDiffer();
  }

  lemma LabelsDiffer()
    ensures forall i, j | 0 <= i < j < |REGIMES| :: REGIMES[i] != REGIMES[j]
  {
    RegimesArePlain();
  }

  /** The text that takes the place of a regime text. */
  ghost function RegimeText(text: string): string {
    RegimeOf(EnumToken(text)).GetOr(text)
  }

  lemma LabelTokenIsItself(text: string)
    requires text in REGIMES
    ensures EnumToken(text) == text && RegimeOf(text) == Some(text)
  {
    RegimesArePlain();
    LabelsAreTheirTokens(REGIMES);
    RegimeOfLabel(text);
  }

  /** On the contract's schema: which texts become, or stay, each of the five labels; a text of no label stays as it is;
    * a change is recorded exactly when the text changes, under the rule that found the label. */
  lemma RegimeTextsAnswer(text: string, path: seq<PathStep>)
    ensures SchemasOk(DEFS, RefTo("RegimeClassification"))
    ensures var token := EnumToken(text); var v := Visit(DEFS, Text(text), RefTo("RegimeClassification"), path);
      && (v.value == Text("bullish") <==> token in BULLISH)
      && (v.value == Text("bearish") <==> token in BEARISH)
      && (v.value == Text("ranging") <==> token in RANGING)
      && (v.value == Text("transitional") <==> token in TRANSITIONAL)
      && (v.value == Text("uncertain") <==> token in UNCERTAIN)
      && (token !in BULLISH + BEARISH + RANGING + TRANSITIONAL + UNCERTAIN ==> v == Visited(Text(text), []))
      && (v.value == Text(text) <==> v.changes == [])
      && (v.value != Text(text) ==>
            v.changes == [Change(path, if token in REGIMES then "enum_format_to_canonical"
                                       else "enum_alias_to_canonical", Text(text), v.value)])
  {
    RegimeTextIsVisited(text, path);
    RegimeIsRead(text);
    RegimeTextExactly(text);
  }

  lemma RegimeTextExactly(text: string)
    ensures var token := EnumToken(text);
      && (RegimeText(text) == "bullish" <==> token in BULLISH)
      && (RegimeText(text) == "bearish" <==> token in BEARISH)
      && (RegimeText(text) == "ranging" <==> token in RANGING)
      && (RegimeText(text) == "transitional" <==> token in TRANSITIONAL)
      && (RegimeText(text) == "uncertain" <==> token in UNCERTAIN)
      && (token !in BULLISH + BEARISH + RANGING + TRANSITIONAL + UNCERTAIN <==> RegimeOf(token).None?)
  {
    RegimeOfExactly(EnumToken(text));
    RegimesByHead();
    if text in REGIMES { LabelTokenIsItself(text); }
  }

  predicate Says(token: string, word: string) {
    exists i | 0 <= i <= |token| :: word <= token[i..]
  }

  /** A text that says "bull" never becomes bearish. */
  lemma BullNeverBecomesBearish(text: string, path: seq<PathStep>)
    requires Says(EnumToken(text), "bull")
    ensures SchemasOk(DEFS, RefTo("RegimeClassification"))
    ensures Visit(DEFS, Text(text), RefTo("RegimeClassification"), path).value != Text("bearish")
  {
    var token := EnumToken(text);
    var i :| 0 <= i <= |token| && "bull" <= token[i..];
    assert token[i..][1] == "bull"[1] == 'u' && token[i..][1] == token[i + 1];
    BearishHasNoU();
    RegimeTextsAnswer(text, path);
  }

  // ---- the other labels ----

  /** A text of another enum becomes the label with its token, and stays as it is when there is none. */
  lemma LabelTextsAnswer(name: string, labels: seq<string>, text: string, path: seq<PathStep>)
    requires SchemasOk(DEFS, RefTo(name)) && Resolve(DEFS, RefTo(name)) == EnumOf(name, labels)
    requires PlainLabels(labels) && name != "RegimeClassification"
    ensures Visit(DEFS, Text(text), RefTo(name), path).value
         == Text(if EnumToken(text) in labels then EnumToken(text) else text)
  {
    EnumTextIsVisited(name, labels, text, path);
    LabelByToken(text, labels, false);
  }

  // ---- in place ----

  lemma {:induction false} FieldIsVisitedInPlace(defs: Definitions, fields: seq<Field>, node: Schema,
                                                 path: seq<PathStep>, i: nat)
    requires SchemasOk(defs, node) && i < |fields| && SchemasOk(defs, PropertySchema(node.properties, fields[i].key))
    ensures var visited := VisitFields(defs, fields, node, path).0;
      && |visited| == |fields| && visited[i].key == fields[i].key
      && visited[i].value == Visit(defs, fields[i].value, PropertySchema(node.properties, fields[i].key),
                                   path + [Key(fields[i].key)]).value
    decreases |fields|
  {
    if i == 0 {
      VisitedFieldsKeepCount(defs, fields, node, path);
    } else {
      FieldIsVisitedInPlace(defs, fields[1..], node, path, i - 1);
    }
  }

  lemma {:induction false} VisitedFieldsKeepCount(defs: Definitions, fields: seq<Field>, node: Schema,
                                                  path: seq<PathStep>)
    requires SchemasOk(defs, node)
    ensures |VisitFields(defs, fields, node, path).0| == |fields|
    decreases |fields|
  {
    if fields != [] { VisitedFieldsKeepCount(defs, fields[1..], node, path); }
  }

  lemma ObjectIsVisited(defs: Definitions, fields: seq<Field>, s: Schema, properties: seq<Property>,
                        path: seq<PathStep>)
    requires SchemasOk(defs, s) && Resolve(defs, s) == ModelOf(properties) && SchemasOk(defs, ModelOf(properties))
    ensures Visit(defs, Object(fields), s, path).value == Object(VisitFields(defs, fields, ModelOf(properties), path).0)
  {}

  lemma PropertyIsFound(properties: seq<Property>, k: nat)
    requires WireRoundTrip.DistinctKeys(properties) && k < |properties|
    ensures PropertySchema(properties, properties[k].key) == properties[k].schema
  {
    WireRoundTrip.SchemaOfProperty(properties, k);
  }

  lemma RegimeField()
    ensures PropertySchema(ROOT.properties, "market_regime") == RefTo("CompactRegime")
    ensures PropertySchema(REGIME.properties, "classification") == RefTo("RegimeClassification")
    ensures ROOT == ModelOf(ROOT.properties) && REGIME == ModelOf(REGIME.properties)
  {
    WireRoundTrip.RootKeysDiffer();
    WireRoundTrip.SectionKeysDiffer();
    assert ROOT.properties[2].key == "market_regime" && REGIME.properties[0].key == "classification";
    PropertyIsFound(ROOT.properties, 2);
    PropertyIsFound(REGIME.properties, 0);
  }

  lemma RegimeNodesAreOk()
    ensures SchemasOk(DEFS, ROOT) && SchemasOk(DEFS, RefTo("CompactRegime")) && SchemasOk(DEFS, REGIME)
    ensures SchemasOk(DEFS, RefTo("RegimeClassification"))
    ensures Resolve(DEFS, ROOT) == ROOT && Resolve(DEFS, RefTo("CompactRegime")) == REGIME
  {
    CompactSchemaIsOk();
    WireRoundTrip.ContractHasModels();
    MarketModelsAreOk(DEFS);
  }

  /** The field at position i is the section, and its field at position j the text. */
  predicate HasTextAt(v: Json, i: nat, section: string, j: nat, key: string, text: string) {
    && v.Object? && i < |v.fields| && v.fields[i].key == section && v.fields[i].value.Object?
    && j < |v.fields[i].value.fields| && v.fields[i].value.fields[j] == Field(key, Text(text))
  }

  /** In the whole output: the regime's classification is read where it stands. */
  lemma OutputRegimeIsRead(raw: Json, i: nat, j: nat, text: string)
    requires HasTextAt(raw, i, "market_regime", j, "classification", text)
    ensures HasTextAt(Normalized(raw).value, i, "market_regime", j, "classification", RegimeText(text))
  {
    RegimeField();
    RegimeNodesAreOk();
    var section := raw.fields[i].value;
    var path := [Key("market_regime")];
    ObjectIsVisited(DEFS, raw.fields, ROOT, ROOT.properties, []);
    FieldIsVisitedInPlace(DEFS, raw.fields, ROOT, [], i);
    assert [] + path == path;
    ObjectIsVisited(DEFS, section.fields, RefTo("CompactRegime"), REGIME.properties, path);
    FieldIsVisitedInPlace(DEFS, section.fields, REGIME, path, j);
    RegimeTextIsVisited(text, path + [Key("classification")]);
    RegimeIsRead(text);
  }
}
