/** `normalize_compact_output_shapes`: lossless JSON container variants are brought to the shape the wire schema
  * asks for, and every change is recorded. */
module Normalizer {
  import opened Domain
  import opened JsonSchemas

  datatype PathStep = Key(key: string) | Index(index: nat)

  datatype Change = Change(path: seq<PathStep>, rule: string, before: Json, after: Json)

  datatype Visited = Visited(value: Json, changes: seq<Change>)

  // ---- enum labels ----

  function AllowedStrings(enumeration: seq<Json>): seq<string> {
    if enumeration == [] then []
    else (if enumeration[0].Text? then [enumeration[0].text] else []) + AllowedStrings(enumeration[1..])
  }

  function WithToken(allowed: seq<string>, token: string): seq<string> {
    if allowed == [] then []
    else (if EnumToken(allowed[0]) == token then [allowed[0]] else []) + WithToken(allowed[1..], token)
  }

  const BULLISH_ALIASES := ["bull", "bullish_market", "bullish_regime", "bullish_trend", "bullish_expansion",
                            "expansion_bull", "expansion_bullish", "compression_bull", "compression_bullish"]
  const BEARISH_ALIASES := ["bear", "bearish_market", "bearish_regime", "bearish_trend", "bearish_expansion",
                            "expansion_bear", "expansion_bearish", "compression_bear", "compression_bearish"]
  const RANGING_ALIASES := ["range", "range_bound", "sideways"]
  const TRANSITIONAL_ALIASES := ["transition", "transitioning"]
  const UNCERTAIN_ALIASES := ["indeterminate", "unknown"]

  function Under(aliases: seq<string>, regime: string): seq<(string, string)> {
    seq(|aliases|, i requires 0 <= i < |aliases| => (aliases[i], regime))
  }

  /** `REGIME_CLASSIFICATION_ALIASES`, in its order. */
  const REGIME_ALIASES: seq<(string, string)> :=
    Under(BULLISH_ALIASES, "bullish") + Under(BEARISH_ALIASES, "bearish") + Under(RANGING_ALIASES, "ranging")
    + Under(TRANSITIONAL_ALIASES, "transitional") + Under(UNCERTAIN_ALIASES, "uncertain")

  function AliasFor(aliases: seq<(string, string)>, token: string): Option<string> {
    if aliases == [] then None
    else if EnumToken(aliases[0].0) == token then Some(aliases[0].1)
    else AliasFor(aliases[1..], token)
  }

  /** The label a text is replaced by, with the rule that did it. */
  function CanonicalLabel(text: string, allowed: seq<string>, regime: bool): Option<(string, string)> {
    var matches := WithToken(allowed, EnumToken(text));
    if |matches| == 1 then
      if matches[0] != text then Some((matches[0], "enum_format_to_canonical")) else None
    else if regime then
      match AliasFor(REGIME_ALIASES, EnumToken(text))
      case Some(relabel) => if relabel in allowed then Some((relabel, "enum_alias_to_canonical")) else None
      case None => None
    else None
  }

  function CanonicalEnum(v: Json, node: Schema): Option<(string, string)> {
    if v.Text? && node.enumeration.Some? then
      CanonicalLabel(v.text, AllowedStrings(node.enumeration.value), node.title == Some("RegimeClassification"))
    else None
  }

  // ---- container variants ----

  predicate NonBlankText(v: Json) {
    v.Text? && Strip(v.text) != ""
  }

  predicate Joins(node: Schema, v: Json) {
    && node.kind == Some("string") && JOIN in node.normalize
    && v.List? && v.items != [] && forall item | item in v.items :: NonBlankText(item)
  }

  function Joined(items: seq<Json>): string
    requires forall item | item in items :: item.Text?
  {
    if items == [] then ""
    else if |items| == 1 then Strip(items[0].text)
    else Strip(items[0].text) + " " + Joined(items[1..])
  }

  predicate Wraps(defs: Definitions, node: Schema, v: Json) {
    && node.kind == Some("array") && WRAP in node.normalize
    && NonBlankText(v) && Resolve(defs, ItemSchema(node)).kind == Some("string")
  }

  // ---- the schemas this is stated for ----

  predicate DistinctTokens(allowed: seq<string>) {
    forall i, j | 0 <= i < j < |allowed| :: EnumToken(allowed[i]) != EnumToken(allowed[j])
  }

  /** No node is both an enum and a normalised container; enum tokens are distinct; an `anyOf` branch that is
    * normalised says its type inline; the item of a wrapped list is a plain text node. */
  ghost predicate NodeOk(defs: Definitions, s: Schema) {
    && (s.normalize != {} ==> s.enumeration.None?)
    && (s.enumeration.Some? ==> DistinctTokens(AllowedStrings(s.enumeration.value)))
    && (forall b | b in s.anyOf :: Resolve(defs, b).normalize != {} ==> b.kind == Resolve(defs, b).kind)
    && (WRAP in s.normalize ==>
          Resolve(defs, ItemSchema(s)).anyOf == [] && Resolve(defs, ItemSchema(s)).ref.None?)
  }

  ghost predicate SchemaOk(defs: Definitions, s: Schema) {
    && NodeOk(defs, s)
    && (forall i | 0 <= i < |s.anyOf| :: SchemaOk(defs, s.anyOf[i]))
    && (forall i | 0 <= i < |s.properties| :: SchemaOk(defs, s.properties[i].schema))
    && (s.items.Some? ==> SchemaOk(defs, s.items.value))
  }

  ghost predicate SchemasOk(defs: Definitions, s: Schema) {
    SchemaOk(defs, s) && forall name | name in defs :: SchemaOk(defs, defs[name])
  }

  lemma {:induction false} FirstOfKindIsABranch(branches: seq<Schema>, kind: string)
    ensures match FirstOfKind(branches, kind)
      case Some(b) => b in branches && b.kind == Some(kind)
      case None => forall b | b in branches :: b.kind != Some(kind)
    decreases |branches|
  {
    if branches != [] && branches[0].kind != Some(kind) {
      FirstOfKindIsABranch(branches[1..], kind);
      assert branches == [branches[0]] + branches[1..];
    }
  }

  lemma GoverningIsOk(defs: Definitions, s: Schema, v: Json)
    requires SchemasOk(defs, s)
    ensures SchemasOk(defs, Governing(defs, s, v))
  {
    var s1 := Resolve(defs, s);
    assert SchemaOk(defs, s1);
    if s1.anyOf != [] {
      FirstOfKindIsABranch(s1.anyOf, TypeName(v));
      var b := BranchFor(s1, v);
      assert b in s1.anyOf;
      var i :| 0 <= i < |s1.anyOf| && s1.anyOf[i] == b;
    }
  }

  lemma {:induction false} PropertyIsOk(defs: Definitions, properties: seq<Property>, key: string)
    requires forall i | 0 <= i < |properties| :: SchemaOk(defs, properties[i].schema)
    ensures SchemaOk(defs, PropertySchema(properties, key))
  {
    if properties != [] && properties[0].key != key { PropertyIsOk(defs, properties[1..], key); }
  }

  lemma ItemIsOk(defs: Definitions, s: Schema)
    requires SchemasOk(defs, s)
    ensures SchemasOk(defs, ItemSchema(s))
  {}

  // ---- the visit ----

  predicate WrapsUnder(defs: Definitions, s: Schema, v: Json) {
    Wraps(defs, Governing(defs, s, v), v)
  }

  function Relabelled(v: Json, relabel: Option<(string, string)>): Json {
    if relabel.Some? then Text(relabel.value.0) else v
  }

  function Recorded(path: seq<PathStep>, v: Json, relabel: Option<(string, string)>): seq<Change> {
    if relabel.Some? then [Change(path, relabel.value.1, v, Text(relabel.value.0))] else []
  }

  ghost function Visit(defs: Definitions, v: Json, s: Schema, path: seq<PathStep>): Visited
    requires SchemasOk(defs, s)
    decreases Size(v), if WrapsUnder(defs, s, v) then 1 else 0
  {
    GoverningIsOk(defs, s, v);
    var node := Governing(defs, s, v);
    ItemIsOk(defs, node);
    var relabel := CanonicalEnum(v, node);
    var v1 := Relabelled(v, relabel);
    var changes := Recorded(path, v, relabel);
    if Joins(node, v1) then
      var text := Text(Joined(v1.items));
      Visited(text, changes + [Change(path, "non_empty_string_list_to_string", v1, text)])
    else if Wraps(defs, node, v1) then
      var text := Text(Strip(v1.text));
      var inner := Visit(defs, text, ItemSchema(node), path + [Index(0)]);
      Visited(List([inner.value]),
              changes + [Change(path, "non_empty_string_to_string_list", v1, List([text]))] + inner.changes)
    else if node.kind == Some("object") && v1.Object? then
      var (fields, inner) := VisitFields(defs, v1.fields, node, path);
      Visited(Object(fields), changes + inner)
    else if node.kind == Some("array") && v1.List? then
      var (items, inner) := VisitItems(defs, v1.items, ItemSchema(node), path, 0);
      Visited(List(items), changes + inner)
    else Visited(v1, changes)
  }

  ghost function VisitItems(defs: Definitions, items: seq<Json>, s: Schema, path: seq<PathStep>, index: nat)
    : (seq<Json>, seq<Change>)
    requires SchemasOk(defs, s)
    decreases SizeOfItems(items), 0
  {
    if items == [] then ([], [])
    else
      var first := Visit(defs, items[0], s, path + [Index(index)]);
      var (rest, changes) := VisitItems(defs, items[1..], s, path, index + 1);
      ([first.value] + rest, first.changes + changes)
  }

  ghost function VisitFields(defs: Definitions, fields: seq<Field>, node: Schema, path: seq<PathStep>)
    : (seq<Field>, seq<Change>)
    requires SchemasOk(defs, node)
    decreases SizeOfFields(fields), 0
  {
    if fields == [] then ([], [])
    else
      PropertyIsOk(defs, node.properties, fields[0].key);
      var first := Visit(defs, fields[0].value, PropertySchema(node.properties, fields[0].key),
                         path + [Key(fields[0].key)]);
      var (rest, changes) := VisitFields(defs, fields[1..], node, path);
      ([Field(fields[0].key, first.value)] + rest, first.changes + changes)
  }

  // ---- one level of the visit at a time ----

  lemma VisitOfItems(defs: Definitions, first: Json, rest: seq<Json>, s: Schema, path: seq<PathStep>, index: nat)
    requires SchemasOk(defs, s)
    ensures var one := Visit(defs, first, s, path + [Index(index)]);
      var (others, changes) := VisitItems(defs, rest, s, path, index + 1);
      VisitItems(defs, [first] + rest, s, path, index) == ([one.value] + others, one.changes + changes)
  {}

  lemma VisitOfFields(defs: Definitions, first: Field, rest: seq<Field>, node: Schema, path: seq<PathStep>)
    requires SchemasOk(defs, node) && SchemasOk(defs, PropertySchema(node.properties, first.key))
    ensures var one := Visit(defs, first.value, PropertySchema(node.properties, first.key), path + [Key(first.key)]);
      var (others, changes) := VisitFields(defs, rest, node, path);
      VisitFields(defs, [first] + rest, node, path) == ([Field(first.key, one.value)] + others, one.changes + changes)
  {}

  /** What a visit does at its own node, before it turns to the children. */
  function AtNode(path: seq<PathStep>, v: Json, node: Schema): Visited {
    Visited(Relabelled(v, CanonicalEnum(v, node)), Recorded(path, v, CanonicalEnum(v, node)))
  }

  lemma VisitOfJoined(defs: Definitions, v: Json, s: Schema, path: seq<PathStep>)
    requires SchemasOk(defs, s)
    requires var node := Governing(defs, s, v); Joins(node, AtNode(path, v, node).value)
    ensures var here := AtNode(path, v, Governing(defs, s, v)); var text := Text(Joined(here.value.items));
      Visit(defs, v, s, path) ==
        Visited(text, here.changes + [Change(path, "non_empty_string_list_to_string", here.value, text)])
  {}

  lemma VisitOfWrap(defs: Definitions, v: Json, s: Schema, path: seq<PathStep>)
    requires SchemasOk(defs, s) && SchemasOk(defs, ItemSchema(Governing(defs, s, v)))
    requires var node := Governing(defs, s, v); Wraps(defs, node, AtNode(path, v, node).value)
    ensures var node := Governing(defs, s, v); var here := AtNode(path, v, node);
      var text := Text(Strip(here.value.text));
      var inner := Visit(defs, text, ItemSchema(node), path + [Index(0)]);
      Visit(defs, v, s, path) ==
        Visited(List([inner.value]),
                here.changes + [Change(path, "non_empty_string_to_string_list", here.value, List([text]))]
                + inner.changes)
  {}

  lemma VisitOfLeaf(defs: Definitions, v: Json, s: Schema, path: seq<PathStep>)
    requires SchemasOk(defs, s)
    requires var node := Governing(defs, s, v); var v1 := AtNode(path, v, node).value;
      && !Joins(node, v1) && !Wraps(defs, node, v1)
      && !(node.kind == Some("object") && v1.Object?) && !(node.kind == Some("array") && v1.List?)
    ensures Visit(defs, v, s, path) == AtNode(path, v, Governing(defs, s, v))
  {}

  // ---- what one call leaves in the shared change list ----

  ghost predicate ValueDone(defs: Definitions, v: Json, s: Schema, path: seq<PathStep>,
                            value: Json, before: seq<Change>, after: seq<Change>)
    requires SchemasOk(defs, s)
  {
    var all := Visit(defs, v, s, path);
    value == all.value && after == before + all.changes
  }

  ghost predicate ItemsDone(defs: Definitions, items: seq<Json>, s: Schema, path: seq<PathStep>, index: nat,
                            visited: seq<Json>, before: seq<Change>, after: seq<Change>)
    requires SchemasOk(defs, s)
  {
    var (items', changes) := VisitItems(defs, items, s, path, index);
    visited == items' && after == before + changes
  }

  ghost predicate FieldsDone(defs: Definitions, fields: seq<Field>, node: Schema, path: seq<PathStep>,
                             visited: seq<Field>, before: seq<Change>, after: seq<Change>)
    requires SchemasOk(defs, node)
  {
    var (fields', changes) := VisitFields(defs, fields, node, path);
    visited == fields' && after == before + changes
  }

  lemma AppendsChain(before: seq<Change>, one: seq<Change>, others: seq<Change>,
                     between: seq<Change>, after: seq<Change>)
    requires between == before + one && after == between + others
    ensures after == before + (one + others)
  {}

  lemma ItemsStep(defs: Definitions, x: Json, xs: seq<Json>, s: Schema, path: seq<PathStep>, index: nat,
                  first: Json, rest: seq<Json>, before: seq<Change>, between: seq<Change>, after: seq<Change>)
    requires SchemasOk(defs, s)
    requires ValueDone(defs, x, s, path + [Index(index)], first, before, between)
    requires ItemsDone(defs, xs, s, path, index + 1, rest, between, after)
    ensures ItemsDone(defs, [x] + xs, s, path, index, [first] + rest, before, after)
  {
    var one := Visit(defs, x, s, path + [Index(index)]);
    var others := VisitItems(defs, xs, s, path, index + 1);
    AppendsChain(before, one.changes, others.1, between, after);
    VisitOfItems(defs, x, xs, s, path, index);
  }

  lemma FieldsStep(defs: Definitions, x: Field, xs: seq<Field>, node: Schema, path: seq<PathStep>,
                   first: Json, rest: seq<Field>, before: seq<Change>, between: seq<Change>, after: seq<Change>)
    requires SchemasOk(defs, node) && SchemasOk(defs, PropertySchema(node.properties, x.key))
    requires ValueDone(defs, x.value, PropertySchema(node.properties, x.key), path + [Key(x.key)],
                       first, before, between)
    requires FieldsDone(defs, xs, node, path, rest, between, after)
    ensures FieldsDone(defs, [x] + xs, node, path, [Field(x.key, first)] + rest, before, after)
  {}

  lemma ArrayDone(defs: Definitions, v: Json, s: Schema, path: seq<PathStep>,
                  items: seq<Json>, before: seq<Change>, after: seq<Change>)
    requires SchemasOk(defs, s) && SchemasOk(defs, ItemSchema(Governing(defs, s, v)))
    requires Governing(defs, s, v).kind == Some("array") && v.List?
    requires ItemsDone(defs, v.items, ItemSchema(Governing(defs, s, v)), path, 0, items, before, after)
    ensures ValueDone(defs, v, s, path, List(items), before, after)
  {}

  lemma ObjectDone(defs: Definitions, v: Json, s: Schema, path: seq<PathStep>,
                   fields: seq<Field>, before: seq<Change>, after: seq<Change>)
    requires SchemasOk(defs, s) && SchemasOk(defs, Governing(defs, s, v))
    requires Governing(defs, s, v).kind == Some("object") && v.Object?
    requires FieldsDone(defs, v.fields, Governing(defs, s, v), path, fields, before, after)
    ensures ValueDone(defs, v, s, path, Object(fields), before, after)
  {}

  lemma WrapDone(defs: Definitions, v: Json, s: Schema, path: seq<PathStep>,
                 inner: Json, before: seq<Change>, between: seq<Change>, after: seq<Change>)
    requires SchemasOk(defs, s) && SchemasOk(defs, ItemSchema(Governing(defs, s, v)))
    requires WrapsUnder(defs, s, v)
    requires between == before + [Change(path, "non_empty_string_to_string_list", v, List([Text(Strip(v.text))]))]
    requires ValueDone(defs, Text(Strip(v.text)), ItemSchema(Governing(defs, s, v)), path + [Index(0)],
                       inner, between, after)
    ensures ValueDone(defs, v, s, path, List([inner]), before, after)
  {
    GoverningIsOk(defs, s, v);
    assert NodeOk(defs, Governing(defs, s, v));
    var node := Governing(defs, s, v);
    assert AtNode(path, v, node) == Visited(v, []);
    VisitOfWrap(defs, v, s, path);
  }

  // ---- the recursive procedure of the source ----

  /** One call of the normaliser: `visit` recurses and appends to the shared change list. */
  class Pass {
    const defs: Definitions
    var changes: seq<Change>

    constructor (defs: Definitions)
      ensures this.defs == defs && changes == []
    {
      this.defs := defs;
      changes := [];
    }

    method VisitValue(v: Json, s: Schema, path: seq<PathStep>) returns (value: Json)
      requires SchemasOk(defs, s)
      modifies this`changes
      ensures ValueDone(defs, v, s, path, value, old(changes), changes)
      decreases Size(v), if WrapsUnder(defs, s, v) then 1 else 0, 1
    {
      GoverningIsOk(defs, s, v);
      var node := Governing(defs, s, v);
      ItemIsOk(defs, node);
      value := v;
      var relabel := CanonicalEnum(value, node);
      if relabel.Some? {
        changes := changes + [Change(path, relabel.value.1, value, Text(relabel.value.0))];
        value := Text(relabel.value.0);
      }
      ghost var here := AtNode(path, v, node);
      assert value == here.value && changes == old(changes) + here.changes;
      if Joins(node, value) {
        var text := JoinTexts(value.items);
        changes := changes + [Change(path, "non_empty_string_list_to_string", value, Text(text))];
        value := Text(text);
        VisitOfJoined(defs, v, s, path);
      } else if Wraps(defs, node, value) {
        assert NodeOk(defs, node) && value == v;
        var text := Text(Strip(value.text));
        changes := changes + [Change(path, "non_empty_string_to_string_list", value, List([text]))];
        ghost var between := changes;
        var inner := VisitValue(text, ItemSchema(node), path + [Index(0)]);
        value := List([inner]);
        WrapDone(defs, v, s, path, inner, old(changes), between, changes);
      } else if node.kind == Some("object") && value.Object? {
        var fields := VisitEachField(value.fields, node, path);
        value := Object(fields);
        ObjectDone(defs, v, s, path, fields, old(changes), changes);
      } else if node.kind == Some("array") && value.List? {
        var items := VisitEachItem(value.items, ItemSchema(node), path, 0);
        value := List(items);
        ArrayDone(defs, v, s, path, items, old(changes), changes);
      } else {
        VisitOfLeaf(defs, v, s, path);
      }
    }

    method VisitEachItem(items: seq<Json>, s: Schema, path: seq<PathStep>, index: nat) returns (visited: seq<Json>)
      requires SchemasOk(defs, s)
      modifies this`changes
      ensures ItemsDone(defs, items, s, path, index, visited, old(changes), changes)
      decreases SizeOfItems(items), 0, 0
    {
      if items == [] {
        return [];
      }
      var first := VisitValue(items[0], s, path + [Index(index)]);
      ghost var between := changes;
      var rest := VisitEachItem(items[1..], s, path, index + 1);
      ItemsStep(defs, items[0], items[1..], s, path, index, first, rest, old(changes), between, changes);
      assert [items[0]] + items[1..] == items;
      return [first] + rest;
    }

    method VisitEachField(fields: seq<Field>, node: Schema, path: seq<PathStep>) returns (visited: seq<Field>)
      requires SchemasOk(defs, node)
      modifies this`changes
      ensures FieldsDone(defs, fields, node, path, visited, old(changes), changes)
      decreases SizeOfFields(fields), 0, 0
    {
      if fields == [] {
        return [];
      }
      PropertyIsOk(defs, node.properties, fields[0].key);
      var first := VisitValue(fields[0].value, PropertySchema(node.properties, fields[0].key),
                              path + [Key(fields[0].key)]);
      ghost var between := changes;
      var rest := VisitEachField(fields[1..], node, path);
      FieldsStep(defs, fields[0], fields[1..], node, path, first, rest, old(changes), between, changes);
      assert [fields[0]] + fields[1..] == fields;
      return [Field(fields[0].key, first)] + rest;
    }
  }

  /** `" ".join(item.strip() for item in value)`. */
  method JoinTexts(items: seq<Json>) returns (text: string)
    requires items != [] && forall item | item in items :: item.Text?
    ensures text == Joined(items)
  {
    var i := |items| - 1;
    text := Strip(items[i].text);
    while i > 0
      invariant 0 <= i < |items|
      invariant text == Joined(items[i..])
    {
      i := i - 1;
      assert items[i..][1..] == items[i + 1..];
      text := Strip(items[i].text) + " " + text;
    }
    assert items[0..] == items;
  }

  /** The whole function: visit from the root with an empty change list. */
  method NormalizeShapes(defs: Definitions, root: Schema, raw: Json) returns (value: Json, changes: seq<Change>)
    requires SchemasOk(defs, root)
    ensures Visited(value, changes) == Visit(defs, raw, root, [])
  {
    var pass := new Pass(defs);
    value := pass.VisitValue(raw, root, []);
    changes := pass.changes;
  }
}
