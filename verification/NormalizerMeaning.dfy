/** What the normaliser's output is, without reference to how it is computed: the canonical, lossless variant of
  * the input. */
module NormalizerMeaning {
  import opened Domain
  import opened JsonSchemas
  import opened Normalizer
  import NormalizerLaws
  import RegimeTokens

  /** Nothing in the value is left to normalise. */
  ghost predicate Canonical(defs: Definitions, v: Json, s: Schema)
    decreases Size(v)
  {
    var node := Governing(defs, s, v);
    && CanonicalEnum(v, node).None? && !Joins(node, v) && !Wraps(defs, node, v)
    && (node.kind == Some("object") && v.Object? ==> CanonicalFields(defs, v.fields, node))
    && (node.kind == Some("array") && v.List? ==> CanonicalItems(defs, v.items, ItemSchema(node)))
  }

  ghost predicate CanonicalItems(defs: Definitions, items: seq<Json>, s: Schema)
    decreases SizeOfItems(items)
  {
    items != [] ==> Canonical(defs, items[0], s) && CanonicalItems(defs, items[1..], s)
  }

  ghost predicate CanonicalFields(defs: Definitions, fields: seq<Field>, node: Schema)
    decreases SizeOfFields(fields)
  {
    fields != [] ==>
      && Canonical(defs, fields[0].value, PropertySchema(node.properties, fields[0].key))
      && CanonicalFields(defs, fields[1..], node)
  }

  /** A text stands for a label: same letters and digits, or one of the texts known to mean a regime. */
  predicate NamesLabel(text: string, standard: string) {
    EnumToken(text) == EnumToken(standard) || RegimeTokens.AliasOf(EnumToken(text)) == Some(standard)
  }

  /** v' says what v says: labels spelled canonically, text lists joined, texts wrapped in a list, same keys. */
  ghost predicate Lossless(v: Json, v': Json)
    decreases Size(v), if v'.List? then 1 else 0
  {
    || v == v'
    || (v.Text? && v'.Text? && NamesLabel(v.text, v'.text))
    || (v.List? && v'.Text? && (forall item | item in v.items :: NonBlankText(item)) && v'.text == Joined(v.items))
    || (NonBlankText(v) && v'.List? && |v'.items| == 1 && !v'.items[0].List?
        && Lossless(Text(Strip(v.text)), v'.items[0]))
    || (v.List? && v'.List? && LosslessItems(v.items, v'.items))
    || (v.Object? && v'.Object? && LosslessFields(v.fields, v'.fields))
  }

  ghost predicate LosslessItems(items: seq<Json>, items': seq<Json>)
    decreases SizeOfItems(items), 0
  {
    |items| == |items'| && (items != [] ==> Lossless(items[0], items'[0]) && LosslessItems(items[1..], items'[1..]))
  }

  ghost predicate LosslessFields(fields: seq<Field>, fields': seq<Field>)
    decreases SizeOfFields(fields), 0
  {
    && |fields| == |fields'|
    && (fields != [] ==>
          && fields[0].key == fields'[0].key && Lossless(fields[0].value, fields'[0].value)
          && LosslessFields(fields[1..], fields'[1..]))
  }

  // ---- lossless ----

  lemma {:induction false} TokenOfMatch(allowed: seq<string>, token: string)
    ensures forall a | a in WithToken(allowed, token) :: EnumToken(a) == token
  {
    if allowed != [] { TokenOfMatch(allowed[1..], token); }
  }

  lemma RelabelNames(v: Json, node: Schema)
    ensures var relabel := CanonicalEnum(v, node); relabel.Some? ==> NamesLabel(v.text, relabel.value.0)
  {
    var relabel := CanonicalEnum(v, node);
    if relabel.Some? {
      var allowed := AllowedStrings(node.enumeration.value);
      TokenOfMatch(allowed, EnumToken(v.text));
      RegimeTokens.AliasTable(EnumToken(v.text));
      assert relabel.value.0 in WithToken(allowed, EnumToken(v.text))
          || AliasFor(REGIME_ALIASES, EnumToken(v.text)) == Some(relabel.value.0);
    }
  }

  lemma TextStaysText(defs: Definitions, v: Json, s: Schema, path: seq<PathStep>)
    requires SchemasOk(defs, s) && v.Text? && !WrapsUnder(defs, s, v)
    ensures var v' := Visit(defs, v, s, path).value; v'.Text? && (v' == v || NamesLabel(v.text, v'.text))
  {
    var node := Governing(defs, s, v);
    GoverningIsOk(defs, s, v);
    assert NodeOk(defs, node);
    RelabelNames(v, node);
  }

  /** The output keeps everything the input said. */
  lemma {:induction false} NormalizationIsLossless(defs: Definitions, v: Json, s: Schema, path: seq<PathStep>)
    requires SchemasOk(defs, s)
    ensures Lossless(v, Visit(defs, v, s, path).value)
    decreases Size(v), 1
  {
    var node := Governing(defs, s, v);
    GoverningIsOk(defs, s, v);
    ItemIsOk(defs, node);
    assert NodeOk(defs, node);
    if Joins(node, v) {
    } else if Wraps(defs, node, v) {
      NormalizerLaws.WrappedTextIsPlain(defs, s, v);
      TextStaysText(defs, Text(Strip(v.text)), ItemSchema(node), path + [Index(0)]);
      NormalizerLaws.VisitOfWrapped(defs, s, v, path);
    } else if node.kind == Some("object") && v.Object? {
      FieldsAreLossless(defs, v.fields, node, path);
    } else if node.kind == Some("array") && v.List? {
      ItemsAreLossless(defs, v.items, ItemSchema(node), path, 0);
    } else if v.Text? {
      TextStaysText(defs, v, s, path);
    }
  }

  lemma {:induction false} ItemsAreLossless(defs: Definitions, items: seq<Json>, s: Schema, path: seq<PathStep>,
                                            index: nat)
    requires SchemasOk(defs, s)
    ensures LosslessItems(items, VisitItems(defs, items, s, path, index).0)
    decreases SizeOfItems(items), 0
  {
    if items != [] {
      NormalizationIsLossless(defs, items[0], s, path + [Index(index)]);
      ItemsAreLossless(defs, items[1..], s, path, index + 1);
    }
  }

  lemma {:induction false} FieldsAreLossless(defs: Definitions, fields: seq<Field>, node: Schema, path: seq<PathStep>)
    requires SchemasOk(defs, node)
    ensures LosslessFields(fields, VisitFields(defs, fields, node, path).0)
    decreases SizeOfFields(fields), 0
  {
    if fields != [] {
      PropertyIsOk(defs, node.properties, fields[0].key);
      NormalizationIsLossless(defs, fields[0].value, PropertySchema(node.properties, fields[0].key),
                              path + [Key(fields[0].key)]);
      FieldsAreLossless(defs, fields[1..], node, path);
    }
  }

  // ---- canonical ----

  /** A pass records no change exactly on the values that are canonical already. */
  lemma {:induction false} QuietExactlyWhenCanonical(defs: Definitions, v: Json, s: Schema, path: seq<PathStep>)
    requires SchemasOk(defs, s)
    ensures Visit(defs, v, s, path).changes == [] <==> Canonical(defs, v, s)
    decreases Size(v), 1
  {
    var node := Governing(defs, s, v);
    GoverningIsOk(defs, s, v);
    ItemIsOk(defs, node);
    assert NodeOk(defs, node);
    if node.kind == Some("object") && v.Object? {
      QuietFields(defs, v.fields, node, path);
    } else if node.kind == Some("array") && v.List? {
      QuietItems(defs, v.items, ItemSchema(node), path, 0);
    }
  }

  lemma {:induction false} QuietItems(defs: Definitions, items: seq<Json>, s: Schema, path: seq<PathStep>, index: nat)
    requires SchemasOk(defs, s)
    ensures VisitItems(defs, items, s, path, index).1 == [] <==> CanonicalItems(defs, items, s)
    decreases SizeOfItems(items), 0
  {
    if items != [] {
      QuietExactlyWhenCanonical(defs, items[0], s, path + [Index(index)]);
      QuietItems(defs, items[1..], s, path, index + 1);
    }
  }

  lemma {:induction false} QuietFields(defs: Definitions, fields: seq<Field>, node: Schema, path: seq<PathStep>)
    requires SchemasOk(defs, node)
    ensures VisitFields(defs, fields, node, path).1 == [] <==> CanonicalFields(defs, fields, node)
    decreases SizeOfFields(fields), 0
  {
    if fields != [] {
      PropertyIsOk(defs, node.properties, fields[0].key);
      QuietExactlyWhenCanonical(defs, fields[0].value, PropertySchema(node.properties, fields[0].key),
                                path + [Key(fields[0].key)]);
      QuietFields(defs, fields[1..], node, path);
    }
  }

  // ---- main results ----

  /** For every value: the output is canonical, a second pass returns it with no change recorded, and the change
    * list of any pass is empty exactly when output and input are equal. */
  lemma NormalizerIsIdempotent(defs: Definitions, v: Json, s: Schema)
    requires SchemasOk(defs, s)
    ensures var first := Visit(defs, v, s, []);
      && Canonical(defs, first.value, s)
      && Visit(defs, first.value, s, []) == Visited(first.value, [])
      && (first.changes == [] <==> first.value == v)
  {
    NormalizerLaws.VisitSettles(defs, v, s, []);
    QuietExactlyWhenCanonical(defs, Visit(defs, v, s, []).value, s, []);
  }
}
