/** A second pass of the normaliser changes nothing, and the change list tells the truth. */
module NormalizerLaws {
  import opened Domain
  import opened JsonSchemas
  import opened Normalizer

  // ---- labels ----

  lemma {:induction false} OneLabelPerToken(allowed: seq<string>, text: string)
    requires DistinctTokens(allowed) && text in allowed
    ensures WithToken(allowed, EnumToken(text)) == [text]
    decreases |allowed|
  {
    var k :| 0 <= k < |allowed| && allowed[k] == text;
    if k == 0 {
      NoLabelWithToken(allowed[1..], EnumToken(text));
    } else {
      assert allowed[1..][k - 1] == text;
      OneLabelPerToken(allowed[1..], text);
    }
  }

  lemma {:induction false} NoLabelWithToken(allowed: seq<string>, token: string)
    requires forall a | a in allowed :: EnumToken(a) != token
    ensures WithToken(allowed, token) == []
  {
    if allowed != [] { NoLabelWithToken(allowed[1..], token); }
  }

  lemma {:induction false} LabelsAreAllowed(allowed: seq<string>, token: string)
    ensures forall a | a in WithToken(allowed, token) :: a in allowed
  {
    if allowed != [] { LabelsAreAllowed(allowed[1..], token); }
  }

  /** A replacement is a real change, and its result is not replaced again. */
  lemma RelabellingSettles(v: Json, node: Schema)
    requires node.enumeration.Some? ==> DistinctTokens(AllowedStrings(node.enumeration.value))
    ensures var relabel := CanonicalEnum(v, node);
      relabel.Some? ==> Relabelled(v, relabel) != v && CanonicalEnum(Relabelled(v, relabel), node).None?
  {
    var relabel := CanonicalEnum(v, node);
    if relabel.Some? {
      var allowed := AllowedStrings(node.enumeration.value);
      LabelsAreAllowed(allowed, EnumToken(v.text));
      assert relabel.value.0 in WithToken(allowed, EnumToken(v.text)) || relabel.value.0 in allowed;
      OneLabelPerToken(allowed, relabel.value.0);
      if v.text in allowed { OneLabelPerToken(allowed, v.text); }
    }
  }

  // ---- the governing node survives a change of container ----

  lemma SameNodeAfterReshape(defs: Definitions, s: Schema, v: Json, v': Json)
    requires SchemasOk(defs, s)
    requires var node := Governing(defs, s, v);
      TypeName(v') == TypeName(v) || (node.normalize != {} && node.kind == Some(TypeName(v')))
    ensures Governing(defs, s, v') == Governing(defs, s, v)
  {
    var s1 := Resolve(defs, s);
    assert SchemaOk(defs, s1);
    if s1.anyOf != [] {
      FirstOfKindIsABranch(s1.anyOf, TypeName(v));
      assert BranchFor(s1, v) in s1.anyOf;
    }
  }

  // ---- the law ----

  ghost predicate Settles(defs: Definitions, s: Schema, v: Json, path: seq<PathStep>)
    requires SchemasOk(defs, s)
  {
    var first := Visit(defs, v, s, path);
    && (first.changes == [] <==> first.value == v)
    && Visit(defs, first.value, s, path) == Visited(first.value, [])
  }

  lemma JoinSettles(defs: Definitions, s: Schema, v: Json, path: seq<PathStep>)
    requires SchemasOk(defs, s) && Joins(Governing(defs, s, v), v)
    ensures Settles(defs, s, v, path)
  {
    var node := Governing(defs, s, v);
    GoverningIsOk(defs, s, v);
    assert NodeOk(defs, node) && node.enumeration.None?;
    var text := Text(Joined(v.items));
    SameNodeAfterReshape(defs, s, v, text);
    assert CanonicalEnum(v, node).None? && CanonicalEnum(text, node).None?;
  }

  /** The text inside a wrapped list is governed by a plain text node. */
  lemma WrappedTextIsPlain(defs: Definitions, s: Schema, v: Json)
    requires SchemasOk(defs, s) && WrapsUnder(defs, s, v)
    ensures var node := Governing(defs, s, v); var text := Text(Strip(v.text));
      SchemasOk(defs, ItemSchema(node)) && !WrapsUnder(defs, ItemSchema(node), text)
  {
    GoverningIsOk(defs, s, v);
    ItemIsOk(defs, Governing(defs, s, v));
    assert NodeOk(defs, Governing(defs, s, v));
  }

  lemma VisitOfWrapped(defs: Definitions, s: Schema, v: Json, path: seq<PathStep>)
    requires SchemasOk(defs, s) && WrapsUnder(defs, s, v)
    requires SchemasOk(defs, ItemSchema(Governing(defs, s, v)))
    ensures var inner := Visit(defs, Text(Strip(v.text)), ItemSchema(Governing(defs, s, v)), path + [Index(0)]);
      var first := Visit(defs, v, s, path);
      first.value == List([inner.value]) && first.changes != []
  {
    GoverningIsOk(defs, s, v);
    assert NodeOk(defs, Governing(defs, s, v));
  }

  lemma VisitOfList(defs: Definitions, s: Schema, items: seq<Json>, path: seq<PathStep>)
    requires SchemasOk(defs, s) && Governing(defs, s, List(items)).kind == Some("array")
    requires SchemasOk(defs, ItemSchema(Governing(defs, s, List(items))))
    ensures var (items', changes) := VisitItems(defs, items, ItemSchema(Governing(defs, s, List(items))), path, 0);
      Visit(defs, List(items), s, path) == Visited(List(items'), changes)
  {}

  lemma WrapSettles(defs: Definitions, s: Schema, v: Json, path: seq<PathStep>)
    requires SchemasOk(defs, s) && WrapsUnder(defs, s, v)
    requires SchemasOk(defs, ItemSchema(Governing(defs, s, v)))
    requires Settles(defs, ItemSchema(Governing(defs, s, v)), Text(Strip(v.text)), path + [Index(0)])
    ensures Settles(defs, s, v, path)
  {
    var item := ItemSchema(Governing(defs, s, v));
    var inner := Visit(defs, Text(Strip(v.text)), item, path + [Index(0)]).value;
    VisitOfWrapped(defs, s, v, path);
    SameNodeAfterReshape(defs, s, v, List([inner]));
    VisitOfItems(defs, inner, [], item, path, 0);
    assert [inner] + [] == [inner];
    VisitOfList(defs, s, [inner], path);
  }

  lemma {:induction false} VisitSettles(defs: Definitions, v: Json, s: Schema, path: seq<PathStep>)
    requires SchemasOk(defs, s)
    ensures Settles(defs, s, v, path)
    decreases Size(v), if WrapsUnder(defs, s, v) then 1 else 0
  {
    var node := Governing(defs, s, v);
    GoverningIsOk(defs, s, v);
    ItemIsOk(defs, node);
    RelabellingSettles(v, node);
    if Joins(node, v) {
      JoinSettles(defs, s, v, path);
    } else if Wraps(defs, node, v) {
      WrappedTextIsPlain(defs, s, v);
      VisitSettles(defs, Text(Strip(v.text)), ItemSchema(node), path + [Index(0)]);
      WrapSettles(defs, s, v, path);
    } else if node.kind == Some("object") && v.Object? {
      FieldsSettle(defs, v.fields, node, path);
      SameNodeAfterReshape(defs, s, v, Visit(defs, v, s, path).value);
    } else if node.kind == Some("array") && v.List? {
      ItemsSettle(defs, v.items, ItemSchema(node), path, 0);
      SameNodeAfterReshape(defs, s, v, Visit(defs, v, s, path).value);
    } else {
      LeafSettles(defs, s, v, path);
    }
  }

  lemma LeafSettles(defs: Definitions, s: Schema, v: Json, path: seq<PathStep>)
    requires SchemasOk(defs, s)
    requires var node := Governing(defs, s, v);
      && !Joins(node, v) && !Wraps(defs, node, v)
      && !(node.kind == Some("object") && v.Object?) && !(node.kind == Some("array") && v.List?)
    ensures Settles(defs, s, v, path)
  {
    var node := Governing(defs, s, v);
    GoverningIsOk(defs, s, v);
    assert NodeOk(defs, node);
    RelabellingSettles(v, node);
    var v1 := Relabelled(v, CanonicalEnum(v, node));
    assert node.enumeration.Some? ==> node.normalize == {};
    SameNodeAfterReshape(defs, s, v, v1);
  }

  ghost predicate ItemsSettled(defs: Definitions, items: seq<Json>, s: Schema, path: seq<PathStep>, index: nat)
    requires SchemasOk(defs, s)
  {
    var (items', changes) := VisitItems(defs, items, s, path, index);
    && (changes == [] <==> items' == items)
    && VisitItems(defs, items', s, path, index) == (items', [])
  }

  ghost predicate FieldsSettled(defs: Definitions, fields: seq<Field>, node: Schema, path: seq<PathStep>)
    requires SchemasOk(defs, node)
  {
    var (fields', changes) := VisitFields(defs, fields, node, path);
    && (changes == [] <==> fields' == fields)
    && VisitFields(defs, fields', node, path) == (fields', [])
  }

  lemma ItemsCompose(defs: Definitions, first: Json, rest: seq<Json>, s: Schema, path: seq<PathStep>, index: nat)
    requires SchemasOk(defs, s) && Settles(defs, s, first, path + [Index(index)])
    requires ItemsSettled(defs, rest, s, path, index + 1)
    ensures ItemsSettled(defs, [first] + rest, s, path, index)
  {
    var first' := Visit(defs, first, s, path + [Index(index)]).value;
    var (rest', changes) := VisitItems(defs, rest, s, path, index + 1);
    VisitOfItems(defs, first, rest, s, path, index);
    VisitOfItems(defs, first', rest', s, path, index);
    var again := VisitItems(defs, [first'] + rest', s, path, index);
    assert VisitItems(defs, [first] + rest, s, path, index).0 == [first'] + rest';
    assert Visit(defs, first', s, path + [Index(index)]) == Visited(first', []);
    assert again.0 == [first'] + rest' && again.1 == [];
    assert [first'] + rest' == [first] + rest ==> ([first'] + rest')[0] == first && ([first'] + rest')[1..] == rest;
    assert ([first'] + rest')[1..] == rest' && ([first] + rest)[1..] == rest;
  }

  lemma FieldsCompose(defs: Definitions, first: Field, rest: seq<Field>, node: Schema, path: seq<PathStep>)
    requires SchemasOk(defs, node) && SchemasOk(defs, PropertySchema(node.properties, first.key))
    requires Settles(defs, PropertySchema(node.properties, first.key), first.value, path + [Key(first.key)])
    requires FieldsSettled(defs, rest, node, path)
    ensures FieldsSettled(defs, [first] + rest, node, path)
  {
    var first' := Field(first.key, Visit(defs, first.value, PropertySchema(node.properties, first.key),
                                         path + [Key(first.key)]).value);
    var (rest', changes) := VisitFields(defs, rest, node, path);
    VisitOfFields(defs, first, rest, node, path);
    VisitOfFields(defs, first', rest', node, path);
    var again := VisitFields(defs, [first'] + rest', node, path);
    assert VisitFields(defs, [first] + rest, node, path).0 == [first'] + rest';
    var one := Visit(defs, first'.value, PropertySchema(node.properties, first'.key), path + [Key(first'.key)]);
    assert one == Visited(first'.value, []) && Field(first'.key, one.value) == first';
    assert again.0 == [first'] + rest' && again.1 == [];
    assert [first'] + rest' == [first] + rest ==> ([first'] + rest')[0] == first && ([first'] + rest')[1..] == rest;
    assert ([first'] + rest')[1..] == rest' && ([first] + rest)[1..] == rest;
  }

  lemma {:induction false} ItemsSettle(defs: Definitions, items: seq<Json>, s: Schema, path: seq<PathStep>, index: nat)
    requires SchemasOk(defs, s)
    ensures ItemsSettled(defs, items, s, path, index)
    decreases SizeOfItems(items), 0
  {
    if items != [] {
      VisitSettles(defs, items[0], s, path + [Index(index)]);
      ItemsSettle(defs, items[1..], s, path, index + 1);
      assert items == [items[0]] + items[1..];
      ItemsCompose(defs, items[0], items[1..], s, path, index);
    }
  }

  lemma {:induction false} FieldsSettle(defs: Definitions, fields: seq<Field>, node: Schema, path: seq<PathStep>)
    requires SchemasOk(defs, node)
    ensures FieldsSettled(defs, fields, node, path)
    decreases SizeOfFields(fields), 0
  {
    if fields != [] {
      PropertyIsOk(defs, node.properties, fields[0].key);
      VisitSettles(defs, fields[0].value, PropertySchema(node.properties, fields[0].key), path + [Key(fields[0].key)]);
      FieldsSettle(defs, fields[1..], node, path);
      assert fields == [fields[0]] + fields[1..];
      FieldsCompose(defs, fields[0], fields[1..], node, path);
    }
  }
}
