/** JSON values and the schema keywords that the shape normaliser reads. */
module JsonSchemas {
  import opened Domain

  datatype Json =
    | Null
    | Bool(truth: bool)
    | Number(number: real)
    | Text(text: string)
    | List(items: seq<Json>)
    | Object(fields: seq<Field>)

  datatype Field = Field(key: string, value: Json)

  datatype Schema = Schema(
    ref: Option<string>,
    anyOf: seq<Schema>,
    kind: Option<string>,
    enumeration: Option<seq<Json>>,
    title: Option<string>,
    normalize: set<string>,
    properties: seq<Property>,
    items: Option<Schema>)

  datatype Property = Property(key: string, schema: Schema)

  const EMPTY_SCHEMA := Schema(None, [], None, None, None, {}, [], None)

  type Definitions = map<string, Schema>

  const DEFS_PREFIX := "#/$defs/"
  const JOIN := "string_list_to_string"
  const WRAP := "string_to_string_list"

  function Size(v: Json): nat {
    match v
    case List(items) => 1 + SizeOfItems(items)
    case Object(fields) => 1 + SizeOfFields(fields)
    case _ => 1
  }

  function SizeOfItems(items: seq<Json>): nat {
    if items == [] then 0 else 1 + Size(items[0]) + SizeOfItems(items[1..])
  }

  function SizeOfFields(fields: seq<Field>): nat {
    if fields == [] then 0 else 1 + Size(fields[0].value) + SizeOfFields(fields[1..])
  }

  function TypeName(v: Json): string {
    match v
    case Null => "null"
    case Bool(_) => "boolean"
    case Number(_) => "number"
    case Text(_) => "string"
    case List(_) => "array"
    case Object(_) => "object"
  }

  /** One hop through a local reference; anything else stays as it is. */
  function Resolve(defs: Definitions, schema: Schema): Schema {
    if schema.ref.Some? && DEFS_PREFIX <= schema.ref.value && schema.ref.value[|DEFS_PREFIX|..] in defs then
      defs[schema.ref.value[|DEFS_PREFIX|..]]
    else schema
  }

  function FirstOfKind(branches: seq<Schema>, kind: string): Option<Schema> {
    if branches == [] then None
    else if branches[0].kind == Some(kind) then Some(branches[0])
    else FirstOfKind(branches[1..], kind)
  }

  /** `_schema_branch_for_value` (no `anyOf` and an empty one behave alike): the first branch of the value's type, else
    * the first branch. */
  function BranchFor(schema: Schema, v: Json): Schema {
    if schema.anyOf == [] then schema
    else
      match FirstOfKind(schema.anyOf, TypeName(v))
      case Some(branch) => branch
      case None => schema.anyOf[0]
  }

  /** The schema node that governs a value. */
  function Governing(defs: Definitions, schema: Schema, v: Json): Schema {
    Resolve(defs, BranchFor(Resolve(defs, schema), v))
  }

  function PropertySchema(properties: seq<Property>, key: string): Schema {
    if properties == [] then EMPTY_SCHEMA
    else if properties[0].key == key then properties[0].schema
    else PropertySchema(properties[1..], key)
  }

  function ItemSchema(schema: Schema): Schema {
    if schema.items.Some? then schema.items.value else EMPTY_SCHEMA
  }

  // ---- text ----

  predicate IsSpace(c: char) {
    c in {' ', '\t', '\n', '\r', '\U{b}', '\U{c}', '\U{1c}', '\U{1d}', '\U{1e}', '\U{1f}', '\U{85}', '\U{a0}'}
  }

  function StripLeft(s: string): string {
    if s != "" && IsSpace(s[0]) then StripLeft(s[1..]) else s
  }

  function StripRight(s: string): string {
    if s != "" && IsSpace(s[|s| - 1]) then StripRight(s[..|s| - 1]) else s
  }

  function Strip(s: string): string {
    StripRight(StripLeft(s))
  }

  predicate IsTokenChar(c: char) {
    'a' <= c <= 'z' || '0' <= c <= '9'
  }

  function Lowered(c: char): char {
    if 'A' <= c <= 'Z' then c - 'A' + 'a' else c
  }

  /** `enum_token`: case-folded, with everything but letters and digits removed. */
  function EnumToken(s: string): string {
    if s == "" then ""
    else (if IsTokenChar(Lowered(s[0])) then [Lowered(s[0])] else "") + EnumToken(s[1..])
  }

  lemma {:induction false} PlainTokensStay(s: string)
    requires forall c | c in s :: IsTokenChar(c)
    ensures EnumToken(s) == s
  {
    if s != "" {
      PlainTokensStay(s[1..]);
      assert s[0] in s && s == [s[0]] + s[1..];
    }
  }
}
