/** The generic walk that checks evidence references, and the zone reference check. */
module References {
  import opened Domain
  import opened JsonSchemas
  import opened Normalizer

  datatype RefFault = RefFault(code: string, path: seq<PathStep>, reference: string)

  const DUPLICATE := "duplicate_evidence_reference"
  const UNKNOWN := "unknown_evidence_reference"

  predicate IsRefsKey(key: string) {
    |key| >= 5 && key[|key| - 5..] == "_refs"
  }

  predicate AllTexts(v: Json) {
    v.List? && forall item | item in v.items :: item.Text?
  }

  function TextsOf(items: seq<Json>): seq<string>
    requires forall item | item in items :: item.Text?
  {
    seq(|items|, i requires 0 <= i < |items| => items[i].text)
  }

  /** What a dumped model guarantees: a field named `*_refs` holds a list of texts. */
  predicate WellTyped(v: Json) {
    match v
    case Object(fields) => forall i | 0 <= i < |fields| :: WellTypedField(fields[i])
    case List(items) => forall i | 0 <= i < |items| :: WellTyped(items[i])
    case _ => true
  }

  predicate WellTypedField(f: Field) {
    if IsRefsKey(f.key) then AllTexts(f.value) else WellTyped(f.value)
  }

  // ---- what is accepted ----

  ghost predicate GoodRefs(refs: seq<string>, allowed: set<string>) {
    && (forall i, j | 0 <= i < j < |refs| :: refs[i] != refs[j])
    && (forall i | 0 <= i < |refs| :: refs[i] in allowed)
  }

  /** Every reference list anywhere in the value is free of duplicates and names catalog entries only. */
  ghost predicate RefsGood(v: Json, allowed: set<string>)
    requires WellTyped(v)
  {
    match v
    case Object(fields) => forall i | 0 <= i < |fields| :: FieldGood(fields[i], allowed)
    case List(items) => forall i | 0 <= i < |items| :: RefsGood(items[i], allowed)
    case _ => true
  }

  ghost predicate FieldGood(f: Field, allowed: set<string>)
    requires WellTypedField(f)
  {
    if IsRefsKey(f.key) then GoodRefs(TextsOf(f.value.items), allowed) else RefsGood(f.value, allowed)
  }

  // ---- the fault that is raised ----

  /** The first reference that repeats an earlier one or is unknown. */
  function FaultInRefs(refs: seq<string>, i: nat, allowed: set<string>, path: seq<PathStep>): Option<RefFault>
    requires i <= |refs|
    decreases |refs| - i
  {
    if i == |refs| then None
    else if refs[i] in refs[..i] then Some(RefFault(DUPLICATE, path + [Index(i)], refs[i]))
    else if refs[i] !in allowed then Some(RefFault(UNKNOWN, path + [Index(i)], refs[i]))
    else FaultInRefs(refs, i + 1, allowed, path)
  }

  function FirstFault(v: Json, allowed: set<string>, path: seq<PathStep>): Option<RefFault>
    requires WellTyped(v)
    decreases Size(v), 0
  {
    match v
    case Object(fields) => FaultInFields(fields, allowed, path)
    case List(items) => FaultInItems(items, 0, allowed, path)
    case _ => None
  }

  function FaultInField(f: Field, allowed: set<string>, path: seq<PathStep>): Option<RefFault>
    requires WellTypedField(f)
    decreases Size(f.value), 1
  {
    if IsRefsKey(f.key) then FaultInRefs(TextsOf(f.value.items), 0, allowed, path + [Key(f.key)])
    else FirstFault(f.value, allowed, path + [Key(f.key)])
  }

  function FaultInFields(fields: seq<Field>, allowed: set<string>, path: seq<PathStep>): Option<RefFault>
    requires forall i | 0 <= i < |fields| :: WellTypedField(fields[i])
    decreases SizeOfFields(fields)
  {
    if fields == [] then None
    else
      var fault := FaultInField(fields[0], allowed, path);
      if fault.Some? then fault else FaultInFields(fields[1..], allowed, path)
  }

  function FaultInItems(items: seq<Json>, index: nat, allowed: set<string>, path: seq<PathStep>): Option<RefFault>
    requires forall i | 0 <= i < |items| :: WellTyped(items[i])
    decreases SizeOfItems(items)
  {
    if items == [] then None
    else
      var fault := FirstFault(items[0], allowed, path + [Index(index)]);
      if fault.Some? then fault else FaultInItems(items[1..], index + 1, allowed, path)
  }

  // ---- the walk itself ----

  /** The loop over one reference list, with its `seen` set. */
  method CheckRefs(refs: seq<string>, allowed: set<string>, path: seq<PathStep>) returns (fault: Option<RefFault>)
    ensures fault == FaultInRefs(refs, 0, allowed, path)
  {
    var seen: set<string> := {};
    var i := 0;
    while i < |refs|
      invariant 0 <= i <= |refs|
      invariant seen == set r | r in refs[..i]
      invariant FaultInRefs(refs, 0, allowed, path) == FaultInRefs(refs, i, allowed, path)
    {
      if refs[i] in seen {
        return Some(RefFault(DUPLICATE, path + [Index(i)], refs[i]));
      }
      seen := seen + {refs[i]};
      if refs[i] !in allowed {
        return Some(RefFault(UNKNOWN, path + [Index(i)], refs[i]));
      }
      assert refs[..i + 1] == refs[..i] + [refs[i]];
      i := i + 1;
    }
    return None;
  }

  method Walk(v: Json, allowed: set<string>, path: seq<PathStep>) returns (fault: Option<RefFault>)
    requires WellTyped(v)
    ensures fault == FirstFault(v, allowed, path)
    decreases Size(v), 0
  {
    fault := None;
    if v.Object? {
      fault := WalkFields(v.fields, allowed, path);
    } else if v.List? {
      fault := WalkItems(v.items, 0, allowed, path);
    }
  }

  method WalkFields(fields: seq<Field>, allowed: set<string>, path: seq<PathStep>) returns (fault: Option<RefFault>)
    requires forall i | 0 <= i < |fields| :: WellTypedField(fields[i])
    ensures fault == FaultInFields(fields, allowed, path)
    decreases SizeOfFields(fields), 0
  {
    if fields == [] {
      return None;
    }
    if IsRefsKey(fields[0].key) {
      fault := CheckRefs(TextsOf(fields[0].value.items), allowed, path + [Key(fields[0].key)]);
    } else {
      fault := Walk(fields[0].value, allowed, path + [Key(fields[0].key)]);
    }
    if fault.None? {
      fault := WalkFields(fields[1..], allowed, path);
    }
  }

  method WalkItems(items: seq<Json>, index: nat, allowed: set<string>, path: seq<PathStep>)
    returns (fault: Option<RefFault>)
    requires forall i | 0 <= i < |items| :: WellTyped(items[i])
    ensures fault == FaultInItems(items, index, allowed, path)
    decreases SizeOfItems(items), 0
  {
    if items == [] {
      return None;
    }
    fault := Walk(items[0], allowed, path + [Index(index)]);
    if fault.None? {
      fault := WalkItems(items[1..], index + 1, allowed, path);
    }
  }

  // ---- the walk accepts exactly the good values ----

  lemma {:induction false} RefsAcceptExactly(refs: seq<string>, i: nat, allowed: set<string>, path: seq<PathStep>)
    requires i <= |refs| && GoodRefs(refs[..i], allowed)
    ensures FaultInRefs(refs, i, allowed, path).None? <==> GoodRefs(refs, allowed)
    decreases |refs| - i
  {
    if i == |refs| {
      assert refs[..i] == refs;
    } else if refs[i] in refs[..i] {
      var k :| 0 <= k < i && refs[..i][k] == refs[i];
      assert refs[k] == refs[i];
    } else if refs[i] in allowed {
      assert refs[..i + 1] == refs[..i] + [refs[i]];
      RefsAcceptExactly(refs, i + 1, allowed, path);
    }
  }

  /** The walk raises nothing exactly when every reference list in the value is duplicate-free and known. */
  lemma {:induction false} WalkAcceptsExactly(v: Json, allowed: set<string>, path: seq<PathStep>)
    requires WellTyped(v)
    ensures FirstFault(v, allowed, path).None? <==> RefsGood(v, allowed)
    decreases Size(v), 0
  {
    match v
    case Object(fields) => FieldsAcceptExactly(fields, allowed, path);
    case List(items) => ItemsAcceptExactly(items, 0, allowed, path);
    case _ =>
  }

  lemma {:induction false} FieldAcceptsExactly(f: Field, allowed: set<string>, path: seq<PathStep>)
    requires WellTypedField(f)
    ensures FaultInField(f, allowed, path).None? <==> FieldGood(f, allowed)
    decreases Size(f.value), 1
  {
    if IsRefsKey(f.key) {
      RefsAcceptExactly(TextsOf(f.value.items), 0, allowed, path + [Key(f.key)]);
    } else {
      WalkAcceptsExactly(f.value, allowed, path + [Key(f.key)]);
    }
  }

  lemma {:induction false} FieldsAcceptExactly(fields: seq<Field>, allowed: set<string>, path: seq<PathStep>)
    requires forall i | 0 <= i < |fields| :: WellTypedField(fields[i])
    ensures FaultInFields(fields, allowed, path).None?
       <==> forall i | 0 <= i < |fields| :: FieldGood(fields[i], allowed)
    decreases SizeOfFields(fields)
  {
    if fields != [] {
      var rest := fields[1..];
      FieldAcceptsExactly(fields[0], allowed, path);
      FieldsAcceptExactly(rest, allowed, path);
      assert forall i | 0 <= i < |rest| :: rest[i] == fields[i + 1];
      assert forall i | 1 <= i < |fields| :: fields[i] == rest[i - 1];
    }
  }

  lemma {:induction false} ItemsAcceptExactly(items: seq<Json>, index: nat, allowed: set<string>, path: seq<PathStep>)
    requires forall i | 0 <= i < |items| :: WellTyped(items[i])
    ensures FaultInItems(items, index, allowed, path).None?
       <==> forall i | 0 <= i < |items| :: RefsGood(items[i], allowed)
    decreases SizeOfItems(items)
  {
    if items != [] {
      var rest := items[1..];
      WalkAcceptsExactly(items[0], allowed, path + [Index(index)]);
      ItemsAcceptExactly(rest, index + 1, allowed, path);
      assert forall i | 0 <= i < |rest| :: rest[i] == items[i + 1];
      assert forall i | 1 <= i < |items| :: items[i] == rest[i - 1];
    }
  }

  // ---- which fault it is ----

  /** The first reference that is faulty after good ones. */
  ghost predicate FirstFaulty(refs: seq<string>, k: nat, allowed: set<string>) {
    k < |refs| && GoodRefs(refs[..k], allowed) && (refs[k] in refs[..k] || refs[k] !in allowed)
  }

  /** It is named with its position: as a duplicate if it occurs before, as unknown otherwise. */
  lemma {:induction false} FaultIsTheFirst(refs: seq<string>, i: nat, allowed: set<string>, path: seq<PathStep>)
    returns (k: nat)
    requires i <= |refs| && GoodRefs(refs[..i], allowed) && FaultInRefs(refs, i, allowed, path).Some?
    ensures FirstFaulty(refs, k, allowed) && i <= k
    ensures var fault := FaultInRefs(refs, i, allowed, path).value;
      && fault.reference == refs[k] && fault.path == path + [Index(k)]
      && fault.code == if exists j | 0 <= j < k :: refs[j] == refs[k] then "duplicate_evidence_reference"
                       else "unknown_evidence_reference"
    decreases |refs| - i
  {
    if refs[i] in refs[..i] || refs[i] !in allowed {
      k := i;
      if refs[i] in refs[..i] {
        var j :| 0 <= j < i && refs[..i][j] == refs[i];
        assert refs[j] == refs[i];
      }
    } else {
      assert refs[..i + 1] == refs[..i] + [refs[i]];
      k := FaultIsTheFirst(refs, i + 1, allowed, path);
    }
  }

  /** Following the steps leads from the value to the target. */
  ghost predicate Leads(v: Json, steps: seq<PathStep>, target: Json)
    decreases |steps|
  {
    if steps == [] then v == target
    else match steps[0]
         case Key(key) =>
           v.Object? && exists i | 0 <= i < |v.fields| ::
             v.fields[i].key == key && Leads(v.fields[i].value, steps[1..], target)
         case Index(n) => v.List? && n < |v.items| && Leads(v.items[n], steps[1..], target)
  }

  /** The fault's path leads to the reference it names. */
  lemma {:induction false} FaultPathLeadsToIt(v: Json, allowed: set<string>, path: seq<PathStep>)
    returns (steps: seq<PathStep>)
    requires WellTyped(v) && FirstFault(v, allowed, path).Some?
    ensures var fault := FirstFault(v, allowed, path).value;
      fault.path == path + steps && Leads(v, steps, Text(fault.reference))
    decreases Size(v), 0
  {
    if v.Object? {
      steps := FaultAmongFields(v.fields, v.fields, allowed, path);
    } else {
      steps := FaultAmongItems(v.items, 0, v.items, allowed, path);
    }
  }

  lemma {:induction false} FaultAmongFields(all: seq<Field>, fields: seq<Field>, allowed: set<string>,
                                            path: seq<PathStep>)
    returns (steps: seq<PathStep>)
    requires forall i | 0 <= i < |fields| :: WellTypedField(fields[i]) && fields[i] in all
    requires FaultInFields(fields, allowed, path).Some?
    ensures var fault := FaultInFields(fields, allowed, path).value;
      fault.path == path + steps && Leads(Object(all), steps, Text(fault.reference))
    decreases SizeOfFields(fields)
  {
    if FaultInField(fields[0], allowed, path).Some? {
      var rest := FaultInOneField(fields[0], allowed, path);
      steps := [Key(fields[0].key)] + rest;
      assert steps[1..] == rest;
      var i :| 0 <= i < |all| && all[i] == fields[0];
      assert Object(all).fields[i].key == fields[0].key;
      assert path + steps == path + [Key(fields[0].key)] + rest;
    } else {
      steps := FaultAmongFields(all, fields[1..], allowed, path);
    }
  }

  lemma {:induction false} FaultInOneField(f: Field, allowed: set<string>, path: seq<PathStep>)
    returns (rest: seq<PathStep>)
    requires WellTypedField(f) && FaultInField(f, allowed, path).Some?
    ensures var fault := FaultInField(f, allowed, path).value;
      fault.path == path + [Key(f.key)] + rest && Leads(f.value, rest, Text(fault.reference))
    decreases Size(f.value), 1
  {
    if IsRefsKey(f.key) {
      var texts := TextsOf(f.value.items);
      var k := FaultIsTheFirst(texts, 0, allowed, path + [Key(f.key)]);
      rest := [Index(k)];
      assert rest[1..] == [] && texts[k] == f.value.items[k].text;
      assert f.value.items[k] in f.value.items;
    } else {
      rest := FaultPathLeadsToIt(f.value, allowed, path + [Key(f.key)]);
    }
  }

  lemma {:induction false} FaultAmongItems(all: seq<Json>, index: nat, items: seq<Json>, allowed: set<string>,
                                           path: seq<PathStep>)
    returns (steps: seq<PathStep>)
    requires index <= |all| && items == all[index..]
    requires forall i | 0 <= i < |items| :: WellTyped(items[i])
    requires FaultInItems(items, index, allowed, path).Some?
    ensures var fault := FaultInItems(items, index, allowed, path).value;
      fault.path == path + steps && Leads(List(all), steps, Text(fault.reference))
    decreases SizeOfItems(items)
  {
    if FirstFault(items[0], allowed, path + [Index(index)]).Some? {
      var rest := FaultPathLeadsToIt(items[0], allowed, path + [Index(index)]);
      steps := [Index(index)] + rest;
      assert steps[1..] == rest && all[index] == items[0];
      assert path + steps == path + [Index(index)] + rest;
    } else {
      steps := FaultAmongItems(all, index + 1, items[1..], allowed, path);
    }
  }

  // ---- zone references ----

  /** One pass of the loop in `validate_zone_references`: nothing is raised exactly when the reference is present
    * if and only if there is something to refer to, and refers to it. */
  function ZoneFault(unknown: string, reference: Option<string>, allowed: set<string>): (fault: Option<string>)
    ensures fault.None?
       <==> (reference.None? <==> allowed == {}) && (reference.Some? ==> reference.value in allowed)
  {
    if allowed == {} && reference.Some? then Some("reference_must_be_null_when_catalog_empty")
    else if allowed != {} && reference.None? then Some("reference_required_but_missing")
    else if reference.Some? && reference.value !in allowed then Some(unknown)
    else None
  }
}
