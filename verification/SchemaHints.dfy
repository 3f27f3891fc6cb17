/**
 What the hint list means: it does not depend on the spare call depth, and every hint leads to the
 place in the value it complains about.
 */
module SchemaHints {
  import opened Prelude
  import opened Json
  import opened SchemaDocument
  import opened SchemaNodes
  import opened SchemaValidator
  import opened SchemaSoundness

  // ----- more depth changes nothing -----

  /** Once a call returns, a deeper one returns the same hints. */
  lemma {:induction false} DepthIrrelevant(d: nat, e: nat, root: Value, schema: Value, v: Value, path: Path)
    requires d <= e && Validate(d, root, schema, v, path).Some?
    ensures Validate(e, root, schema, v, path) == Validate(d, root, schema, v, path)
    decreases d, 4
  {
    hide ValidatorShape, Validate, ValidateByType, ValidateType, CombineHints, ValidateEach, Target;
    ReturnedDepth(d, root, schema, v, path);
    var shape := ValidatorShape(schema);
    if shape.Reference? {
      ValidateReference(d, root, schema, v, path);
      ValidateReference(e, root, schema, v, path);
      if Target(root, shape.ref).Some? {
        DepthIrrelevant(d - 1, e - 1, root, Target(root, shape.ref).value, v, path);
      }
    } else if shape.Combine? {
      ValidateCombine(d, root, schema, v, path);
      ValidateCombine(e, root, schema, v, path);
      CombinedOutcome(d - 1, root, shape.how, shape.variants, v, path);
      EachMore(d - 1, e - 1, root, shape.variants, v, path);
    } else if shape.Plain? {
      ValidatePlain(d, root, schema, v, path);
      ValidatePlain(e, root, schema, v, path);
      if ValidateType(Get(schema, "type"), v, path) == [] {
        ByTypeMore(d - 1, e - 1, root, schema, v, path);
      }
    } else {
      ValidateLeaf(d, root, schema, v, path);
      ValidateLeaf(e, root, schema, v, path);
    }
  }

  lemma {:induction false} EachMore(d: nat, e: nat, root: Value, schemas: seq<Value>, v: Value, path: Path)
    requires d <= e && forall i :: 0 <= i < |schemas| ==> Validate(d, root, schemas[i], v, path).Some?
    ensures ValidateEach(e, root, schemas, v, path) == ValidateEach(d, root, schemas, v, path)
    decreases d, 5, |schemas|
  {
    hide Validate;
    if schemas != [] {
      assert Validate(d, root, schemas[0], v, path).Some?;
      DepthIrrelevant(d, e, root, schemas[0], v, path);
      assert forall i :: 0 <= i < |schemas| - 1 ==> schemas[1..][i] == schemas[i + 1];
      EachMore(d, e, root, schemas[1..], v, path);
    }
  }

  lemma {:induction false} ByTypeMore(d: nat, e: nat, root: Value, schema: Value, v: Value, path: Path)
    requires d <= e && ValidateByType(d, root, schema, v, path).Some?
    ensures ValidateByType(e, root, schema, v, path) == ValidateByType(d, root, schema, v, path)
    decreases d, 3
  {
    hide Dispatch, ValidateObject, ValidateArray, ValidateNumber;
    if ValidateObject(d, root, schema, v, path).Some? { ObjectMore(d, e, root, schema, v, path); }
    if ValidateArray(d, root, schema, v, path).Some? { ArrayMore(d, e, root, schema, v, path); }
  }

  lemma {:induction false} ArrayMore(d: nat, e: nat, root: Value, schema: Value, v: Value, path: Path)
    requires d <= e && ValidateArray(d, root, schema, v, path).Some?
    ensures ValidateArray(e, root, schema, v, path) == ValidateArray(d, root, schema, v, path)
    decreases d, 2
  {
    hide ValidateItems;
    if v.Arr? && Truthy(Get(schema, "items")) {
      ItemsMore(d, e, root, Get(schema, "items").value, v.items, path, 0);
    }
  }

  lemma {:induction false} ItemsMore(d: nat, e: nat, root: Value, schema: Value, items: seq<Value>, path: Path,
                                     from: nat)
    requires d <= e && from <= |items| && ValidateItems(d, root, schema, items, path, from).Some?
    ensures ValidateItems(e, root, schema, items, path, from) == ValidateItems(d, root, schema, items, path, from)
    decreases d, 1, |items| - from
  {
    hide Validate;
    if from < |items| {
      DepthIrrelevant(d - 1, e - 1, root, schema, items[from], path + [Index(from)]);
      ItemsMore(d, e, root, schema, items, path, from + 1);
    }
  }

  lemma {:induction false} ObjectMore(d: nat, e: nat, root: Value, schema: Value, v: Value, path: Path)
    requires d <= e && ValidateObject(d, root, schema, v, path).Some?
    ensures ValidateObject(e, root, schema, v, path) == ValidateObject(d, root, schema, v, path)
    decreases d, 2
  {
    hide ValidateProperties, ValidateAdditional;
    if v.Obj? {
      var properties := Entries(Get(schema, "properties"));
      PropertiesMore(d, e, root, properties, v.fields, path);
      AdditionalMore(d, e, root, Get(schema, "additionalProperties"), properties, v.fields, path);
    }
  }

  lemma {:induction false} PropertiesMore(d: nat, e: nat, root: Value, properties: seq<Field<real>>,
                                          fields: seq<Field<real>>, path: Path)
    requires d <= e && ValidateProperties(d, root, properties, fields, path).Some?
    ensures ValidateProperties(e, root, properties, fields, path)
         == ValidateProperties(d, root, properties, fields, path)
    decreases d, 1, |properties|
  {
    hide Validate;
    if properties != [] {
      var own := Lookup(fields, properties[0].key);
      assert PropertyOutcome(d, root, properties[0], fields, path).Some?;
      if own.Some? {
        DepthIrrelevant(d - 1, e - 1, root, properties[0].value, own.value, path + [Key(properties[0].key)]);
      }
      PropertiesMore(d, e, root, properties[1..], fields, path);
    }
  }

  lemma {:induction false} AdditionalMore(d: nat, e: nat, root: Value, additional: Option<Value>,
                                          properties: seq<Field<real>>, fields: seq<Field<real>>, path: Path)
    requires d <= e && ValidateAdditional(d, root, additional, properties, fields, path).Some?
    ensures ValidateAdditional(e, root, additional, properties, fields, path)
         == ValidateAdditional(d, root, additional, properties, fields, path)
    decreases d, 1, |fields|
  {
    hide Validate;
    if fields != [] {
      assert MemberOutcome(d, root, additional, properties, fields[0], path).Some?;
      if !HasKey(properties, fields[0].key) && additional.Some? && IsObjectLike(additional.value) {
        DepthIrrelevant(d - 1, e - 1, root, additional.value, fields[0].value, path + [Key(fields[0].key)]);
      }
      AdditionalMore(d, e, root, additional, properties, fields[1..], path);
    }
  }

  // ----- where hints point -----

  function Step(v: Value, segment: Segment): Option<Value> {
    match segment
    case Key(key) => if v.Obj? then Lookup(v.fields, key) else None
    case Index(i) => if v.Arr? && i < |v.items| then Some(v.items[i]) else None
  }

  /** The value a path leads to. */
  function At(v: Value, path: Path): Option<Value> {
    if path == [] then Some(v)
    else if Step(v, path[0]).None? then None
    else At(Step(v, path[0]).value, path[1..])
  }

  /** The hint lies below `path`, and what it reports is what stands there; nothing, if it is missing. */
  ghost predicate Located(h: Hint, v: Value, path: Path) {
    path <= h.path && h.got == At(v, h.path[|path|..])
  }

  ghost predicate AllLocated(r: Outcome, v: Value, path: Path) {
    r.Some? ==> forall h :: h in r.value ==> Located(h, v, path)
  }

  lemma LocatedBelow(h: Hint, v: Value, segment: Segment, path: Path)
    requires Step(v, segment).Some? && Located(h, Step(v, segment).value, path + [segment])
    ensures Located(h, v, path)
  {
    var below := h.path[|path|..];
    assert below[0] == h.path[|path|] == (path + [segment])[|path|];
    assert below[1..] == h.path[|path| + 1..];
    assert path == (path + [segment])[..|path|] == h.path[..|path|];
  }

  lemma AllLocatedBelow(r: Outcome, v: Value, segment: Segment, path: Path)
    requires Step(v, segment).Some? && AllLocated(r, Step(v, segment).value, path + [segment])
    ensures AllLocated(r, v, path)
  {
    if r.Some? {
      forall h | h in r.value ensures Located(h, v, path) {
        LocatedBelow(h, v, segment, path);
      }
    }
  }

  lemma LocatedHere(expected: Expected, v: Value, path: Path, message: Option<string>)
    ensures Located(Hint(path, expected, Some(v), message), v, path)
  {
    assert path[|path|..] == [];
  }

  lemma LocatedMember(expected: Expected, got: Option<Value>, v: Value, path: Path, key: string,
                      message: Option<string>)
    requires v.Obj? && got == Lookup(v.fields, key)
    ensures Located(Hint(path + [Key(key)], expected, got, message), v, path)
  {
    assert (path + [Key(key)])[|path|..] == [Key(key)];
    assert [Key(key)][1..] == [];
  }

  lemma BothLocated(a: Outcome, b: Outcome, v: Value, path: Path)
    requires AllLocated(a, v, path) && AllLocated(b, v, path)
    ensures AllLocated(Both(a, b), v, path)
  {
  }

  lemma {:induction false} FlattenIn(lists: seq<seq<Hint>>, h: Hint)
    requires h in Flatten(lists)
    ensures exists i :: 0 <= i < |lists| && h in lists[i]
  {
    if h !in lists[0] {
      FlattenIn(lists[1..], h);
      var i :| 0 <= i < |lists[1..]| && h in lists[1..][i];
      assert h in lists[i + 1];
    }
  }

  /** Every hint names a place in the value, and the value found there. */
  lemma {:induction false} HintsLocated(depth: nat, root: Value, schema: Value, v: Value, path: Path)
    requires WellFormed(v)
    ensures AllLocated(Validate(depth, root, schema, v, path), v, path)
    decreases depth, 4
  {
    hide *;
    if depth == 0 {
      NothingLocated(root, schema, v, path);
    } else {
      var shape := ValidatorShape(schema);
      if shape.Reference? {
        ValidateReference(depth, root, schema, v, path);
        if Target(root, shape.ref).Some? {
          HintsLocated(depth - 1, root, Target(root, shape.ref).value, v, path);
        } else {
          NoHints(v, path);
        }
      } else if shape.Combine? {
        ValidateCombine(depth, root, schema, v, path);
        CombinedLocated(depth - 1, root, shape.how, shape.variants, v, path);
      } else if shape.Plain? {
        PlainLocated(depth, root, schema, v, path);
      } else {
        LeafLocated(depth, root, schema, v, path);
      }
    }
  }

  lemma NothingLocated(root: Value, schema: Value, v: Value, path: Path)
    ensures AllLocated(Validate(0, root, schema, v, path), v, path)
  {
  }

  lemma NoHints(v: Value, path: Path)
    ensures AllLocated(Some([]), v, path)
  {
  }

  lemma {:induction false} PlainLocated(depth: nat, root: Value, schema: Value, v: Value, path: Path)
    requires depth > 0 && WellFormed(v) && ValidatorShape(schema).Plain?
    ensures AllLocated(Validate(depth, root, schema, v, path), v, path)
    decreases depth, 3
  {
    hide ValidatorShape, Validate, ValidateByType, ValidateType, AllLocated, WellFormed;
    ValidatePlain(depth, root, schema, v, path);
    TypeLocated(Get(schema, "type"), v, path);
    ByTypeLocated(depth - 1, root, schema, v, path);
  }

  lemma LeafLocated(depth: nat, root: Value, schema: Value, v: Value, path: Path)
    requires depth > 0
    requires var shape := ValidatorShape(schema); !shape.Reference? && !shape.Combine? && !shape.Plain?
    ensures AllLocated(Validate(depth, root, schema, v, path), v, path)
  {
    hide ValidatorShape, Validate, Located;
    ValidateLeaf(depth, root, schema, v, path);
    forall expected ensures Located(Hint(path, expected, Some(v), None), v, path) {
      LocatedHere(expected, v, path, None);
    }
  }

  lemma TypeLocated(ty: Option<Value>, v: Value, path: Path)
    ensures AllLocated(Some(ValidateType(ty, v, path)), v, path)
  {
    hide Located;
    forall expected ensures Located(Hint(path, expected, Some(v), None), v, path) {
      LocatedHere(expected, v, path, None);
    }
  }

  lemma {:induction false} CombinedLocated(depth: nat, root: Value, how: Combinator, schemas: seq<Value>, v: Value,
                                           path: Path)
    requires WellFormed(v)
    ensures AllLocated(CombineHints(how, ValidateEach(depth, root, schemas, v, path), v, path), v, path)
    decreases depth, 5
  {
    hide Located, Validate, ValidateEach;
    EachOutcome(depth, root, schemas, v, path);
    var each := ValidateEach(depth, root, schemas, v, path);
    if each.Some? {
      if how.AllOf? {
        forall h | h in Flatten(each.value) ensures Located(h, v, path) {
          FlattenIn(each.value, h);
          var i :| 0 <= i < |each.value| && h in each.value[i];
          HintsLocated(depth, root, schemas[i], v, path);
        }
      } else {
        forall message ensures Located(Hint(path, SomeVariant(how), Some(v), message), v, path) {
          LocatedHere(SomeVariant(how), v, path, message);
        }
      }
    }
  }

  lemma {:induction false} ByTypeLocated(depth: nat, root: Value, schema: Value, v: Value, path: Path)
    requires WellFormed(v)
    ensures AllLocated(ValidateByType(depth, root, schema, v, path), v, path)
    decreases depth, 3
  {
    hide Dispatch, ValidateObject, ValidateArray, Located;
    forall expected ensures Located(Hint(path, expected, Some(v), None), v, path) {
      LocatedHere(expected, v, path, None);
    }
    ObjectLocated(depth, root, schema, v, path);
    ArrayLocated(depth, root, schema, v, path);
  }

  lemma {:induction false} ArrayLocated(depth: nat, root: Value, schema: Value, v: Value, path: Path)
    requires WellFormed(v)
    ensures AllLocated(ValidateArray(depth, root, schema, v, path), v, path)
    decreases depth, 2
  {
    hide ValidateItems, Located;
    LocatedHere(OfType(Str("array")), v, path, None);
    if v.Arr? && Truthy(Get(schema, "items")) {
      ItemsLocated(depth, root, Get(schema, "items").value, v, path, 0);
    }
  }

  lemma {:induction false} ItemsLocated(depth: nat, root: Value, schema: Value, v: Value, path: Path, from: nat)
    requires WellFormed(v) && v.Arr? && from <= |v.items|
    ensures AllLocated(ValidateItems(depth, root, schema, v.items, path, from), v, path)
    decreases depth, 1, |v.items| - from
  {
    hide Validate, Located;
    if from < |v.items| {
      var first := ItemOutcome(depth, root, schema, v.items[from], path, from);
      if depth > 0 {
        HintsLocated(depth - 1, root, schema, v.items[from], path + [Index(from)]);
        AllLocatedBelow(first, v, Index(from), path);
      }
      ItemsLocated(depth, root, schema, v, path, from + 1);
      BothLocated(first, ValidateItems(depth, root, schema, v.items, path, from + 1), v, path);
    }
  }

  lemma {:induction false} ObjectLocated(depth: nat, root: Value, schema: Value, v: Value, path: Path)
    requires WellFormed(v)
    ensures AllLocated(ValidateObject(depth, root, schema, v, path), v, path)
    decreases depth, 2
  {
    hide ValidateProperties, ValidateAdditional, Located;
    LocatedHere(OfType(Str("object")), v, path, None);
    if v.Obj? {
      var properties := Entries(Get(schema, "properties"));
      var additional := Get(schema, "additionalProperties");
      var required := Elements(Get(schema, "required"));
      MissingLocated(required, v, path);
      PropertiesLocated(depth, root, properties, v, path);
      AdditionalLocated(depth, root, additional, properties, v, path, 0);
      assert v.fields[0..] == v.fields;
      var a := ValidateProperties(depth, root, properties, v.fields, path);
      var b := ValidateAdditional(depth, root, additional, properties, v.fields, path);
      BothLocated(a, b, v, path);
      BothLocated(Some(MissingHints(required, v.fields, path)), Both(a, b), v, path);
    }
  }

  lemma {:induction false} MissingLocated(required: seq<Value>, v: Value, path: Path)
    requires v.Obj?
    ensures AllLocated(Some(MissingHints(required, v.fields, path)), v, path)
  {
    hide Located;
    if required != [] {
      MissingLocated(required[1..], v, path);
      var key := RequiredKey(required[0]);
      if !HasKey(v.fields, key) {
        LocatedMember(Present, None, v, path, key, Some("missing required field"));
      }
    }
  }

  lemma {:induction false} PropertiesLocated(depth: nat, root: Value, properties: seq<Field<real>>, v: Value,
                                             path: Path)
    requires WellFormed(v) && v.Obj?
    ensures AllLocated(ValidateProperties(depth, root, properties, v.fields, path), v, path)
    decreases depth, 1, |properties|
  {
    hide Validate, Located;
    if properties != [] {
      var key := properties[0].key;
      var own := Lookup(v.fields, key);
      var first := PropertyOutcome(depth, root, properties[0], v.fields, path);
      if own.Some? && depth > 0 {
        LookupWellFormed(v.fields, key);
        HintsLocated(depth - 1, root, properties[0].value, own.value, path + [Key(key)]);
        AllLocatedBelow(first, v, Key(key), path);
      }
      PropertiesLocated(depth, root, properties[1..], v, path);
      BothLocated(first, ValidateProperties(depth, root, properties[1..], v.fields, path), v, path);
    }
  }

  lemma {:induction false} AdditionalLocated(depth: nat, root: Value, additional: Option<Value>,
                                             properties: seq<Field<real>>, v: Value, path: Path, from: nat)
    requires WellFormed(v) && v.Obj? && from <= |v.fields|
    ensures AllLocated(ValidateAdditional(depth, root, additional, properties, v.fields[from..], path), v, path)
    decreases depth, 1, |v.fields| - from
  {
    hide Validate, Located;
    if from < |v.fields| {
      var Field(key, value) := v.fields[from];
      var first := MemberOutcome(depth, root, additional, properties, v.fields[from], path);
      LookupAt(v.fields, from);
      LocatedMember(NoAdditional, Some(value), v, path, key, None);
      if additional.Some? && IsObjectLike(additional.value) && depth > 0 {
        HintsLocated(depth - 1, root, additional.value, value, path + [Key(key)]);
        AllLocatedBelow(Validate(depth - 1, root, additional.value, value, path + [Key(key)]), v, Key(key), path);
      }
      AdditionalLocated(depth, root, additional, properties, v, path, from + 1);
      assert v.fields[from..][0] == v.fields[from] && v.fields[from..][1..] == v.fields[from + 1..];
      BothLocated(first, ValidateAdditional(depth, root, additional, properties, v.fields[from + 1..], path), v, path);
    }
  }
}
