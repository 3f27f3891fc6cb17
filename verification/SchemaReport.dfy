/**
 What the validator reports: every hint of every check, in order, once for each fault, none missing.
 The texts of a report are lists of lists, one for each entry, property, member, item or variant.
 */
module SchemaReport {
  import opened Prelude
  import opened Json
  import opened SchemaDocument
  import opened SchemaValidator
  import opened SchemaSoundness
  import opened SchemaStandard
  import opened SchemaExact

  /** The hints of a call that has come back. */
  function Reported(r: Outcome): seq<Hint> {
    if r.Some? then r.value else []
  }

  lemma {:induction false} InFlatten<T>(lists: seq<seq<T>>, x: T)
    ensures x in Flatten(lists) <==> exists i :: 0 <= i < |lists| && x in lists[i]
  {
    if lists != [] {
      InFlatten(lists[1..], x);
      assert forall i :: 0 < i < |lists| ==> lists[i] == lists[1..][i - 1];
      assert forall i :: 0 <= i < |lists| - 1 ==> lists[1..][i] == lists[i + 1];
    }
  }

  lemma FlattenFirst<T>(lists: seq<seq<T>>)
    requires lists != []
    ensures Flatten(lists) == lists[0] + Flatten(lists[1..])
  {
  }

  // ----- objects -----

  /** For each entry of `required` that the value does not have, one hint at its place. */
  function Absent(required: seq<Value>, fields: seq<Field<real>>, path: Path): (lists: seq<seq<Hint>>)
    ensures |lists| == |required|
  {
    seq(|required|, i requires 0 <= i < |required| =>
      if exists j :: 0 <= j < |fields| && fields[j].key == RequiredKey(required[i]) then []
      else [Hint(path + [Key(RequiredKey(required[i]))], Present, None, Some("missing required field"))])
  }

  /** For each declared property that the value has, the hints of its schema on that member. */
  function Declared(depth: nat, root: Value, properties: seq<Field<real>>, fields: seq<Field<real>>,
                    path: Path): (lists: seq<seq<Hint>>)
    requires depth > 0
    ensures |lists| == |properties|
  {
    seq(|properties|, i requires 0 <= i < |properties| =>
      var Field(key, schema) := properties[i];
      if Lookup(fields, key).None? then []
      else Reported(Validate(depth - 1, root, schema, Lookup(fields, key).value, path + [Key(key)])))
  }

  /** For each member that is not declared, what `additionalProperties` has against it. */
  function Extra(depth: nat, root: Value, additional: Option<Value>, properties: seq<Field<real>>,
                 fields: seq<Field<real>>, path: Path): (lists: seq<seq<Hint>>)
    requires depth > 0
    ensures |lists| == |fields|
  {
    seq(|fields|, i requires 0 <= i < |fields| =>
      var Field(key, value) := fields[i];
      if (exists j :: 0 <= j < |properties| && properties[j].key == key) || additional.None? then []
      else if additional == Some(Bool(false)) then [Hint(path + [Key(key)], NoAdditional, Some(value), None)]
      else if additional.value.Obj? || additional.value.Arr? then
        Reported(Validate(depth - 1, root, additional.value, value, path + [Key(key)]))
      else [])
  }

  lemma HasKeyIs(fields: seq<Field<real>>, key: string)
    ensures HasKey(fields, key) <==> exists j :: 0 <= j < |fields| && fields[j].key == key
  {
  }

  lemma {:induction false} AbsentReport(required: seq<Value>, fields: seq<Field<real>>, path: Path)
    ensures MissingHints(required, fields, path) == Flatten(Absent(required, fields, path))
  {
    hide RequiredKey;
    var lists := Absent(required, fields, path);
    if required == [] {
    } else {
      AbsentReport(required[1..], fields, path);
      assert lists[1..] == Absent(required[1..], fields, path);
      HasKeyIs(fields, RequiredKey(required[0]));
      FlattenFirst(lists);
    }
  }

  lemma {:induction false} DeclaredReport(depth: nat, root: Value, properties: seq<Field<real>>,
                                          fields: seq<Field<real>>, path: Path)
    requires depth > 0 && ValidateProperties(depth, root, properties, fields, path).Some?
    ensures ValidateProperties(depth, root, properties, fields, path).value
         == Flatten(Declared(depth, root, properties, fields, path))
  {
    hide Validate;
    var lists := Declared(depth, root, properties, fields, path);
    if properties == [] {
    } else {
      DeclaredReport(depth, root, properties[1..], fields, path);
      assert lists[1..] == Declared(depth, root, properties[1..], fields, path);
      FlattenFirst(lists);
    }
  }

  lemma {:induction false} ExtraReport(depth: nat, root: Value, additional: Option<Value>,
                                       properties: seq<Field<real>>, fields: seq<Field<real>>, path: Path)
    requires depth > 0 && ValidateAdditional(depth, root, additional, properties, fields, path).Some?
    ensures ValidateAdditional(depth, root, additional, properties, fields, path).value
         == Flatten(Extra(depth, root, additional, properties, fields, path))
  {
    hide Validate;
    var lists := Extra(depth, root, additional, properties, fields, path);
    if fields == [] {
    } else {
      ExtraReport(depth, root, additional, properties, fields[1..], path);
      assert lists[1..] == Extra(depth, root, additional, properties, fields[1..], path);
      HasKeyIs(properties, fields[0].key);
      FlattenFirst(lists);
    }
  }

  /** The report on an object: absent members, then declared ones, then the others, each in its order. */
  lemma ObjectReport(depth: nat, root: Value, schema: Value, v: Value, path: Path)
    requires depth > 0 && v.Obj? && ValidateObject(depth, root, schema, v, path).Some?
    ensures var properties := Entries(Get(schema, "properties"));
      ValidateObject(depth, root, schema, v, path) == Some(
        Flatten(Absent(Elements(Get(schema, "required")), v.fields, path))
        + Flatten(Declared(depth, root, properties, v.fields, path))
        + Flatten(Extra(depth, root, Get(schema, "additionalProperties"), properties, v.fields, path)))
  {
    hide MissingHints, ValidateProperties, ValidateAdditional, Absent, Declared, Extra, Flatten, Get;
    var properties := Entries(Get(schema, "properties"));
    AbsentReport(Elements(Get(schema, "required")), v.fields, path);
    DeclaredReport(depth, root, properties, v.fields, path);
    ExtraReport(depth, root, Get(schema, "additionalProperties"), properties, v.fields, path);
    Concat3(Flatten(Absent(Elements(Get(schema, "required")), v.fields, path)),
            Flatten(Declared(depth, root, properties, v.fields, path)),
            Flatten(Extra(depth, root, Get(schema, "additionalProperties"), properties, v.fields, path)));
  }

  lemma Concat3(a: seq<Hint>, b: seq<Hint>, c: seq<Hint>)
    ensures a + (b + c) == a + b + c
  {
  }

  /** Each hint on an object is one of these, and each of these is a hint on it. */
  lemma ObjectHintIff(depth: nat, root: Value, schema: Value, v: Value, path: Path, h: Hint)
    requires depth > 0 && v.Obj? && ValidateObject(depth, root, schema, v, path).Some?
    ensures var required, properties := Elements(Get(schema, "required")), Entries(Get(schema, "properties"));
      var additional := Get(schema, "additionalProperties");
      h in ValidateObject(depth, root, schema, v, path).value <==>
        || (exists i :: 0 <= i < |required| && h in Absent(required, v.fields, path)[i])
        || (exists i :: 0 <= i < |properties| && h in Declared(depth, root, properties, v.fields, path)[i])
        || (exists i :: 0 <= i < |v.fields| && h in Extra(depth, root, additional, properties, v.fields, path)[i])
  {
    hide ValidateObject, Absent, Declared, Extra, Flatten, Get;
    var required, properties := Elements(Get(schema, "required")), Entries(Get(schema, "properties"));
    ObjectReport(depth, root, schema, v, path);
    InFlatten(Absent(required, v.fields, path), h);
    InFlatten(Declared(depth, root, properties, v.fields, path), h);
    InFlatten(Extra(depth, root, Get(schema, "additionalProperties"), properties, v.fields, path), h);
  }

  /** In particular one hint for each absent name, in the order of `required`. */
  lemma AbsentNames(required: seq<Value>, fields: seq<Field<real>>, path: Path)
    requires forall i, j :: 0 <= i < |required| && 0 <= j < |fields| ==> required[i] != Str(fields[j].key)
    requires forall i :: 0 <= i < |required| ==> required[i].Str?
    ensures var hints := MissingHints(required, fields, path);
      && |hints| == |required|
      && forall i :: 0 <= i < |required| ==>
           hints[i] == Hint(path + [Key(required[i].s)], Present, None, Some("missing required field"))
    decreases |required|
  {
    if required != [] {
      AbsentNames(required[1..], fields, path);
      HasKeyIs(fields, required[0].s);
      assert forall i :: 0 <= i < |required| - 1 ==> required[1..][i] == required[i + 1];
    }
  }

  // ----- arrays and combinators -----

  function Items(depth: nat, root: Value, schema: Value, items: seq<Value>, path: Path, from: nat): (r: seq<seq<Hint>>)
    requires depth > 0 && from <= |items|
    ensures |r| == |items| - from
  {
    seq(|items| - from, i requires 0 <= i < |items| - from =>
      Reported(Validate(depth - 1, root, schema, items[from + i], path + [Index(from + i)])))
  }

  lemma {:induction false} ItemsReport(depth: nat, root: Value, schema: Value, items: seq<Value>, path: Path, from: nat)
    requires depth > 0 && from <= |items| && ValidateItems(depth, root, schema, items, path, from).Some?
    ensures ValidateItems(depth, root, schema, items, path, from).value
         == Flatten(Items(depth, root, schema, items, path, from))
    decreases |items| - from
  {
    hide Validate;
    var lists := Items(depth, root, schema, items, path, from);
    if from != |items| {
      ItemsReport(depth, root, schema, items, path, from + 1);
      var rest := Items(depth, root, schema, items, path, from + 1);
      forall i | 0 <= i < |rest| ensures lists[1..][i] == rest[i] {
        assert from + 1 + i == from + (i + 1);
      }
      assert lists[1..] == rest;
      FlattenFirst(lists);
      assert lists[0] == Reported(ItemOutcome(depth, root, schema, items[from], path, from));
    } else {
      assert lists == [];
    }
  }

  /** The report on an array: those on its items, in order, each under its position. */
  lemma ArrayReport(depth: nat, root: Value, schema: Value, v: Value, path: Path)
    requires depth > 0 && v.Arr? && ValidateArray(depth, root, schema, v, path).Some?
    ensures ValidateArray(depth, root, schema, v, path) == Some(
      if Truthy(Get(schema, "items")) then Flatten(Items(depth, root, Get(schema, "items").value, v.items, path, 0))
      else [])
  {
    hide ValidateItems, Items, Flatten, Get;
    if Truthy(Get(schema, "items")) {
      ItemsReport(depth, root, Get(schema, "items").value, v.items, path, 0);
    }
  }

  function Variants(depth: nat, root: Value, variants: seq<Value>, v: Value, path: Path): (r: seq<seq<Hint>>)
    ensures |r| == |variants|
  {
    seq(|variants|, i requires 0 <= i < |variants| => Reported(Validate(depth, root, variants[i], v, path)))
  }

  lemma EachIs(depth: nat, root: Value, variants: seq<Value>, v: Value, path: Path)
    requires ValidateEach(depth, root, variants, v, path).Some?
    ensures ValidateEach(depth, root, variants, v, path).value == Variants(depth, root, variants, v, path)
  {
    hide Validate, ValidateEach;
    EachOutcome(depth, root, variants, v, path);
  }

  /**
   The report of a combinator: `allOf` has all hints of all variants, in order; a union has none if some variant has
   none, and else one hint, with the message of the first hint of the first variant.
   */
  lemma CombinatorReport(depth: nat, root: Value, schema: Value, v: Value, path: Path)
    requires ValidatorShape(schema).Combine? && Validate(depth, root, schema, v, path).Some?
    ensures depth > 0
    ensures var Combine(how, variants) := ValidatorShape(schema);
      var lists := Variants(depth - 1, root, variants, v, path);
      Validate(depth, root, schema, v, path) == Some(
        if how == AllOf then Flatten(lists)
        else if exists i :: 0 <= i < |lists| && lists[i] == [] then []
        else [Hint(path, SomeVariant(how), Some(v), if lists == [] then None else lists[0][0].message)])
  {
    hide ValidatorShape, Validate, ValidateEach, Flatten;
    ReturnedDepth(depth, root, schema, v, path);
    ValidateCombine(depth, root, schema, v, path);
    var Combine(how, variants) := ValidatorShape(schema);
    EachIs(depth - 1, root, variants, v, path);
  }

  /** A reference is checked as what it points to, in the same place; one that points to nothing lets all through. */
  lemma ReferenceReport(depth: nat, root: Value, schema: Value, v: Value, path: Path)
    requires depth > 0 && IsRef(schema)
    ensures var target := Resolve(root, Get(schema, "$ref").value.s);
      Validate(depth, root, schema, v, path) ==
        if Truthy(target) then Validate(depth - 1, root, target.value, v, path) else Some([])
  {
    hide Validate, Resolve;
    ValidateReference(depth, root, schema, v, path);
  }

  // ----- single hints -----

  /** `Number.isInteger`: of the integers, and of nothing between two of them. */
  lemma IntegerIs(n: real, k: int)
    requires k as real <= n < k as real + 1.0
    ensures IsInteger(n) <==> n == k as real
  {
    assert n.Floor == k;
  }

  /** Schemas decided on the spot: `false`, and what is not among the listed values or not the constant. */
  lemma LeafReport(depth: nat, root: Value, schema: Value, v: Value, path: Path)
    requires depth > 0
    ensures schema == Bool(true) ==> Validate(depth, root, schema, v, path) == Some([])
    ensures schema == Bool(false) ==>
      Validate(depth, root, schema, v, path) == Some([Hint(path, NoValue, Some(v), None)])
    ensures schema.Null? || schema.Num? || schema.Str? ==> Validate(depth, root, schema, v, path) == Some([])
    ensures schema.Obj? && !IsRef(schema) && IsArray(Get(schema, "enum")) ==>
      var items := Get(schema, "enum").value.items;
      Validate(depth, root, schema, v, path)
      == Some(if v in items then [] else [Hint(path, OneOfValues(items), Some(v), None)])
    ensures schema.Obj? && !IsRef(schema) && !IsArray(Get(schema, "enum")) && Get(schema, "const").Some? ==>
      var c := Get(schema, "const").value;
      Validate(depth, root, schema, v, path) == Some(if v == c then [] else [Hint(path, Exactly(c), Some(v), None)])
  {
    hide CombinatorShape, Get, CombineHints, ValidateByType, ValidateType;
  }

  /** A value of another type than is stated draws one hint, which names what is stated. */
  lemma TypeReport(depth: nat, root: Value, schema: Value, v: Value, path: Path)
    requires depth > 0 && ValidatorShape(schema).Plain? && TypeStated(Get(schema, "type"))
    requires !TypeHolds(Get(schema, "type"), v)
    ensures Validate(depth, root, schema, v, path)
         == Some([Hint(path, OfType(Get(schema, "type").value), Some(v), None)])
  {
    hide ValidatorShape, Validate, Get, TypeHolds, ValidateByType;
    ValidatePlain(depth, root, schema, v, path);
    var ty := Get(schema, "type");
    if ValidateType(ty, v, path) == [] {
      TypeValid(ty, v, path);
    } else {
      assert ty.Some? by { assert ty.None? ==> ValidateType(ty, v, path) == []; }
    }
  }

  /** Of a value of the stated type the check that its type calls for reports the rest. */
  lemma PlainReport(depth: nat, root: Value, schema: Value, v: Value, path: Path)
    requires depth > 0 && ValidatorShape(schema).Plain? && TypeStated(Get(schema, "type"))
    requires Get(schema, "type").Some? && TypeHolds(Get(schema, "type"), v)
    ensures Validate(depth, root, schema, v, path) ==
      match v
      case Obj(_) => ValidateObject(depth - 1, root, schema, v, path)
      case Arr(_) => ValidateArray(depth - 1, root, schema, v, path)
      case Num(x) =>
        var minimum := Get(schema, "minimum");
        Some(if minimum.Some? && minimum.value.Num? && x < minimum.value.n
             then [Hint(path, AtLeast(minimum.value.n), Some(v), None)] else [])
      case _ => Some([])
  {
    hide ValidatorShape, Validate, Get, TypeHolds, ValidateObject, ValidateArray, Dispatch, ValidateType;
    ValidatePlain(depth, root, schema, v, path);
    TypeAccepted(Get(schema, "type"), v, path);
    StatedDispatch(schema, v);
    if v.Num? { StatedNumber(schema, v, path); }
  }

  lemma StatedDispatch(schema: Value, v: Value)
    requires TypeStated(Get(schema, "type")) && Get(schema, "type").Some? && TypeHolds(Get(schema, "type"), v)
    ensures Dispatch(schema, v) ==
      match v
      case Obj(_) => AsObject
      case Arr(_) => AsArray
      case Num(_) => AsNumber
      case _ => NoCheck
  {
    hide Get;
  }

  lemma StatedNumber(schema: Value, v: Value, path: Path)
    requires TypeStated(Get(schema, "type")) && TypeHolds(Get(schema, "type"), v) && v.Num?
    ensures var minimum := Get(schema, "minimum");
      ValidateNumber(schema, v, path) ==
        if minimum.Some? && minimum.value.Num? && v.n < minimum.value.n
        then [Hint(path, AtLeast(minimum.value.n), Some(v), None)] else []
  {
    hide Get;
  }

  /** Without a type only objects are looked at, and only if `properties` or `required` is there. */
  lemma UntypedReport(depth: nat, root: Value, schema: Value, v: Value, path: Path)
    requires depth > 0 && ValidatorShape(schema).Plain? && Get(schema, "type").None?
    ensures Validate(depth, root, schema, v, path) ==
      if !Truthy(Get(schema, "properties")) && !Truthy(Get(schema, "required")) then Some([])
      else if v.Obj? then ValidateObject(depth - 1, root, schema, v, path)
      else Some([Hint(path, OfType(Str("object")), Some(v), None)])
  {
    hide ValidatorShape, Validate, Get, ValidateProperties, ValidateAdditional, MissingHints;
    ValidatePlain(depth, root, schema, v, path);
  }
}
