/**
 `validateWithSchema`: the interpreter emitted next to the generated types.

 The source recurs without a bound, and `{"$ref": "#/a", "a": {"$ref": "#/a"}}` makes it recur for ever.
 `depth` is the call depth still available; `None` means it was not enough.  SchemaTermination says
 exactly when some depth is.
 */
module SchemaValidator {
  import opened Prelude
  import opened Json
  import opened SchemaDocument

  datatype Segment = Key(key: string) | Index(index: nat)

  type Path = seq<Segment>

  datatype Expected =
    | NoValue
    | OneOfValues(items: seq<Value>)
    | Exactly(value: Value)
    | SomeVariant(how: Combinator)
    | OfType(ty: Value)
    | Present
    | NoAdditional
    | AtLeast(minimum: real)

  datatype Hint = Hint(path: Path, expected: Expected, got: Option<Value>, message: Option<string>)

  type Outcome = Option<seq<Hint>>

  function Complain(path: Path, expected: Expected, value: Value): (hints: seq<Hint>)
    ensures |hints| == 1
  {
    [Hint(path, expected, Some(value), None)]
  }

  /** Hints of several checks in order; running out of depth in one spoils all. */
  function Both(a: Outcome, b: Outcome): (r: Outcome)
    ensures r.Some? <==> a.Some? && b.Some?
    ensures r == Some([]) <==> a == Some([]) && b == Some([])
  {
    if a.Some? && b.Some? then
      assert |a.value + b.value| == |a.value| + |b.value|;
      Some(a.value + b.value)
    else None
  }

  function Validate(depth: nat, root: Value, schema: Value, value: Value, path: Path): Outcome
    decreases depth, 4
  {
    if depth == 0 then None
    else match ValidatorShape(schema)
      case Anything => Some([])
      case Nothing => Some(Complain(path, NoValue, value))
      case NotASchema => Some([])
      case Reference(ref) =>
        if Target(root, ref).None? then Some([]) else Validate(depth - 1, root, Target(root, ref).value, value, path)
      case EnumOf(items) => if value in items then Some([]) else Some(Complain(path, OneOfValues(items), value))
      case ConstOf(c) => if c == value then Some([]) else Some(Complain(path, Exactly(c), value))
      case Combine(how, variants) =>
        CombineHints(how, ValidateEach(depth - 1, root, variants, value, path), value, path)
      case Plain =>
        var typeErrors := ValidateType(Get(schema, "type"), value, path);
        if typeErrors != [] then Some(typeErrors) else ValidateByType(depth - 1, root, schema, value, path)
  }

  datatype Check = AsObject | AsArray | AsNumber | NoCheck

  /** Which check follows the type check. */
  function Dispatch(schema: Value, value: Value): Check {
    var ty := Get(schema, "type");
    if ty == Some(Str("object"))
       || (!Truthy(ty) && (Truthy(Get(schema, "properties")) || Truthy(Get(schema, "required")))) then AsObject
    else if ty == Some(Str("array")) then AsArray
    else if ty == Some(Str("integer")) || ty == Some(Str("number")) then AsNumber
    else if IsArray(ty) then
      if Str("object") in ty.value.items && value.Obj? then AsObject
      else if Str("array") in ty.value.items && value.Arr? then AsArray
      else if (Str("integer") in ty.value.items || Str("number") in ty.value.items) && value.Num? then AsNumber
      else NoCheck
    else NoCheck
  }

  function ValidateByType(depth: nat, root: Value, schema: Value, value: Value, path: Path): Outcome
    decreases depth, 3
  {
    match Dispatch(schema, value)
    case AsObject => ValidateObject(depth, root, schema, value, path)
    case AsArray => ValidateArray(depth, root, schema, value, path)
    case AsNumber => Some(ValidateNumber(schema, value, path))
    case NoCheck => Some([])
  }

  /** One value against each schema of a list. */
  function ValidateEach(depth: nat, root: Value, schemas: seq<Value>, value: Value,
                        path: Path): (r: Option<seq<seq<Hint>>>)
    ensures r.Some? ==> |r.value| == |schemas|
    decreases depth, 5, |schemas|
  {
    if schemas == [] then Some([])
    else
      var first := Validate(depth, root, schemas[0], value, path);
      var rest := ValidateEach(depth, root, schemas[1..], value, path);
      if first.Some? && rest.Some? then Some([first.value] + rest.value) else None
  }

  /** `validateUnion` for `anyOf` and `oneOf`; `allOf` concatenates. */
  function CombineHints(how: Combinator, variants: Option<seq<seq<Hint>>>, value: Value, path: Path): Outcome {
    if variants.None? then None
    else if how.AllOf? then Some(Flatten(variants.value))
    else if [] in variants.value then Some([])
    else
      var message := if variants.value == [] then None else variants.value[0][0].message;
      Some([Hint(path, SomeVariant(how), Some(value), message)])
  }

  function ValidateObject(depth: nat, root: Value, schema: Value, value: Value, path: Path): Outcome
    decreases depth, 2
  {
    if !value.Obj? then Some(Complain(path, OfType(Str("object")), value))
    else
      var properties := Entries(Get(schema, "properties"));
      var missing := MissingHints(Elements(Get(schema, "required")), value.fields, path);
      Both(Some(missing),
           Both(ValidateProperties(depth, root, properties, value.fields, path),
                ValidateAdditional(depth, root, Get(schema, "additionalProperties"), properties, value.fields, path)))
  }

  /** The key a `required` entry names; JSON Schema allows strings only (Validation, section 6.5.3). */
  function RequiredKey(entry: Value): string {
    if entry.Str? then entry.s else ""
  }

  function MissingHints(required: seq<Value>, fields: seq<Field<real>>, path: Path): seq<Hint> {
    if required == [] then []
    else
      var key := RequiredKey(required[0]);
      var rest := MissingHints(required[1..], fields, path);
      if HasKey(fields, key) then rest
      else [Hint(path + [Key(key)], Present, None, Some("missing required field"))] + rest
  }

  /** What checking one declared property amounts to. */
  function PropertyOutcome(depth: nat, root: Value, property: Field<real>, fields: seq<Field<real>>,
                           path: Path): Outcome
    decreases depth, 0
  {
    var own := Lookup(fields, property.key);
    if own.None? then Some([])
    else if depth == 0 then None
    else Validate(depth - 1, root, property.value, own.value, path + [Key(property.key)])
  }

  function ValidateProperties(depth: nat, root: Value, properties: seq<Field<real>>, fields: seq<Field<real>>,
                              path: Path): Outcome
    decreases depth, 1, |properties|
  {
    if properties == [] then Some([])
    else
      var first := PropertyOutcome(depth, root, properties[0], fields, path);
      Both(first, ValidateProperties(depth, root, properties[1..], fields, path))
  }

  /** What checking one member of the value against `additionalProperties` amounts to. */
  function MemberOutcome(depth: nat, root: Value, additional: Option<Value>, properties: seq<Field<real>>,
                         member: Field<real>, path: Path): Outcome
    decreases depth, 0
  {
    if HasKey(properties, member.key) || additional.None? then Some([])
    else if additional.value == Bool(false) then Some(Complain(path + [Key(member.key)], NoAdditional, member.value))
    else if !IsObjectLike(additional.value) then Some([])
    else if depth == 0 then None
    else Validate(depth - 1, root, additional.value, member.value, path + [Key(member.key)])
  }

  /** The keys of the value that `properties` does not declare. */
  function ValidateAdditional(depth: nat, root: Value, additional: Option<Value>, properties: seq<Field<real>>,
                              fields: seq<Field<real>>, path: Path): Outcome
    decreases depth, 1, |fields|
  {
    if fields == [] then Some([])
    else
      var first := MemberOutcome(depth, root, additional, properties, fields[0], path);
      Both(first, ValidateAdditional(depth, root, additional, properties, fields[1..], path))
  }

  function ValidateArray(depth: nat, root: Value, schema: Value, value: Value, path: Path): Outcome
    decreases depth, 1
  {
    if !value.Arr? then Some(Complain(path, OfType(Str("array")), value))
    else if !Truthy(Get(schema, "items")) then Some([])
    else ValidateItems(depth, root, Get(schema, "items").value, value.items, path, 0)
  }

  function ItemOutcome(depth: nat, root: Value, schema: Value, item: Value, path: Path, index: nat): Outcome
    decreases depth, 0
  {
    if depth == 0 then None else Validate(depth - 1, root, schema, item, path + [Index(index)])
  }

  /** The items from position `from` on. */
  function ValidateItems(depth: nat, root: Value, schema: Value, items: seq<Value>, path: Path, from: nat): Outcome
    requires from <= |items|
    decreases depth, 1, |items| - from
  {
    if from == |items| then Some([])
    else
      Both(ItemOutcome(depth, root, schema, items[from], path, from),
           ValidateItems(depth, root, schema, items, path, from + 1))
  }

  function ValidateNumber(schema: Value, value: Value, path: Path): seq<Hint> {
    var ty := Get(schema, "type");
    var minimum := Get(schema, "minimum");
    if !value.Num? then
      Complain(path, OfType(if ty == Some(Str("integer")) then Str("integer") else Str("number")), value)
    else if ty == Some(Str("integer")) && !IsInteger(value.n) then Complain(path, OfType(Str("integer")), value)
    else if minimum.Some? && minimum.value.Num? && value.n < minimum.value.n then
      Complain(path, AtLeast(minimum.value.n), value)
    else []
  }

  predicate IsInteger(n: real) {
    n.Floor as real == n
  }

  function ValidateType(ty: Option<Value>, value: Value, path: Path): (hints: seq<Hint>)
    ensures |hints| <= 1
    decreases if ty.Some? then ty.value else Null
  {
    if ty.None? then []
    else if ty.value.Arr? then
      if AnyTypeHolds(ty.value.items, value, path) then [] else Complain(path, OfType(ty.value), value)
    else if !ty.value.Str? || NameAllows(ty.value.s, value) then []
    else Complain(path, OfType(ty.value), value)
  }

  predicate AnyTypeHolds(types: seq<Value>, value: Value, path: Path)
    decreases types
  {
    types != [] && (ValidateType(Some(types[0]), value, path) == [] || AnyTypeHolds(types[1..], value, path))
  }

  /** The `switch` over type names; an unknown name allows everything. */
  predicate NameAllows(name: string, value: Value) {
    if name == "null" then value.Null?
    else if name == "string" then value.Str?
    else if name == "boolean" then value.Bool?
    else if name == "number" then value.Num?
    else if name == "integer" then value.Num? && IsInteger(value.n)
    else if name == "object" then value.Obj?
    else if name == "array" then value.Arr?
    else true
  }

  method MissingLoop(required: seq<Value>, fields: seq<Field<real>>, path: Path) returns (hints: seq<Hint>)
    ensures hints == MissingHints(required, fields, path)
  {
    hints := [];
    for i := 0 to |required|
      invariant hints + MissingHints(required[i..], fields, path) == MissingHints(required, fields, path)
    {
      assert required[i..][0] == required[i] && required[i..][1..] == required[i + 1..];
      var key := RequiredKey(required[i]);
      if !HasKey(fields, key) {
        hints := hints + [Hint(path + [Key(key)], Present, None, Some("missing required field"))];
      }
    }
  }

  method DeclaredLoop(depth: nat, root: Value, properties: seq<Field<real>>, fields: seq<Field<real>>, path: Path)
    returns (r: Outcome)
    ensures r == ValidateProperties(depth, root, properties, fields, path)
  {
    var hints := [];
    BothNothing(ValidateProperties(depth, root, properties, fields, path));
    for i := 0 to |properties|
      invariant Both(Some(hints), ValidateProperties(depth, root, properties[i..], fields, path))
             == ValidateProperties(depth, root, properties, fields, path)
    {
      assert properties[i..][0] == properties[i] && properties[i..][1..] == properties[i + 1..];
      var more := PropertyOutcome(depth, root, properties[i], fields, path);
      BothAssociative(Some(hints), more, ValidateProperties(depth, root, properties[i + 1..], fields, path));
      if more.None? {
        return None;
      }
      hints := hints + more.value;
    }
    BothNothing(Some(hints));
    return Some(hints);
  }

  method AdditionalLoop(depth: nat, root: Value, additional: Option<Value>, properties: seq<Field<real>>,
                        fields: seq<Field<real>>, path: Path) returns (r: Outcome)
    ensures r == ValidateAdditional(depth, root, additional, properties, fields, path)
  {
    var hints := [];
    BothNothing(ValidateAdditional(depth, root, additional, properties, fields, path));
    for i := 0 to |fields|
      invariant Both(Some(hints), ValidateAdditional(depth, root, additional, properties, fields[i..], path))
             == ValidateAdditional(depth, root, additional, properties, fields, path)
    {
      assert fields[i..][0] == fields[i] && fields[i..][1..] == fields[i + 1..];
      var more := MemberOutcome(depth, root, additional, properties, fields[i], path);
      ghost var later := ValidateAdditional(depth, root, additional, properties, fields[i + 1..], path);
      BothAssociative(Some(hints), more, later);
      if more.None? {
        return None;
      }
      hints := hints + more.value;
    }
    BothNothing(Some(hints));
    return Some(hints);
  }

  /** `validateObjectSchema` as written: three loops in a row, each pushing to `hints`. */
  method ValidateObjectSchema(depth: nat, root: Value, schema: Value, value: Value, path: Path) returns (r: Outcome)
    ensures r == ValidateObject(depth, root, schema, value, path)
  {
    if !value.Obj? {
      return Some(Complain(path, OfType(Str("object")), value));
    }
    var properties := Entries(Get(schema, "properties"));
    var missing := MissingLoop(Elements(Get(schema, "required")), value.fields, path);
    var declared := DeclaredLoop(depth, root, properties, value.fields, path);
    var extra := AdditionalLoop(depth, root, Get(schema, "additionalProperties"), properties, value.fields, path);
    return Both(Some(missing), Both(declared, extra));
  }

  lemma BothNothing(a: Outcome)
    ensures Both(Some([]), a) == a && Both(a, Some([])) == a
  {
    if a.Some? {
      assert [] + a.value == a.value && a.value + [] == a.value;
    }
  }

  lemma BothAssociative(a: Outcome, b: Outcome, c: Outcome)
    ensures Both(a, Both(b, c)) == Both(Both(a, b), c)
  {
    if a.Some? && b.Some? && c.Some? {
      assert a.value + (b.value + c.value) == (a.value + b.value) + c.value;
    }
  }

  // ----- what an outcome says about the parts -----

  lemma {:induction false} EachOutcome(depth: nat, root: Value, schemas: seq<Value>, value: Value, path: Path)
    ensures var r := ValidateEach(depth, root, schemas, value, path);
            r.Some? <==> forall i :: 0 <= i < |schemas| ==> Validate(depth, root, schemas[i], value, path).Some?
    ensures var r := ValidateEach(depth, root, schemas, value, path);
            r.Some? ==>
              forall i :: 0 <= i < |schemas| ==> Validate(depth, root, schemas[i], value, path) == Some(r.value[i])
  {
    hide Validate;
    if schemas != [] {
      EachOutcome(depth, root, schemas[1..], value, path);
      assert forall i :: 0 < i < |schemas| ==> schemas[i] == schemas[1..][i - 1];
      assert forall i :: 0 <= i < |schemas| - 1 ==> schemas[1..][i] == schemas[i + 1];
    }
  }

  lemma {:induction false} FlattenEmpty(lists: seq<seq<Hint>>)
    ensures Flatten(lists) == [] <==> forall i :: 0 <= i < |lists| ==> lists[i] == []
  {
    if lists != [] {
      FlattenEmpty(lists[1..]);
      assert forall i :: 0 < i < |lists| ==> lists[i] == lists[1..][i - 1];
      assert forall i :: 0 <= i < |lists| - 1 ==> lists[1..][i] == lists[i + 1];
    }
  }

  // One branch of the interpreter at a time.

  lemma ValidateReference(depth: nat, root: Value, schema: Value, value: Value, path: Path)
    requires depth > 0 && ValidatorShape(schema).Reference?
    ensures var target := Target(root, ValidatorShape(schema).ref);
      Validate(depth, root, schema, value, path)
      == if target.None? then Some([]) else Validate(depth - 1, root, target.value, value, path)
  {
    hide ValidatorShape, Target;
  }

  lemma ValidateCombine(depth: nat, root: Value, schema: Value, value: Value, path: Path)
    requires depth > 0 && ValidatorShape(schema).Combine?
    ensures var Combine(how, variants) := ValidatorShape(schema);
      Validate(depth, root, schema, value, path)
      == CombineHints(how, ValidateEach(depth - 1, root, variants, value, path), value, path)
  {
    hide ValidatorShape, CombineHints;
  }

  lemma ValidatePlain(depth: nat, root: Value, schema: Value, value: Value, path: Path)
    requires depth > 0 && ValidatorShape(schema).Plain?
    ensures var typeErrors := ValidateType(Get(schema, "type"), value, path);
      Validate(depth, root, schema, value, path)
      == if typeErrors != [] then Some(typeErrors) else ValidateByType(depth - 1, root, schema, value, path)
  {
    hide ValidatorShape, ValidateByType, ValidateType;
  }

  /** Schemas decided on the spot. */
  lemma ValidateLeaf(depth: nat, root: Value, schema: Value, value: Value, path: Path)
    requires depth > 0
    requires var shape := ValidatorShape(schema); !shape.Reference? && !shape.Combine? && !shape.Plain?
    ensures var r := Validate(depth, root, schema, value, path);
      r == match ValidatorShape(schema)
        case Nothing => Some(Complain(path, NoValue, value))
        case EnumOf(items) => if value in items then Some([]) else Some(Complain(path, OneOfValues(items), value))
        case ConstOf(c) => if c == value then Some([]) else Some(Complain(path, Exactly(c), value))
        case _ => Some([])
  {
    hide ValidatorShape;
  }

  lemma CombinedOutcome(depth: nat, root: Value, how: Combinator, schemas: seq<Value>, value: Value, path: Path)
    ensures var r := CombineHints(how, ValidateEach(depth, root, schemas, value, path), value, path);
      && (r.Some? <==> forall i :: 0 <= i < |schemas| ==> Validate(depth, root, schemas[i], value, path).Some?)
      && (r == Some([]) ==> if how.AllOf?
            then forall i :: 0 <= i < |schemas| ==> Validate(depth, root, schemas[i], value, path) == Some([])
            else exists i :: 0 <= i < |schemas| && Validate(depth, root, schemas[i], value, path) == Some([]))
      && (r.Some? && r != Some([]) ==> if how.AllOf?
            then exists i :: 0 <= i < |schemas| && Validate(depth, root, schemas[i], value, path) != Some([])
            else forall i :: 0 <= i < |schemas| ==> Validate(depth, root, schemas[i], value, path) != Some([]))
  {
    hide Validate, ValidateEach;
    EachOutcome(depth, root, schemas, value, path);
    var each := ValidateEach(depth, root, schemas, value, path);
    if each.Some? {
      FlattenEmpty(each.value);
      assert [] in each.value <==> exists i :: 0 <= i < |schemas| && each.value[i] == [];
    }
  }

  lemma {:induction false} PropertiesOutcome(depth: nat, root: Value, properties: seq<Field<real>>,
                                             fields: seq<Field<real>>, path: Path)
    ensures ValidateProperties(depth, root, properties, fields, path).Some?
       <==> forall i :: 0 <= i < |properties| ==> PropertyOutcome(depth, root, properties[i], fields, path).Some?
    ensures ValidateProperties(depth, root, properties, fields, path) == Some([])
       <==> forall i :: 0 <= i < |properties| ==> PropertyOutcome(depth, root, properties[i], fields, path) == Some([])
  {
    hide PropertyOutcome, Both;
    if properties != [] {
      PropertiesOutcome(depth, root, properties[1..], fields, path);
      assert properties == [properties[0]] + properties[1..];
      assert forall i :: 0 <= i < |properties| - 1 ==> properties[1..][i] == properties[i + 1];
    }
  }

  lemma {:induction false} AdditionalOutcome(depth: nat, root: Value, additional: Option<Value>,
                                             properties: seq<Field<real>>, fields: seq<Field<real>>, path: Path)
    ensures ValidateAdditional(depth, root, additional, properties, fields, path).Some?
       <==> forall i :: 0 <= i < |fields| ==> MemberOutcome(depth, root, additional, properties, fields[i], path).Some?
    ensures ValidateAdditional(depth, root, additional, properties, fields, path) == Some([])
       <==> forall i :: 0 <= i < |fields| ==>
              MemberOutcome(depth, root, additional, properties, fields[i], path) == Some([])
  {
    hide MemberOutcome, Both;
    if fields != [] {
      AdditionalOutcome(depth, root, additional, properties, fields[1..], path);
      assert fields == [fields[0]] + fields[1..];
      assert forall i :: 0 <= i < |fields| - 1 ==> fields[1..][i] == fields[i + 1];
    }
  }

  lemma {:induction false} ItemsOutcome(depth: nat, root: Value, schema: Value, items: seq<Value>, path: Path,
                                        from: nat)
    requires from <= |items|
    ensures ValidateItems(depth, root, schema, items, path, from).Some?
       <==> forall i :: from <= i < |items| ==> ItemOutcome(depth, root, schema, items[i], path, i).Some?
    ensures ValidateItems(depth, root, schema, items, path, from) == Some([])
       <==> forall i :: from <= i < |items| ==> ItemOutcome(depth, root, schema, items[i], path, i) == Some([])
    decreases |items| - from
  {
    hide ItemOutcome, Both;
    if from != |items| {
      ItemsOutcome(depth, root, schema, items, path, from + 1);
    }
  }

  lemma {:induction false} MissingOutcome(required: seq<Value>, fields: seq<Field<real>>, path: Path)
    ensures MissingHints(required, fields, path) == [] <==>
              forall i :: 0 <= i < |required| ==> HasKey(fields, RequiredKey(required[i]))
  {
    if required != [] {
      MissingOutcome(required[1..], fields, path);
      assert required == [required[0]] + required[1..];
      assert forall i :: 0 <= i < |required| - 1 ==> required[1..][i] == required[i + 1];
    }
  }

  lemma RequiredPresent(required: seq<Value>, fields: seq<Field<real>>, path: Path, key: string)
    requires MissingHints(required, fields, path) == [] && Str(key) in required
    ensures HasKey(fields, key)
  {
    MissingOutcome(required, fields, path);
    assert HasKey(fields, RequiredKey(Str(key)));
  }

  lemma {:induction false} AnyTypeIs(types: seq<Value>, value: Value, path: Path)
    ensures AnyTypeHolds(types, value, path) <==>
              exists i :: 0 <= i < |types| && ValidateType(Some(types[i]), value, path) == []
  {
    if types != [] {
      AnyTypeIs(types[1..], value, path);
      assert forall i :: 0 < i < |types| ==> types[i] == types[1..][i - 1];
      assert forall i :: 0 <= i < |types| - 1 ==> types[1..][i] == types[i + 1];
    }
  }
}
