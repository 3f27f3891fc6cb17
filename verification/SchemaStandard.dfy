/**
 The validator against JSON Schema 2020-12, on the keywords it supports.

 `Verdict` follows the standard: every keyword of a schema object asserts on its own and all must
 hold (Core 8.2.3.1, 10.2.1, 10.3.1.2, 10.3.2.1, 10.3.2.3; Validation 6.1.1 to 6.1.3, 6.2.4, 6.5.3).
 `n` bounds the depth, as in the validator; `None` means no verdict within it.
 */
module SchemaStandard {
  import opened Prelude
  import opened Json
  import opened SchemaDocument
  import opened SchemaNodes
  import opened SchemaPointer
  import opened SchemaValidator
  import opened SchemaSoundness

  type Verdict3 = Option<bool>

  function And(a: Verdict3, b: Verdict3): (r: Verdict3)
    ensures r == Some(true) <==> a == Some(true) && b == Some(true)
  {
    if a.None? || b.None? then None else Some(a.value && b.value)
  }

  ghost function Every(vs: seq<Verdict3>): (r: Verdict3) {
    if None in vs then None else Some(forall i :: 0 <= i < |vs| ==> vs[i] == Some(true))
  }

  ghost function Any(vs: seq<Verdict3>): (r: Verdict3) {
    if None in vs then None else Some(exists i :: 0 <= i < |vs| && vs[i] == Some(true))
  }

  ghost function ExactlyOne(vs: seq<Verdict3>): (r: Verdict3) {
    if None in vs then None
    else Some(exists i :: 0 <= i < |vs| && vs[i] == Some(true)
                       && forall j :: 0 <= j < |vs| && j != i ==> vs[j] != Some(true))
  }

  /** The six primitive types, and the integers among the numbers. */
  predicate OfTypeName(name: string, v: Value) {
    match v
    case Null => name == "null"
    case Bool(_) => name == "boolean"
    case Num(n) => name == "number" || (name == "integer" && IsInteger(n))
    case Str(_) => name == "string"
    case Arr(_) => name == "array"
    case Obj(_) => name == "object"
  }

  predicate TypeHolds(ty: Option<Value>, v: Value) {
    match ty
    case Some(Str(name)) => OfTypeName(name, v)
    case Some(Arr(types)) => exists i :: 0 <= i < |types| && types[i].Str? && OfTypeName(types[i].s, v)
    case _ => true
  }

  ghost function Verdict(n: nat, root: Value, schema: Value, v: Value): Verdict3
    decreases n, 1
  {
    if n == 0 then None
    else if schema.Bool? then Some(schema.b)
    else if !schema.Obj? then None
    else And(Applicators(n - 1, root, schema, v),
             And(Assertions(schema, v), And(ObjectPart(n - 1, root, schema, v), ArrayPart(n - 1, root, schema, v))))
  }

  ghost function EachVerdict(n: nat, root: Value, schemas: seq<Value>, v: Value): (vs: seq<Verdict3>)
    ensures |vs| == |schemas| && forall i :: 0 <= i < |vs| ==> vs[i] == Verdict(n, root, schemas[i], v)
    decreases n, 2
  {
    seq(|schemas|, i requires 0 <= i < |schemas| => Verdict(n, root, schemas[i], v))
  }

  /** `$ref`. */
  ghost function ReferencePart(n: nat, root: Value, schema: Value, v: Value): Verdict3
    decreases n, 3
  {
    if !IsRef(schema) then Some(true)
    else
      var target := StandardResolve(root, Get(schema, "$ref").value.s);
      if target.None? then None else Verdict(n, root, target.value, v)
  }

  /** A combinator's outcome over its variants. */
  ghost function Outcome3(how: Combinator, vs: seq<Verdict3>): Verdict3 {
    match how
    case AllOf => Every(vs)
    case AnyOf => Any(vs)
    case OneOf => ExactlyOne(vs)
  }

  /** One of `allOf`, `anyOf`, `oneOf`. */
  ghost function CombinatorPart(n: nat, root: Value, schema: Value, how: Combinator, v: Value): Verdict3
    decreases n, 3
  {
    if !IsArray(Get(schema, how.Keyword())) then Some(true)
    else Outcome3(how, EachVerdict(n, root, Get(schema, how.Keyword()).value.items, v))
  }

  ghost function Combinators(n: nat, root: Value, schema: Value, v: Value): Verdict3
    decreases n, 4
  {
    And(CombinatorPart(n, root, schema, AllOf, v),
        And(CombinatorPart(n, root, schema, AnyOf, v), CombinatorPart(n, root, schema, OneOf, v)))
  }

  /** The two combinators other than `how`. */
  ghost predicate OtherCombinators(n: nat, root: Value, schema: Value, how: Combinator, v: Value) {
    && (how.AllOf? || CombinatorPart(n, root, schema, AllOf, v) == Some(true))
    && (how.AnyOf? || CombinatorPart(n, root, schema, AnyOf, v) == Some(true))
    && (how.OneOf? || CombinatorPart(n, root, schema, OneOf, v) == Some(true))
  }

  ghost function Applicators(n: nat, root: Value, schema: Value, v: Value): Verdict3
    decreases n, 5
  {
    And(ReferencePart(n, root, schema, v), Combinators(n, root, schema, v))
  }

  predicate EnumHolds(schema: Value, v: Value) {
    IsArray(Get(schema, "enum")) ==>
      exists i :: 0 <= i < |Get(schema, "enum").value.items| && SameData(Get(schema, "enum").value.items[i], v)
  }

  predicate ConstHolds(schema: Value, v: Value) {
    Get(schema, "const").Some? ==> SameData(Get(schema, "const").value, v)
  }

  predicate MinimumHolds(schema: Value, v: Value) {
    var minimum := Get(schema, "minimum");
    minimum.Some? && minimum.value.Num? && v.Num? ==> v.n >= minimum.value.n
  }

  /** `type`, `enum`, `const`, `minimum`. */
  ghost function Assertions(schema: Value, v: Value): Verdict3 {
    Some(TypeHolds(Get(schema, "type"), v) && EnumHolds(schema, v) && ConstHolds(schema, v) && MinimumHolds(schema, v))
  }

  /** `required`, `properties`, `additionalProperties`: they speak of objects only. */
  ghost function ObjectPart(n: nat, root: Value, schema: Value, v: Value): Verdict3
    decreases n, 3
  {
    if !v.Obj? then Some(true)
    else And(Some(forall i :: 0 <= i < |Elements(Get(schema, "required"))| ==>
                    HasKey(v.fields, RequiredKey(Elements(Get(schema, "required"))[i]))),
             And(Every(PropertyVerdicts(n, root, Entries(Get(schema, "properties")), v.fields)),
                 Every(MemberVerdicts(n, root, Get(schema, "additionalProperties"),
                                      Entries(Get(schema, "properties")), v.fields))))
  }

  ghost function PropertyVerdicts(n: nat, root: Value, properties: seq<Field<real>>,
                                  fields: seq<Field<real>>): (vs: seq<Verdict3>)
    ensures |vs| == |properties|
    decreases n, 2
  {
    seq(|properties|, i requires 0 <= i < |properties| =>
      var own := Lookup(fields, properties[i].key);
      if own.None? then Some(true) else Verdict(n, root, properties[i].value, own.value))
  }

  ghost function MemberVerdicts(n: nat, root: Value, additional: Option<Value>, properties: seq<Field<real>>,
                                fields: seq<Field<real>>): (vs: seq<Verdict3>)
    ensures |vs| == |fields|
    decreases n, 2
  {
    seq(|fields|, i requires 0 <= i < |fields| =>
      if additional.None? || HasKey(properties, fields[i].key) then Some(true)
      else Verdict(n, root, additional.value, fields[i].value))
  }

  /** `items` speaks of arrays only. */
  ghost function ArrayPart(n: nat, root: Value, schema: Value, v: Value): Verdict3
    decreases n, 3
  {
    if !v.Arr? || Get(schema, "items").None? then Some(true)
    else
      Every(seq(|v.items|, i requires 0 <= i < |v.items| => Verdict(n, root, Get(schema, "items").value, v.items[i])))
  }

  // ----- the conditions -----

  /** No object inside has two members, so there is no other order to write it in. */
  predicate OrderFree(v: Value) {
    match v
    case Arr(items) => forall i :: 0 <= i < |items| ==> OrderFree(items[i])
    case Obj(fields) => |fields| <= 1 && forall i :: 0 <= i < |fields| ==> OrderFree(fields[i].value)
    case _ => true
  }

  /** `properties` or `required` without a `type` makes the validator demand an object. */
  predicate Untyped(schema: Value) {
    !Truthy(Get(schema, "type")) && (Truthy(Get(schema, "properties")) || Truthy(Get(schema, "required")))
  }

  predicate StandardNode(schema: Value) {
    match ValidatorShape(schema)
    case Reference(ref) => PlainReference(ref)
    case EnumOf(items) => forall i :: 0 <= i < |items| ==> OrderFree(items[i])
    case ConstOf(value) => OrderFree(value)
    case Plain => !Untyped(schema)
    case _ => true
  }

  ghost predicate StandardNodes(root: Value, nodes: set<Value>) {
    Closed(root, nodes) && forall s :: s in nodes ==> StandardNode(s)
  }

  lemma {:induction false} OrderFreeSame(v: Value, w: Value)
    requires OrderFree(v) && SameData(v, w)
    ensures v == w
  {
    match v
    case Arr(items) =>
      forall i | 0 <= i < |items| ensures items[i] == w.items[i] { OrderFreeSame(items[i], w.items[i]); }
      assert items == w.items;
    case Obj(fields) =>
      if fields != [] {
        OrderFreeSame(fields[0].value, Lookup(w.fields, fields[0].key).value);
        assert fields[0] == w.fields[0];
      }
      assert fields == w.fields;
    case _ =>
  }

  // ----- no false rejection -----

  /** What the standard accepts at a schema object, part by part. */
  lemma VerdictParts(n: nat, root: Value, schema: Value, v: Value)
    requires Verdict(n, root, schema, v) == Some(true) && !schema.Bool?
    ensures n > 0 && schema.Obj?
    ensures Applicators(n - 1, root, schema, v) == Some(true) && Assertions(schema, v) == Some(true)
    ensures ObjectPart(n - 1, root, schema, v) == Some(true) && ArrayPart(n - 1, root, schema, v) == Some(true)
  {
    hide Applicators, Assertions, ObjectPart, ArrayPart;
  }

  /** An instance valid under the standard draws no hint. */
  lemma {:induction false} NoFalseRejection(depth: nat, n: nat, root: Value, nodes: set<Value>, schema: Value,
                                            v: Value, path: Path)
    requires StandardNodes(root, nodes) && schema in nodes
    requires Validate(depth, root, schema, v, path).Some? && Verdict(n, root, schema, v) == Some(true)
    ensures Validate(depth, root, schema, v, path) == Some([])
    decreases depth, 4
  {
    hide ValidatorShape, Validate, CombineHints, Verdict, Applicators, Assertions, ObjectPart, ArrayPart, Closed;
    ReturnedDepth(depth, root, schema, v, path);
    ChainClosed(root, nodes, schema);
    assert StandardNode(schema);
    var shape := ValidatorShape(schema);
    if schema.Bool? {
      BoolVerdict(n, root, schema, v);
      ValidateLeaf(depth, root, schema, v, path);
    } else {
      VerdictParts(n, root, schema, v);
      if shape.Reference? {
        ValidateReference(depth, root, schema, v, path);
        RefVerdict(n - 1, root, schema, v);
        if Target(root, shape.ref).Some? {
          NoFalseRejection(depth - 1, n - 1, root, nodes, Target(root, shape.ref).value, v, path);
        }
      } else if shape.Combine? {
        CombineAccepted(depth, n - 1, root, nodes, schema, v, path);
      } else if shape.Plain? {
        PlainAccepted(depth, n - 1, root, nodes, schema, v, path);
      } else {
        LeafAccepted(depth, root, schema, v, path);
      }
    }
  }

  lemma BoolVerdict(n: nat, root: Value, schema: Value, v: Value)
    requires schema.Bool? && Verdict(n, root, schema, v) == Some(true)
    ensures ValidatorShape(schema).Anything?
  {
  }

  lemma RefVerdict(n: nat, root: Value, schema: Value, v: Value)
    requires ValidatorShape(schema).Reference? && PlainReference(ValidatorShape(schema).ref)
    requires Applicators(n, root, schema, v) == Some(true)
    ensures var target := Target(root, ValidatorShape(schema).ref);
      target.Some? ==> Verdict(n, root, target.value, v) == Some(true)
  {
    hide Verdict, Resolve, StandardResolve, PlainReference, Combinators, CombinatorShape;
    ResolutionAgrees(root, ValidatorShape(schema).ref);
  }

  lemma LeafAccepted(depth: nat, root: Value, schema: Value, v: Value, path: Path)
    requires depth > 0 && schema.Obj? && StandardNode(schema) && Assertions(schema, v) == Some(true)
    requires var shape := ValidatorShape(schema); !shape.Reference? && !shape.Combine? && !shape.Plain?
    ensures Validate(depth, root, schema, v, path) == Some([])
  {
    hide Validate, CombinatorShape, TypeHolds;
    ValidateLeaf(depth, root, schema, v, path);
    var shape := ValidatorShape(schema);
    if shape.EnumOf? {
      var i :| 0 <= i < |shape.items| && SameData(shape.items[i], v);
      OrderFreeSame(shape.items[i], v);
    } else if shape.ConstOf? {
      OrderFreeSame(shape.value, v);
    }
  }

  /** The combinator that decides has a valid variant; `allOf` has only valid ones. */
  lemma CombinatorVerdict(n: nat, root: Value, schema: Value, v: Value)
    requires ValidatorShape(schema).Combine? && Applicators(n, root, schema, v) == Some(true)
    ensures var Combine(how, variants) := ValidatorShape(schema);
      if how.AllOf? then forall i :: 0 <= i < |variants| ==> Verdict(n, root, variants[i], v) == Some(true)
      else exists i :: 0 <= i < |variants| && Verdict(n, root, variants[i], v) == Some(true)
  {
    hide Verdict, ReferencePart, ValidatorShape;
    var Combine(how, variants) := ValidatorShape(schema);
    var vs := EachVerdict(n, root, variants, v);
    assert CombinatorPart(n, root, schema, how, v) == Outcome3(how, vs) == Some(true);
    if how.AllOf? {
      forall i | 0 <= i < |variants| ensures Verdict(n, root, variants[i], v) == Some(true) {
        assert vs[i] == Verdict(n, root, variants[i], v);
      }
    } else {
      var i :| 0 <= i < |vs| && vs[i] == Some(true);
      assert Verdict(n, root, variants[i], v) == Some(true);
    }
  }

  lemma {:induction false} CombineAccepted(depth: nat, n: nat, root: Value, nodes: set<Value>, schema: Value,
                                           v: Value, path: Path)
    requires StandardNodes(root, nodes) && schema in nodes && ValidatorShape(schema).Combine?
    requires Validate(depth, root, schema, v, path).Some? && Applicators(n, root, schema, v) == Some(true)
    ensures Validate(depth, root, schema, v, path) == Some([])
    decreases depth, 3
  {
    hide ValidatorShape, Validate, CombineHints, Verdict, Applicators, Closed, StandardNode;
    ReturnedDepth(depth, root, schema, v, path);
    ChainClosed(root, nodes, schema);
    var Combine(how, variants) := ValidatorShape(schema);
    CombinatorVerdict(n, root, schema, v);
    ValidateCombine(depth, root, schema, v, path);
    CombinedOutcome(depth - 1, root, how, variants, v, path);
    forall i | 0 <= i < |variants| && Verdict(n, root, variants[i], v) == Some(true)
      ensures Validate(depth - 1, root, variants[i], v, path) == Some([])
    {
      NoFalseRejection(depth - 1, n, root, nodes, variants[i], v, path);
    }
  }

  lemma TypeAccepted(ty: Option<Value>, v: Value, path: Path)
    requires TypeHolds(ty, v)
    ensures ValidateType(ty, v, path) == []
  {
    if IsArray(ty) {
      var types := ty.value.items;
      var i :| 0 <= i < |types| && types[i].Str? && OfTypeName(types[i].s, v);
      AnyTypeIs(types, v, path);
      assert ValidateType(Some(types[i]), v, path) == [];
    }
  }

  lemma DispatchFits(schema: Value, v: Value)
    requires TypeHolds(Get(schema, "type"), v) && !Untyped(schema)
    ensures Dispatch(schema, v) == AsObject ==> v.Obj?
    ensures Dispatch(schema, v) == AsArray ==> v.Arr?
    ensures Dispatch(schema, v) == AsNumber ==>
      v.Num? && (Get(schema, "type") == Some(Str("integer")) ==> IsInteger(v.n))
  {
    hide Get, IsInteger;
  }

  lemma {:induction false} PlainAccepted(depth: nat, n: nat, root: Value, nodes: set<Value>, schema: Value, v: Value,
                                         path: Path)
    requires StandardNodes(root, nodes) && schema in nodes && ValidatorShape(schema).Plain? && schema.Obj?
    requires Validate(depth, root, schema, v, path).Some? && Assertions(schema, v) == Some(true)
    requires ObjectPart(n, root, schema, v) == Some(true) && ArrayPart(n, root, schema, v) == Some(true)
    ensures Validate(depth, root, schema, v, path) == Some([])
    decreases depth, 3
  {
    hide ValidatorShape, Validate, Dispatch, TypeHolds, Closed, ObjectPart, ArrayPart, ValidateObject, ValidateArray;
    hide Untyped;
    ReturnedDepth(depth, root, schema, v, path);
    assert !Untyped(schema) by { assert StandardNode(schema); }
    PlainClosed(root, nodes, schema);
    ValidatePlain(depth, root, schema, v, path);
    TypeAccepted(Get(schema, "type"), v, path);
    DispatchFits(schema, v);
    if Dispatch(schema, v) == AsObject {
      ObjectAccepted(depth - 1, n, root, nodes, schema, v, path);
    } else if Dispatch(schema, v) == AsArray {
      ArrayAccepted(depth - 1, n, root, nodes, schema, v, path);
    }
  }

  lemma {:induction false} ArrayAccepted(depth: nat, n: nat, root: Value, nodes: set<Value>, schema: Value, v: Value,
                                         path: Path)
    requires StandardNodes(root, nodes) && v.Arr?
    requires Truthy(Get(schema, "items")) ==> Get(schema, "items").value in nodes
    requires ValidateArray(depth, root, schema, v, path).Some? && ArrayPart(n, root, schema, v) == Some(true)
    ensures ValidateArray(depth, root, schema, v, path) == Some([])
    decreases depth, 2
  {
    hide Validate, Verdict, StandardNodes, ValidateItems;
    var items := Get(schema, "items");
    if Truthy(items) {
      ItemsOutcome(depth, root, items.value, v.items, path, 0);
      var vs := seq(|v.items|, i requires 0 <= i < |v.items| => Verdict(n, root, items.value, v.items[i]));
      forall i | 0 <= i < |v.items| ensures ItemOutcome(depth, root, items.value, v.items[i], path, i) == Some([]) {
        assert ItemOutcome(depth, root, items.value, v.items[i], path, i).Some? && vs[i] == Some(true);
        NoFalseRejection(depth - 1, n, root, nodes, items.value, v.items[i], path + [Index(i)]);
      }
    }
  }

  lemma {:induction false} ObjectAccepted(depth: nat, n: nat, root: Value, nodes: set<Value>, schema: Value,
                                          v: Value, path: Path)
    requires StandardNodes(root, nodes) && v.Obj?
    requires var properties := Entries(Get(schema, "properties"));
      forall i :: 0 <= i < |properties| ==> properties[i].value in nodes
    requires var additional := Get(schema, "additionalProperties");
      additional.Some? && IsObjectLike(additional.value) ==> additional.value in nodes
    requires ValidateObject(depth, root, schema, v, path).Some? && ObjectPart(n, root, schema, v) == Some(true)
    ensures ValidateObject(depth, root, schema, v, path) == Some([])
    decreases depth, 2
  {
    hide ValidateProperties, ValidateAdditional, PropertyVerdicts, MemberVerdicts, StandardNodes, MissingHints;
    var properties := Entries(Get(schema, "properties"));
    var additional := Get(schema, "additionalProperties");
    MissingOutcome(Elements(Get(schema, "required")), v.fields, path);
    PropertiesAccepted(depth, n, root, nodes, properties, v.fields, path);
    AdditionalAccepted(depth, n, root, nodes, additional, properties, v.fields, path);
  }

  lemma {:induction false} PropertiesAccepted(depth: nat, n: nat, root: Value, nodes: set<Value>,
                                              properties: seq<Field<real>>,
                                              fields: seq<Field<real>>, path: Path)
    requires StandardNodes(root, nodes) && forall i :: 0 <= i < |properties| ==> properties[i].value in nodes
    requires ValidateProperties(depth, root, properties, fields, path).Some?
    requires Every(PropertyVerdicts(n, root, properties, fields)) == Some(true)
    ensures ValidateProperties(depth, root, properties, fields, path) == Some([])
    decreases depth, 1
  {
    hide Validate, Verdict, StandardNodes, ValidateProperties;
    PropertiesOutcome(depth, root, properties, fields, path);
    var vs := PropertyVerdicts(n, root, properties, fields);
    forall i | 0 <= i < |properties| ensures PropertyOutcome(depth, root, properties[i], fields, path) == Some([]) {
      var own := Lookup(fields, properties[i].key);
      assert PropertyOutcome(depth, root, properties[i], fields, path).Some? && vs[i] == Some(true);
      if own.Some? {
        NoFalseRejection(depth - 1, n, root, nodes, properties[i].value, own.value, path + [Key(properties[i].key)]);
      }
    }
  }

  lemma {:induction false} AdditionalAccepted(depth: nat, n: nat, root: Value, nodes: set<Value>,
                                              additional: Option<Value>,
                                              properties: seq<Field<real>>, fields: seq<Field<real>>, path: Path)
    requires StandardNodes(root, nodes)
    requires (additional.Some? && IsObjectLike(additional.value) ==> additional.value in nodes)
    requires ValidateAdditional(depth, root, additional, properties, fields, path).Some?
    requires Every(MemberVerdicts(n, root, additional, properties, fields)) == Some(true)
    ensures ValidateAdditional(depth, root, additional, properties, fields, path) == Some([])
    decreases depth, 1
  {
    hide Validate, Verdict, StandardNodes, ValidateAdditional;
    AdditionalOutcome(depth, root, additional, properties, fields, path);
    var vs := MemberVerdicts(n, root, additional, properties, fields);
    forall i | 0 <= i < |fields|
      ensures MemberOutcome(depth, root, additional, properties, fields[i], path) == Some([])
    {
      assert MemberOutcome(depth, root, additional, properties, fields[i], path).Some? && vs[i] == Some(true);
      if additional.Some? && !HasKey(properties, fields[i].key) {
        assert Verdict(n, root, additional.value, fields[i].value) == Some(true);
        if IsObjectLike(additional.value) {
          NoFalseRejection(depth - 1, n, root, nodes, additional.value, fields[i].value, path + [Key(fields[i].key)]);
        } else if additional.value.Bool? {
          BoolVerdict(n, root, additional.value, fields[i].value);
        }
      }
    }
  }
}
