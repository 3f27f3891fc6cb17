/**
 Where the validator misses nothing: schemas whose keywords it all reads.  Together with SchemaStandard
 its answer is then the standard's, both ways.
 */
module SchemaExact {
  import opened Prelude
  import opened Json
  import opened SchemaDocument
  import opened SchemaNodes
  import opened SchemaPointer
  import opened SchemaValidator
  import opened SchemaSoundness
  import opened SchemaStandard
  import opened SchemaTagged

  const KEYWORDS: set<string> :=
    {"$ref", "enum", "const", "anyOf", "oneOf", "allOf",
     "type", "minimum", "required", "properties", "additionalProperties", "items"}

  const PLAIN_KEYWORDS: set<string> := {"type", "minimum", "required", "properties", "additionalProperties", "items"}

  /** Of the supported keywords the schema has these at most. */
  predicate Only(schema: Value, keys: set<string>) {
    forall k :: k in KEYWORDS && k !in keys ==> Get(schema, k).None?
  }

  predicate TypeName(name: string) {
    name in {"null", "string", "boolean", "number", "integer", "object", "array"}
  }

  /** No type, one of the seven names, or a list of them. */
  predicate TypeStated(ty: Option<Value>) {
    match ty
    case None => true
    case Some(Arr(types)) => forall i :: 0 <= i < |types| ==> types[i].Str? && TypeName(types[i].s)
    case Some(t) => t.Str? && TypeName(t.s)
  }

  /** `items: false` is not read; without a type only `properties` and `required` are. */
  predicate ExactPlain(schema: Value) {
    && TypeStated(Get(schema, "type"))
    && (Get(schema, "items").Some? ==> Truthy(Get(schema, "items")))
    && (Get(schema, "type").None? && !Untyped(schema) ==>
          Get(schema, "additionalProperties").None? && Get(schema, "items").None? && Get(schema, "minimum").None?)
  }

  /** The keyword that decides stands alone; next to `enum` and `const` a type may stand that their values have. */
  ghost predicate ExactNode(root: Value, schema: Value) {
    match ValidatorShape(schema)
    case Reference(ref) =>
      Only(schema, {"$ref"}) && PlainReference(ref) && (Resolve(root, ref).Some? ==> Truthy(Resolve(root, ref)))
    case EnumOf(items) =>
      Only(schema, {"enum", "type"}) && forall i :: 0 <= i < |items| ==> TypeHolds(Get(schema, "type"), items[i])
    case ConstOf(value) => Only(schema, {"const", "type"}) && TypeHolds(Get(schema, "type"), value)
    case Combine(how, variants) =>
      Only(schema, {how.Keyword()}) && (how.OneOf? ==> exists tags :: TaggedUnion(variants, tags))
    case Plain => Only(schema, PLAIN_KEYWORDS) && ExactPlain(schema)
    case _ => true
  }

  ghost predicate ExactNodes(root: Value, nodes: set<Value>) {
    Closed(root, nodes) && forall s :: s in nodes ==> ExactNode(root, s)
  }

  // ----- the standard's verdict, part by part -----

  lemma VerdictFromParts(n: nat, root: Value, schema: Value, v: Value)
    requires Verdict(n, root, schema, v).Some? && !schema.Bool?
    ensures n > 0 && schema.Obj?
    ensures Applicators(n - 1, root, schema, v).Some?
    ensures ObjectPart(n - 1, root, schema, v).Some? && ArrayPart(n - 1, root, schema, v).Some?
    ensures Verdict(n, root, schema, v) == And(Applicators(n - 1, root, schema, v),
      And(Assertions(schema, v), And(ObjectPart(n - 1, root, schema, v), ArrayPart(n - 1, root, schema, v))))
  {
    hide Applicators, Assertions, ObjectPart, ArrayPart;
  }

  lemma VerdictIs(n: nat, root: Value, schema: Value, v: Value)
    requires n > 0 && schema.Obj?
    ensures Verdict(n, root, schema, v) == And(Applicators(n - 1, root, schema, v),
      And(Assertions(schema, v), And(ObjectPart(n - 1, root, schema, v), ArrayPart(n - 1, root, schema, v))))
  {
    hide Applicators, Assertions, ObjectPart, ArrayPart;
  }

  lemma NoCombinators(n: nat, root: Value, schema: Value, v: Value)
    requires Get(schema, "anyOf").None? && Get(schema, "oneOf").None? && Get(schema, "allOf").None?
    ensures Combinators(n, root, schema, v) == Some(true)
  {
    hide Verdict, Get, Outcome3;
  }

  lemma NoApplicators(n: nat, root: Value, schema: Value, v: Value)
    requires Get(schema, "$ref").None? && Get(schema, "anyOf").None? && Get(schema, "oneOf").None?
    requires Get(schema, "allOf").None?
    ensures Applicators(n, root, schema, v) == Some(true)
  {
    hide Verdict, Get, Combinators;
    NoCombinators(n, root, schema, v);
  }

  lemma NoObjectPart(n: nat, root: Value, schema: Value, v: Value)
    requires Get(schema, "required").None? && Get(schema, "properties").None?
    requires Get(schema, "additionalProperties").None?
    ensures ObjectPart(n, root, schema, v) == Some(true)
  {
    hide Verdict, Get;
    if v.Obj? {
      var vs := MemberVerdicts(n, root, None, [], v.fields);
      assert forall i :: 0 <= i < |vs| ==> vs[i] == Some(true);
      assert None !in vs;
    }
  }

  lemma NoArrayPart(n: nat, root: Value, schema: Value, v: Value)
    requires Get(schema, "items").None?
    ensures ArrayPart(n, root, schema, v) == Some(true)
  {
    hide Verdict, Get;
  }

  lemma LeafValid(depth: nat, n: nat, root: Value, schema: Value, v: Value, path: Path)
    requires schema.Obj? && ExactNode(root, schema) && WellFormed(v)
    requires ValidatorShape(schema).EnumOf? || ValidatorShape(schema).ConstOf?
    requires Validate(depth, root, schema, v, path) == Some([])
    ensures Applicators(n, root, schema, v) == Some(true) && Assertions(schema, v) == Some(true)
    ensures ObjectPart(n, root, schema, v) == Some(true) && ArrayPart(n, root, schema, v) == Some(true)
  {
    hide Validate, CombinatorShape, TypeHolds, Get, Applicators, ObjectPart, ArrayPart, SameData;
    ReturnedDepth(depth, root, schema, v, path);
    ValidateLeaf(depth, root, schema, v, path);
    NoApplicators(n, root, schema, v);
    NoObjectPart(n, root, schema, v);
    NoArrayPart(n, root, schema, v);
    SameDataReflexive(v);
    var shape := ValidatorShape(schema);
    if shape.EnumOf? {
      var i :| 0 <= i < |shape.items| && shape.items[i] == v;
      assert SameData(shape.items[i], v);
    }
  }

  // ----- no false acceptance -----

  /** What draws no hint is not invalid under the standard. */
  lemma {:induction false} NoFalseAcceptance(depth: nat, n: nat, root: Value, nodes: set<Value>, schema: Value,
                                             v: Value, path: Path)
    requires ExactNodes(root, nodes) && schema in nodes && WellFormed(v)
    requires Validate(depth, root, schema, v, path) == Some([]) && Verdict(n, root, schema, v).Some?
    ensures Verdict(n, root, schema, v) == Some(true)
    decreases depth, 4
  {
    hide ValidatorShape, Validate, Verdict, Applicators, Assertions, ObjectPart, ArrayPart, Closed, ExactNode;
    ReturnedDepth(depth, root, schema, v, path);
    assert ExactNode(root, schema);
    if schema.Bool? {
      BoolValid(depth, n, root, schema, v, path);
    } else {
      VerdictFromParts(n, root, schema, v);
      var shape := ValidatorShape(schema);
      if shape.Reference? {
        ReferenceValid(depth, n - 1, root, nodes, schema, v, path);
      } else if shape.Combine? {
        CombineValid(depth, n - 1, root, nodes, schema, v, path);
      } else if shape.Plain? {
        PlainValid(depth, n - 1, root, nodes, schema, v, path);
      } else {
        ObjectShapes(schema);
        LeafValid(depth, n - 1, root, schema, v, path);
      }
    }
  }

  lemma ObjectShapes(schema: Value)
    requires schema.Obj?
    ensures var shape := ValidatorShape(schema); !shape.Anything? && !shape.Nothing? && !shape.NotASchema?
  {
    hide CombinatorShape, Get;
  }

  lemma BoolValid(depth: nat, n: nat, root: Value, schema: Value, v: Value, path: Path)
    requires schema.Bool? && depth > 0 && Validate(depth, root, schema, v, path) == Some([])
    requires Verdict(n, root, schema, v).Some?
    ensures Verdict(n, root, schema, v) == Some(true)
  {
    hide Validate;
    ValidateLeaf(depth, root, schema, v, path);
  }

  /** A reference that stands alone says what its target says. */
  lemma LoneReference(n: nat, root: Value, schema: Value, ref: string, v: Value)
    requires Only(schema, {"$ref"}) && Get(schema, "$ref") == Some(Str(ref)) && StandardResolve(root, ref).Some?
    ensures Applicators(n, root, schema, v) == Verdict(n, root, StandardResolve(root, ref).value, v)
    ensures Assertions(schema, v) == Some(true)
    ensures ObjectPart(n, root, schema, v) == Some(true) && ArrayPart(n, root, schema, v) == Some(true)
  {
    hide Verdict, Get, StandardResolve, Combinators;
    NoCombinators(n, root, schema, v);
    NoObjectPart(n, root, schema, v);
    NoArrayPart(n, root, schema, v);
  }

  lemma {:induction false} ReferenceValid(depth: nat, n: nat, root: Value, nodes: set<Value>, schema: Value,
                                          v: Value, path: Path)
    requires ExactNodes(root, nodes) && schema in nodes && WellFormed(v) && schema.Obj?
    requires ValidatorShape(schema).Reference?
    requires Validate(depth, root, schema, v, path) == Some([]) && Applicators(n, root, schema, v).Some?
    ensures Applicators(n, root, schema, v) == Some(true) && Assertions(schema, v) == Some(true)
    ensures ObjectPart(n, root, schema, v) == Some(true) && ArrayPart(n, root, schema, v) == Some(true)
    decreases depth, 3
  {
    hide ValidatorShape, Validate, Verdict, ObjectPart, ArrayPart, Get, Closed, Resolve, StandardResolve;
    hide PlainReference, Combinators;
    assert ExactNode(root, schema);
    ReturnedDepth(depth, root, schema, v, path);
    ChainClosed(root, nodes, schema);
    ValidateReference(depth, root, schema, v, path);
    NoObjectPart(n, root, schema, v);
    NoArrayPart(n, root, schema, v);
    var ref := ValidatorShape(schema).ref;
    ResolutionAgrees(root, ref);
    assert IsRef(schema) && Get(schema, "$ref").value.s == ref;
    NoCombinators(n, root, schema, v);
    if Resolve(root, ref).Some? {
      NoFalseAcceptance(depth - 1, n, root, nodes, Target(root, ref).value, v, path);
    }
  }

  lemma {:induction false} CombineValid(depth: nat, n: nat, root: Value, nodes: set<Value>, schema: Value, v: Value,
                                        path: Path)
    requires ExactNodes(root, nodes) && schema in nodes && WellFormed(v) && schema.Obj?
    requires ValidatorShape(schema).Combine?
    requires Validate(depth, root, schema, v, path) == Some([]) && Applicators(n, root, schema, v).Some?
    ensures Applicators(n, root, schema, v) == Some(true) && Assertions(schema, v) == Some(true)
    ensures ObjectPart(n, root, schema, v) == Some(true) && ArrayPart(n, root, schema, v) == Some(true)
    decreases depth, 3
  {
    hide ValidatorShape, Validate, CombineHints, Verdict, ObjectPart, ArrayPart, Get, Closed, Every, Any, ExactlyOne;
    hide Applicators;
    assert ExactNode(root, schema);
    ReturnedDepth(depth, root, schema, v, path);
    ChainClosed(root, nodes, schema);
    ValidateCombine(depth, root, schema, v, path);
    NoObjectPart(n, root, schema, v);
    NoArrayPart(n, root, schema, v);
    var Combine(how, variants) := ValidatorShape(schema);
    OneApplicator(n, root, schema, v);
    CombinedOutcome(depth - 1, root, how, variants, v, path);
    var vs := EachVerdict(n, root, variants, v);
    forall i | 0 <= i < |variants| && Validate(depth - 1, root, variants[i], v, path) == Some([]) && vs[i].Some?
      ensures vs[i] == Some(true)
    {
      NoFalseAcceptance(depth - 1, n, root, nodes, variants[i], v, path);
    }
    CombinedVerdict(how, vs);
    if how.OneOf? {
      var tags :| TaggedUnion(variants, tags);
      TaggedOneOfIsAnyOf(n, root, variants, tags, v);
    }
  }

  lemma CombinedVerdict(how: Combinator, vs: seq<Verdict3>)
    ensures Outcome3(how, vs).Some? ==> forall i :: 0 <= i < |vs| ==> vs[i].Some?
    ensures Outcome3(how, vs).Some? && how.AllOf? && (forall i :: 0 <= i < |vs| ==> vs[i] == Some(true)) ==>
      Every(vs) == Some(true)
    ensures Outcome3(how, vs).Some? && !how.AllOf? && (exists i :: 0 <= i < |vs| && vs[i] == Some(true)) ==>
      Any(vs) == Some(true)
  {
  }

  lemma OneApplicator(n: nat, root: Value, schema: Value, v: Value)
    requires ValidatorShape(schema).Combine? && Only(schema, {ValidatorShape(schema).how.Keyword()})
    ensures var Combine(how, variants) := ValidatorShape(schema);
      Applicators(n, root, schema, v) == Outcome3(how, EachVerdict(n, root, variants, v))
    ensures Assertions(schema, v) == Some(true)
    ensures forall k :: k in {"required", "properties", "additionalProperties", "items"} ==> Get(schema, k).None?
  {
    hide Verdict, Get, Every, Any, ExactlyOne, ValidatorShape, Applicators, Outcome3;
    var Combine(how, variants) := ValidatorShape(schema);
    assert Get(schema, how.Keyword()) == Some(Arr(variants));
    LoneApplicator(n, root, schema, how, variants, v);
  }

  /** One of the three combinators, and no reference. */
  predicate OneCombinator(schema: Value, how: Combinator, variants: seq<Value>) {
    && Get(schema, how.Keyword()) == Some(Arr(variants)) && Get(schema, "$ref").None?
    && (how.AllOf? || Get(schema, "allOf").None?) && (how.AnyOf? || Get(schema, "anyOf").None?)
    && (how.OneOf? || Get(schema, "oneOf").None?)
  }

  lemma LoneApplicator(n: nat, root: Value, schema: Value, how: Combinator, variants: seq<Value>, v: Value)
    requires OneCombinator(schema, how, variants)
    ensures Applicators(n, root, schema, v) == Outcome3(how, EachVerdict(n, root, variants, v))
  {
    hide Verdict, Get, Outcome3, Combinators, OtherCombinators;
    assert CombinatorPart(n, root, schema, how, v) == Outcome3(how, EachVerdict(n, root, variants, v));
    OthersAbsent(n, root, schema, how, variants, v);
    hide CombinatorPart;
    LoneCombinator(n, root, schema, how, v);
  }

  lemma OthersAbsent(n: nat, root: Value, schema: Value, how: Combinator, variants: seq<Value>, v: Value)
    requires OneCombinator(schema, how, variants)
    ensures OtherCombinators(n, root, schema, how, v)
  {
    hide Verdict, Get, Outcome3;
  }

  lemma LoneCombinator(n: nat, root: Value, schema: Value, how: Combinator, v: Value)
    requires OtherCombinators(n, root, schema, how, v)
    ensures Combinators(n, root, schema, v) == CombinatorPart(n, root, schema, how, v)
  {
    hide CombinatorPart;
  }

  lemma CombinatorsAll(n: nat, root: Value, schema: Value, how: Combinator, v: Value)
    ensures Combinators(n, root, schema, v) == Some(true) <==>
      CombinatorPart(n, root, schema, how, v) == Some(true) && OtherCombinators(n, root, schema, how, v)
  {
    hide CombinatorPart;
  }

  lemma {:induction false} PlainValid(depth: nat, n: nat, root: Value, nodes: set<Value>, schema: Value, v: Value,
                                      path: Path)
    requires ExactNodes(root, nodes) && schema in nodes && WellFormed(v) && schema.Obj? && ValidatorShape(schema).Plain?
    requires Validate(depth, root, schema, v, path) == Some([])
    requires ObjectPart(n, root, schema, v).Some? && ArrayPart(n, root, schema, v).Some?
    ensures Applicators(n, root, schema, v) == Some(true) && Assertions(schema, v) == Some(true)
    ensures ObjectPart(n, root, schema, v) == Some(true) && ArrayPart(n, root, schema, v) == Some(true)
    decreases depth, 3
  {
    hide ValidatorShape, Validate, ValidateType, ValidateByType, Verdict, ObjectPart, ArrayPart, Get, Closed;
    hide Applicators, Assertions;
    assert ExactNode(root, schema);
    ReturnedDepth(depth, root, schema, v, path);
    ValidatePlain(depth, root, schema, v, path);
    PlainClosed(root, nodes, schema);
    NoApplicators(n, root, schema, v);
    PlainAssertions(depth - 1, root, schema, v, path);
    ObjectValid(depth - 1, n, root, nodes, schema, v, path);
    ArrayValid(depth - 1, n, root, nodes, schema, v, path);
  }

  lemma TypeValid(ty: Option<Value>, v: Value, path: Path)
    requires TypeStated(ty) && ValidateType(ty, v, path) == []
    ensures TypeHolds(ty, v)
  {
    if IsArray(ty) {
      var types := ty.value.items;
      AnyTypeIs(types, v, path);
      var i :| 0 <= i < |types| && ValidateType(Some(types[i]), v, path) == [];
      assert OfTypeName(types[i].s, v);
    }
  }

  /** The check that follows the type check is the one the value's type calls for. */
  lemma DispatchCovers(schema: Value, v: Value)
    requires ExactPlain(schema) && TypeHolds(Get(schema, "type"), v)
    ensures v.Obj? && (Untyped(schema) || Get(schema, "type").Some?) ==> Dispatch(schema, v) == AsObject
    ensures v.Arr? && Get(schema, "type").Some? ==> Dispatch(schema, v) == AsArray
    ensures v.Num? && Get(schema, "type").Some? ==> Dispatch(schema, v) == AsNumber
    ensures Untyped(schema) ==> Dispatch(schema, v) == AsObject
  {
    hide Get;
  }

  lemma PlainAssertions(depth: nat, root: Value, schema: Value, v: Value, path: Path)
    requires ExactPlain(schema) && Get(schema, "enum").None? && Get(schema, "const").None?
    requires ValidateType(Get(schema, "type"), v, path) == []
    requires ValidateByType(depth, root, schema, v, path) == Some([])
    ensures Assertions(schema, v) == Some(true) && TypeHolds(Get(schema, "type"), v)
  {
    hide Get, ValidateType, TypeHolds, ValidateObject, ValidateArray, Dispatch, TypeStated, Untyped;
    TypeValid(Get(schema, "type"), v, path);
    DispatchCovers(schema, v);
    if v.Num? && Get(schema, "minimum").Some? {
      MinimumRead(schema);
      if Get(schema, "type").None? {
        UntypedIsObject(depth, root, schema, v, path);
      }
    }
  }

  lemma MinimumRead(schema: Value)
    requires ExactPlain(schema) && Get(schema, "minimum").Some?
    ensures Untyped(schema) || Get(schema, "type").Some?
  {
    hide Get, Untyped;
  }

  lemma UntypedIsObject(depth: nat, root: Value, schema: Value, v: Value, path: Path)
    requires Dispatch(schema, v) == AsObject && ValidateByType(depth, root, schema, v, path) == Some([])
    ensures v.Obj?
  {
    hide Dispatch, ValidateProperties, ValidateAdditional;
  }

  lemma {:induction false} ArrayValid(depth: nat, n: nat, root: Value, nodes: set<Value>, schema: Value, v: Value,
                                      path: Path)
    requires ExactNodes(root, nodes) && WellFormed(v) && ExactPlain(schema) && TypeHolds(Get(schema, "type"), v)
    requires Truthy(Get(schema, "items")) ==> Get(schema, "items").value in nodes
    requires ValidateByType(depth, root, schema, v, path) == Some([]) && ArrayPart(n, root, schema, v).Some?
    ensures ArrayPart(n, root, schema, v) == Some(true)
    decreases depth, 3
  {
    hide Validate, Verdict, ExactNodes, ValidateItems, ValidateObject, Dispatch, TypeHolds, Untyped, Get;
    var items := Get(schema, "items");
    DispatchCovers(schema, v);
    if v.Arr? && items.Some? {
      if Untyped(schema) { UntypedIsObject(depth, root, schema, v, path); }
      ItemsOutcome(depth, root, items.value, v.items, path, 0);
      var vs := seq(|v.items|, i requires 0 <= i < |v.items| => Verdict(n, root, items.value, v.items[i]));
      assert ArrayPart(n, root, schema, v) == Every(vs);
      forall i | 0 <= i < |v.items| ensures vs[i] == Some(true) {
        assert vs[i] != None by { assert vs[i] in vs; }
        assert ItemOutcome(depth, root, items.value, v.items[i], path, i) == Some([]);
        NoFalseAcceptance(depth - 1, n, root, nodes, items.value, v.items[i], path + [Index(i)]);
      }
    }
  }

  lemma {:induction false} ObjectValid(depth: nat, n: nat, root: Value, nodes: set<Value>, schema: Value, v: Value,
                                       path: Path)
    requires ExactNodes(root, nodes) && WellFormed(v) && ExactPlain(schema) && TypeHolds(Get(schema, "type"), v)
    requires var properties := Entries(Get(schema, "properties"));
      forall i :: 0 <= i < |properties| ==> properties[i].value in nodes
    requires var additional := Get(schema, "additionalProperties");
      additional.Some? && IsObjectLike(additional.value) ==> additional.value in nodes
    requires ValidateByType(depth, root, schema, v, path) == Some([]) && ObjectPart(n, root, schema, v).Some?
    ensures ObjectPart(n, root, schema, v) == Some(true)
    decreases depth, 3
  {
    hide ValidateProperties, ValidateAdditional, ValidateArray, PropertyVerdicts, MemberVerdicts, ExactNodes;
    hide MissingHints;
    hide Dispatch, TypeHolds, Get, Every;
    DispatchCovers(schema, v);
    if v.Obj? {
      if Untyped(schema) || Get(schema, "type").Some? {
        var properties := Entries(Get(schema, "properties"));
        MissingOutcome(Elements(Get(schema, "required")), v.fields, path);
        PropertiesValid(depth, n, root, nodes, properties, v, path);
        AdditionalValid(depth, n, root, nodes, Get(schema, "additionalProperties"), properties, v, path);
      } else {
        SilentObject(n, root, schema, v);
      }
    }
  }

  /** Without a type, and with neither `properties` nor `required`, nothing is said about objects. */
  lemma SilentObject(n: nat, root: Value, schema: Value, v: Value)
    requires ExactPlain(schema) && !Untyped(schema) && Get(schema, "type").None?
    ensures ObjectPart(n, root, schema, v) == Some(true)
  {
    hide Verdict, Get;
    if v.Obj? {
      var vs := MemberVerdicts(n, root, None, [], v.fields);
      assert forall i :: 0 <= i < |vs| ==> vs[i] == Some(true);
      assert None !in vs;
      assert Entries(Get(schema, "properties")) == [] && Elements(Get(schema, "required")) == [];
    }
  }

  lemma {:induction false} PropertiesValid(depth: nat, n: nat, root: Value, nodes: set<Value>,
                                           properties: seq<Field<real>>,
                                           v: Value, path: Path)
    requires ExactNodes(root, nodes) && v.Obj? && WellFormed(v)
    requires forall i :: 0 <= i < |properties| ==> properties[i].value in nodes
    requires ValidateProperties(depth, root, properties, v.fields, path) == Some([])
    requires Every(PropertyVerdicts(n, root, properties, v.fields)).Some?
    ensures Every(PropertyVerdicts(n, root, properties, v.fields)) == Some(true)
    decreases depth, 1
  {
    hide Validate, Verdict, ExactNodes, ValidateProperties;
    PropertiesOutcome(depth, root, properties, v.fields, path);
    var vs := PropertyVerdicts(n, root, properties, v.fields);
    forall i | 0 <= i < |properties| ensures vs[i] == Some(true) {
      var own := Lookup(v.fields, properties[i].key);
      assert vs[i] != None by { assert vs[i] in vs; }
      assert PropertyOutcome(depth, root, properties[i], v.fields, path) == Some([]);
      if own.Some? {
        LookupWellFormed(v.fields, properties[i].key);
        NoFalseAcceptance(depth - 1, n, root, nodes, properties[i].value, own.value, path + [Key(properties[i].key)]);
      }
    }
  }

  lemma {:induction false} AdditionalValid(depth: nat, n: nat, root: Value, nodes: set<Value>,
                                           additional: Option<Value>,
                                           properties: seq<Field<real>>, v: Value, path: Path)
    requires ExactNodes(root, nodes)
    requires (additional.Some? && IsObjectLike(additional.value) ==> additional.value in nodes)
    requires v.Obj? && WellFormed(v)
    requires ValidateAdditional(depth, root, additional, properties, v.fields, path) == Some([])
    requires Every(MemberVerdicts(n, root, additional, properties, v.fields)).Some?
    ensures Every(MemberVerdicts(n, root, additional, properties, v.fields)) == Some(true)
    decreases depth, 1
  {
    hide Validate, Verdict, ExactNodes, ValidateAdditional;
    AdditionalOutcome(depth, root, additional, properties, v.fields, path);
    var vs := MemberVerdicts(n, root, additional, properties, v.fields);
    forall i | 0 <= i < |v.fields| ensures vs[i] == Some(true) {
      assert vs[i] != None by { assert vs[i] in vs; }
      assert MemberOutcome(depth, root, additional, properties, v.fields[i], path) == Some([]);
      if additional.Some? && !HasKey(properties, v.fields[i].key) {
        if IsObjectLike(additional.value) {
          var below := path + [Key(v.fields[i].key)];
          NoFalseAcceptance(depth - 1, n, root, nodes, additional.value, v.fields[i].value, below);
        } else {
          TrivialVerdict(n, root, additional.value, v.fields[i].value);
        }
      }
    }
  }

  lemma TrivialVerdict(n: nat, root: Value, schema: Value, v: Value)
    requires !IsObjectLike(schema) && schema != Bool(false) && Verdict(n, root, schema, v).Some?
    ensures Verdict(n, root, schema, v) == Some(true)
  {
  }

  /** On these schemas, whenever both come to an answer, no hints means valid and valid means no hints. */
  lemma ValidatorExact(depth: nat, n: nat, root: Value, nodes: set<Value>, schema: Value, v: Value, path: Path)
    requires ExactNodes(root, nodes) && StandardNodes(root, nodes) && schema in nodes && WellFormed(v)
    requires Validate(depth, root, schema, v, path).Some? && Verdict(n, root, schema, v).Some?
    ensures Validate(depth, root, schema, v, path) == Some([]) <==> Verdict(n, root, schema, v) == Some(true)
  {
    hide Validate, Verdict, ExactNodes, StandardNodes;
    if Validate(depth, root, schema, v, path) == Some([]) {
      NoFalseAcceptance(depth, n, root, nodes, schema, v, path);
    }
    if Verdict(n, root, schema, v) == Some(true) {
      NoFalseRejection(depth, n, root, nodes, schema, v, path);
    }
  }
}
