/**
 The two readings of a schema agree: a value without hints inhabits the generated type.

 `nodes` is a set of schema nodes closed under the sub-schemas and reference targets that the two
 readers visit; `SoundNode` lists what each node must avoid.  SchemaDisagree says, fault by fault, on
 which values the readings part.
 */
module SchemaSoundness {
  import opened Prelude
  import opened Json
  import opened Text
  import opened SchemaDocument
  import opened SchemaNodes
  import opened TypeText
  import opened TypeRenderer
  import opened SchemaValidator

  predicate KnownName(ty: Value) {
    ty in {Str("null"), Str("string"), Str("boolean"), Str("number"), Str("integer"), Str("object"), Str("array")}
  }

  /** `type` is missing, one of the seven names, or a list of them. */
  predicate KnownType(ty: Option<Value>) {
    !Truthy(ty) || KnownName(ty.value)
    || (ty.value.Arr? && forall i :: 0 <= i < |ty.value.items| ==> KnownName(ty.value.items[i]))
  }

  predicate SoundItems(items: Option<Value>) {
    items.None? || items.value.Null? || Truthy(items)
  }

  /** `additionalProperties` is a schema, and a schema other than `true` stands alone. */
  predicate SoundAdditional(schema: Value) {
    var additional := Get(schema, "additionalProperties");
    Truthy(additional) && additional.value != Bool(true) ==>
      IsObjectLike(additional.value) && Entries(Get(schema, "properties")) == []
  }

  predicate SoundPlain(schema: Value) {
    KnownType(Get(schema, "type")) && SoundItems(Get(schema, "items")) && SoundAdditional(schema)
  }

  predicate SoundNode(schema: Value) {
    && ValidatorShape(schema) == RendererShape(schema)
    && !ValidatorShape(schema).NotASchema?
    && (ValidatorShape(schema).Plain? ==> SoundPlain(schema))
  }

  ghost predicate SoundNodes(root: Value, nodes: set<Value>) {
    Closed(root, nodes) && forall s :: s in nodes ==> SoundNode(s)
  }

  // ----- the renderer, element by element -----

  lemma {:induction false} RenderEachAt(root: Value, schemas: seq<Value>, seen: set<string>, all: set<string>, i: nat)
    requires Strings(root) <= all && i < |schemas|
    requires forall j :: 0 <= j < |schemas| ==> Strings(schemas[j]) <= all
    ensures RenderEach(root, schemas, seen, all)[i] == Render(root, schemas[i], seen, all)
  {
    if i > 0 {
      RenderEachAt(root, schemas[1..], seen, all, i - 1);
    }
  }

  lemma {:induction false} RenderEachTypeAt(root: Value, schema: Value, types: seq<Value>, seen: set<string>,
                                            all: set<string>, i: nat)
    requires Strings(root) <= all && Strings(schema) <= all && i < |types|
    ensures RenderEachType(root, schema, types, seen, all)[i] == RenderByType(root, schema, Some(types[i]), seen, all)
  {
    if i > 0 {
      RenderEachTypeAt(root, schema, types[1..], seen, all, i - 1);
    }
  }

  lemma {:induction false} RenderPropertiesAt(root: Value, properties: seq<Field<real>>, required: seq<Value>,
                                              seen: set<string>, all: set<string>, i: nat)
    requires Strings(root) <= all && i < |properties|
    requires forall j :: 0 <= j < |properties| ==> Strings(properties[j].value) <= all
    ensures RenderProperties(root, properties, required, seen, all)[i]
         == Property(properties[i].key, Str(properties[i].key) !in required,
                     Render(root, properties[i].value, seen, all))
  {
    if i > 0 {
      RenderPropertiesAt(root, properties[1..], required, seen, all, i - 1);
    }
  }

  // ----- unions and intersections survive `unique` and the flat joins -----

  lemma UnionReads(texts: seq<TypeExpr>, fallback: Token, v: Value, i: nat)
    requires [] !in texts && i < |texts| && Inhabits(v, texts[i])
    ensures Inhabits(v, OrElse(Join(Unique(texts), Bar), fallback))
  {
    assert texts[i] in Unique(texts);
    var k :| 0 <= k < |Unique(texts)| && Unique(texts)[k] == texts[i];
    JoinBarIsUnion(Unique(texts), v);
    JoinNonEmpty(Unique(texts), Bar);
  }

  lemma IntersectionReads(texts: seq<TypeExpr>, v: Value)
    requires forall i :: 0 <= i < |texts| ==> Inhabits(v, texts[i])
    ensures Inhabits(v, OrElse(Join(Unique(texts), Amp), Unknown))
  {
    forall i | 0 <= i < |Unique(texts)| ensures Inhabits(v, Unique(texts)[i]) {
      assert Unique(texts)[i] in texts;
    }
    JoinAmpContains(Unique(texts), v);
  }

  lemma LiteralHolds(v: Value)
    requires WellFormed(v)
    ensures InLiteral(v, v)
  {
    match v
    case Arr(items) => forall i | 0 <= i < |items| ensures InLiteral(items[i], items[i]) { LiteralHolds(items[i]); }
    case Obj(fields) =>
      forall i | 0 <= i < |fields|
        ensures Lookup(fields, fields[i].key) == Some(fields[i].value) && InLiteral(fields[i].value, fields[i].value)
      {
        LookupAt(fields, i);
        LiteralHolds(fields[i].value);
      }
    case _ =>
  }

  // ----- soundness -----

  /** What the induction carries along. */
  ghost predicate Setting(root: Value, nodes: set<Value>, schema: Value, v: Value, all: set<string>) {
    SoundNodes(root, nodes) && schema in nodes && WellFormed(v) && Strings(root) <= all && Strings(schema) <= all
  }

  /** The nodes around a plain schema are sound, whether or not it is. */
  ghost predicate Around(root: Value, nodes: set<Value>, schema: Value, v: Value, all: set<string>) {
    && SoundNodes(root, nodes) && ClosedAt(root, nodes, schema) && ValidatorShape(schema).Plain?
    && WellFormed(v) && Strings(root) <= all && Strings(schema) <= all
  }

  /** A value without hints inhabits the rendered type, whatever references were already seen. */
  lemma {:induction false} Sound(depth: nat, root: Value, nodes: set<Value>, schema: Value, v: Value, path: Path,
                                 seen: set<string>, all: set<string>)
    requires Setting(root, nodes, schema, v, all)
    requires Validate(depth, root, schema, v, path) == Some([])
    ensures Inhabits(v, Render(root, schema, seen, all))
    decreases depth, 7
  {
    hide ValidatorShape, RendererShape, SoundPlain, ValidateByType, CombineHints, RenderByType, InUnion;
    assert SoundNode(schema);
    var shape := ValidatorShape(schema);
    if shape.Anything? {
      ReadsOne(Unknown, v);
    } else if shape.Reference? {
      SoundReference(depth, root, nodes, schema, v, path, seen, all);
    } else if shape.EnumOf? {
      SoundEnum(shape.items, v);
    } else if shape.ConstOf? {
      SoundConst(v);
    } else if shape.Plain? {
      SoundByType(depth - 1, root, nodes, schema, v, path, seen, all);
    } else {
      SoundCombinator(depth, root, nodes, schema, v, path, seen, all);
    }
  }

  lemma {:induction false} SoundReference(depth: nat, root: Value, nodes: set<Value>, schema: Value, v: Value,
                                          path: Path,
                                          seen: set<string>, all: set<string>)
    requires Setting(root, nodes, schema, v, all) && ValidatorShape(schema).Reference?
    requires Validate(depth, root, schema, v, path) == Some([])
    ensures Inhabits(v, Render(root, schema, seen, all))
    decreases depth, 2
  {
    hide ValidatorShape, RendererShape, SoundPlain, InUnion, Target, Validate, Render;
    assert SoundNode(schema) && ClosedAt(root, nodes, schema);
    assert depth > 0 by { ReturnedDepth(depth, root, schema, v, path); }
    var ref := ValidatorShape(schema).ref;
    ReadsOne(Unknown, v);
    ValidateReference(depth, root, schema, v, path);
    assert RendererShape(schema) == ValidatorShape(schema);
    RenderReference(root, schema, seen, all);
    if Target(root, ref).Some? && ref !in seen {
      Sound(depth - 1, root, nodes, Target(root, ref).value, v, path, seen + {ref}, all);
    }
  }

  /** A reference is followed once on a path and is `unknown` after that. */
  lemma RenderReference(root: Value, schema: Value, seen: set<string>, all: set<string>)
    requires Strings(root) <= all && Strings(schema) <= all && RendererShape(schema).Reference?
    ensures var ref := RendererShape(schema).ref;
      var target := Target(root, ref);
      if ref in seen || target.None? then Render(root, schema, seen, all) == [Unknown]
      else
        && Strings(target.value) <= all
        && Render(root, schema, seen, all) == Render(root, target.value, seen + {ref}, all)
  {
    hide RendererShape, Resolve, RenderByType;
    var ref := RendererShape(schema).ref;
    if Target(root, ref).Some? {
      StringsOfResolve(root, ref);
    }
  }

  lemma {:induction false} SoundCombinator(depth: nat, root: Value, nodes: set<Value>, schema: Value, v: Value,
                                           path: Path,
                                           seen: set<string>, all: set<string>)
    requires Setting(root, nodes, schema, v, all)
    requires ValidatorShape(schema).Combine?
    requires Validate(depth, root, schema, v, path) == Some([])
    ensures Inhabits(v, Render(root, schema, seen, all))
    decreases depth, 6
  {
    hide ValidatorShape, RendererShape, CombinatorShape, SoundPlain, InUnion, Join, OrElse, CombineHints, Validate;
    assert SoundNode(schema);
    assert depth > 0 by { ReturnedDepth(depth, root, schema, v, path); }
    ValidateCombine(depth, root, schema, v, path);
    ChainClosed(root, nodes, schema);
    StringsOfVariants(schema);
    var Combine(how, variants) := ValidatorShape(schema);
    CombinedOutcome(depth - 1, root, how, variants, v, path);
    if how.AllOf? {
      SoundIntersection(depth - 1, root, nodes, variants, v, path, seen, all);
    } else {
      SoundUnion(depth - 1, root, nodes, variants, v, path, seen, all);
    }
  }

  lemma ReturnedDepth(depth: nat, root: Value, schema: Value, v: Value, path: Path)
    requires Validate(depth, root, schema, v, path).Some?
    ensures depth > 0
  {
    hide ValidatorShape;
  }

  lemma SoundConst(v: Value)
    requires WellFormed(v)
    ensures Inhabits(v, [Literal(v)])
  {
    LiteralHolds(v);
    ReadsOne(Literal(v), v);
  }

  lemma SoundEnum(items: seq<Value>, v: Value)
    requires WellFormed(v) && v in items
    ensures Inhabits(v, OrElse(Join(Unique(Literals(items)), Bar), Never))
  {
    SoundConst(v);
    var i :| 0 <= i < |items| && items[i] == v;
    assert Literals(items)[i] == [Literal(v)];
    UnionReads(Literals(items), Never, v, i);
  }

  ghost predicate Among(root: Value, nodes: set<Value>, schemas: seq<Value>, v: Value, all: set<string>) {
    && SoundNodes(root, nodes) && WellFormed(v) && Strings(root) <= all
    && forall i :: 0 <= i < |schemas| ==> schemas[i] in nodes && Strings(schemas[i]) <= all
  }

  lemma {:induction false} SoundVariant(depth: nat, root: Value, nodes: set<Value>, schemas: seq<Value>, v: Value,
                                        path: Path, seen: set<string>, all: set<string>, i: nat)
    requires Among(root, nodes, schemas, v, all) && i < |schemas|
    requires Validate(depth, root, schemas[i], v, path) == Some([])
    ensures Inhabits(v, RenderEach(root, schemas, seen, all)[i])
    decreases depth, 8
  {
    hide Validate, Render, InUnion;
    Sound(depth, root, nodes, schemas[i], v, path, seen, all);
    RenderEachAt(root, schemas, seen, all, i);
  }

  lemma {:induction false} SoundUnion(depth: nat, root: Value, nodes: set<Value>, schemas: seq<Value>, v: Value,
                                      path: Path, seen: set<string>, all: set<string>)
    requires Among(root, nodes, schemas, v, all)
    requires exists i :: 0 <= i < |schemas| && Validate(depth, root, schemas[i], v, path) == Some([])
    ensures Inhabits(v, OrElse(Join(Unique(RenderEach(root, schemas, seen, all)), Bar), Unknown))
    decreases depth, 9
  {
    hide Validate, Render, RenderEach, InUnion, Join, OrElse;
    var i :| 0 <= i < |schemas| && Validate(depth, root, schemas[i], v, path) == Some([]);
    SoundVariant(depth, root, nodes, schemas, v, path, seen, all, i);
    UnionReads(RenderEach(root, schemas, seen, all), Unknown, v, i);
  }

  lemma {:induction false} SoundIntersection(depth: nat, root: Value, nodes: set<Value>, schemas: seq<Value>, v: Value,
                                             path: Path, seen: set<string>, all: set<string>)
    requires Among(root, nodes, schemas, v, all)
    requires forall i :: 0 <= i < |schemas| ==> Validate(depth, root, schemas[i], v, path) == Some([])
    ensures Inhabits(v, OrElse(Join(Unique(RenderEach(root, schemas, seen, all)), Amp), Unknown))
    decreases depth, 9
  {
    hide Validate, Render, RenderEach, InUnion, Join, OrElse;
    forall i | 0 <= i < |schemas| ensures Inhabits(v, RenderEach(root, schemas, seen, all)[i]) {
      SoundVariant(depth, root, nodes, schemas, v, path, seen, all, i);
    }
    IntersectionReads(RenderEach(root, schemas, seen, all), v);
  }

  lemma RenderPlain(root: Value, schema: Value, seen: set<string>, all: set<string>)
    requires Strings(root) <= all && Strings(schema) <= all && ValidatorShape(schema).Plain?
    ensures Render(root, schema, seen, all) == RenderByType(root, schema, Get(schema, "type"), seen, all)
  {
    hide RenderByType, CombinatorShape;
    assert RendererShape(schema).Plain?;
  }

  lemma RenderTypeList(root: Value, schema: Value, types: seq<Value>, seen: set<string>, all: set<string>)
    requires Strings(root) <= all && Strings(schema) <= all
    ensures RenderByType(root, schema, Some(Arr(types)), seen, all)
         == OrElse(Join(Unique(RenderEachType(root, schema, types, seen, all)), Bar), Unknown)
  {
  }

  /** The single type name, or the member of a type list, that let the value through. */
  lemma {:induction false} SoundByType(depth: nat, root: Value, nodes: set<Value>, schema: Value, v: Value, path: Path,
                                       seen: set<string>, all: set<string>)
    requires Setting(root, nodes, schema, v, all) && ValidatorShape(schema).Plain?
    requires ValidateType(Get(schema, "type"), v, path) == []
    requires ValidateByType(depth, root, schema, v, path) == Some([])
    ensures Inhabits(v, RenderByType(root, schema, Get(schema, "type"), seen, all))
    decreases depth, 2
  {
    hide ValidatorShape, ValidateByType, RenderByType, RenderEachType, InUnion, Join, OrElse, ClosedAt, RendererShape;
    var ty := Get(schema, "type");
    if IsArray(ty) {
      var types := ty.value.items;
      RenderTypeList(root, schema, types, seen, all);
      AnyTypeIs(types, v, path);
      var i :| 0 <= i < |types| && ValidateType(Some(types[i]), v, path) == [];
      assert !types[i].Arr? by { assert SoundNode(schema); }
      SoundByName(depth, root, nodes, schema, Some(types[i]), v, path, seen, all);
      RenderEachTypeAt(root, schema, types, seen, all, i);
      UnionReads(RenderEachType(root, schema, types, seen, all), Unknown, v, i);
    } else {
      SoundByName(depth, root, nodes, schema, ty, v, path, seen, all);
    }
  }

  predicate NamesObject(schema: Value, ty: Option<Value>) {
    ty == Some(Str("object")) || (!Truthy(ty) && (Truthy(Get(schema, "properties")) || Truthy(Get(schema, "required"))))
  }

  /** The type of the schema, or a member of its list of types. */
  predicate Names(schema: Value, ty: Option<Value>) {
    || ty == Get(schema, "type")
    || (IsArray(Get(schema, "type")) && ty.Some? && ty.value in Get(schema, "type").value.items)
  }

  /** With a known type, the check after the type check is the one the name asks for. */
  lemma DispatchByName(schema: Value, ty: Option<Value>, v: Value, path: Path)
    requires KnownType(Get(schema, "type")) && !IsArray(ty) && ValidateType(ty, v, path) == []
    requires Names(schema, ty)
    ensures ty == Some(Str("array")) ==> Dispatch(schema, v) == AsArray
    ensures NamesObject(schema, ty) ==> Dispatch(schema, v) == AsObject
  {
    hide Get;
  }

  /** Types whose text is a single word. */
  lemma SoundWord(root: Value, schema: Value, ty: Option<Value>, v: Value, path: Path, seen: set<string>,
                  all: set<string>)
    requires Strings(root) <= all && Strings(schema) <= all
    requires !IsArray(ty) && (!Truthy(ty) || KnownName(ty.value)) && ty != Some(Str("array"))
    requires !NamesObject(schema, ty)
    requires ValidateType(ty, v, path) == []
    ensures Inhabits(v, RenderByType(root, schema, ty, seen, all))
  {
    hide RenderObject, Render, InUnion, Get, Strings;
    ReadsOne(NullType, v);
    ReadsOne(StringType, v);
    ReadsOne(BooleanType, v);
    ReadsOne(NumberType, v);
    ReadsOne(Unknown, v);
  }

  lemma RenderNamesObject(root: Value, schema: Value, ty: Option<Value>, seen: set<string>, all: set<string>)
    requires Strings(root) <= all && Strings(schema) <= all
    requires NamesObject(schema, ty)
    ensures RenderByType(root, schema, ty, seen, all) == RenderObject(root, schema, seen, all)
  {
    hide RenderObject, Render;
  }

  lemma {:induction false} SoundByName(depth: nat, root: Value, nodes: set<Value>, schema: Value, ty: Option<Value>,
                                       v: Value, path: Path, seen: set<string>, all: set<string>)
    requires Setting(root, nodes, schema, v, all) && ValidatorShape(schema).Plain?
    requires Names(schema, ty)
    requires !IsArray(ty) && ValidateType(ty, v, path) == []
    requires ValidateByType(depth, root, schema, v, path) == Some([])
    ensures Inhabits(v, RenderByType(root, schema, ty, seen, all))
    decreases depth, 1
  {
    hide Dispatch, RenderByType, ValidateArray, ValidateObject, ValidateType, ClosedAt, InUnion, ValidatorShape;
    hide RendererShape;
    assert SoundNode(schema) && SoundPlain(schema) && ClosedAt(root, nodes, schema);
    DispatchByName(schema, ty, v, path);
    if ty == Some(Str("array")) {
      SoundArray(depth, root, nodes, schema, v, path, seen, all);
    } else if NamesObject(schema, ty) {
      RenderNamesObject(root, schema, ty, seen, all);
      SoundObject(depth, root, nodes, schema, v, path, seen, all);
    } else {
      SoundWord(root, schema, ty, v, path, seen, all);
    }
  }

  lemma {:induction false} SoundItem(depth: nat, root: Value, nodes: set<Value>, schema: Value, v: Value, path: Path,
                                     seen: set<string>, all: set<string>, i: nat)
    requires Setting(root, nodes, schema, v, all) && v.Arr? && i < |v.items|
    requires ItemOutcome(depth, root, schema, v.items[i], path, i) == Some([])
    ensures Inhabits(v.items[i], Render(root, schema, seen, all))
    decreases depth, 0, 0
  {
    hide Validate, Render, InUnion, SoundNodes;
    Sound(depth - 1, root, nodes, schema, v.items[i], path + [Index(i)], seen, all);
  }

  lemma RenderArray(root: Value, schema: Value, seen: set<string>, all: set<string>)
    requires Strings(root) <= all && Strings(schema) <= all && SoundItems(Get(schema, "items"))
    ensures var items := Get(schema, "items");
      RenderByType(root, schema, Some(Str("array")), seen, all)
      == if Truthy(items) then StringsOfGet(schema, "items"); [ArrayOf(Render(root, items.value, seen, all))]
         else [ArrayOf([Unknown])]
  {
    hide Render, RenderObject;
  }

  lemma {:induction false} SoundArray(depth: nat, root: Value, nodes: set<Value>, schema: Value, v: Value, path: Path,
                                      seen: set<string>, all: set<string>)
    requires Around(root, nodes, schema, v, all) && SoundItems(Get(schema, "items"))
    requires ValidateArray(depth, root, schema, v, path) == Some([])
    ensures Inhabits(v, RenderByType(root, schema, Some(Str("array")), seen, all))
    decreases depth, 0, 1
  {
    hide Render, InUnion, ValidatorShape, RendererShape, ValidateItems, ItemOutcome, KnownType, RenderByType, ClosedAt;
    var items := Get(schema, "items");
    RenderArray(root, schema, seen, all);
    if !Truthy(items) {
      ReadsOne(ArrayOf([Unknown]), v);
      forall i | 0 <= i < |v.items| ensures Inhabits(v.items[i], [Unknown]) { ReadsOne(Unknown, v.items[i]); }
    } else {
      StringsOfGet(schema, "items");
      PlainParts(root, nodes, schema);
      ReadsOne(ArrayOf(Render(root, items.value, seen, all)), v);
      ItemsOutcome(depth, root, items.value, v.items, path, 0);
      forall i | 0 <= i < |v.items| ensures Inhabits(v.items[i], Render(root, items.value, seen, all)) {
        SoundItem(depth, root, nodes, items.value, v, path, seen, all, i);
      }
    }
  }

  function DeclaredMembers(root: Value, schema: Value, seen: set<string>, ghost all: set<string>): seq<Member>
    requires Strings(root) <= all && Strings(schema) <= all
  {
    var properties := Get(schema, "properties");
    if properties.Some? && properties.value.Obj? then
      StringsOfGet(schema, "properties");
      RenderProperties(root, properties.value.fields, Elements(Get(schema, "required")), seen, all)
    else []
  }

  predicate AllHold(members: seq<Member>, fields: seq<Field<real>>) {
    forall i :: 0 <= i < |members| ==> InMember(members[i], fields)
  }

  lemma RenderObjectMembers(root: Value, schema: Value, seen: set<string>, all: set<string>, v: Value)
    requires Strings(root) <= all && Strings(schema) <= all && v.Obj?
    requires AllHold(DeclaredMembers(root, schema, seen, all), v.fields)
    requires AllHold(RenderIndex(root, schema, seen, all), v.fields)
    ensures Inhabits(v, RenderObject(root, schema, seen, all))
  {
    hide RenderProperties, RenderIndex, InUnion, InMember;
    var declared, index := DeclaredMembers(root, schema, seen, all), RenderIndex(root, schema, seen, all);
    var members := declared + index;
    assert AllHold(members, v.fields) by {
      forall i | 0 <= i < |members| ensures InMember(members[i], v.fields) {
        assert members[i] == if i < |declared| then declared[i] else index[i - |declared|];
      }
    }
    assert RenderObject(root, schema, seen, all) == if members == [] then [AnyRecord] else [ObjectOf(members)];
    ReadsOne(AnyRecord, v);
    ReadsOne(ObjectOf(members), v);
  }

  /** What the members of the generated object type say. */
  lemma RenderObjectSays(root: Value, schema: Value, seen: set<string>, all: set<string>, v: Value)
    requires Strings(root) <= all && Strings(schema) <= all && v.Obj?
    requires Inhabits(v, RenderObject(root, schema, seen, all))
    ensures AllHold(DeclaredMembers(root, schema, seen, all), v.fields)
    ensures AllHold(RenderIndex(root, schema, seen, all), v.fields)
  {
    hide InUnion, InMember, RenderProperties, RenderIndex, Strings;
    var declared, index := DeclaredMembers(root, schema, seen, all), RenderIndex(root, schema, seen, all);
    var members := declared + index;
    assert RenderObject(root, schema, seen, all) == if members == [] then [AnyRecord] else [ObjectOf(members)];
    ReadsOne(ObjectOf(members), v);
    assert AllHold(members, v.fields);
    forall i | 0 <= i < |declared| ensures InMember(declared[i], v.fields) { assert members[i] == declared[i]; }
    forall i | 0 <= i < |index| ensures InMember(index[i], v.fields) { assert members[|declared| + i] == index[i]; }
  }

  /** What an accepted object of this schema has gone through. */
  lemma AcceptedParts(depth: nat, root: Value, schema: Value, v: Value, path: Path)
    requires ValidatorShape(schema).Plain? && Get(schema, "type") == Some(Str("object"))
    requires Validate(depth, root, schema, v, path) == Some([])
    ensures v.Obj? && depth > 0
    ensures MissingHints(Elements(Get(schema, "required")), v.fields, path) == []
    ensures ValidateProperties(depth - 1, root, Entries(Get(schema, "properties")), v.fields, path) == Some([])
    ensures ValidateAdditional(depth - 1, root, Get(schema, "additionalProperties"), Entries(Get(schema, "properties")),
                               v.fields, path) == Some([])
  {
    hide Validate, ValidatorShape, ValidateProperties, ValidateAdditional, MissingHints, Get;
    ReturnedDepth(depth, root, schema, v, path);
    ValidatePlain(depth, root, schema, v, path);
    assert Dispatch(schema, v) == AsObject;
  }

  lemma {:induction false} SoundObject(depth: nat, root: Value, nodes: set<Value>, schema: Value, v: Value, path: Path,
                                       seen: set<string>, all: set<string>)
    requires Around(root, nodes, schema, v, all) && SoundAdditional(schema)
    requires ValidateObject(depth, root, schema, v, path) == Some([])
    ensures Inhabits(v, RenderObject(root, schema, seen, all))
    decreases depth, 0, 2
  {
    hide ValidateProperties, ValidateAdditional, RenderProperties, RenderIndex, InMember;
    hide ClosedAt, ValidatorShape, RendererShape, InUnion, RenderObject;
    var declared := DeclaredMembers(root, schema, seen, all);
    forall i | 0 <= i < |declared| ensures InMember(declared[i], v.fields) {
      SoundProperty(depth, root, nodes, schema, v, path, seen, all, i);
    }
    SoundIndex(depth, root, nodes, schema, v, path, seen, all);
    RenderObjectMembers(root, schema, seen, all, v);
  }

  lemma {:induction false} SoundProperty(depth: nat, root: Value, nodes: set<Value>, schema: Value, v: Value,
                                         path: Path,
                                         seen: set<string>, all: set<string>, i: nat)
    requires Around(root, nodes, schema, v, all) && v.Obj?
    requires ValidateProperties(depth, root, Entries(Get(schema, "properties")), v.fields, path) == Some([])
    requires MissingHints(Elements(Get(schema, "required")), v.fields, path) == []
    requires i < |DeclaredMembers(root, schema, seen, all)|
    ensures InMember(DeclaredMembers(root, schema, seen, all)[i], v.fields)
    decreases depth, 0, 1
  {
    hide Validate, Render, RenderProperties, ValidateProperties, InUnion, ValidatorShape, MissingHints, SoundNodes;
    StringsOfGet(schema, "properties");
    var properties := Get(schema, "properties").value.fields;
    var required := Elements(Get(schema, "required"));
    var Field(key, child) := properties[i];
    RenderPropertiesAt(root, properties, required, seen, all, i);
    if Str(key) in required {
      RequiredPresent(required, v.fields, path, key);
    }
    if Lookup(v.fields, key).Some? {
      SoundPropertyValue(depth, root, nodes, schema, v, path, seen, all, i);
    }
  }

  lemma {:induction false} SoundPropertyValue(depth: nat, root: Value, nodes: set<Value>, schema: Value, v: Value,
                                              path: Path,
                                              seen: set<string>, all: set<string>, i: nat)
    requires Around(root, nodes, schema, v, all) && v.Obj?
    requires ValidateProperties(depth, root, Entries(Get(schema, "properties")), v.fields, path) == Some([])
    requires i < |Entries(Get(schema, "properties"))|
    requires Lookup(v.fields, Entries(Get(schema, "properties"))[i].key).Some?
    requires Strings(Entries(Get(schema, "properties"))[i].value) <= all
    ensures var property := Entries(Get(schema, "properties"))[i];
      Inhabits(Lookup(v.fields, property.key).value, Render(root, property.value, seen, all))
    decreases depth, 0, 0
  {
    hide Validate, Render, ValidateProperties, InUnion, ValidatorShape, Lookup, Get;
    var properties := Entries(Get(schema, "properties"));
    var Field(key, child) := properties[i];
    PropertiesOutcome(depth, root, properties, v.fields, path);
    assert PropertyOutcome(depth, root, properties[i], v.fields, path) == Some([]);
    PlainParts(root, nodes, schema);
    LookupWellFormed(v.fields, key);
    Sound(depth - 1, root, nodes, child, Lookup(v.fields, key).value, path + [Key(key)], seen, all);
  }

  lemma LookupWellFormed(fields: seq<Field<real>>, key: string)
    requires WellFormed(Obj(fields)) && HasKey(fields, key)
    ensures WellFormed(Lookup(fields, key).value)
  {
    var i :| 0 <= i < |fields| && fields[i] == Field(key, Lookup(fields, key).value);
    assert WellFormed(fields[i].value);
  }

  lemma {:induction false} SoundMember(depth: nat, root: Value, nodes: set<Value>, schema: Value, v: Value, path: Path,
                                       seen: set<string>, all: set<string>, i: nat)
    requires Setting(root, nodes, schema, v, all) && v.Obj? && i < |v.fields|
    requires IsObjectLike(schema) && MemberOutcome(depth, root, Some(schema), [], v.fields[i], path) == Some([])
    ensures Inhabits(v.fields[i].value, Render(root, schema, seen, all))
    decreases depth, 0, 0
  {
    hide Validate, Render, InUnion, SoundNodes;
    Sound(depth - 1, root, nodes, schema, v.fields[i].value, path + [Key(v.fields[i].key)], seen, all);
  }

  lemma {:induction false} SoundIndex(depth: nat, root: Value, nodes: set<Value>, schema: Value, v: Value, path: Path,
                                      seen: set<string>, all: set<string>)
    requires Around(root, nodes, schema, v, all) && v.Obj? && SoundAdditional(schema)
    requires ValidateAdditional(depth, root, Get(schema, "additionalProperties"), Entries(Get(schema, "properties")),
                                v.fields, path) == Some([])
    ensures AllHold(RenderIndex(root, schema, seen, all), v.fields)
    decreases depth, 0, 1
  {
    hide Validate, Render, ValidateAdditional, ValidatorShape, InUnion, MemberOutcome;
    var additional := Get(schema, "additionalProperties");
    if additional == Some(Bool(true)) {
      forall i | 0 <= i < |v.fields| ensures Inhabits(v.fields[i].value, [Unknown]) {
        ReadsOne(Unknown, v.fields[i].value);
      }
    } else if Truthy(additional) {
      StringsOfGet(schema, "additionalProperties");
      PlainParts(root, nodes, schema);
      AdditionalOutcome(depth, root, additional, [], v.fields, path);
      forall i | 0 <= i < |v.fields| ensures Inhabits(v.fields[i].value, Render(root, additional.value, seen, all)) {
        SoundMember(depth, root, nodes, additional.value, v, path, seen, all, i);
      }
    }
  }

  /** The conditions on all nodes the readers can come to, and on no others. */
  ghost predicate SoundDocument(root: Value) {
    forall s :: s in Reachable(root) ==> SoundNode(s)
  }

  /** Soundness of the generated file: the exported type contains every value its validator accepts. */
  lemma DocumentSound(depth: nat, root: Value, v: Value, path: Path)
    requires SoundDocument(root) && WellFormed(v)
    ensures Validate(depth, root, root, v, path) == Some([]) ==> Inhabits(v, RenderDocument(root))
  {
    hide Validate, Render, Reachable, Closed, SoundNode;
    ReachableClosed(root);
    if Validate(depth, root, root, v, path) == Some([]) {
      Sound(depth, root, Reachable(root), root, v, path, {}, Strings(root));
    }
  }

  /** Any set of nodes that serves the induction serves the document. */
  lemma SoundSomewhere(root: Value, nodes: set<Value>)
    requires SoundNodes(root, nodes) && root in nodes
    ensures SoundDocument(root)
  {
    hide Reachable, Closed, SoundNode;
    ReachableLeast(root, nodes);
  }
}
