/**
 `renderType`: a JSON Schema compiled to TypeScript type text.

 Termination follows the source: on one path each reference is followed once, and everything else
 descends into the schema.  `all` is a ghost bound on the references that can be met.
 */
module TypeRenderer {
  import opened Prelude
  import opened Json
  import opened SchemaDocument
  import opened TypeText

  function OrElse(text: TypeExpr, fallback: Token): (r: TypeExpr)
    ensures r != []
  {
    if text == [] then [fallback] else text
  }

  function Render(root: Value, schema: Value, seen: set<string>, ghost all: set<string>): (text: TypeExpr)
    requires Strings(root) <= all && Strings(schema) <= all
    ensures text != []
    decreases all - seen, schema, 3
  {
    match RendererShape(schema)
    case Anything => [Unknown]
    case Nothing => [Never]
    case NotASchema => [Never]
    case Reference(ref) =>
      if ref in seen || Target(root, ref).None? then [Unknown]
      else
        StringsOfGet(schema, "$ref");
        StringsOfResolve(root, ref);
        assert ref in all - seen && all - (seen + {ref}) < all - seen;
        Render(root, Target(root, ref).value, seen + {ref}, all)
    case ConstOf(value) => [Literal(value)]
    case EnumOf(items) => OrElse(Join(Unique(Literals(items)), Bar), Never)
    case Combine(how, variants) =>
      StringsOfVariants(schema);
      OrElse(Join(Unique(RenderEach(root, variants, seen, all)), if how.AllOf? then Amp else Bar), Unknown)
    case Plain => RenderByType(root, schema, Get(schema, "type"), seen, all)
  }

  function Literals(items: seq<Value>): (texts: seq<TypeExpr>)
    ensures |texts| == |items| && forall i :: 0 <= i < |items| ==> texts[i] == [Literal(items[i])]
  {
    if items == [] then [] else [[Literal(items[0])]] + Literals(items[1..])
  }

  function RenderEach(root: Value, schemas: seq<Value>, seen: set<string>,
                      ghost all: set<string>): (texts: seq<TypeExpr>)
    requires Strings(root) <= all
    requires forall i :: 0 <= i < |schemas| ==> Strings(schemas[i]) <= all
    ensures |texts| == |schemas| && [] !in texts
    decreases all - seen, schemas
  {
    if schemas == [] then []
    else [Render(root, schemas[0], seen, all)] + RenderEach(root, schemas[1..], seen, all)
  }

  /**
   The branches on `schema.type`.  For an array of types the source recurs on a copy of the schema
   with one of them; the copy differs in `type` alone, so the recursion lands here again.
   */
  function RenderByType(root: Value, schema: Value, ty: Option<Value>, seen: set<string>,
                        ghost all: set<string>): (text: TypeExpr)
    requires Strings(root) <= all && Strings(schema) <= all
    ensures text != []
    decreases all - seen, schema, 2, if ty.Some? then ty.value else Null
  {
    if IsArray(ty) then
      OrElse(Join(Unique(RenderEachType(root, schema, ty.value.items, seen, all)), Bar), Unknown)
    else if ty == Some(Str("null")) then [NullType]
    else if ty == Some(Str("string")) then [StringType]
    else if ty == Some(Str("boolean")) then [BooleanType]
    else if ty == Some(Str("number")) || ty == Some(Str("integer")) then [NumberType]
    else if ty == Some(Str("array")) then
      var items := Get(schema, "items");
      if items.None? || items.value.Null? then [ArrayOf([Unknown])]
      else
        StringsOfGet(schema, "items");
        [ArrayOf(Render(root, items.value, seen, all))]
    else if ty == Some(Str("object")) || Truthy(Get(schema, "properties")) || Truthy(Get(schema, "required")) then
      RenderObject(root, schema, seen, all)
    else [Unknown]
  }

  function RenderEachType(root: Value, schema: Value, types: seq<Value>, seen: set<string>,
                          ghost all: set<string>): (texts: seq<TypeExpr>)
    requires Strings(root) <= all && Strings(schema) <= all
    ensures |texts| == |types| && [] !in texts
    decreases all - seen, schema, 2, types
  {
    if types == [] then []
    else [RenderByType(root, schema, Some(types[0]), seen, all)] + RenderEachType(root, schema, types[1..], seen, all)
  }

  function RenderObject(root: Value, schema: Value, seen: set<string>, ghost all: set<string>): (text: TypeExpr)
    requires Strings(root) <= all && Strings(schema) <= all
    ensures text != []
    decreases all - seen, schema, 1
  {
    var properties := Get(schema, "properties");
    var declared :=
      if properties.Some? && properties.value.Obj? then
        StringsOfGet(schema, "properties");
        RenderProperties(root, properties.value.fields, Elements(Get(schema, "required")), seen, all)
      else [];
    var members := declared + RenderIndex(root, schema, seen, all);
    if members == [] then [AnyRecord] else [ObjectOf(members)]
  }

  function RenderProperties(root: Value, properties: seq<Field<real>>, required: seq<Value>, seen: set<string>,
                            ghost all: set<string>): (members: seq<Member>)
    requires Strings(root) <= all
    requires forall i :: 0 <= i < |properties| ==> Strings(properties[i].value) <= all
    ensures |members| == |properties|
    decreases all - seen, properties
  {
    if properties == [] then []
    else
      var Field(name, child) := properties[0];
      [Property(name, Str(name) !in required, Render(root, child, seen, all))]
      + RenderProperties(root, properties[1..], required, seen, all)
  }

  function RenderIndex(root: Value, schema: Value, seen: set<string>, ghost all: set<string>): (members: seq<Member>)
    requires Strings(root) <= all && Strings(schema) <= all
    decreases all - seen, schema, 0
  {
    var additional := Get(schema, "additionalProperties");
    if !Truthy(additional) then []
    else if additional == Some(Bool(true)) then [IndexSignature([Unknown])]
    else
      StringsOfGet(schema, "additionalProperties");
      [IndexSignature(Render(root, additional.value, seen, all))]
  }

  /** The generated type of a whole schema document. */
  function RenderDocument(root: Value): TypeExpr {
    Render(root, root, {}, Strings(root))
  }
}
