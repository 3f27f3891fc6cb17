/**
 A JSON Schema as both readers of the repository take it: a raw JSON document whose keywords are
 looked up by name, with local `$ref` pointers walked from the root.
 */
module SchemaDocument {
  import opened Prelude
  import opened Json
  import opened Text

  type Value = Json<real>

  /** `schema.key`: absent on anything but an object. */
  function Get(schema: Value, key: string): (r: Option<Value>)
    ensures r.Some? ==> schema.Obj? && exists i :: 0 <= i < |schema.fields| && schema.fields[i] == Field(key, r.value)
  {
    if schema.Obj? then Lookup(schema.fields, key) else None
  }

  /** Truth of a value in a JavaScript condition. */
  predicate Truthy(v: Option<Value>) {
    match v
    case None => false
    case Some(Null) => false
    case Some(Bool(b)) => b
    case Some(Num(n)) => n != 0.0
    case Some(Str(s)) => s != ""
    case Some(_) => true
  }

  /** Of JSON values exactly `null`, `false`, zero and the empty text are falsy, and so is a missing one. */
  lemma FalsyIs(v: Option<Value>)
    ensures !Truthy(v) <==> v.None? || v.value in {Null, Bool(false), Num(0.0), Str("")}
  {
  }

  /** `typeof v === "object" && v !== null`. */
  predicate IsObjectLike(v: Value) {
    v.Obj? || v.Arr?
  }

  /** `[key, child]` pairs of a keyword that holds a record; none if it holds anything else. */
  function Entries(v: Option<Value>): seq<Field<real>> {
    if v.Some? && v.value.Obj? then v.value.fields else []
  }

  function Elements(v: Option<Value>): seq<Value> {
    if v.Some? && v.value.Arr? then v.value.items else []
  }

  predicate IsArray(v: Option<Value>) {
    v.Some? && v.value.Arr?
  }

  /** The segments of a local pointer `#/a/b`; other references resolve to nothing. */
  function PointerParts(ref: string): Option<seq<string>> {
    if |ref| >= 2 && ref[..2] == "#/" then Some(Split(ref[2..], '/')) else None
  }

  function Walk(current: Value, parts: seq<string>): Option<Value> {
    if parts == [] then Some(current)
    else
      var next := Get(current, parts[0]);
      if next.None? then None else Walk(next.value, parts[1..])
  }

  function Resolve(root: Value, ref: string): Option<Value> {
    var parts := PointerParts(ref);
    if parts.None? then None else Walk(root, parts.value)
  }

  /** `resolveRef` and `resolveSchemaRef`: the loop that moves `current` down the document. */
  method ResolveRef(root: Value, ref: string) returns (r: Option<Value>)
    ensures r == Resolve(root, ref)
  {
    var parts := PointerParts(ref);
    if parts.None? {
      return None;
    }
    var current := root;
    for i := 0 to |parts.value|
      invariant Walk(root, parts.value) == Walk(current, parts.value[i..])
    {
      var next := Get(current, parts.value[i]);
      assert parts.value[i..][0] == parts.value[i] && parts.value[i..][1..] == parts.value[i + 1..];
      if next.None? {
        return None;
      }
      current := next.value;
    }
    return Some(current);
  }

  // ----- which keyword decides -----

  /** The first keyword a reader finds on a schema; the readers ignore its siblings. */
  datatype Shape =
    | Anything
    | Nothing
    | NotASchema
    | Reference(ref: string)
    | EnumOf(items: seq<Value>)
    | ConstOf(value: Value)
    | Combine(how: Combinator, variants: seq<Value>)
    | Plain

  datatype Combinator = AnyOf | OneOf | AllOf {
    function Keyword(): string {
      match this
      case AnyOf => "anyOf"
      case OneOf => "oneOf"
      case AllOf => "allOf"
    }
  }

  predicate IsRef(schema: Value) {
    var ref := Get(schema, "$ref");
    ref.Some? && ref.value.Str?
  }

  /** Combinators come after `enum` and `const` in both readers, in one order. */
  function CombinatorShape(schema: Value): (r: Shape)
    ensures r.Combine? ==> Get(schema, r.how.Keyword()) == Some(Arr(r.variants))
    ensures r.Combine? || r.Plain?
  {
    if IsArray(Get(schema, "anyOf")) then Combine(AnyOf, Get(schema, "anyOf").value.items)
    else if IsArray(Get(schema, "oneOf")) then Combine(OneOf, Get(schema, "oneOf").value.items)
    else if IsArray(Get(schema, "allOf")) then Combine(AllOf, Get(schema, "allOf").value.items)
    else Plain
  }

  /** The validator's order: `enum` before `const`. */
  function ValidatorShape(schema: Value): (r: Shape)
    ensures r.Reference? ==> Get(schema, "$ref") == Some(Str(r.ref))
    ensures r.Combine? || r.Plain? ==> r == CombinatorShape(schema)
    ensures r.EnumOf? ==> Get(schema, "enum") == Some(Arr(r.items))
    ensures r.ConstOf? ==> Get(schema, "const") == Some(r.value)
  {
    if schema == Bool(true) then Anything
    else if schema == Bool(false) then Nothing
    else if !IsObjectLike(schema) then NotASchema
    else if IsRef(schema) then Reference(Get(schema, "$ref").value.s)
    else if IsArray(Get(schema, "enum")) then EnumOf(Get(schema, "enum").value.items)
    else if Get(schema, "const").Some? then ConstOf(Get(schema, "const").value)
    else CombinatorShape(schema)
  }

  /** The renderer's order: `const` before `enum`. */
  function RendererShape(schema: Value): (r: Shape)
    ensures r.Reference? ==> Get(schema, "$ref") == Some(Str(r.ref))
    ensures r.Combine? || r.Plain? ==> r == CombinatorShape(schema)
    ensures r.EnumOf? ==> Get(schema, "enum") == Some(Arr(r.items))
    ensures r.ConstOf? ==> Get(schema, "const") == Some(r.value)
  {
    if schema == Bool(true) then Anything
    else if schema == Bool(false) then Nothing
    else if !IsObjectLike(schema) then NotASchema
    else if IsRef(schema) then Reference(Get(schema, "$ref").value.s)
    else if Get(schema, "const").Some? then ConstOf(Get(schema, "const").value)
    else if IsArray(Get(schema, "enum")) then EnumOf(Get(schema, "enum").value.items)
    else CombinatorShape(schema)
  }

  /** The readers go different ways exactly on schemas that carry both `enum` and `const`. */
  lemma ShapesAgree(schema: Value)
    ensures ValidatorShape(schema) == RendererShape(schema)
       <==> IsRef(schema) || !IsArray(Get(schema, "enum")) || Get(schema, "const").None?
  {
    hide CombinatorShape;
    if IsArray(Get(schema, "enum")) && Get(schema, "const").Some? {
      assert IsObjectLike(schema);
    }
  }

  /** A list under a combinator decides if no list stands under an earlier one: `anyOf`, `oneOf`, `allOf`. */
  lemma CombinatorOrder(schema: Value, items: seq<Value>)
    requires !IsRef(schema) && !IsArray(Get(schema, "enum")) && Get(schema, "const").None? && schema.Obj?
    ensures var any, one, all := Get(schema, "anyOf"), Get(schema, "oneOf"), Get(schema, "allOf");
      && ValidatorShape(schema) == RendererShape(schema)
      && (ValidatorShape(schema) == Combine(AnyOf, items) <==> any == Some(Arr(items)))
      && (ValidatorShape(schema) == Combine(OneOf, items) <==> !IsArray(any) && one == Some(Arr(items)))
      && (ValidatorShape(schema) == Combine(AllOf, items) <==>
            !IsArray(any) && !IsArray(one) && all == Some(Arr(items)))
      && (ValidatorShape(schema) == Plain <==> !IsArray(any) && !IsArray(one) && !IsArray(all))
  {
    hide Get;
    assert schema != Bool(true) && schema != Bool(false);
  }

  function Target(root: Value, ref: string): Option<Value> {
    if Truthy(Resolve(root, ref)) then Resolve(root, ref) else None
  }

  /** Every string in the document; each `$ref` is one of them. */
  ghost function Strings(v: Value): set<string> {
    match v
    case Str(s) => {s}
    case Arr(items) => set i, s | 0 <= i < |items| && s in Strings(items[i]) :: s
    case Obj(fields) => set i, s | 0 <= i < |fields| && s in Strings(fields[i].value) :: s
    case _ => {}
  }

  lemma StringsOfGet(schema: Value, key: string)
    requires Get(schema, key).Some?
    ensures Strings(Get(schema, key).value) <= Strings(schema)
  {
    var i :| 0 <= i < |schema.fields| && schema.fields[i] == Field(key, Get(schema, key).value);
    assert Strings(schema.fields[i].value) <= Strings(schema);
  }

  lemma {:induction false} StringsOfWalk(current: Value, parts: seq<string>)
    requires Walk(current, parts).Some?
    ensures Strings(Walk(current, parts).value) <= Strings(current)
  {
    if parts != [] {
      StringsOfGet(current, parts[0]);
      StringsOfWalk(Get(current, parts[0]).value, parts[1..]);
    }
  }

  lemma StringsOfResolve(root: Value, ref: string)
    requires Resolve(root, ref).Some?
    ensures Strings(Resolve(root, ref).value) <= Strings(root)
  {
    StringsOfWalk(root, PointerParts(ref).value);
  }

  /** The sub-schemas a combinator lists are parts of it. */
  lemma StringsOfVariants(schema: Value)
    ensures var shape := CombinatorShape(schema);
      shape.Plain? || forall i :: 0 <= i < |shape.variants| ==> Strings(shape.variants[i]) <= Strings(schema)
  {
    var shape := CombinatorShape(schema);
    if shape.Combine? {
      StringsOfGet(schema, shape.how.Keyword());
    }
  }
}
