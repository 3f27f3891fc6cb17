/**
 Where the generated type says as much as the validator checks: the converse of SchemaSoundness.

 A type cannot express `integer`, `minimum`, a ban on additional members or a required member that is not
 declared; a literal object type is open; the flat text of an intersection reads too wide if it has bars; a
 reference met again collapses to `unknown`.  `Tight` rules these out along every path the renderer takes.
 */
module SchemaTight {
  import opened Prelude
  import opened Json
  import opened SchemaDocument
  import opened SchemaNodes
  import opened TypeText
  import opened TypeRenderer
  import opened TypeMeaning
  import opened SchemaValidator
  import opened SchemaSoundness

  /** Every required member is declared. */
  predicate RequiredDeclared(schema: Value) {
    var required := Elements(Get(schema, "required"));
    forall i :: 0 <= i < |required| ==> required[i].Str? && HasKey(Entries(Get(schema, "properties")), required[i].s)
  }

  predicate TightName(ty: Value) {
    KnownName(ty) && ty != Str("integer")
  }

  predicate TightType(ty: Option<Value>) {
    ty.None? || TightName(ty.value)
    || (ty.value.Arr? && forall i :: 0 <= i < |ty.value.items| ==> TightName(ty.value.items[i]))
  }

  predicate TightPlain(schema: Value) {
    && TightType(Get(schema, "type")) && (Get(schema, "type") != Some(Arr([])))
    && Get(schema, "minimum").None?
    && Get(schema, "additionalProperties") != Some(Bool(false))
    && SoundItems(Get(schema, "items"))
    && RequiredDeclared(schema)
  }

  /** The text of the schema has no top-level bar, so an intersection with it is read as one. */
  ghost predicate OneClause(n: nat, root: Value, schema: Value, seen: set<string>)
    decreases n
  {
    n > 0 &&
    match RendererShape(schema)
    case Reference(ref) =>
      ref in seen || Target(root, ref).None? || OneClause(n - 1, root, Target(root, ref).value, seen + {ref})
    case EnumOf(items) => |items| <= 1
    case Combine(how, variants) =>
      && (how.AllOf? || |variants| <= 1)
      && forall i :: 0 <= i < |variants| ==> OneClause(n - 1, root, variants[i], seen)
    case Plain => !IsArray(Get(schema, "type"))
    case _ => true
  }

  /** What `OneClause` says about a combinator. */
  lemma OneClauseParts(n: nat, root: Value, schema: Value, seen: set<string>)
    requires OneClause(n, root, schema, seen) && RendererShape(schema).Combine?
    ensures n > 0
    ensures var Combine(how, variants) := RendererShape(schema);
      && (how.AllOf? || |variants| <= 1)
      && forall i :: 0 <= i < |variants| ==> OneClause(n - 1, root, variants[i], seen)
  {
    hide RendererShape;
  }

  lemma OneClauseTarget(n: nat, root: Value, schema: Value, seen: set<string>)
    requires OneClause(n, root, schema, seen) && RendererShape(schema).Reference?
    ensures n > 0
    ensures var ref := RendererShape(schema).ref;
      ref in seen || Target(root, ref).None? || OneClause(n - 1, root, Target(root, ref).value, seen + {ref})
  {
    hide RendererShape, Target;
  }

  lemma OneClauseLeaf(n: nat, root: Value, schema: Value, seen: set<string>)
    requires OneClause(n, root, schema, seen)
    ensures RendererShape(schema).EnumOf? ==> |RendererShape(schema).items| <= 1
    ensures RendererShape(schema).Plain? ==> !IsArray(Get(schema, "type"))
  {
    hide RendererShape, Target, Get;
  }

  lemma {:induction false} OneClauseText(n: nat, root: Value, schema: Value, seen: set<string>, all: set<string>)
    requires OneClause(n, root, schema, seen) && InScope(root, schema, all)
    ensures Bar !in Render(root, schema, seen, all)
    decreases n, 0
  {
    hide RendererShape, RenderByType, RenderEach, Strings, Render, OneClause, Target, Get;
    var shape := RendererShape(schema);
    if shape.Reference? {
      RenderReference(root, schema, seen, all);
      OneClauseTarget(n, root, schema, seen);
      if shape.ref !in seen && Target(root, shape.ref).Some? {
        OneClauseText(n - 1, root, Target(root, shape.ref).value, seen + {shape.ref}, all);
      }
    } else if shape.Combine? {
      CombineText(root, schema, seen, all);
      OneClauseParts(n, root, schema, seen);
      OneClauseVariants(n, root, shape.variants, seen, all);
      JoinedClauses(RenderEach(root, shape.variants, seen, all), if shape.how.AllOf? then Amp else Bar);
    } else {
      OneClauseLeaf(n, root, schema, seen);
      LeafClauses(root, schema, seen, all);
    }
  }

  lemma {:induction false} OneClauseVariants(n: nat, root: Value, variants: seq<Value>, seen: set<string>,
                                             all: set<string>)
    requires n > 0 && forall i :: 0 <= i < |variants| ==> OneClause(n - 1, root, variants[i], seen)
    requires Strings(root) <= all && forall i :: 0 <= i < |variants| ==> Strings(variants[i]) <= all
    ensures var texts := RenderEach(root, variants, seen, all); forall i :: 0 <= i < |texts| ==> Bar !in texts[i]
    decreases n - 1, 1
  {
    hide RenderEach, Strings, Render, OneClause;
    var texts := RenderEach(root, variants, seen, all);
    forall i | 0 <= i < |texts| ensures Bar !in texts[i] {
      RenderEachAt(root, variants, seen, all, i);
      OneClauseText(n - 1, root, variants[i], seen, all);
    }
  }

  lemma JoinedClauses(texts: seq<TypeExpr>, sep: Token)
    requires (sep == Amp || |texts| <= 1) && [] !in texts && forall i :: 0 <= i < |texts| ==> Bar !in texts[i]
    ensures Bar !in OrElse(Join(Unique(texts), sep), Unknown)
  {
    hide Join;
    if |texts| == 0 {
      assert Unique(texts) == [] && Join([], sep) == [] by { NoTexts(sep); }
    } else if |texts| == 1 {
      OneJoined(texts, sep);
    } else {
      var parts := Unique(texts);
      assert texts[0] in parts;
      forall k | 0 <= k < |parts| ensures Bar !in parts[k] { assert parts[k] in parts; }
      JoinAmpIsIntersection(parts, Null);
    }
  }

  lemma NoTexts(sep: Token)
    ensures Join([], sep) == []
  {
  }

  lemma LeafClauses(root: Value, schema: Value, seen: set<string>, all: set<string>)
    requires InScope(root, schema, all)
    requires var shape := RendererShape(schema); !shape.Reference? && !shape.Combine?
    requires RendererShape(schema).EnumOf? ==> |RendererShape(schema).items| <= 1
    requires RendererShape(schema).Plain? ==> !IsArray(Get(schema, "type"))
    ensures Bar !in Render(root, schema, seen, all)
  {
    hide RendererShape, RenderEach, Strings, RenderByType, Join, Unique;
    var shape := RendererShape(schema);
    if shape.EnumOf? {
      EnumText(root, schema, seen, all);
      var texts := Literals(shape.items);
      if texts == [] {
        NothingUnique(texts);
        NoTexts(Bar);
      } else {
        OneJoined(texts, Bar);
        assert texts == [[Literal(shape.items[0])]];
      }
    } else if shape.Plain? {
      PlainClauses(root, schema, Get(schema, "type"), seen, all);
    }
  }

  lemma NothingUnique(texts: seq<TypeExpr>)
    requires texts == []
    ensures Unique(texts) == []
  {
  }

  lemma PlainClauses(root: Value, schema: Value, ty: Option<Value>, seen: set<string>, all: set<string>)
    requires InScope(root, schema, all) && !IsArray(ty)
    ensures Bar !in RenderByType(root, schema, ty, seen, all)
  {
    hide Render, Strings, Get, RenderProperties, RenderIndex;
  }

  /** `n` bounds the length of a path; `seen` holds the references already followed on it. */
  ghost predicate Tight(n: nat, root: Value, schema: Value, seen: set<string>)
    decreases n
  {
    n > 0 && ValidatorShape(schema) == RendererShape(schema) &&
    match RendererShape(schema)
    case Reference(ref) =>
      ref !in seen && Target(root, ref).Some? && Tight(n - 1, root, Target(root, ref).value, seen + {ref})
    case EnumOf(items) => forall i :: 0 <= i < |items| ==> !IsObjectLike(items[i])
    case ConstOf(value) => !IsObjectLike(value)
    case Combine(how, variants) =>
      && (if how.AllOf?
          then |variants| <= 1 || forall i :: 0 <= i < |variants| ==> OneClause(n, root, variants[i], seen)
          else variants != [])
      && forall i :: 0 <= i < |variants| ==> Tight(n - 1, root, variants[i], seen)
    case Plain =>
      && TightPlain(schema)
      && (forall i :: 0 <= i < |Entries(Get(schema, "properties"))| ==>
            Tight(n - 1, root, Entries(Get(schema, "properties"))[i].value, seen))
      && (Truthy(Get(schema, "items")) ==> Tight(n - 1, root, Get(schema, "items").value, seen))
      && (Get(schema, "additionalProperties").Some? && IsObjectLike(Get(schema, "additionalProperties").value) ==>
            Tight(n - 1, root, Get(schema, "additionalProperties").value, seen))
    case _ => true
  }

  lemma NeverHolds(v: Value)
    ensures !Inhabits(v, [Never])
  {
    ReadsOne(Never, v);
  }

  lemma ScalarLiteral(c: Value, v: Value)
    requires !IsObjectLike(c) && Inhabits(v, [Literal(c)])
    ensures v == c
  {
    ReadsOne(Literal(c), v);
  }

  lemma EnumLiteral(items: seq<Value>, v: Value)
    requires forall i :: 0 <= i < |items| ==> !IsObjectLike(items[i])
    requires Inhabits(v, OrElse(Join(Unique(Literals(items)), Bar), Never))
    ensures v in items
  {
    if items == [] {
      NeverHolds(v);
    } else {
      var texts := Literals(items);
      assert [] !in texts;
      var i := UnionPart(texts, Never, v);
      ScalarLiteral(items[i], v);
    }
  }

  /** A value of the generated type draws no hint. */
  lemma {:induction false} TightAccepts(n: nat, depth: nat, root: Value, schema: Value, v: Value, path: Path,
                                        seen: set<string>, all: set<string>)
    requires Tight(n, root, schema, seen) && InScope(root, schema, all)
    requires Validate(depth, root, schema, v, path).Some? && Inhabits(v, Render(root, schema, seen, all))
    ensures Validate(depth, root, schema, v, path) == Some([])
    decreases n, 9
  {
    hide ValidatorShape, RendererShape, Validate, CombineHints, Render, RenderByType, InUnion, TightPlain, Target;
    hide Strings, Get;
    ReturnedDepth(depth, root, schema, v, path);
    var shape := ValidatorShape(schema);
    if shape.Reference? {
      ValidateReference(depth, root, schema, v, path);
      RenderReference(root, schema, seen, all);
      TightAccepts(n - 1, depth - 1, root, Target(root, shape.ref).value, v, path, seen + {shape.ref}, all);
    } else if shape.Combine? {
      CombineTight(n, depth, root, schema, v, path, seen, all);
    } else if shape.Plain? {
      ValidatePlain(depth, root, schema, v, path);
      RenderPlain(root, schema, seen, all);
      PlainTight(n, depth - 1, root, schema, v, path, seen, all);
    } else {
      LeafTight(depth, root, schema, v, path, seen, all);
    }
  }

  lemma LeafTight(depth: nat, root: Value, schema: Value, v: Value, path: Path, seen: set<string>, all: set<string>)
    requires depth > 0 && InScope(root, schema, all) && ValidatorShape(schema) == RendererShape(schema)
    requires var shape := ValidatorShape(schema); !shape.Reference? && !shape.Combine? && !shape.Plain?
    requires ValidatorShape(schema).EnumOf? ==>
      forall i :: 0 <= i < |ValidatorShape(schema).items| ==> !IsObjectLike(ValidatorShape(schema).items[i])
    requires ValidatorShape(schema).ConstOf? ==> !IsObjectLike(ValidatorShape(schema).value)
    requires Inhabits(v, Render(root, schema, seen, all))
    ensures Validate(depth, root, schema, v, path) == Some([])
  {
    hide ValidatorShape, RendererShape, Validate, InUnion, RenderByType;
    ValidateLeaf(depth, root, schema, v, path);
    var shape := ValidatorShape(schema);
    if shape.EnumOf? {
      EnumLiteral(shape.items, v);
    } else if shape.ConstOf? {
      ScalarLiteral(shape.value, v);
    } else {
      NeverHolds(v);
    }
  }

  lemma {:induction false} CombineTight(n: nat, depth: nat, root: Value, schema: Value, v: Value, path: Path,
                                        seen: set<string>, all: set<string>)
    requires Tight(n, root, schema, seen) && InScope(root, schema, all) && ValidatorShape(schema).Combine?
    requires Validate(depth, root, schema, v, path).Some? && Inhabits(v, Render(root, schema, seen, all))
    ensures Validate(depth, root, schema, v, path) == Some([])
    decreases n, 8
  {
    hide ValidatorShape, RendererShape, Validate, CombineHints, InUnion, Render, RenderEach, Join, OrElse, ValidateEach;
    ReturnedDepth(depth, root, schema, v, path);
    ValidateCombine(depth, root, schema, v, path);
    CombineText(root, schema, seen, all);
    var Combine(how, variants) := ValidatorShape(schema);
    CombinedOutcome(depth - 1, root, how, variants, v, path);
    if how.AllOf? {
      AllOfFits(n, root, schema, v, seen, all);
      forall i | 0 <= i < |variants| ensures Validate(depth - 1, root, variants[i], v, path) == Some([]) {
        TightAccepts(n - 1, depth - 1, root, variants[i], v, path, seen, all);
      }
    } else {
      UnionMeans(root, schema, v, seen, all);
      var i :| 0 <= i < |variants| && Inhabits(v, Render(root, variants[i], seen, all));
      TightAccepts(n - 1, depth - 1, root, variants[i], v, path, seen, all);
    }
  }

  /** A value of a tight intersection lies in all its parts. */
  lemma AllOfFits(n: nat, root: Value, schema: Value, v: Value, seen: set<string>, all: set<string>)
    requires Tight(n, root, schema, seen) && InScope(root, schema, all)
    requires RendererShape(schema).Combine? && RendererShape(schema).how.AllOf?
    requires Inhabits(v, Render(root, schema, seen, all))
    ensures var variants := RendererShape(schema).variants;
      forall i :: 0 <= i < |variants| ==>
        Strings(variants[i]) <= all && Inhabits(v, Render(root, variants[i], seen, all))
  {
    hide RendererShape, InUnion, Inhabits, Render, RenderEach, Strings, Join, Unique, OneClause, ValidatorShape;
    CombineText(root, schema, seen, all);
    AllOfMeans(root, schema, v, seen, all);
    var variants := RendererShape(schema).variants;
    if |variants| > 1 {
      forall i | 0 <= i < |variants| ensures Bar !in Render(root, variants[i], seen, all) {
        OneClauseText(n, root, variants[i], seen, all);
      }
    }
  }

  lemma {:induction false} PlainTight(n: nat, depth: nat, root: Value, schema: Value, v: Value, path: Path,
                                      seen: set<string>, all: set<string>)
    requires Tight(n, root, schema, seen) && InScope(root, schema, all) && ValidatorShape(schema).Plain?
    requires ValidateType(Get(schema, "type"), v, path) == [] ==> ValidateByType(depth, root, schema, v, path).Some?
    requires Inhabits(v, RenderByType(root, schema, Get(schema, "type"), seen, all))
    ensures ValidateType(Get(schema, "type"), v, path) == [] && ValidateByType(depth, root, schema, v, path) == Some([])
    decreases n, 7
  {
    hide ValidatorShape, RendererShape, ValidateByType, RenderByType, RenderEachType, InUnion, Join, OrElse, Get;
    assert TightPlain(schema);
    var ty := Get(schema, "type");
    if IsArray(ty) {
      var types := ty.value.items;
      RenderTypeList(root, schema, types, seen, all);
      var i := UnionPart(RenderEachType(root, schema, types, seen, all), Unknown, v);
      RenderEachTypeAt(root, schema, types, seen, all, i);
      assert TightName(types[i]);
      NameFits(root, schema, Some(types[i]), v, path, seen, all);
      AnyTypeIs(types, v, path);
      NameTight(n, depth, root, schema, Some(types[i]), v, path, seen, all);
    } else {
      NameFits(root, schema, ty, v, path, seen, all);
      NameTight(n, depth, root, schema, ty, v, path, seen, all);
    }
  }

  lemma WordFits(root: Value, schema: Value, ty: Option<Value>, v: Value, path: Path, seen: set<string>,
                 all: set<string>)
    requires InScope(root, schema, all) && (ty.None? || TightName(ty.value)) && ty != Some(Str("array"))
    requires !NamesObject(schema, ty)
    requires Inhabits(v, RenderByType(root, schema, ty, seen, all))
    ensures ValidateType(ty, v, path) == []
  {
    hide InUnion, RenderObject, Render, Get, Strings, NamesObject;
    ReadsOne(NullType, v);
    ReadsOne(StringType, v);
    ReadsOne(BooleanType, v);
    ReadsOne(NumberType, v);
    assert ty != Some(Str("object")) by { assert !NamesObject(schema, ty); NamedObject(schema); }
  }

  lemma NamedObject(schema: Value)
    ensures NamesObject(schema, Some(Str("object")))
  {
  }

  /** The type text of a name holds only values of that name. */
  lemma NameFits(root: Value, schema: Value, ty: Option<Value>, v: Value, path: Path, seen: set<string>,
                 all: set<string>)
    requires InScope(root, schema, all) && (ty.None? || TightName(ty.value)) && SoundItems(Get(schema, "items"))
    requires Inhabits(v, RenderByType(root, schema, ty, seen, all))
    ensures ValidateType(ty, v, path) == []
    ensures NamesObject(schema, ty) ==> v.Obj?
  {
    hide InUnion, RenderObject, RenderByType, Get, Strings;
    if NamesObject(schema, ty) {
      RenderNamesObject(root, schema, ty, seen, all);
      RecordIsObject(root, schema, v, seen, all);
    } else if ty == Some(Str("array")) {
      ArrayTextFits(root, schema, v, seen, all);
    } else {
      WordFits(root, schema, ty, v, path, seen, all);
    }
  }

  lemma ArrayTextFits(root: Value, schema: Value, v: Value, seen: set<string>, all: set<string>)
    requires InScope(root, schema, all) && SoundItems(Get(schema, "items"))
    requires Inhabits(v, RenderByType(root, schema, Some(Str("array")), seen, all))
    ensures v.Arr?
    ensures var items := Get(schema, "items");
      Truthy(items) ==>
        && Strings(items.value) <= all
        && forall i :: 0 <= i < |v.items| ==> Inhabits(v.items[i], Render(root, items.value, seen, all))
  {
    hide InUnion, RenderByType, Render, Get, Strings;
    RenderArray(root, schema, seen, all);
    ReadsOne(ArrayOf([Unknown]), v);
    var items := Get(schema, "items");
    if Truthy(items) {
      StringsOfGet(schema, "items");
      ReadsOne(ArrayOf(Render(root, items.value, seen, all)), v);
    }
  }

  lemma {:induction false} NameTight(n: nat, depth: nat, root: Value, schema: Value, ty: Option<Value>, v: Value,
                                     path: Path,
                                     seen: set<string>, all: set<string>)
    requires Tight(n, root, schema, seen) && InScope(root, schema, all) && ValidatorShape(schema).Plain?
    requires Names(schema, ty)
    requires !IsArray(ty) && ValidateType(ty, v, path) == [] && (NamesObject(schema, ty) ==> v.Obj?)
    requires ValidateByType(depth, root, schema, v, path).Some?
    requires Inhabits(v, RenderByType(root, schema, ty, seen, all))
    ensures ValidateByType(depth, root, schema, v, path) == Some([])
    decreases n, 6
  {
    hide ValidatorShape, RendererShape, Dispatch, ValidateArray, ValidateObject, ValidateNumber, RenderByType;
    hide InUnion, ValidateType, Get;
    assert TightPlain(schema);
    TightTypeKnown(Get(schema, "type"));
    DispatchByName(schema, ty, v, path);
    if ty == Some(Str("array")) {
      ArrayTight(n, depth, root, schema, v, path, seen, all);
    } else if NamesObject(schema, ty) {
      RenderNamesObject(root, schema, ty, seen, all);
      ObjectTight(n, depth, root, schema, v, path, seen, all);
    } else {
      DispatchOfWord(schema, ty, v, path);
      if Dispatch(schema, v) == AsNumber { NumberTight(schema, v, path); }
    }
  }

  lemma TightTypeKnown(ty: Option<Value>)
    requires TightType(ty)
    ensures KnownType(ty)
  {
  }

  lemma DispatchOfWord(schema: Value, ty: Option<Value>, v: Value, path: Path)
    requires TightType(Get(schema, "type")) && !IsArray(ty) && ValidateType(ty, v, path) == []
    requires Names(schema, ty)
    requires ty != Some(Str("array")) && !NamesObject(schema, ty)
    ensures Dispatch(schema, v) == NoCheck || (Dispatch(schema, v) == AsNumber && v.Num?)
  {
    hide Get;
  }

  lemma NumberTight(schema: Value, v: Value, path: Path)
    requires v.Num? && Get(schema, "minimum").None? && TightType(Get(schema, "type"))
    ensures ValidateNumber(schema, v, path) == []
  {
    hide Get;
  }

  lemma {:induction false} ArrayTight(n: nat, depth: nat, root: Value, schema: Value, v: Value, path: Path,
                                      seen: set<string>, all: set<string>)
    requires Tight(n, root, schema, seen) && InScope(root, schema, all) && ValidatorShape(schema).Plain?
    requires ValidateArray(depth, root, schema, v, path).Some?
    requires Inhabits(v, RenderByType(root, schema, Some(Str("array")), seen, all))
    ensures ValidateArray(depth, root, schema, v, path) == Some([])
    decreases n, 5
  {
    hide ValidatorShape, RendererShape, Validate, ValidateItems, RenderByType, Render, InUnion, Get, Strings;
    assert TightPlain(schema);
    ArrayTextFits(root, schema, v, seen, all);
    var items := Get(schema, "items");
    if Truthy(items) {
      ItemsOutcome(depth, root, items.value, v.items, path, 0);
      forall i | 0 <= i < |v.items| ensures ItemOutcome(depth, root, items.value, v.items[i], path, i) == Some([]) {
        assert ItemOutcome(depth, root, items.value, v.items[i], path, i).Some?;
        TightAccepts(n - 1, depth - 1, root, items.value, v.items[i], path + [Index(i)], seen, all);
      }
    }
  }

  /** One declared property: present if required, and of its type if present. */
  lemma DeclaredHolds(root: Value, schema: Value, v: Value, seen: set<string>, all: set<string>, i: nat)
    requires InScope(root, schema, all) && v.Obj? && AllHold(DeclaredMembers(root, schema, seen, all), v.fields)
    requires i < |Entries(Get(schema, "properties"))|
    ensures var Field(key, child) := Entries(Get(schema, "properties"))[i];
      && Strings(child) <= all
      && (Str(key) in Elements(Get(schema, "required")) ==> HasKey(v.fields, key))
      && (HasKey(v.fields, key) ==> Inhabits(Lookup(v.fields, key).value, Render(root, child, seen, all)))
  {
    hide InUnion, Render, RenderProperties, Lookup;
    StringsOfGet(schema, "properties");
    var properties := Get(schema, "properties").value.fields;
    RenderPropertiesAt(root, properties, Elements(Get(schema, "required")), seen, all, i);
    assert InMember(DeclaredMembers(root, schema, seen, all)[i], v.fields);
  }

  lemma {:induction false} ObjectTight(n: nat, depth: nat, root: Value, schema: Value, v: Value, path: Path,
                                       seen: set<string>, all: set<string>)
    requires Tight(n, root, schema, seen) && InScope(root, schema, all) && ValidatorShape(schema).Plain? && v.Obj?
    requires ValidateObject(depth, root, schema, v, path).Some?
    requires Inhabits(v, RenderObject(root, schema, seen, all))
    ensures ValidateObject(depth, root, schema, v, path) == Some([])
    decreases n, 5
  {
    hide ValidatorShape, RendererShape, ValidateProperties, ValidateAdditional, MissingHints, RenderObject, RenderIndex;
    hide InUnion, InMember, Get, Strings, DeclaredMembers, Tight;
    RenderObjectSays(root, schema, seen, all, v);
    RequiredTight(n, root, schema, v, path, seen, all);
    PropertiesTight(n, depth, root, schema, v, path, seen, all);
    AdditionalTight(n, depth, root, schema, v, path, seen, all);
  }

  lemma RequiredTight(n: nat, root: Value, schema: Value, v: Value, path: Path, seen: set<string>, all: set<string>)
    requires Tight(n, root, schema, seen) && InScope(root, schema, all) && ValidatorShape(schema).Plain? && v.Obj?
    requires AllHold(DeclaredMembers(root, schema, seen, all), v.fields)
    ensures MissingHints(Elements(Get(schema, "required")), v.fields, path) == []
  {
    hide ValidatorShape, RendererShape, InMember, Get, Strings, DeclaredMembers, Lookup;
    assert RequiredDeclared(schema) by { assert TightPlain(schema); }
    var required, properties := Elements(Get(schema, "required")), Entries(Get(schema, "properties"));
    MissingOutcome(required, v.fields, path);
    forall k | 0 <= k < |required| ensures HasKey(v.fields, RequiredKey(required[k])) {
      var i := KeyPosition(properties, required[k].s);
      DeclaredHolds(root, schema, v, seen, all, i);
    }
  }

  lemma KeyPosition(fields: seq<Field<real>>, key: string) returns (i: nat)
    requires HasKey(fields, key)
    ensures i < |fields| && fields[i].key == key
  {
    i :| 0 <= i < |fields| && fields[i] == Field(key, Lookup(fields, key).value);
  }

  lemma {:induction false} PropertiesTight(n: nat, depth: nat, root: Value, schema: Value, v: Value, path: Path,
                                           seen: set<string>, all: set<string>)
    requires Tight(n, root, schema, seen) && InScope(root, schema, all) && ValidatorShape(schema).Plain? && v.Obj?
    requires AllHold(DeclaredMembers(root, schema, seen, all), v.fields)
    requires ValidateProperties(depth, root, Entries(Get(schema, "properties")), v.fields, path).Some?
    ensures ValidateProperties(depth, root, Entries(Get(schema, "properties")), v.fields, path) == Some([])
    decreases n, 4
  {
    hide ValidatorShape, RendererShape, InMember, Get, Strings, DeclaredMembers, Validate, ValidateProperties;
    hide Render, InUnion, TightPlain;
    var properties := Entries(Get(schema, "properties"));
    PropertiesOutcome(depth, root, properties, v.fields, path);
    forall i | 0 <= i < |properties| ensures PropertyOutcome(depth, root, properties[i], v.fields, path) == Some([]) {
      assert PropertyOutcome(depth, root, properties[i], v.fields, path).Some?;
      DeclaredHolds(root, schema, v, seen, all, i);
      var own := Lookup(v.fields, properties[i].key);
      if own.Some? {
        var below := path + [Key(properties[i].key)];
        TightAccepts(n - 1, depth - 1, root, properties[i].value, own.value, below, seen, all);
      }
    }
  }

  /** The index signature holds of every member. */
  lemma IndexHolds(root: Value, schema: Value, v: Value, seen: set<string>, all: set<string>, i: nat)
    requires InScope(root, schema, all) && v.Obj? && AllHold(RenderIndex(root, schema, seen, all), v.fields)
    requires i < |v.fields|
    requires Get(schema, "additionalProperties").Some? && IsObjectLike(Get(schema, "additionalProperties").value)
    ensures var additional := Get(schema, "additionalProperties").value;
      Strings(additional) <= all && Inhabits(v.fields[i].value, Render(root, additional, seen, all))
  {
    hide InUnion, Render, Get;
    StringsOfGet(schema, "additionalProperties");
    assert InMember(RenderIndex(root, schema, seen, all)[0], v.fields);
  }

  lemma {:induction false} AdditionalTight(n: nat, depth: nat, root: Value, schema: Value, v: Value, path: Path,
                                           seen: set<string>, all: set<string>)
    requires Tight(n, root, schema, seen) && InScope(root, schema, all) && ValidatorShape(schema).Plain? && v.Obj?
    requires AllHold(RenderIndex(root, schema, seen, all), v.fields)
    requires ValidateAdditional(depth, root, Get(schema, "additionalProperties"), Entries(Get(schema, "properties")),
                                v.fields, path).Some?
    ensures ValidateAdditional(depth, root, Get(schema, "additionalProperties"), Entries(Get(schema, "properties")),
                               v.fields, path) == Some([])
    decreases n, 4
  {
    hide ValidatorShape, RendererShape, InMember, Get, Strings, RenderIndex, Validate, ValidateAdditional, Render;
    hide InUnion;
    assert TightPlain(schema);
    var properties, additional := Entries(Get(schema, "properties")), Get(schema, "additionalProperties");
    AdditionalOutcome(depth, root, additional, properties, v.fields, path);
    forall i | 0 <= i < |v.fields|
      ensures MemberOutcome(depth, root, additional, properties, v.fields[i], path) == Some([])
    {
      assert MemberOutcome(depth, root, additional, properties, v.fields[i], path).Some?;
      if additional.Some? && IsObjectLike(additional.value) && !HasKey(properties, v.fields[i].key) {
        IndexHolds(root, schema, v, seen, all, i);
        var below := path + [Key(v.fields[i].key)];
        TightAccepts(n - 1, depth - 1, root, additional.value, v.fields[i].value, below, seen, all);
      }
    }
  }

  /** On a tight and sound document the exported type holds exactly the values its validator accepts. */
  lemma TypeExact(n: nat, depth: nat, root: Value, v: Value, path: Path)
    requires Tight(n, root, root, {}) && SoundDocument(root) && WellFormed(v)
    requires Validate(depth, root, root, v, path).Some?
    ensures Validate(depth, root, root, v, path) == Some([]) <==> Inhabits(v, RenderDocument(root))
  {
    hide Validate, Render, Tight, SoundDocument, InUnion;
    DocumentSound(depth, root, v, path);
    if Inhabits(v, RenderDocument(root)) {
      TightAccepts(n, depth, root, root, v, path, {}, Strings(root));
    }
  }
}
