/**
 What goes wrong without the conditions of SchemaSoundness: for `enum` with `const`, for `items` and `type` that
 are not read, for a reference to something that is no schema, and for two kinds of `additionalProperties`.
 */
module SchemaDisagree {
  import opened Prelude
  import opened Json
  import opened SchemaDocument
  import opened SchemaNodes
  import opened TypeText
  import opened TypeRenderer
  import opened TypeMeaning
  import opened SchemaValidator
  import opened SchemaSoundness
  import opened SchemaTight

  /** Accepted with no hint, yet outside the generated type. */
  ghost predicate Disagree(depth: nat, root: Value, schema: Value, v: Value, seen: set<string>, all: set<string>)
    requires Strings(root) <= all && Strings(schema) <= all
  {
    Validate(depth, root, schema, v, []) == Some([]) && !Inhabits(v, Render(root, schema, seen, all))
  }

  /**
   `enum` with a scalar `const`: the readings agree exactly on the values that are not a listed value other than
   the constant.
   */
  lemma EnumWithConstDisagrees(depth: nat, root: Value, schema: Value, v: Value, seen: set<string>, all: set<string>)
    requires depth > 0 && Strings(root) <= all && Strings(schema) <= all && !IsRef(schema)
    requires IsArray(Get(schema, "enum")) && Get(schema, "const").Some?
    requires !IsObjectLike(Get(schema, "const").value)
    ensures Disagree(depth, root, schema, v, seen, all)
       <==> v in Get(schema, "enum").value.items && v != Get(schema, "const").value
  {
    hide InUnion, CombinatorShape;
    assert IsObjectLike(schema);
    ReadsOne(Literal(Get(schema, "const").value), v);
  }

  // ----- one type of several -----

  /** The words for the type of a value. */
  function KindNames(v: Value): set<Value> {
    match v
    case Null => {Str("null")}
    case Bool(_) => {Str("boolean")}
    case Str(_) => {Str("string")}
    case Num(_) => {Str("number"), Str("integer")}
    case Arr(_) => {Str("array")}
    case Obj(_) => {Str("object")}
  }

  /** The word itself, or a list of known words with it. */
  predicate Lists(ty: Option<Value>, name: string) {
    || ty == Some(Str(name))
    || (IsArray(ty) && Str(name) in ty.value.items
        && forall i :: 0 <= i < |ty.value.items| ==> KnownName(ty.value.items[i]))
  }

  lemma ArrayText(root: Value, schema: Value, v: Value, seen: set<string>, all: set<string>)
    requires Strings(root) <= all && Strings(schema) <= all
    ensures Inhabits(v, RenderByType(root, schema, Some(Str("array")), seen, all)) ==> v.Arr?
  {
    hide InUnion, Render, Get, Strings;
    var text := RenderByType(root, schema, Some(Str("array")), seen, all);
    assert text == [text[0]] && text[0].ArrayOf?;
    ReadsOne(text[0], v);
  }

  lemma ObjectText(root: Value, schema: Value, v: Value, seen: set<string>, all: set<string>)
    requires Strings(root) <= all && Strings(schema) <= all
    ensures Inhabits(v, RenderByType(root, schema, Some(Str("object")), seen, all)) ==> v.Obj?
  {
    hide InUnion, Render, RenderObject, Get, Strings;
    if Inhabits(v, RenderObject(root, schema, seen, all)) {
      RecordIsObject(root, schema, v, seen, all);
    }
  }

  /** The operand a word that names neither arrays nor objects becomes. */
  function WordToken(ty: Value): (t: Token)
    ensures t != Bar && t != Amp
  {
    if ty == Str("null") then NullType else if ty == Str("string") then StringType
    else if ty == Str("boolean") then BooleanType else NumberType
  }

  lemma WordText(root: Value, schema: Value, ty: Value, seen: set<string>, all: set<string>)
    requires Strings(root) <= all && Strings(schema) <= all
    requires KnownName(ty) && ty != Str("array") && ty != Str("object")
    ensures RenderByType(root, schema, Some(ty), seen, all) == [WordToken(ty)]
  {
    hide Render, RenderObject, Get, Strings;
  }

  /** The text of a word for another type does not hold the value. */
  lemma OtherWord(root: Value, schema: Value, ty: Value, v: Value, seen: set<string>, all: set<string>)
    requires Strings(root) <= all && Strings(schema) <= all && KnownName(ty) && ty !in KindNames(v)
    ensures !Inhabits(v, RenderByType(root, schema, Some(ty), seen, all))
  {
    hide InUnion, RenderObject, Render, Get, Strings, Inhabits, RenderByType;
    if ty == Str("array") {
      ArrayText(root, schema, v, seen, all);
    } else if ty == Str("object") {
      ObjectText(root, schema, v, seen, all);
    } else {
      WordText(root, schema, ty, seen, all);
      ReadsOne(WordToken(ty), v);
    }
  }

  /** Of a list of known types the one word for the value's own type decides. */
  lemma ListReads(root: Value, schema: Value, name: string, v: Value, seen: set<string>, all: set<string>)
    requires Strings(root) <= all && Strings(schema) <= all
    requires Lists(Get(schema, "type"), name) && KindNames(v) == {Str(name)}
    ensures Inhabits(v, RenderByType(root, schema, Get(schema, "type"), seen, all))
       <==> Inhabits(v, RenderByType(root, schema, Some(Str(name)), seen, all))
  {
    hide Render, RenderByType, RenderEachType, InUnion, Get, Strings, Join, OrElse, Unique;
    var ty := Get(schema, "type");
    if IsArray(ty) {
      var types := ty.value.items;
      RenderTypeList(root, schema, types, seen, all);
      var texts := RenderEachType(root, schema, types, seen, all);
      UnionIff(texts, Unknown, v);
      forall i | 0 <= i < |types|
        ensures Inhabits(v, texts[i]) <==>
          types[i] == Str(name) && Inhabits(v, RenderByType(root, schema, Some(Str(name)), seen, all))
      {
        RenderEachTypeAt(root, schema, types, seen, all, i);
        if types[i] != Str(name) {
          OtherWord(root, schema, types[i], v, seen, all);
        }
      }
      if Inhabits(v, RenderByType(root, schema, Some(Str(name)), seen, all)) {
        var i :| 0 <= i < |types| && types[i] == Str(name);
        assert Inhabits(v, texts[i]);
      }
    }
  }

  lemma OwnWord(ty: Value, v: Value, path: Path)
    requires ty in KindNames(v) && !v.Num?
    ensures ValidateType(Some(ty), v, path) == []
  {
  }

  /** An array whose type is listed gets the array check, an object the object check. */
  lemma ListChecks(depth: nat, root: Value, schema: Value, v: Value, path: Path)
    requires depth > 0 && ValidatorShape(schema).Plain?
    ensures v.Arr? && Lists(Get(schema, "type"), "array") ==>
      Validate(depth, root, schema, v, path) == ValidateArray(depth - 1, root, schema, v, path)
    ensures v.Obj? && Lists(Get(schema, "type"), "object") ==>
      Validate(depth, root, schema, v, path) == ValidateObject(depth - 1, root, schema, v, path)
  {
    hide ValidatorShape, Validate, Get, ValidateArray, ValidateObject;
    ValidatePlain(depth, root, schema, v, path);
    var ty := Get(schema, "type");
    if IsArray(ty) && !v.Num? {
      AnyTypeIs(ty.value.items, v, path);
      if i :| 0 <= i < |ty.value.items| && ty.value.items[i] in KindNames(v) {
        OwnWord(ty.value.items[i], v, path);
      }
    }
  }

  lemma NeverItems(root: Value, schema: Value, seen: set<string>, all: set<string>)
    requires Strings(root) <= all && Strings(schema) <= all && !SoundItems(Get(schema, "items"))
    ensures RenderByType(root, schema, Some(Str("array")), seen, all) == [ArrayOf([Never])]
  {
    hide RenderObject, Get, Strings;
    StringsOfGet(schema, "items");
    assert Render(root, Get(schema, "items").value, seen, all) == [Never];
  }

  /**
   `items: false`, and `items` that is zero or an empty text, renders an array of `never`, and no array is checked
   against it.
   */
  lemma ItemsFalseDisagrees(depth: nat, root: Value, schema: Value, v: Value, seen: set<string>, all: set<string>)
    requires depth > 1 && Strings(root) <= all && Strings(schema) <= all && ValidatorShape(schema).Plain?
    requires Lists(Get(schema, "type"), "array") && !SoundItems(Get(schema, "items"))
    requires v.Arr?
    ensures Disagree(depth, root, schema, v, seen, all) <==> v.items != []
  {
    hide ValidatorShape, Validate, Render, InUnion, RenderByType, Get, Strings;
    ListChecks(depth, root, schema, v, []);
    RenderPlain(root, schema, seen, all);
    ListReads(root, schema, "array", v, seen, all);
    NeverItems(root, schema, seen, all);
    ReadsOne(ArrayOf([Never]), v);
    forall w: Value ensures !Inhabits(w, [Never]) { ReadsOne(Never, w); }
    assert InToken(ArrayOf([Never]), v) <==> forall i :: 0 <= i < |v.items| ==> Inhabits(v.items[i], [Never]);
    if v.items != [] {
      assert !Inhabits(v.items[0], [Never]);
    }
  }

  // ----- types that are not read -----

  /** A `type` that the switch over names does not know: another word, or no string and no list at all. */
  predicate UnreadType(ty: Option<Value>) {
    Truthy(ty) && !IsArray(ty) && !KnownName(ty.value)
  }

  lemma UnreadTypeAccepts(depth: nat, root: Value, schema: Value, v: Value, path: Path)
    requires depth > 1 && ValidatorShape(schema).Plain? && UnreadType(Get(schema, "type"))
    ensures Validate(depth, root, schema, v, path) == Some([])
  {
    hide ValidatorShape, Validate, Get;
    ValidatePlain(depth, root, schema, v, path);
    assert Dispatch(schema, v) == NoCheck;
  }

  lemma UnreadTypeRenders(root: Value, schema: Value, seen: set<string>, all: set<string>)
    requires Strings(root) <= all && Strings(schema) <= all && UnreadType(Get(schema, "type"))
    ensures RenderByType(root, schema, Get(schema, "type"), seen, all) ==
      if Truthy(Get(schema, "properties")) || Truthy(Get(schema, "required")) then RenderObject(root, schema, seen, all)
      else [Unknown]
  {
    hide RenderObject, Render, Get, Strings;
  }

  /**
   A type the validator does not read is checked by nothing and rendered through `properties` and `required`, so
   the readings part exactly on the values outside that object type.
   */
  lemma UnknownTypeDisagrees(depth: nat, root: Value, schema: Value, v: Value, seen: set<string>, all: set<string>)
    requires depth > 1 && Strings(root) <= all && Strings(schema) <= all && ValidatorShape(schema).Plain?
    requires UnreadType(Get(schema, "type"))
    ensures Disagree(depth, root, schema, v, seen, all) <==>
      && (Truthy(Get(schema, "properties")) || Truthy(Get(schema, "required")))
      && !Inhabits(v, RenderObject(root, schema, seen, all))
  {
    hide ValidatorShape, Validate, Render, RenderByType, RenderObject, InUnion, Get, Strings, UnreadType;
    UnreadTypeAccepts(depth, root, schema, v, []);
    RenderPlain(root, schema, seen, all);
    UnreadTypeRenders(root, schema, seen, all);
    ReadsOne(Unknown, v);
  }

  // ----- a list of types with an unread member -----

  /** A list of single types, one of them unread. */
  predicate UnreadAmong(types: seq<Value>) {
    (forall i :: 0 <= i < |types| ==> !types[i].Arr?) && exists i :: 0 <= i < |types| && UnreadType(Some(types[i]))
  }

  /** No word for the value's type is listed. */
  predicate Unlisted(types: seq<Value>, v: Value) {
    forall name :: name in KindNames(v) ==> name !in types
  }

  lemma UnreadIsNoType(ty: Value, v: Value, path: Path)
    requires UnreadType(Some(ty))
    ensures ValidateType(Some(ty), v, path) == []
  {
  }

  lemma UnlistedUnchecked(schema: Value, types: seq<Value>, v: Value)
    requires Get(schema, "type") == Some(Arr(types)) && Unlisted(types, v)
    ensures Dispatch(schema, v) == NoCheck
  {
    hide Get;
    assert v.Num? ==> Str("number") in KindNames(v) && Str("integer") in KindNames(v);
    assert v.Arr? ==> Str("array") in KindNames(v);
    assert v.Obj? ==> Str("object") in KindNames(v);
  }

  lemma NoCheckAccepts(depth: nat, root: Value, schema: Value, v: Value, path: Path)
    requires Dispatch(schema, v) == NoCheck
    ensures ValidateByType(depth, root, schema, v, path) == Some([])
  {
    hide Dispatch, Get;
  }

  /** An unread member lets every value through; one whose own type is not listed is not looked at further. */
  lemma UnreadAmongAccepts(depth: nat, root: Value, schema: Value, types: seq<Value>, v: Value, path: Path)
    requires depth > 1 && ValidatorShape(schema).Plain? && Get(schema, "type") == Some(Arr(types)) && UnreadAmong(types)
    ensures Validate(depth, root, schema, v, path) == ValidateByType(depth - 1, root, schema, v, path)
    ensures Unlisted(types, v) ==> Validate(depth, root, schema, v, path) == Some([])
  {
    hide ValidatorShape, Validate, Get, ValidateByType, UnreadType;
    ValidatePlain(depth, root, schema, v, path);
    var i :| 0 <= i < |types| && UnreadType(Some(types[i]));
    AnyTypeIs(types, v, path);
    UnreadIsNoType(types[i], v, path);
    if Unlisted(types, v) {
      UnlistedUnchecked(schema, types, v);
      NoCheckAccepts(depth - 1, root, schema, v, path);
    }
  }

  /** What the text of a type says about a value it is no word for. */
  lemma UnlistedReads(root: Value, schema: Value, ty: Value, v: Value, seen: set<string>, all: set<string>)
    requires Strings(root) <= all && Strings(schema) <= all && !ty.Arr? && ty !in KindNames(v)
    ensures Inhabits(v, RenderByType(root, schema, Some(ty), seen, all)) <==>
      && !KnownName(ty)
      && (Truthy(Get(schema, "properties")) || Truthy(Get(schema, "required")) ==>
            Inhabits(v, RenderObject(root, schema, seen, all)))
  {
    hide InUnion, RenderObject, Render, Get, Strings;
    if KnownName(ty) {
      OtherWord(root, schema, ty, v, seen, all);
    } else {
      ReadsOne(Unknown, v);
    }
  }

  lemma ObjectIsNamed(schema: Value)
    ensures NamesObject(schema, Some(Str("object")))
  {
  }

  lemma ListedCheck(depth: nat, root: Value, schema: Value, types: seq<Value>, v: Value, path: Path)
    requires Get(schema, "type") == Some(Arr(types))
    ensures v.Arr? && Str("array") in types ==>
      ValidateByType(depth, root, schema, v, path) == ValidateArray(depth, root, schema, v, path)
    ensures v.Obj? && Str("object") in types ==>
      ValidateByType(depth, root, schema, v, path) == ValidateObject(depth, root, schema, v, path)
  {
    hide Get, ValidateArray, ValidateObject;
  }

  lemma ScalarWord(root: Value, schema: Value, name: Value, v: Value, seen: set<string>, all: set<string>)
    requires Strings(root) <= all && Strings(schema) <= all && name in KindNames(v) && !v.Arr? && !v.Obj?
    ensures Inhabits(v, RenderByType(root, schema, Some(name), seen, all))
  {
    hide InUnion, RenderByType, Get, Strings;
    WordText(root, schema, name, seen, all);
    ReadsOne(WordToken(name), v);
  }

  lemma AroundInScope(root: Value, nodes: set<Value>, schema: Value, v: Value, all: set<string>)
    requires Around(root, nodes, schema, v, all)
    ensures Strings(root) <= all && Strings(schema) <= all && ValidatorShape(schema).Plain?
  {
  }

  /** A value whose own type is listed, if it is accepted, has that type. */
  lemma ListedReads(depth: nat, root: Value, nodes: set<Value>, schema: Value, types: seq<Value>, name: Value, v: Value,
                    path: Path, seen: set<string>, all: set<string>)
    requires Around(root, nodes, schema, v, all) && SoundItems(Get(schema, "items")) && SoundAdditional(schema)
    requires Get(schema, "type") == Some(Arr(types)) && name in KindNames(v) && name in types
    requires ValidateByType(depth, root, schema, v, path) == Some([])
    ensures Inhabits(v, RenderByType(root, schema, Some(name), seen, all))
  {
    hide Around, SoundItems, SoundAdditional, Get, Strings, InUnion, Render, RenderObject, RenderByType;
    hide ValidateArray, ValidateObject, Dispatch, NamesObject;
    AroundInScope(root, nodes, schema, v, all);
    if v.Arr? || v.Obj? {
      ListedCheck(depth, root, schema, types, v, path);
      if v.Arr? {
        SoundArray(depth, root, nodes, schema, v, path, seen, all);
      } else {
        SoundObject(depth, root, nodes, schema, v, path, seen, all);
        assert NamesObject(schema, Some(name)) by { ObjectIsNamed(schema); }
        RenderNamesObject(root, schema, Some(name), seen, all);
      }
    } else {
      ScalarWord(root, schema, name, v, seen, all);
    }
  }

  lemma UnlistedTexts(root: Value, schema: Value, types: seq<Value>, texts: seq<TypeExpr>, v: Value, seen: set<string>,
                      all: set<string>)
    requires Strings(root) <= all && Strings(schema) <= all && |texts| == |types| && UnreadAmong(types)
    requires forall i :: 0 <= i < |types| ==> types[i] !in KindNames(v)
    requires forall i :: 0 <= i < |types| ==> texts[i] == RenderByType(root, schema, Some(types[i]), seen, all)
    ensures (exists i :: 0 <= i < |texts| && Inhabits(v, texts[i])) <==>
      (Truthy(Get(schema, "properties")) || Truthy(Get(schema, "required")) ==>
         Inhabits(v, RenderObject(root, schema, seen, all)))
  {
    hide RenderByType, InUnion, Get, Strings, RenderObject, KindNames, KnownName;
    forall i | 0 <= i < |types|
      ensures Inhabits(v, texts[i]) <==>
        && !KnownName(types[i])
        && (Truthy(Get(schema, "properties")) || Truthy(Get(schema, "required")) ==>
              Inhabits(v, RenderObject(root, schema, seen, all)))
    {
      UnlistedReads(root, schema, types[i], v, seen, all);
    }
    var k :| 0 <= k < |types| && UnreadType(Some(types[k]));
    assert !KnownName(types[k]);
  }

  /**
   In a list of types an unread member lets every value through.  The readings part exactly on the values whose own
   type is not listed and which lie outside the object type that `properties` or `required` make of that member.
   */
  lemma UnreadMemberDisagrees(depth: nat, root: Value, nodes: set<Value>, schema: Value, types: seq<Value>, v: Value,
                              seen: set<string>, all: set<string>)
    requires depth > 1 && Around(root, nodes, schema, v, all)
    requires SoundItems(Get(schema, "items")) && SoundAdditional(schema)
    requires Get(schema, "type") == Some(Arr(types)) && UnreadAmong(types)
    ensures Disagree(depth, root, schema, v, seen, all) <==>
      && Unlisted(types, v) && (Truthy(Get(schema, "properties")) || Truthy(Get(schema, "required")))
      && !Inhabits(v, RenderObject(root, schema, seen, all))
  {
    AroundInScope(root, nodes, schema, v, all);
    hide ValidatorShape, Validate, Render, RenderByType, RenderEachType, InUnion, Get, Strings, Join, OrElse, Unique;
    hide Around, SoundItems, SoundAdditional, RenderObject, KindNames, UnreadType, ValidateByType;
    UnreadAmongAccepts(depth, root, schema, types, v, []);
    RenderPlain(root, schema, seen, all);
    RenderTypeList(root, schema, types, seen, all);
    var texts := RenderEachType(root, schema, types, seen, all);
    UnionIff(texts, Unknown, v);
    forall i | 0 <= i < |types| ensures texts[i] == RenderByType(root, schema, Some(types[i]), seen, all) {
      RenderEachTypeAt(root, schema, types, seen, all, i);
    }
    if Unlisted(types, v) {
      forall i | 0 <= i < |types| ensures types[i] !in KindNames(v) {}
      UnlistedTexts(root, schema, types, texts, v, seen, all);
    } else if Validate(depth, root, schema, v, []) == Some([]) {
      var name :| name in KindNames(v) && name in types;
      ListedReads(depth - 1, root, nodes, schema, types, name, v, [], seen, all);
      var i :| 0 <= i < |types| && types[i] == name;
      assert Inhabits(v, texts[i]);
    }
  }

  // ----- references -----

  /** A reference to something that is no schema accepts every value and renders `never`. */
  lemma NotASchemaDisagrees(depth: nat, root: Value, schema: Value, v: Value, all: set<string>)
    requires depth > 1 && Strings(root) <= all && Strings(schema) <= all && ValidatorShape(schema).Reference?
    requires var target := Target(root, ValidatorShape(schema).ref);
      target.Some? && ValidatorShape(target.value).NotASchema?
    ensures Disagree(depth, root, schema, v, {}, all)
  {
    hide InUnion, Strings;
    var ref := ValidatorShape(schema).ref;
    StringsOfResolve(root, ref);
    var target := Target(root, ref).value;
    assert Render(root, target, {ref}, all) == [Never];
    assert RendererShape(schema) == Reference(ref);
    assert Render(root, schema, {}, all) == Render(root, target, {} + {ref}, all);
    assert {} + {ref} == {ref};
    assert Validate(depth - 1, root, target, v, []) == Some([]);
    ReadsOne(Never, v);
  }

  // ----- members -----

  /** What an accepted object has gone through. */
  lemma ObjectParts(depth: nat, root: Value, schema: Value, v: Value, path: Path)
    requires ValidatorShape(schema).Plain? && Lists(Get(schema, "type"), "object") && v.Obj?
    requires Validate(depth, root, schema, v, path) == Some([])
    ensures depth > 0 && MissingHints(Elements(Get(schema, "required")), v.fields, path) == []
    ensures ValidateProperties(depth - 1, root, Entries(Get(schema, "properties")), v.fields, path) == Some([])
    ensures ValidateAdditional(depth - 1, root, Get(schema, "additionalProperties"), Entries(Get(schema, "properties")),
                               v.fields, path) == Some([])
  {
    hide Validate, ValidatorShape, ValidateProperties, ValidateAdditional, MissingHints, Get, Lists;
    ReturnedDepth(depth, root, schema, v, path);
    ListChecks(depth, root, schema, v, path);
  }

  lemma RecordReads(root: Value, schema: Value, v: Value, seen: set<string>, all: set<string>)
    requires Strings(root) <= all && Strings(schema) <= all && v.Obj?
    requires ValidatorShape(schema).Plain? && Lists(Get(schema, "type"), "object")
    ensures Inhabits(v, Render(root, schema, seen, all)) <==>
      && AllHold(DeclaredMembers(root, schema, seen, all), v.fields)
      && AllHold(RenderIndex(root, schema, seen, all), v.fields)
  {
    hide InUnion, InMember, RenderProperties, RenderIndex, Strings, ValidatorShape, RenderByType, Render, Get;
    RenderPlain(root, schema, seen, all);
    ListReads(root, schema, "object", v, seen, all);
    RenderNamesObject(root, schema, Some(Str("object")), seen, all);
    if Inhabits(v, Render(root, schema, seen, all)) {
      RenderObjectSays(root, schema, seen, all, v);
    }
    if && AllHold(DeclaredMembers(root, schema, seen, all), v.fields)
       && AllHold(RenderIndex(root, schema, seen, all), v.fields) {
      RenderObjectMembers(root, schema, seen, all, v);
    }
  }

  lemma NeverSignature(root: Value, schema: Value, v: Value, seen: set<string>, all: set<string>)
    requires Strings(root) <= all && Strings(schema) <= all && v.Obj?
    requires var additional := Get(schema, "additionalProperties");
      Truthy(additional) && additional != Some(Bool(true)) && !IsObjectLike(additional.value)
    ensures AllHold(RenderIndex(root, schema, seen, all), v.fields) <==> v.fields == []
  {
    hide InUnion, Get, Strings;
    StringsOfGet(schema, "additionalProperties");
    var additional := Get(schema, "additionalProperties").value;
    assert Render(root, additional, seen, all) == [Never];
    assert RenderIndex(root, schema, seen, all) == [IndexSignature([Never])];
    OneHolds(IndexSignature([Never]), v.fields);
    if v.fields != [] {
      ReadsOne(Never, v.fields[0].value);
      assert !InMember(IndexSignature([Never]), v.fields);
    }
  }

  /** An object without members has every declared member it is required to have. */
  lemma NothingDeclared(root: Value, schema: Value, v: Value, seen: set<string>, all: set<string>)
    requires Strings(root) <= all && Strings(schema) <= all && v.Obj? && v.fields == []
    requires MissingHints(Elements(Get(schema, "required")), v.fields, []) == []
    ensures AllHold(DeclaredMembers(root, schema, seen, all), v.fields)
  {
    hide InUnion, Render, RenderProperties, MissingHints, Get;
    var declared := DeclaredMembers(root, schema, seen, all);
    var properties, required := Entries(Get(schema, "properties")), Elements(Get(schema, "required"));
    forall i | 0 <= i < |declared| ensures InMember(declared[i], v.fields) {
      StringsOfGet(schema, "properties");
      RenderPropertiesAt(root, properties, required, seen, all, i);
      if Str(properties[i].key) in required {
        RequiredPresent(required, v.fields, [], properties[i].key);
      }
    }
  }

  /**
   `additionalProperties` that is neither a boolean nor a schema is not read and renders a signature of `never`:
   the readings part on exactly the accepted objects that have a member.
   */
  lemma NonSchemaMembersDisagree(depth: nat, root: Value, schema: Value, v: Value, seen: set<string>, all: set<string>)
    requires Strings(root) <= all && Strings(schema) <= all && v.Obj?
    requires ValidatorShape(schema).Plain? && Lists(Get(schema, "type"), "object")
    requires var additional := Get(schema, "additionalProperties");
      Truthy(additional) && additional != Some(Bool(true)) && !IsObjectLike(additional.value)
    ensures Disagree(depth, root, schema, v, seen, all) <==>
      Validate(depth, root, schema, v, []) == Some([]) && v.fields != []
  {
    hide Validate, Render, InUnion, InMember, Strings, ValidatorShape, DeclaredMembers, RenderIndex, MissingHints, Get;
    if Validate(depth, root, schema, v, []) == Some([]) {
      ObjectParts(depth, root, schema, v, []);
      RecordReads(root, schema, v, seen, all);
      NeverSignature(root, schema, v, seen, all);
      if v.fields == [] {
        NothingDeclared(root, schema, v, seen, all);
      }
    }
  }

  /** An accepted object holds every declared member of the generated type. */
  lemma DeclaredAccepted(depth: nat, root: Value, nodes: set<Value>, schema: Value, v: Value, path: Path,
                         seen: set<string>, all: set<string>)
    requires Around(root, nodes, schema, v, all) && v.Obj?
    requires MissingHints(Elements(Get(schema, "required")), v.fields, path) == []
    requires ValidateProperties(depth, root, Entries(Get(schema, "properties")), v.fields, path) == Some([])
    ensures AllHold(DeclaredMembers(root, schema, seen, all), v.fields)
  {
    hide DeclaredMembers, InMember, MissingHints, ValidateProperties, ValidatorShape, SoundNodes, ClosedAt, Strings;
    forall i | 0 <= i < |DeclaredMembers(root, schema, seen, all)|
      ensures InMember(DeclaredMembers(root, schema, seen, all)[i], v.fields)
    {
      SoundProperty(depth, root, nodes, schema, v, path, seen, all, i);
    }
  }

  /** The member of an accepted object is undeclared, or it is not checked against the member schema. */
  lemma UndeclaredAccepted(depth: nat, root: Value, nodes: set<Value>, schema: Value, v: Value, path: Path,
                           seen: set<string>, all: set<string>, i: nat)
    requires Around(root, nodes, schema, v, all) && v.Obj? && i < |v.fields|
    requires var additional := Get(schema, "additionalProperties"); additional.Some? && IsObjectLike(additional.value)
    requires ValidateAdditional(depth, root, Get(schema, "additionalProperties"), Entries(Get(schema, "properties")),
                                v.fields, path) == Some([])
    requires !HasKey(Entries(Get(schema, "properties")), v.fields[i].key)
    ensures Strings(Get(schema, "additionalProperties").value) <= all
    ensures Inhabits(v.fields[i].value, Render(root, Get(schema, "additionalProperties").value, seen, all))
  {
    hide Validate, Render, ValidateAdditional, InUnion, ValidatorShape, SoundNodes, Get, Strings;
    var additional, properties := Get(schema, "additionalProperties"), Entries(Get(schema, "properties"));
    StringsOfGet(schema, "additionalProperties");
    AdditionalOutcome(depth, root, additional, properties, v.fields, path);
    assert MemberOutcome(depth, root, additional, properties, v.fields[i], path) == Some([]);
    Sound(depth - 1, root, nodes, additional.value, v.fields[i].value, path + [Key(v.fields[i].key)], seen, all);
  }

  /** A declared member whose value lies outside the type of the index signature. */
  ghost predicate Clashes(root: Value, schema: Value, fields: seq<Field<real>>, seen: set<string>, all: set<string>,
                          i: nat)
    requires Strings(root) <= all && Get(schema, "additionalProperties").Some?
    requires Strings(Get(schema, "additionalProperties").value) <= all && i < |fields|
  {
    && HasKey(Entries(Get(schema, "properties")), fields[i].key)
    && !Inhabits(fields[i].value, Render(root, Get(schema, "additionalProperties").value, seen, all))
  }

  lemma SignatureReads(root: Value, schema: Value, v: Value, seen: set<string>, all: set<string>)
    requires Strings(root) <= all && Strings(schema) <= all && v.Obj?
    requires var additional := Get(schema, "additionalProperties"); additional.Some? && IsObjectLike(additional.value)
    requires Strings(Get(schema, "additionalProperties").value) <= all
    ensures AllHold(RenderIndex(root, schema, seen, all), v.fields) <==>
      forall i :: 0 <= i < |v.fields| ==>
        Inhabits(v.fields[i].value, Render(root, Get(schema, "additionalProperties").value, seen, all))
  {
    hide InUnion, Render, Get, Strings;
    var ty := Render(root, Get(schema, "additionalProperties").value, seen, all);
    assert RenderIndex(root, schema, seen, all) == [IndexSignature(ty)];
    OneHolds(IndexSignature(ty), v.fields);
    assert InMember(IndexSignature(ty), v.fields) <==>
      forall i :: 0 <= i < |v.fields| ==> Inhabits(v.fields[i].value, ty);
  }

  /**
   An index signature also covers the declared members, which the validator checks against their own schema only.
   Above sound nodes the readings part on exactly the accepted objects with a declared member outside its type.
   */
  lemma IndexSignatureDisagrees(depth: nat, root: Value, nodes: set<Value>, schema: Value, v: Value,
                                seen: set<string>, all: set<string>)
    requires Around(root, nodes, schema, v, all) && v.Obj? && Lists(Get(schema, "type"), "object")
    requires var additional := Get(schema, "additionalProperties"); additional.Some? && IsObjectLike(additional.value)
    requires Strings(Get(schema, "additionalProperties").value) <= all
    ensures Disagree(depth, root, schema, v, seen, all) <==>
      && Validate(depth, root, schema, v, []) == Some([])
      && exists i :: 0 <= i < |v.fields| && Clashes(root, schema, v.fields, seen, all, i)
  {
    hide Validate, Render, InUnion, InMember, Strings, ValidatorShape, DeclaredMembers, RenderIndex, MissingHints;
    hide ValidateProperties, ValidateAdditional, SoundNodes, Get;
    if Validate(depth, root, schema, v, []) == Some([]) {
      ObjectParts(depth, root, schema, v, []);
      RecordReads(root, schema, v, seen, all);
      DeclaredAccepted(depth - 1, root, nodes, schema, v, [], seen, all);
      SignatureReads(root, schema, v, seen, all);
      forall i | 0 <= i < |v.fields| && !HasKey(Entries(Get(schema, "properties")), v.fields[i].key)
        ensures Inhabits(v.fields[i].value, Render(root, Get(schema, "additionalProperties").value, seen, all))
      {
        UndeclaredAccepted(depth - 1, root, nodes, schema, v, [], seen, all, i);
      }
      var ty := Render(root, Get(schema, "additionalProperties").value, seen, all);
      if i :| 0 <= i < |v.fields| && !Inhabits(v.fields[i].value, ty) {
        assert Clashes(root, schema, v.fields, seen, all, i);
      }
    }
  }
}
