/**
 Tagged unions, the form in which every `oneOf` of the protocol schemas is written: each variant is
 an object that requires a `type` member with one fixed value, and no two variants share it.
 Then "some variant accepts", which the validator checks, is "exactly one variant accepts", which
 the standard asks for (Core 10.2.1.3).

 The second half shows where the conditions of SchemaStandard are exact.
 */
module SchemaTagged {
  import opened Prelude
  import opened Json
  import opened SchemaDocument
  import opened SchemaNodes
  import opened SchemaValidator
  import opened SchemaSoundness
  import opened SchemaStandard

  predicate Tagged(schema: Value, tag: string) {
    && schema.Obj? && ValidatorShape(schema).Plain?
    && Get(schema, "type") == Some(Str("object"))
    && Str("type") in Elements(Get(schema, "required"))
    && var own := Lookup(Entries(Get(schema, "properties")), "type");
       own.Some? && own.value.Obj? && ValidatorShape(own.value) == EnumOf([Str(tag)])
  }

  function TagOf(v: Value): Option<Value> {
    if v.Obj? then Lookup(v.fields, "type") else None
  }

  predicate TaggedUnion(schemas: seq<Value>, tags: seq<string>) {
    |tags| == |schemas| && Distinct(tags) && forall i :: 0 <= i < |schemas| ==> Tagged(schemas[i], tags[i])
  }

  /** The tag's own schema lets one value through. */
  lemma TagAccepts(depth: nat, root: Value, own: Value, tag: string, v: Value, path: Path)
    requires ValidatorShape(own) == EnumOf([Str(tag)]) && Validate(depth, root, own, v, path) == Some([])
    ensures v == Str(tag)
  {
    hide Validate, ValidatorShape;
    ReturnedDepth(depth, root, own, v, path);
    ValidateLeaf(depth, root, own, v, path);
  }

  lemma MemberAccepted(depth: nat, root: Value, properties: seq<Field<real>>, fields: seq<Field<real>>, path: Path,
                       key: string)
    requires ValidateProperties(depth, root, properties, fields, path) == Some([])
    requires HasKey(properties, key) && HasKey(fields, key)
    ensures depth > 0
         && Validate(depth - 1, root, Lookup(properties, key).value, Lookup(fields, key).value, path + [Key(key)])
              == Some([])
  {
    hide Validate, ValidateProperties;
    PropertiesOutcome(depth, root, properties, fields, path);
    var i :| 0 <= i < |properties| && properties[i] == Field(key, Lookup(properties, key).value);
    assert PropertyOutcome(depth, root, properties[i], fields, path) == Some([]);
  }

  lemma TagValid(n: nat, root: Value, own: Value, tag: string, v: Value)
    requires own.Obj? && ValidatorShape(own) == EnumOf([Str(tag)]) && Verdict(n, root, own, v) == Some(true)
    ensures v == Str(tag)
  {
    hide Verdict, ValidatorShape, Applicators, ObjectPart, ArrayPart;
    VerdictParts(n, root, own, v);
    var items := [Str(tag)];
    assert Get(own, "enum") == Some(Arr(items));
    var j :| 0 <= j < |items| && SameData(items[j], v);
  }

  lemma PropertyVerdictAt(n: nat, root: Value, properties: seq<Field<real>>, fields: seq<Field<real>>, i: nat)
    requires i < |properties| && Every(PropertyVerdicts(n, root, properties, fields)) == Some(true)
    ensures var own := Lookup(fields, properties[i].key);
      own.Some? ==> Verdict(n, root, properties[i].value, own.value) == Some(true)
  {
    hide Verdict;
    assert PropertyVerdicts(n, root, properties, fields)[i] == Some(true);
  }

  lemma MemberValid(n: nat, root: Value, schema: Value, v: Value, key: string)
    requires v.Obj? && ObjectPart(n, root, schema, v) == Some(true) && Str(key) in Elements(Get(schema, "required"))
    requires HasKey(Entries(Get(schema, "properties")), key)
    ensures Lookup(v.fields, key).Some?
    ensures Verdict(n, root, Lookup(Entries(Get(schema, "properties")), key).value, Lookup(v.fields, key).value)
         == Some(true)
  {
    hide Verdict, PropertyVerdicts, MemberVerdicts;
    var required := Elements(Get(schema, "required"));
    var k :| 0 <= k < |required| && required[k] == Str(key);
    assert HasKey(v.fields, RequiredKey(required[k]));
    var properties := Entries(Get(schema, "properties"));
    var i :| 0 <= i < |properties| && properties[i] == Field(key, Lookup(properties, key).value);
    PropertyVerdictAt(n, root, properties, v.fields, i);
  }

  lemma TypedObject(schema: Value, v: Value)
    requires Get(schema, "type") == Some(Str("object")) && Assertions(schema, v) == Some(true)
    ensures v.Obj?
  {
    hide Get, EnumHolds, ConstHolds, MinimumHolds;
    assert TypeHolds(Some(Str("object")), v);
  }

  /** The parts of a tagged schema, by name. */
  lemma TagOwn(schema: Value, tag: string) returns (own: Value)
    requires Tagged(schema, tag)
    ensures schema.Obj? && ValidatorShape(schema).Plain? && Get(schema, "type") == Some(Str("object"))
    ensures Str("type") in Elements(Get(schema, "required"))
    ensures HasKey(Entries(Get(schema, "properties")), "type")
    ensures own == Lookup(Entries(Get(schema, "properties")), "type").value
    ensures own.Obj? && ValidatorShape(own) == EnumOf([Str(tag)])
  {
    hide Get, ValidatorShape, Lookup;
    own := Lookup(Entries(Get(schema, "properties")), "type").value;
  }

  lemma TagFound(v: Value)
    requires v.Obj? && Lookup(v.fields, "type").Some?
    ensures TagOf(v).Some? && TagOf(v).value == Lookup(v.fields, "type").value
  {
    hide Lookup;
  }

  lemma TaggedValid(n: nat, root: Value, schema: Value, tag: string, v: Value)
    requires Tagged(schema, tag) && Verdict(n, root, schema, v) == Some(true)
    ensures TagOf(v) == Some(Str(tag))
  {
    hide *;
    var own := TagOwn(schema, tag);
    VerdictParts(n, root, schema, v);
    TypedObject(schema, v);
    MemberValid(n - 1, root, schema, v, "type");
    TagValid(n - 1, root, own, tag, Lookup(v.fields, "type").value);
    TagFound(v);
  }

  /** Likewise for the validator: it accepts values with the tag only. */
  lemma TaggedAccepts(depth: nat, root: Value, schema: Value, tag: string, v: Value, path: Path)
    requires Tagged(schema, tag) && Validate(depth, root, schema, v, path) == Some([])
    ensures TagOf(v) == Some(Str(tag))
  {
    hide *;
    var own := TagOwn(schema, tag);
    AcceptedParts(depth, root, schema, v, path);
    var properties := Entries(Get(schema, "properties"));
    RequiredPresent(Elements(Get(schema, "required")), v.fields, path, "type");
    MemberAccepted(depth - 1, root, properties, v.fields, path, "type");
    TagAccepts(depth - 2, root, own, tag, Lookup(v.fields, "type").value, path + [Key("type")]);
    TagFound(v);
  }

  /** At most one variant of a tagged union lets a value through, so `some` is `exactly one`. */
  lemma TaggedUnionExact(depth: nat, root: Value, schemas: seq<Value>, tags: seq<string>, v: Value, path: Path)
    requires TaggedUnion(schemas, tags)
    ensures var r := CombineHints(OneOf, ValidateEach(depth, root, schemas, v, path), v, path);
      r.Some? ==> (r == Some([]) <==>
        exists i :: 0 <= i < |schemas| && Validate(depth, root, schemas[i], v, path) == Some([])
          && forall j :: 0 <= j < |schemas| && j != i ==> Validate(depth, root, schemas[j], v, path) != Some([]))
  {
    hide Validate, ValidateEach, CombineHints, Tagged;
    CombinedOutcome(depth, root, OneOf, schemas, v, path);
    forall i | 0 <= i < |schemas| && Validate(depth, root, schemas[i], v, path) == Some([])
      ensures TagOf(v) == Some(Str(tags[i]))
    {
      TaggedAccepts(depth, root, schemas[i], tags[i], v, path);
    }
  }

  /** Likewise for the standard: on a tagged union `oneOf` and `anyOf` are the same assertion. */
  lemma TaggedOneOfIsAnyOf(n: nat, root: Value, schemas: seq<Value>, tags: seq<string>, v: Value)
    requires TaggedUnion(schemas, tags)
    ensures ExactlyOne(EachVerdict(n, root, schemas, v)) == Any(EachVerdict(n, root, schemas, v))
  {
    hide Verdict, Tagged;
    var vs := EachVerdict(n, root, schemas, v);
    forall i | 0 <= i < |schemas| && vs[i] == Some(true) ensures TagOf(v) == Some(Str(tags[i])) {
      TaggedValid(n, root, schemas[i], tags[i], v);
    }
  }

  // ----- the conditions are exact -----

  lemma {:induction false} SameDataReflexive(v: Value)
    requires WellFormed(v)
    ensures SameData(v, v)
  {
    match v
    case Arr(items) => forall i | 0 <= i < |items| ensures SameData(items[i], items[i]) { SameDataReflexive(items[i]); }
    case Obj(fields) =>
      forall i | 0 <= i < |fields|
        ensures Lookup(fields, fields[i].key) == Some(fields[i].value) && SameData(fields[i].value, fields[i].value)
      {
        LookupAt(fields, i);
        SameDataReflexive(fields[i].value);
      }
    case _ =>
  }

  lemma Swapped(fields: seq<Field<real>>) returns (w: Value)
    requires WellFormed(Obj(fields)) && |fields| >= 2
    ensures SameData(Obj(fields), w) && w != Obj(fields)
  {
    var other := [fields[1], fields[0]] + fields[2..];
    w := Obj(other);
    assert other[0] != fields[0];
    assert DistinctKeys(other);
    forall i | 0 <= i < |fields|
      ensures var found := Lookup(other, fields[i].key); found.Some? && SameData(fields[i].value, found.value)
    {
      var j := if i == 0 then 1 else if i == 1 then 0 else i;
      assert other[j] == fields[i];
      LookupAt(other, j);
      SameDataReflexive(fields[i].value);
    }
  }

  /** A document with a two-member object somewhere has another spelling of the same data. */
  lemma {:induction false} OtherSpelling(v: Value) returns (w: Value)
    requires WellFormed(v) && !OrderFree(v)
    ensures SameData(v, w) && w != v
  {
    SameDataReflexive(v);
    match v
    case Arr(items) =>
      var i :| 0 <= i < |items| && !OrderFree(items[i]);
      var x := OtherSpelling(items[i]);
      w := Arr(items[i := x]);
      assert w.items[i] != items[i];
    case Obj(fields) =>
      if |fields| == 1 {
        var x := OtherSpelling(fields[0].value);
        w := Obj([Field(fields[0].key, x)]);
        assert w.fields[0] != fields[0];
      } else {
        w := Swapped(fields);
      }
  }

  /** Comparing text accepts all spellings of a constant exactly when it has only one. */
  lemma ConstExact(depth: nat, root: Value, schema: Value, path: Path)
    requires depth > 0 && ValidatorShape(schema).ConstOf? && WellFormed(ValidatorShape(schema).value)
    ensures OrderFree(ValidatorShape(schema).value) <==>
      forall v :: SameData(ValidatorShape(schema).value, v) ==> Validate(depth, root, schema, v, path) == Some([])
  {
    hide ValidatorShape, Validate;
    var c := ValidatorShape(schema).value;
    forall v ensures Validate(depth, root, schema, v, path) == Some([]) <==> c == v {
      ValidateLeaf(depth, root, schema, v, path);
    }
    if OrderFree(c) {
      forall v | SameData(c, v) ensures c == v { OrderFreeSame(c, v); }
    } else {
      var w := OtherSpelling(c);
      assert SameData(c, w) && Validate(depth, root, schema, w, path) != Some([]);
    }
  }

  /** Without `type`, the validator refuses what `properties` and `required` do not speak about. */
  lemma UntypedRejects(depth: nat, n: nat, root: Value, schema: Value, v: Value, path: Path)
    requires depth > 1 && ValidatorShape(schema).Plain? && !IsArray(Get(schema, "type")) && Untyped(schema) && !v.Obj?
    ensures Validate(depth, root, schema, v, path) == Some(Complain(path, OfType(Str("object")), v))
    ensures ObjectPart(n, root, schema, v) == Some(true)
  {
    hide Validate, ValidatorShape, Get;
    ValidatePlain(depth, root, schema, v, path);
    assert ValidateType(Get(schema, "type"), v, path) == [];
    assert Dispatch(schema, v) == AsObject;
  }
}
