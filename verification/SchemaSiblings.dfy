/**
 What the validator does not read: the keywords next to `$ref`, `enum`, `const` or a combinator.  The standard
 reads them all (Core, sections 8.2.3.1 and 10.2.1), so a value is valid exactly when it draws no hint and meets
 these keywords as well; what they forbid is what the validator misses, and nothing else.
 */
module SchemaSiblings {
  import opened Prelude
  import opened Json
  import opened SchemaDocument
  import opened SchemaNodes
  import opened SchemaPointer
  import opened SchemaValidator
  import opened SchemaSoundness
  import opened SchemaStandard
  import opened SchemaTagged
  import opened SchemaExact

  /** The standard's requirements other than those of `$ref`, `enum`, `const` and the combinators. */
  ghost predicate OwnParts(n: nat, root: Value, schema: Value, v: Value) {
    && TypeHolds(Get(schema, "type"), v) && MinimumHolds(schema, v)
    && ObjectPart(n, root, schema, v) == Some(true) && ArrayPart(n, root, schema, v) == Some(true)
  }

  /** What `schema` asks of `v` next to the keyword that decides. */
  ghost predicate Siblings(n: nat, root: Value, schema: Value, v: Value) {
    OwnParts(n, root, schema, v) &&
    match ValidatorShape(schema)
    case Reference(_) =>
      Combinators(n, root, schema, v) == Some(true) && EnumHolds(schema, v) && ConstHolds(schema, v)
    case EnumOf(_) => Combinators(n, root, schema, v) == Some(true) && ConstHolds(schema, v)
    case ConstOf(_) => Combinators(n, root, schema, v) == Some(true)
    case Combine(how, _) => OtherCombinators(n, root, schema, how, v)
    case _ => true
  }

  /** A valid value, part by part. */
  lemma ValidParts(n: nat, root: Value, schema: Value, v: Value)
    requires schema.Obj? && n > 0
    ensures Verdict(n, root, schema, v) == Some(true) <==>
      && ReferencePart(n - 1, root, schema, v) == Some(true) && Combinators(n - 1, root, schema, v) == Some(true)
      && EnumHolds(schema, v) && ConstHolds(schema, v) && OwnParts(n - 1, root, schema, v)
  {
    hide ReferencePart, Combinators, EnumHolds, ConstHolds, MinimumHolds, TypeHolds, ObjectPart, ArrayPart, Get;
    VerdictIs(n, root, schema, v);
  }

  // ----- beside a reference -----

  lemma FalsyVerdict(n: nat, root: Value, schema: Value, v: Value)
    requires !Truthy(Some(schema)) && Verdict(n, root, schema, v).Some?
    ensures schema == Bool(false) && Verdict(n, root, schema, v) == Some(false)
  {
  }

  /** Above an exact target the validator's answer is that of the reference alone. */
  lemma ReferenceExact(depth: nat, n: nat, root: Value, nodes: set<Value>, schema: Value, v: Value, path: Path)
    requires ExactNodes(root, nodes) && StandardNodes(root, nodes) && WellFormed(v) && schema.Obj?
    requires ValidatorShape(schema).Reference? && PlainReference(ValidatorShape(schema).ref)
    requires Target(root, ValidatorShape(schema).ref).Some? ==> Target(root, ValidatorShape(schema).ref).value in nodes
    requires Validate(depth, root, schema, v, path).Some? && ReferencePart(n, root, schema, v).Some?
    ensures ReferencePart(n, root, schema, v) == Some(true) <==>
      && Validate(depth, root, schema, v, path) == Some([])
      && Resolve(root, ValidatorShape(schema).ref) != Some(Bool(false))
  {
    hide ValidatorShape, Validate, Verdict, Get, ExactNodes, StandardNodes, Resolve, StandardResolve, PlainReference;
    var ref := ValidatorShape(schema).ref;
    ReturnedDepth(depth, root, schema, v, path);
    ValidateReference(depth, root, schema, v, path);
    ResolutionAgrees(root, ref);
    assert IsRef(schema) && Get(schema, "$ref").value.s == ref;
    var target := Resolve(root, ref).value;
    if Target(root, ref).Some? {
      ValidatorExact(depth - 1, n, root, nodes, target, v, path);
    } else {
      FalsyVerdict(n, root, target, v);
    }
  }

  lemma ApplicatorsSome(n: nat, root: Value, schema: Value, how: Combinator, v: Value)
    requires Applicators(n, root, schema, v).Some?
    ensures ReferencePart(n, root, schema, v).Some? && CombinatorPart(n, root, schema, how, v).Some?
  {
    hide ReferencePart, CombinatorPart;
  }

  /** Keywords next to a reference: `false` as its target is taken for a dangling one besides. */
  lemma ReferenceSiblingsIff(depth: nat, n: nat, root: Value, nodes: set<Value>, schema: Value, v: Value, path: Path)
    requires ExactNodes(root, nodes) && StandardNodes(root, nodes) && WellFormed(v) && schema.Obj?
    requires ValidatorShape(schema).Reference? && PlainReference(ValidatorShape(schema).ref)
    requires Target(root, ValidatorShape(schema).ref).Some? ==> Target(root, ValidatorShape(schema).ref).value in nodes
    requires Validate(depth, root, schema, v, path).Some? && n > 0 && Verdict(n, root, schema, v).Some?
    ensures Verdict(n, root, schema, v) == Some(true) <==>
      && Validate(depth, root, schema, v, path) == Some([])
      && Resolve(root, ValidatorShape(schema).ref) != Some(Bool(false)) && Siblings(n - 1, root, schema, v)
  {
    hide ValidatorShape, Validate, Verdict, Get, ExactNodes, StandardNodes, Resolve, Target, PlainReference;
    hide ReferencePart, Combinators, OwnParts, EnumHolds, ConstHolds;
    VerdictFromParts(n, root, schema, v);
    assert ReferencePart(n - 1, root, schema, v).Some? by { ApplicatorsSome(n - 1, root, schema, AllOf, v); }
    ValidParts(n, root, schema, v);
    ReferenceExact(depth, n - 1, root, nodes, schema, v, path);
  }

  // ----- beside `enum` and `const` -----

  /** What `enum` or `const` lets through as text is what it lets through as data. */
  lemma LeafExact(depth: nat, root: Value, schema: Value, v: Value, path: Path)
    requires depth > 0 && StandardNode(schema) && WellFormed(v)
    requires ValidatorShape(schema).EnumOf? || ValidatorShape(schema).ConstOf?
    ensures ValidatorShape(schema).EnumOf? ==>
      (Validate(depth, root, schema, v, path) == Some([]) <==> EnumHolds(schema, v))
    ensures ValidatorShape(schema).ConstOf? ==>
      (Validate(depth, root, schema, v, path) == Some([]) <==> ConstHolds(schema, v))
  {
    hide ValidatorShape, Validate, Get, SameData;
    ValidateLeaf(depth, root, schema, v, path);
    SameDataReflexive(v);
    var shape := ValidatorShape(schema);
    if shape.EnumOf? {
      if EnumHolds(schema, v) {
        var i :| 0 <= i < |shape.items| && SameData(shape.items[i], v);
        OrderFreeSame(shape.items[i], v);
      }
      if v in shape.items {
        var i :| 0 <= i < |shape.items| && shape.items[i] == v;
        assert SameData(shape.items[i], v);
      }
    } else if ConstHolds(schema, v) {
      OrderFreeSame(shape.value, v);
    }
  }

  lemma NoReference(n: nat, root: Value, schema: Value, v: Value)
    requires schema.Obj? && !ValidatorShape(schema).Reference?
    ensures ReferencePart(n, root, schema, v) == Some(true)
  {
    hide Get, CombinatorShape;
  }

  lemma ConstHasNoEnum(schema: Value, v: Value)
    requires ValidatorShape(schema).ConstOf?
    ensures EnumHolds(schema, v)
  {
    hide Get, CombinatorShape;
  }

  lemma LeafSiblings(n: nat, root: Value, schema: Value, v: Value)
    requires ValidatorShape(schema).EnumOf? || ValidatorShape(schema).ConstOf?
    ensures Siblings(n, root, schema, v) <==>
      && OwnParts(n, root, schema, v) && Combinators(n, root, schema, v) == Some(true)
      && (ValidatorShape(schema).EnumOf? ==> ConstHolds(schema, v))
  {
    hide ValidatorShape, OwnParts, Combinators, ConstHolds;
  }

  lemma EnumParts(n: nat, root: Value, schema: Value, v: Value)
    requires ValidatorShape(schema).EnumOf? && schema.Obj? && n > 0
    ensures Verdict(n, root, schema, v) == Some(true) <==> EnumHolds(schema, v) && Siblings(n - 1, root, schema, v)
  {
    hide *;
    NoReference(n - 1, root, schema, v);
    LeafSiblings(n - 1, root, schema, v);
    ValidParts(n, root, schema, v);
  }

  /** Keywords next to `enum`. */
  lemma EnumSiblingsIff(depth: nat, n: nat, root: Value, schema: Value, v: Value, path: Path)
    requires ValidatorShape(schema).EnumOf? && StandardNode(schema) && WellFormed(v) && schema.Obj?
    requires depth > 0 && n > 0
    ensures Verdict(n, root, schema, v) == Some(true) <==>
      Validate(depth, root, schema, v, path) == Some([]) && Siblings(n - 1, root, schema, v)
  {
    hide *;
    EnumParts(n, root, schema, v);
    LeafExact(depth, root, schema, v, path);
  }

  lemma ConstParts(n: nat, root: Value, schema: Value, v: Value)
    requires ValidatorShape(schema).ConstOf? && schema.Obj? && n > 0
    ensures Verdict(n, root, schema, v) == Some(true) <==> ConstHolds(schema, v) && Siblings(n - 1, root, schema, v)
  {
    hide *;
    NoReference(n - 1, root, schema, v);
    ConstHasNoEnum(schema, v);
    LeafSiblings(n - 1, root, schema, v);
    ValidParts(n, root, schema, v);
  }

  /** Keywords next to `const`. */
  lemma ConstSiblingsIff(depth: nat, n: nat, root: Value, schema: Value, v: Value, path: Path)
    requires ValidatorShape(schema).ConstOf? && StandardNode(schema) && WellFormed(v) && schema.Obj?
    requires depth > 0 && n > 0
    ensures Verdict(n, root, schema, v) == Some(true) <==>
      Validate(depth, root, schema, v, path) == Some([]) && Siblings(n - 1, root, schema, v)
  {
    hide *;
    ConstParts(n, root, schema, v);
    LeafExact(depth, root, schema, v, path);
  }

  /**
   So `enum` with other keywords beside it is checked as the standard asks exactly when every listed value meets
   those keywords already.
   */
  lemma EnumExactIff(depth: nat, n: nat, root: Value, schema: Value, path: Path)
    requires ValidatorShape(schema).EnumOf? && StandardNode(schema) && schema.Obj? && depth > 0 && n > 0
    requires forall item :: item in ValidatorShape(schema).items ==> WellFormed(item)
    ensures (forall v :: WellFormed(v) && Validate(depth, root, schema, v, path) == Some([]) ==>
               Verdict(n, root, schema, v) == Some(true))
       <==> forall item :: item in ValidatorShape(schema).items ==> Siblings(n - 1, root, schema, item)
  {
    hide ValidatorShape, Validate, Verdict, Get, Siblings, StandardNode, WellFormed;
    var items := ValidatorShape(schema).items;
    forall v ensures Validate(depth, root, schema, v, path) == Some([]) <==> v in items {
      ValidateLeaf(depth, root, schema, v, path);
    }
    forall v | v in items
      ensures Verdict(n, root, schema, v) == Some(true) <==> Siblings(n - 1, root, schema, v)
    {
      EnumSiblingsIff(depth, n, root, schema, v, path);
    }
    if forall item :: item in items ==> Siblings(n - 1, root, schema, item) {
      forall v | WellFormed(v) && Validate(depth, root, schema, v, path) == Some([])
        ensures Verdict(n, root, schema, v) == Some(true)
      {
        assert v in items;
      }
    } else {
      var item :| item in items && !Siblings(n - 1, root, schema, item);
      assert WellFormed(item) && Validate(depth, root, schema, item, path) == Some([]);
    }
  }

  // ----- beside a combinator -----

  lemma CombinedTrue(how: Combinator, vs: seq<Verdict3>)
    requires Outcome3(how, vs).Some? && (how.OneOf? ==> ExactlyOne(vs) == Any(vs))
    ensures Outcome3(how, vs) == Some(true) <==>
      if how.AllOf? then forall i :: 0 <= i < |vs| ==> vs[i] == Some(true)
      else exists i :: 0 <= i < |vs| && vs[i] == Some(true)
  {
  }

  /** Above exact variants the validator's answer is that of the combinator alone. */
  lemma CombinatorExact(depth: nat, n: nat, root: Value, nodes: set<Value>, schema: Value, v: Value, path: Path)
    requires ExactNodes(root, nodes) && StandardNodes(root, nodes) && WellFormed(v) && ValidatorShape(schema).Combine?
    requires var Combine(how, variants) := ValidatorShape(schema);
      && (forall i :: 0 <= i < |variants| ==> variants[i] in nodes)
      && (how.OneOf? ==> exists tags :: TaggedUnion(variants, tags))
    requires Validate(depth, root, schema, v, path).Some?
    requires CombinatorPart(n, root, schema, ValidatorShape(schema).how, v).Some?
    ensures Validate(depth, root, schema, v, path) == Some([])
       <==> CombinatorPart(n, root, schema, ValidatorShape(schema).how, v) == Some(true)
  {
    hide ValidatorShape, Validate, CombineHints, Verdict, Get, ExactNodes, StandardNodes, Every, Any, ExactlyOne;
    hide TaggedUnion;
    ReturnedDepth(depth, root, schema, v, path);
    ValidateCombine(depth, root, schema, v, path);
    var Combine(how, variants) := ValidatorShape(schema);
    CombinedOutcome(depth - 1, root, how, variants, v, path);
    var vs := EachVerdict(n, root, variants, v);
    assert CombinatorPart(n, root, schema, how, v) == Outcome3(how, vs);
    if how.OneOf? {
      var tags :| TaggedUnion(variants, tags);
      TaggedOneOfIsAnyOf(n, root, variants, tags, v);
    }
    CombinedVerdict(how, vs);
    forall i | 0 <= i < |variants|
      ensures Validate(depth - 1, root, variants[i], v, path) == Some([]) <==> vs[i] == Some(true)
    {
      ValidatorExact(depth - 1, n, root, nodes, variants[i], v, path);
    }
    CombinedTrue(how, vs);
  }

  lemma CombineSiblings(n: nat, root: Value, schema: Value, v: Value)
    requires ValidatorShape(schema).Combine?
    ensures Siblings(n, root, schema, v) <==>
      OwnParts(n, root, schema, v) && OtherCombinators(n, root, schema, ValidatorShape(schema).how, v)
  {
    hide ValidatorShape, OwnParts, OtherCombinators;
  }

  lemma CombineHasNeither(schema: Value, v: Value)
    requires schema.Obj? && ValidatorShape(schema).Combine?
    ensures EnumHolds(schema, v) && ConstHolds(schema, v)
  {
    hide Get, CombinatorShape;
  }

  lemma CombineParts(n: nat, root: Value, schema: Value, v: Value)
    requires schema.Obj? && ValidatorShape(schema).Combine? && n > 0
    ensures Verdict(n, root, schema, v) == Some(true) <==>
      && CombinatorPart(n - 1, root, schema, ValidatorShape(schema).how, v) == Some(true)
      && Siblings(n - 1, root, schema, v)
  {
    hide *;
    NoReference(n - 1, root, schema, v);
    CombineHasNeither(schema, v);
    CombineSiblings(n - 1, root, schema, v);
    ValidParts(n, root, schema, v);
    CombinatorsAll(n - 1, root, schema, ValidatorShape(schema).how, v);
  }

  /** Keywords next to a combinator, other combinators among them. */
  lemma CombinatorSiblingsIff(depth: nat, n: nat, root: Value, nodes: set<Value>, schema: Value, v: Value, path: Path)
    requires ExactNodes(root, nodes) && StandardNodes(root, nodes) && WellFormed(v) && schema.Obj?
    requires ValidatorShape(schema).Combine?
    requires var Combine(how, variants) := ValidatorShape(schema);
      && (forall i :: 0 <= i < |variants| ==> variants[i] in nodes)
      && (how.OneOf? ==> exists tags :: TaggedUnion(variants, tags))
    requires Validate(depth, root, schema, v, path).Some? && n > 0 && Verdict(n, root, schema, v).Some?
    ensures Verdict(n, root, schema, v) == Some(true) <==>
      Validate(depth, root, schema, v, path) == Some([]) && Siblings(n - 1, root, schema, v)
  {
    hide *;
    VerdictFromParts(n, root, schema, v);
    ApplicatorsSome(n - 1, root, schema, ValidatorShape(schema).how, v);
    CombineParts(n, root, schema, v);
    CombinatorExact(depth, n - 1, root, nodes, schema, v, path);
  }

  // ----- `oneOf` that overlaps -----

  lemma OneOrMore(vs: seq<Verdict3>)
    requires None !in vs
    ensures ExactlyOne(vs) == Some(true) <==>
      && Any(vs) == Some(true)
      && !exists i, j :: 0 <= i < j < |vs| && vs[i] == Some(true) && vs[j] == Some(true)
  {
  }

  /** Above exact variants `oneOf` is answered differently exactly when two variants accept the value. */
  lemma OneOfDiffersIff(depth: nat, n: nat, root: Value, nodes: set<Value>, schemas: seq<Value>, v: Value, path: Path)
    requires ExactNodes(root, nodes) && StandardNodes(root, nodes) && WellFormed(v)
    requires forall k :: 0 <= k < |schemas| ==> schemas[k] in nodes
    requires forall k :: 0 <= k < |schemas| ==> Validate(depth, root, schemas[k], v, path).Some?
    requires None !in EachVerdict(n, root, schemas, v)
    ensures var hints := CombineHints(OneOf, ValidateEach(depth, root, schemas, v, path), v, path);
      (hints == Some([])) != (ExactlyOne(EachVerdict(n, root, schemas, v)) == Some(true)) <==>
        exists i, j :: 0 <= i < j < |schemas| && Validate(depth, root, schemas[i], v, path) == Some([])
                       && Validate(depth, root, schemas[j], v, path) == Some([])
  {
    hide Validate, ValidateEach, Verdict, CombineHints, ExactNodes, StandardNodes;
    CombinedOutcome(depth, root, OneOf, schemas, v, path);
    var vs := EachVerdict(n, root, schemas, v);
    forall k | 0 <= k < |schemas|
      ensures Validate(depth, root, schemas[k], v, path) == Some([]) <==> vs[k] == Some(true)
    {
      assert vs[k] in vs;
      ValidatorExact(depth, n, root, nodes, schemas[k], v, path);
    }
    OneOrMore(vs);
  }
}
