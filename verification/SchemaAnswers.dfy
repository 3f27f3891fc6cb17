/**
 When the standard's verdict has an answer, and the agreement of validator and standard without that proviso.
 */
module SchemaAnswers {
  import opened Prelude
  import opened Json
  import opened SchemaDocument
  import opened SchemaNodes
  import opened SchemaPointer
  import opened SchemaValidator
  import opened SchemaStandard
  import opened SchemaExact
  import opened SchemaTermination

  /** A schema (Core 4.3.1), whose reference, if it is one, resolves, and whose `additionalProperties` is a schema. */
  predicate AnswerNode(root: Value, schema: Value) {
    && (schema.Bool? || schema.Obj?)
    && (ValidatorShape(schema).Reference? ==> Resolve(root, ValidatorShape(schema).ref).Some?)
    && (ValidatorShape(schema).Plain? && Get(schema, "additionalProperties").Some? ==>
          var additional := Get(schema, "additionalProperties").value;
          additional.Bool? || IsObjectLike(additional))
  }

  /** All that the theorem below asks of the nodes of a document. */
  ghost predicate AnswerNodes(root: Value, nodes: set<Value>) {
    ExactNodes(root, nodes) && forall s :: s in nodes ==> AnswerNode(root, s)
  }

  /** Depth enough for `m` more steps of a chain and for the children of the value. */
  predicate Deep(d: nat, m: nat, n: nat, v: Value) {
    d >= m + 3 && (Height(v) > 0 ==> d >= m + 3 + Budget(n, Height(v) - 1))
  }

  lemma EverySome(vs: seq<Verdict3>)
    requires forall i :: 0 <= i < |vs| ==> vs[i].Some?
    ensures Every(vs).Some? && Any(vs).Some? && ExactlyOne(vs).Some?
  {
  }

  lemma VerdictSome(d: nat, root: Value, schema: Value, v: Value)
    requires d > 0 && schema.Obj? && Applicators(d - 1, root, schema, v).Some?
    requires ObjectPart(d - 1, root, schema, v).Some? && ArrayPart(d - 1, root, schema, v).Some?
    ensures Verdict(d, root, schema, v).Some?
  {
    hide Applicators, Assertions, ObjectPart, ArrayPart;
    assert Assertions(schema, v).Some? by { AssertionsSome(schema, v); }
  }

  lemma AssertionsSome(schema: Value, v: Value)
    ensures Assertions(schema, v).Some?
  {
  }

  lemma BoolAnswers(d: nat, root: Value, schema: Value, v: Value)
    requires d > 0 && schema.Bool?
    ensures Verdict(d, root, schema, v).Some?
  {
  }

  /** The standard's verdict has an answer at every depth from a bound on. */
  lemma {:induction false} VerdictReturns(d: nat, m: nat, n: nat, root: Value, nodes: set<Value>, schema: Value,
                                          v: Value)
    requires AnswerNodes(root, nodes) && GroundedNodes(n, root, nodes) && schema in nodes
    requires m <= n && Grounded(m, root, schema) && Deep(d, m, n, v)
    ensures Verdict(d, root, schema, v).Some?
    decreases Height(v), m, 3
  {
    hide ValidatorShape, Verdict, Applicators, ObjectPart, ArrayPart, Grounded, Height, Budget, Closed, ExactNode;
    assert AnswerNode(root, schema) && ExactNode(root, schema);
    if schema.Bool? {
      BoolAnswers(d, root, schema, v);
    } else {
      var shape := ValidatorShape(schema);
      if shape.Reference? {
        ReferenceAnswers(d, m, n, root, nodes, schema, v);
      } else if shape.Combine? {
        CombineAnswers(d, m, n, root, nodes, schema, v);
      } else if shape.Plain? {
        PlainAnswers(d, n, root, nodes, schema, v);
      } else {
        ObjectShapes(schema);
        LeafAnswers(d - 1, root, schema, v);
      }
      VerdictSome(d, root, schema, v);
    }
  }

  lemma LeafAnswers(n: nat, root: Value, schema: Value, v: Value)
    requires ExactNode(root, schema) && (ValidatorShape(schema).EnumOf? || ValidatorShape(schema).ConstOf?)
    ensures Applicators(n, root, schema, v).Some?
    ensures ObjectPart(n, root, schema, v).Some? && ArrayPart(n, root, schema, v).Some?
  {
    hide ValidatorShape, Applicators, ObjectPart, ArrayPart, Get;
    NoApplicators(n, root, schema, v);
    NoObjectPart(n, root, schema, v);
    NoArrayPart(n, root, schema, v);
  }

  lemma {:induction false} ReferenceAnswers(d: nat, m: nat, n: nat, root: Value, nodes: set<Value>, schema: Value,
                                            v: Value)
    requires AnswerNodes(root, nodes) && GroundedNodes(n, root, nodes) && schema in nodes
    requires ValidatorShape(schema).Reference?
    requires m <= n && Grounded(m, root, schema) && Deep(d, m, n, v) && schema.Obj?
    ensures Applicators(d - 1, root, schema, v).Some?
    ensures ObjectPart(d - 1, root, schema, v).Some? && ArrayPart(d - 1, root, schema, v).Some?
    decreases Height(v), m, 2
  {
    hide ValidatorShape, Verdict, ObjectPart, ArrayPart, Grounded, Height, Budget, Get, Closed, Resolve;
    hide StandardResolve, PlainReference, Combinators;
    assert ExactNode(root, schema) && AnswerNode(root, schema);
    var ref := ValidatorShape(schema).ref;
    ResolutionAgrees(root, ref);
    NoObjectPart(d - 1, root, schema, v);
    NoArrayPart(d - 1, root, schema, v);
    ChainClosed(root, nodes, schema);
    GroundedUnfolds(m, root, schema);
    VerdictReturns(d - 1, m - 1, n, root, nodes, Target(root, ref).value, v);
    assert IsRef(schema) && Get(schema, "$ref").value.s == ref;
    NoCombinators(d - 1, root, schema, v);
  }

  lemma {:induction false} CombineAnswers(d: nat, m: nat, n: nat, root: Value, nodes: set<Value>, schema: Value,
                                          v: Value)
    requires AnswerNodes(root, nodes) && GroundedNodes(n, root, nodes) && schema in nodes
    requires ValidatorShape(schema).Combine?
    requires m <= n && Grounded(m, root, schema) && Deep(d, m, n, v) && schema.Obj?
    ensures Applicators(d - 1, root, schema, v).Some?
    ensures ObjectPart(d - 1, root, schema, v).Some? && ArrayPart(d - 1, root, schema, v).Some?
    decreases Height(v), m, 2
  {
    hide ValidatorShape, Verdict, Applicators, ObjectPart, ArrayPart, Grounded, Height, Budget, Get, Closed;
    hide Every, Any, ExactlyOne;
    assert ExactNode(root, schema);
    var Combine(how, variants) := ValidatorShape(schema);
    OneApplicator(d - 1, root, schema, v);
    NoObjectPart(d - 1, root, schema, v);
    NoArrayPart(d - 1, root, schema, v);
    ChainClosed(root, nodes, schema);
    GroundedUnfolds(m, root, schema);
    var vs := EachVerdict(d - 1, root, variants, v);
    forall i | 0 <= i < |variants| ensures vs[i].Some? {
      VerdictReturns(d - 1, m - 1, n, root, nodes, variants[i], v);
    }
    EverySome(vs);
  }

  /** A child of the value starts its own chain. */
  lemma {:induction false} ChildAnswers(d: nat, n: nat, root: Value, nodes: set<Value>, schema: Value, parent: Value,
                                        child: Value)
    requires AnswerNodes(root, nodes) && GroundedNodes(n, root, nodes) && schema in nodes
    requires Height(child) < Height(parent) && d >= Budget(n, Height(parent) - 1)
    ensures Verdict(d, root, schema, child).Some?
    decreases Height(parent), 0, 0, 0
  {
    hide Verdict, Grounded, Height, AnswerNodes, ExactNode, AnswerNode, Closed;
    BudgetMonotone(n, Height(child), Height(parent) - 1);
    VerdictReturns(d, n, n, root, nodes, schema, child);
  }

  lemma {:induction false} PlainAnswers(d: nat, n: nat, root: Value, nodes: set<Value>, schema: Value, v: Value)
    requires AnswerNodes(root, nodes) && GroundedNodes(n, root, nodes) && schema in nodes
    requires ValidatorShape(schema).Plain?
    requires schema.Obj? && d > 1 && (Height(v) > 0 ==> d >= 1 + Budget(n, Height(v) - 1))
    ensures Applicators(d - 1, root, schema, v).Some?
    ensures ObjectPart(d - 1, root, schema, v).Some? && ArrayPart(d - 1, root, schema, v).Some?
    decreases Height(v), 0, 2
  {
    hide ValidatorShape, Verdict, Applicators, ObjectPart, ArrayPart, Grounded, Height, Budget, Get, Closed;
    assert ExactNode(root, schema) && AnswerNode(root, schema);
    NoApplicators(d - 1, root, schema, v);
    PlainClosed(root, nodes, schema);
    ObjectAnswers(d - 1, n, root, nodes, schema, v);
    ArrayAnswers(d - 1, n, root, nodes, schema, v);
  }

  lemma {:induction false} ArrayAnswers(d: nat, n: nat, root: Value, nodes: set<Value>, schema: Value, v: Value)
    requires AnswerNodes(root, nodes) && GroundedNodes(n, root, nodes)
    requires Get(schema, "items").Some? ==> Get(schema, "items").value in nodes
    requires Height(v) > 0 ==> d >= Budget(n, Height(v) - 1)
    ensures ArrayPart(d, root, schema, v).Some?
    decreases Height(v), 0, 1
  {
    hide Verdict, AnswerNodes, GroundedNodes, Get;
    var items := Get(schema, "items");
    if v.Arr? && items.Some? {
      var vs := seq(|v.items|, i requires 0 <= i < |v.items| => Verdict(d, root, items.value, v.items[i]));
      forall i | 0 <= i < |vs| ensures vs[i].Some? {
        ChildAnswers(d, n, root, nodes, items.value, v, v.items[i]);
      }
      EverySome(vs);
    }
  }

  lemma {:induction false} ObjectAnswers(d: nat, n: nat, root: Value, nodes: set<Value>, schema: Value, v: Value)
    requires AnswerNodes(root, nodes) && GroundedNodes(n, root, nodes) && d > 0
    requires var properties := Entries(Get(schema, "properties"));
      forall i :: 0 <= i < |properties| ==> properties[i].value in nodes
    requires var additional := Get(schema, "additionalProperties");
      additional.Some? ==> additional.value.Bool? || additional.value in nodes
    requires Height(v) > 0 ==> d >= Budget(n, Height(v) - 1)
    ensures ObjectPart(d, root, schema, v).Some?
    decreases Height(v), 0, 1
  {
    hide Verdict, AnswerNodes, GroundedNodes, Get, Every, PropertyVerdicts, MemberVerdicts;
    if v.Obj? {
      PropertiesAnswer(d, n, root, nodes, Entries(Get(schema, "properties")), v);
      MembersAnswer(d, n, root, nodes, Get(schema, "additionalProperties"), Entries(Get(schema, "properties")), v);
    }
  }

  lemma {:induction false} PropertiesAnswer(d: nat, n: nat, root: Value, nodes: set<Value>,
                                            properties: seq<Field<real>>, v: Value)
    requires AnswerNodes(root, nodes) && GroundedNodes(n, root, nodes) && v.Obj?
    requires forall i :: 0 <= i < |properties| ==> properties[i].value in nodes
    requires d >= Budget(n, Height(v) - 1)
    ensures Every(PropertyVerdicts(d, root, properties, v.fields)).Some?
    decreases Height(v), 0, 0, 1
  {
    hide Verdict, AnswerNodes, GroundedNodes;
    var vs := PropertyVerdicts(d, root, properties, v.fields);
    forall i | 0 <= i < |vs| ensures vs[i].Some? {
      var own := Lookup(v.fields, properties[i].key);
      if own.Some? {
        FieldHeight(v.fields, properties[i].key);
        ChildAnswers(d, n, root, nodes, properties[i].value, v, own.value);
      }
    }
    EverySome(vs);
  }

  lemma {:induction false} MembersAnswer(d: nat, n: nat, root: Value, nodes: set<Value>, additional: Option<Value>,
                                         properties: seq<Field<real>>, v: Value)
    requires AnswerNodes(root, nodes) && GroundedNodes(n, root, nodes) && v.Obj? && d > 0
    requires additional.Some? ==> additional.value.Bool? || additional.value in nodes
    requires d >= Budget(n, Height(v) - 1)
    ensures Every(MemberVerdicts(d, root, additional, properties, v.fields)).Some?
    decreases Height(v), 0, 0, 1
  {
    hide Verdict, AnswerNodes, GroundedNodes;
    var vs := MemberVerdicts(d, root, additional, properties, v.fields);
    forall i | 0 <= i < |vs| ensures vs[i].Some? {
      if additional.Some? {
        if additional.value.Bool? {
          BoolAnswers(d, root, additional.value, v.fields[i].value);
        } else {
          ChildAnswers(d, n, root, nodes, additional.value, v, v.fields[i].value);
        }
      }
    }
    EverySome(vs);
  }

  // ----- documents -----

  /** Every node the readers can come to is a schema whose keywords are all read, with plain references. */
  ghost predicate Answerable(root: Value) {
    AnswerNodes(root, Reachable(root)) && StandardNodes(root, Reachable(root))
  }

  /** How deep both readings go at most on a value. */
  ghost function Depth(root: Value, v: Value): nat {
    Budget(|Reachable(root)|, Height(v))
  }

  /**
   The validator of a document and the standard both come to an answer on every value, and to the same one, if
   the reachable nodes are answerable and no cycle of references and combinators runs through them.
   */
  lemma DocumentExact(d: nat, n: nat, root: Value, v: Value, path: Path)
    requires Answerable(root) && !UnguardedCycle(root, Reachable(root)) && WellFormed(v)
    requires d >= Depth(root, v) && n >= Depth(root, v)
    ensures Validate(d, root, root, v, path).Some? && Verdict(n, root, root, v).Some?
    ensures Validate(d, root, root, v, path) == Some([]) <==> Verdict(n, root, root, v) == Some(true)
  {
    hide Validate, Verdict, Reachable, Closed, ExactNodes, StandardNodes, UnguardedCycle, Grounded, Height, AnswerNode;
    var nodes := Reachable(root);
    ReachableClosed(root);
    AcyclicGrounded(root, nodes);
    var bound := Budget(|nodes|, Height(v));
    BudgetMonotone(|nodes|, Height(v), Height(v));
    GroundedReturns(d, |nodes|, |nodes|, root, nodes, root, v, path);
    VerdictReturns(n, |nodes|, |nodes|, root, nodes, root, v);
    ValidatorExact(d, n, root, nodes, root, v, path);
  }
}
