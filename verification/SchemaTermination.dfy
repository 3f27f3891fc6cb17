/**
 When `validateWithSchema` returns.  It does on every value exactly when no cycle of references and
 combinators avoids `properties`, `items` and `additionalProperties`; then its call depth is linear in
 the height of the value.
 */
module SchemaTermination {
  import opened Prelude
  import opened Json
  import opened SchemaDocument
  import opened SchemaNodes
  import opened SchemaValidator
  import opened SchemaSoundness

  predicate Returns(depth: nat, root: Value, schema: Value, v: Value, path: Path) {
    Validate(depth, root, schema, v, path).Some?
  }

  /** Chains of references and combinators from `schema` end within `n` steps. */
  predicate Grounded(n: nat, root: Value, schema: Value)
    decreases n, 1
  {
    match ValidatorShape(schema)
    case Reference(ref) => Target(root, ref).None? || (n > 0 && Grounded(n - 1, root, Target(root, ref).value))
    case Combine(_, variants) => AllGrounded(n, root, variants)
    case _ => true
  }

  predicate AllGrounded(n: nat, root: Value, schemas: seq<Value>)
    decreases n, 0
  {
    n > 0 && forall i :: 0 <= i < |schemas| ==> Grounded(n - 1, root, schemas[i])
  }

  /** One unfolding of `Grounded`. */
  lemma GroundedUnfolds(n: nat, root: Value, schema: Value)
    ensures var shape := ValidatorShape(schema);
      Grounded(n, root, schema) <==>
        (shape.Reference? && Target(root, shape.ref).Some? ==>
           n > 0 && Grounded(n - 1, root, Target(root, shape.ref).value))
        && (shape.Combine? ==> AllGrounded(n, root, shape.variants))
  {
    hide ValidatorShape, Target, AllGrounded;
  }

  lemma {:induction false} GroundedMore(n: nat, m: nat, root: Value, schema: Value)
    requires n <= m && Grounded(n, root, schema)
    ensures Grounded(m, root, schema)
    decreases n
  {
    hide ValidatorShape, Target, Grounded;
    var shape := ValidatorShape(schema);
    GroundedUnfolds(n, root, schema);
    GroundedUnfolds(m, root, schema);
    if shape.Reference? && Target(root, shape.ref).Some? {
      GroundedMore(n - 1, m - 1, root, Target(root, shape.ref).value);
    } else if shape.Combine? {
      forall i | 0 <= i < |shape.variants| ensures Grounded(m - 1, root, shape.variants[i]) {
        GroundedMore(n - 1, m - 1, root, shape.variants[i]);
      }
    }
  }

  // ----- necessity -----

  /** A call that returned within `depth` met no longer chain. */
  lemma {:induction false} ReturnsGrounded(depth: nat, root: Value, schema: Value, v: Value, path: Path)
    requires Returns(depth, root, schema, v, path)
    ensures Grounded(depth, root, schema)
    decreases depth
  {
    hide ValidatorShape, Validate, ValidateByType, ValidateType, CombineHints, ValidateEach, Target;
    ReturnedDepth(depth, root, schema, v, path);
    var shape := ValidatorShape(schema);
    if shape.Reference? && Target(root, shape.ref).Some? {
      ValidateReference(depth, root, schema, v, path);
      ReturnsGrounded(depth - 1, root, Target(root, shape.ref).value, v, path);
    } else if shape.Combine? {
      ValidateCombine(depth, root, schema, v, path);
      CombinedOutcome(depth - 1, root, shape.how, shape.variants, v, path);
      forall i | 0 <= i < |shape.variants| ensures Grounded(depth - 1, root, shape.variants[i]) {
        ReturnsGrounded(depth - 1, root, shape.variants[i], v, path);
      }
    }
  }

  // ----- sufficiency -----

  function Max(a: nat, b: nat): nat {
    if a < b then b else a
  }

  function Height(v: Value): nat {
    match v
    case Arr(items) => 1 + ItemsHeight(items)
    case Obj(fields) => 1 + FieldsHeight(fields)
    case _ => 0
  }

  function ItemsHeight(items: seq<Value>): (h: nat)
    ensures forall i :: 0 <= i < |items| ==> Height(items[i]) <= h
  {
    if items == [] then 0
    else
      assert items == [items[0]] + items[1..];
      Max(Height(items[0]), ItemsHeight(items[1..]))
  }

  function FieldsHeight(fields: seq<Field<real>>): (h: nat)
    ensures forall i :: 0 <= i < |fields| ==> Height(fields[i].value) <= h
  {
    if fields == [] then 0
    else
      assert fields == [fields[0]] + fields[1..];
      Max(Height(fields[0].value), FieldsHeight(fields[1..]))
  }

  /** Call depth that suffices for a value of height `h` when chains are at most `n` long. */
  function Budget(n: nat, h: nat): nat {
    if h == 0 then n + 3 else Budget(n, h - 1) + n + 3
  }

  lemma {:induction false} BudgetMonotone(n: nat, h: nat, k: nat)
    requires h <= k
    ensures n + 3 <= Budget(n, h) <= Budget(n, k)
  {
    if h < k {
      BudgetMonotone(n, h, k - 1);
    } else if h > 0 {
      BudgetMonotone(n, h - 1, h - 1);
    }
  }

  ghost predicate GroundedNodes(n: nat, root: Value, nodes: set<Value>) {
    Closed(root, nodes) && forall s :: s in nodes ==> Grounded(n, root, s)
  }

  /** `m` steps of a chain are left; below the chain a child of the value is smaller. */
  lemma {:induction false} GroundedReturns(depth: nat, m: nat, n: nat, root: Value, nodes: set<Value>, schema: Value,
                                           v: Value, path: Path)
    requires GroundedNodes(n, root, nodes) && schema in nodes && m <= n && Grounded(m, root, schema)
    requires depth >= m + 3 && (Height(v) > 0 ==> depth >= m + 3 + Budget(n, Height(v) - 1))
    ensures Returns(depth, root, schema, v, path)
    decreases Height(v), m, 3
  {
    hide ValidatorShape, Validate, ValidateByType, CombineHints, ValidateEach, ValidateType, Closed, Target;
    hide Grounded, Height, Budget;
    GroundedUnfolds(m, root, schema);
    ChainClosed(root, nodes, schema);
    var shape := ValidatorShape(schema);
    if shape.Reference? {
      ValidateReference(depth, root, schema, v, path);
      if Target(root, shape.ref).Some? {
        GroundedReturns(depth - 1, m - 1, n, root, nodes, Target(root, shape.ref).value, v, path);
      }
    } else if shape.Combine? {
      ValidateCombine(depth, root, schema, v, path);
      VariantsReturn(depth - 1, m - 1, n, root, nodes, shape.how, shape.variants, v, path);
    } else if shape.Plain? {
      ValidatePlain(depth, root, schema, v, path);
      ByTypeReturns(depth - 1, n, root, nodes, schema, v, path);
    } else {
      ValidateLeaf(depth, root, schema, v, path);
    }
  }

  lemma {:induction false} VariantsReturn(depth: nat, m: nat, n: nat, root: Value, nodes: set<Value>, how: Combinator,
                                          schemas: seq<Value>, v: Value, path: Path)
    requires GroundedNodes(n, root, nodes) && m <= n
    requires forall i :: 0 <= i < |schemas| ==> schemas[i] in nodes && Grounded(m, root, schemas[i])
    requires depth >= m + 3 && (Height(v) > 0 ==> depth >= m + 3 + Budget(n, Height(v) - 1))
    ensures CombineHints(how, ValidateEach(depth, root, schemas, v, path), v, path).Some?
    decreases Height(v), m, 4
  {
    hide Validate, ValidateEach, CombineHints;
    CombinedOutcome(depth, root, how, schemas, v, path);
    forall i | 0 <= i < |schemas| ensures Returns(depth, root, schemas[i], v, path) {
      GroundedReturns(depth, m, n, root, nodes, schemas[i], v, path);
    }
  }

  /** A child has its own full chain to go. */
  lemma {:induction false} ChildReturns(depth: nat, n: nat, root: Value, nodes: set<Value>, schema: Value,
                                        parent: Value,
                                        child: Value, path: Path)
    requires GroundedNodes(n, root, nodes) && schema in nodes && Height(child) < Height(parent)
    requires depth >= Budget(n, Height(parent) - 1)
    ensures Returns(depth, root, schema, child, path)
    decreases Height(parent), 0, 0, 0
  {
    hide Validate;
    BudgetMonotone(n, Height(child), Height(parent) - 1);
    GroundedReturns(depth, n, n, root, nodes, schema, child, path);
  }

  lemma {:induction false} ByTypeReturns(depth: nat, n: nat, root: Value, nodes: set<Value>, schema: Value, v: Value,
                                         path: Path)
    requires GroundedNodes(n, root, nodes) && schema in nodes && ValidatorShape(schema).Plain?
    requires Height(v) > 0 ==> depth >= 1 + Budget(n, Height(v) - 1)
    ensures ValidateByType(depth, root, schema, v, path).Some?
    decreases Height(v), 0, 2
  {
    hide Dispatch, ValidateObject, ValidateArray, ValidateNumber, ValidatorShape, Closed, Grounded;
    PlainClosed(root, nodes, schema);
    ObjectReturns(depth, n, root, nodes, schema, v, path);
    ArrayReturns(depth, n, root, nodes, schema, v, path);
  }

  lemma {:induction false} ArrayReturns(depth: nat, n: nat, root: Value, nodes: set<Value>, schema: Value, v: Value,
                                        path: Path)
    requires GroundedNodes(n, root, nodes)
    requires Truthy(Get(schema, "items")) ==> Get(schema, "items").value in nodes
    requires Height(v) > 0 ==> depth >= 1 + Budget(n, Height(v) - 1)
    ensures ValidateArray(depth, root, schema, v, path).Some?
    decreases Height(v), 0, 1
  {
    hide Validate, ValidateItems, GroundedNodes;
    var items := Get(schema, "items");
    if v.Arr? && Truthy(items) {
      ItemsOutcome(depth, root, items.value, v.items, path, 0);
      forall i | 0 <= i < |v.items| ensures ItemOutcome(depth, root, items.value, v.items[i], path, i).Some? {
        ChildReturns(depth - 1, n, root, nodes, items.value, v, v.items[i], path + [Index(i)]);
      }
    }
  }

  lemma {:induction false} ObjectReturns(depth: nat, n: nat, root: Value, nodes: set<Value>, schema: Value, v: Value,
                                         path: Path)
    requires GroundedNodes(n, root, nodes)
    requires var properties := Entries(Get(schema, "properties"));
      forall i :: 0 <= i < |properties| ==> properties[i].value in nodes
    requires var additional := Get(schema, "additionalProperties");
      additional.Some? && IsObjectLike(additional.value) ==> additional.value in nodes
    requires Height(v) > 0 ==> depth >= 1 + Budget(n, Height(v) - 1)
    ensures ValidateObject(depth, root, schema, v, path).Some?
    decreases Height(v), 0, 1
  {
    hide ValidateProperties, ValidateAdditional, GroundedNodes, PropertyOutcome, MemberOutcome;
    if v.Obj? {
      var properties := Entries(Get(schema, "properties"));
      var additional := Get(schema, "additionalProperties");
      PropertiesOutcome(depth, root, properties, v.fields, path);
      AdditionalOutcome(depth, root, additional, properties, v.fields, path);
      forall i | 0 <= i < |properties| ensures PropertyOutcome(depth, root, properties[i], v.fields, path).Some? {
        PropertyReturns(depth, n, root, nodes, properties[i], v, path);
      }
      forall i | 0 <= i < |v.fields|
        ensures MemberOutcome(depth, root, additional, properties, v.fields[i], path).Some?
      {
        MemberReturns(depth, n, root, nodes, additional, properties, v, path, i);
      }
    }
  }

  lemma {:induction false} PropertyReturns(depth: nat, n: nat, root: Value, nodes: set<Value>, property: Field<real>,
                                           v: Value, path: Path)
    requires GroundedNodes(n, root, nodes) && property.value in nodes && v.Obj?
    requires depth >= 1 + Budget(n, Height(v) - 1)
    ensures PropertyOutcome(depth, root, property, v.fields, path).Some?
    decreases Height(v), 0, 0, 1
  {
    hide Validate, GroundedNodes;
    var own := Lookup(v.fields, property.key);
    if own.Some? {
      FieldHeight(v.fields, property.key);
      ChildReturns(depth - 1, n, root, nodes, property.value, v, own.value, path + [Key(property.key)]);
    }
  }

  lemma {:induction false} MemberReturns(depth: nat, n: nat, root: Value, nodes: set<Value>, additional: Option<Value>,
                                         properties: seq<Field<real>>, v: Value, path: Path, i: nat)
    requires GroundedNodes(n, root, nodes) && v.Obj? && i < |v.fields|
    requires additional.Some? && IsObjectLike(additional.value) ==> additional.value in nodes
    requires depth >= 1 + Budget(n, Height(v) - 1)
    ensures MemberOutcome(depth, root, additional, properties, v.fields[i], path).Some?
    decreases Height(v), 0, 0, 1
  {
    hide Validate, GroundedNodes;
    if additional.Some? && IsObjectLike(additional.value) {
      ChildReturns(depth - 1, n, root, nodes, additional.value, v, v.fields[i].value, path + [Key(v.fields[i].key)]);
    }
  }

  lemma FieldHeight(fields: seq<Field<real>>, key: string)
    requires HasKey(fields, key)
    ensures Height(Lookup(fields, key).value) <= FieldsHeight(fields)
  {
    var i :| 0 <= i < |fields| && fields[i] == Field(key, Lookup(fields, key).value);
  }

  /** The depth bound, in one formula: linear in the height of the value. */
  lemma ReturnsWithinBudget(n: nat, root: Value, nodes: set<Value>, schema: Value, v: Value, path: Path)
    requires GroundedNodes(n, root, nodes) && schema in nodes
    ensures Returns(Budget(n, Height(v)), root, schema, v, path)
  {
    hide Validate;
    BudgetMonotone(n, Height(v), Height(v));
    GroundedReturns(Budget(n, Height(v)), n, n, root, nodes, schema, v, path);
  }

  lemma {:induction false} BudgetIs(n: nat, h: nat)
    ensures Budget(n, h) == (n + 3) * (h + 1)
  {
    if h > 0 {
      BudgetIs(n, h - 1);
    }
  }

  // ----- both directions -----

  ghost predicate ReturnsEventually(root: Value, schema: Value, v: Value) {
    exists depth: nat :: Returns(depth, root, schema, v, [])
  }

  ghost predicate AlwaysReturns(root: Value, nodes: set<Value>) {
    forall s, v :: s in nodes ==> ReturnsEventually(root, s, v)
  }

  lemma GroundedLink(n: nat, root: Value, s: Value, t: Value)
    requires Grounded(n, root, s) && Link(root, s, t)
    ensures n > 0 && Grounded(n - 1, root, t)
  {
    hide ValidatorShape, Target, Grounded;
    GroundedUnfolds(n, root, s);
  }

  /** No node of a cycle is grounded, whatever the bound. */
  lemma {:induction false} CycleNotGrounded(n: nat, root: Value, c: seq<Value>, i: nat)
    requires Cycle(root, c) && i < |c|
    ensures !Grounded(n, root, c[i])
    decreases n
  {
    hide Grounded, Link;
    if Grounded(n, root, c[i]) {
      var k := if i == |c| - 1 then 0 else i;
      assert c[k] == c[i] && Link(root, c[k], c[k + 1]);
      GroundedLink(n, root, c[k], c[k + 1]);
      CycleNotGrounded(n - 1, root, c, k + 1);
    }
  }

  /** On a cycle no depth is enough: the source recurs for ever, on every value. */
  lemma CycleNeverReturns(depth: nat, root: Value, c: seq<Value>, i: nat, v: Value, path: Path)
    requires Cycle(root, c) && i < |c|
    ensures Validate(depth, root, c[i], v, path).None?
  {
    hide Validate, Grounded, Cycle;
    if Returns(depth, root, c[i], v, path) {
      ReturnsGrounded(depth, root, c[i], v, path);
      CycleNotGrounded(depth, root, c, i);
    }
  }

  /** A node that is not grounded within `n` steps starts a chain of more than `n` nodes. */
  lemma {:induction false} UngroundedChain(n: nat, root: Value, s: Value) returns (c: seq<Value>)
    requires !Grounded(n, root, s)
    ensures |c| == n + 1 && c[0] == s && Chain(root, c)
    decreases n
  {
    hide ValidatorShape, Target, Grounded;
    if n == 0 {
      c := [s];
    } else {
      GroundedUnfolds(n, root, s);
      var shape := ValidatorShape(s);
      var t: Value;
      if shape.Reference? {
        t := Target(root, shape.ref).value;
      } else {
        var i :| 0 <= i < |shape.variants| && !Grounded(n - 1, root, shape.variants[i]);
        t := shape.variants[i];
      }
      assert Link(root, s, t);
      var rest := UngroundedChain(n - 1, root, t);
      c := [s] + rest;
    }
  }

  /** Without unguarded cycles chains are no longer than there are nodes: a bound that can be computed before a call. */
  lemma AcyclicGrounded(root: Value, nodes: set<Value>)
    requires Closed(root, nodes) && !UnguardedCycle(root, nodes)
    ensures GroundedNodes(|nodes|, root, nodes)
  {
    hide Grounded, Closed, Chain;
    forall s | s in nodes ensures Grounded(|nodes|, root, s) {
      if !Grounded(|nodes|, root, s) {
        var c := UngroundedChain(|nodes|, root, s);
        LongChainCycles(root, nodes, c);
      }
    }
  }

  /** Validation returns on every value exactly when no unguarded cycle runs through the nodes. */
  lemma ReturnsIffAcyclic(root: Value, nodes: set<Value>)
    requires Closed(root, nodes)
    ensures AlwaysReturns(root, nodes) <==> !UnguardedCycle(root, nodes)
    ensures AlwaysReturns(root, nodes) <==> GroundedNodes(|nodes|, root, nodes)
  {
    hide Validate, Grounded, Closed, Chain;
    if UnguardedCycle(root, nodes) {
      var c :| Cycle(root, c) && c[0] in nodes;
      CycleNotGrounded(|nodes|, root, c, 0);
      if AlwaysReturns(root, nodes) {
        assert ReturnsEventually(root, c[0], Null);
        var depth: nat :| Returns(depth, root, c[0], Null, []);
        CycleNeverReturns(depth, root, c, 0, Null, []);
      }
    } else {
      AcyclicGrounded(root, nodes);
      forall s, v | s in nodes ensures ReturnsEventually(root, s, v) {
        ReturnsWithinBudget(|nodes|, root, nodes, s, v, []);
      }
    }
  }

  /** Nodes grounded within any bound have no unguarded cycle. */
  lemma GroundedAcyclic(n: nat, root: Value, nodes: set<Value>)
    requires GroundedNodes(n, root, nodes)
    ensures !UnguardedCycle(root, nodes)
  {
    hide Grounded, Closed, Chain;
    if c :| Cycle(root, c) && c[0] in nodes {
      CycleNotGrounded(n, root, c, 0);
    }
  }

  lemma FewerNodes(root: Value, nodes: set<Value>, fewer: set<Value>)
    requires !UnguardedCycle(root, nodes) && fewer <= nodes
    ensures !UnguardedCycle(root, fewer)
  {
    hide Chain;
  }
}
