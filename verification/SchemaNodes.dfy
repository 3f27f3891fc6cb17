/**
 The schema nodes of a document and the steps between them: what the two readers can visit.
 */
module SchemaNodes {
  import opened Prelude
  import opened Json
  import opened SchemaDocument

  /** The nodes a reader may visit from one node. */
  ghost predicate ClosedAt(root: Value, nodes: set<Value>, schema: Value) {
    match ValidatorShape(schema)
    case Reference(ref) => Target(root, ref).Some? ==> Target(root, ref).value in nodes
    case Combine(_, variants) => forall i :: 0 <= i < |variants| ==> variants[i] in nodes
    case Plain =>
      var properties := Entries(Get(schema, "properties"));
      var additional := Get(schema, "additionalProperties");
      var items := Get(schema, "items");
      && (forall i :: 0 <= i < |properties| ==> properties[i].value in nodes)
      && (additional.Some? && IsObjectLike(additional.value) ==> additional.value in nodes)
      && (Truthy(items) ==> items.value in nodes)
    case _ => true
  }

  ghost predicate Closed(root: Value, nodes: set<Value>) {
    forall s :: s in nodes ==> ClosedAt(root, nodes, s)
  }

  /** All parts of a document; among them everything the readers can visit. */
  ghost function Parts(v: Value): set<Value> {
    {v} + match v
      case Arr(items) => (set i, x | 0 <= i < |items| && x in Parts(items[i]) :: x)
      case Obj(fields) => (set i, x | 0 <= i < |fields| && x in Parts(fields[i].value) :: x)
      case _ => {}
  }

  lemma {:induction false} PartsTransitive(v: Value, w: Value)
    requires w in Parts(v)
    ensures Parts(w) <= Parts(v)
  {
    if w != v {
      match v
      case Arr(items) =>
        var i :| 0 <= i < |items| && w in Parts(items[i]);
        PartsTransitive(items[i], w);
        assert Parts(items[i]) <= Parts(v);
      case Obj(fields) =>
        var i :| 0 <= i < |fields| && w in Parts(fields[i].value);
        PartsTransitive(fields[i].value, w);
        assert Parts(fields[i].value) <= Parts(v);
      case _ =>
    }
  }

  lemma PartsOfItem(v: Value, i: nat)
    requires v.Arr? && i < |v.items|
    ensures v.items[i] in Parts(v)
  {
    assert v.items[i] in Parts(v.items[i]);
  }

  lemma PartsOfField(v: Value, i: nat)
    requires v.Obj? && i < |v.fields|
    ensures v.fields[i].value in Parts(v)
  {
    assert v.fields[i].value in Parts(v.fields[i].value);
  }

  lemma PartsOfGet(root: Value, schema: Value, key: string)
    requires schema in Parts(root) && Get(schema, key).Some?
    ensures Get(schema, key).value in Parts(root)
  {
    PartsTransitive(root, schema);
    var i :| 0 <= i < |schema.fields| && schema.fields[i] == Field(key, Get(schema, key).value);
    PartsOfField(schema, i);
  }

  lemma {:induction false} PartsOfWalk(root: Value, current: Value, parts: seq<string>)
    requires current in Parts(root) && Walk(current, parts).Some?
    ensures Walk(current, parts).value in Parts(root)
  {
    if parts != [] {
      PartsOfGet(root, current, parts[0]);
      PartsOfWalk(root, Get(current, parts[0]).value, parts[1..]);
    }
  }

  /** A closed set of nodes always exists. */
  lemma PartsClosed(root: Value)
    ensures root in Parts(root) && Closed(root, Parts(root))
  {
    forall s | s in Parts(root) ensures ClosedAt(root, Parts(root), s) {
      PartsClosedAt(root, s);
    }
  }

  lemma PartsClosedAt(root: Value, s: Value)
    requires s in Parts(root)
    ensures ClosedAt(root, Parts(root), s)
  {
    hide ValidatorShape;
    assert root in Parts(root) by { RootIsPart(root); }
    var shape := ValidatorShape(s);
    if shape.Reference? && Target(root, shape.ref).Some? {
      PartsOfWalk(root, root, PointerParts(shape.ref).value);
    } else if shape.Combine? {
      assert shape == CombinatorShape(s) && Get(s, shape.how.Keyword()) == Some(Arr(shape.variants));
      PartsOfElements(root, s, shape.how.Keyword());
      assert Elements(Get(s, shape.how.Keyword())) == shape.variants;
    } else if shape.Plain? {
      if Get(s, "properties").Some? { PartsOfEntries(root, s, "properties"); }
      if Get(s, "additionalProperties").Some? { PartsOfGet(root, s, "additionalProperties"); }
      if Get(s, "items").Some? { PartsOfGet(root, s, "items"); }
    }
  }

  lemma RootIsPart(root: Value)
    ensures root in Parts(root)
  {
  }

  lemma PartsOfElements(root: Value, s: Value, key: string)
    requires s in Parts(root)
    ensures var items := Elements(Get(s, key)); forall i :: 0 <= i < |items| ==> items[i] in Parts(root)
  {
    hide Parts;
    var items := Elements(Get(s, key));
    forall i | 0 <= i < |items| ensures items[i] in Parts(root) {
      PartsOfGet(root, s, key);
      PartsOfItem(Get(s, key).value, i);
      PartsTransitive(root, Get(s, key).value);
    }
  }

  lemma PartsOfEntries(root: Value, s: Value, key: string)
    requires s in Parts(root)
    ensures var fields := Entries(Get(s, key)); forall i :: 0 <= i < |fields| ==> fields[i].value in Parts(root)
  {
    hide Parts;
    var fields := Entries(Get(s, key));
    forall i | 0 <= i < |fields| ensures fields[i].value in Parts(root) {
      PartsOfGet(root, s, key);
      PartsOfField(Get(s, key).value, i);
      PartsTransitive(root, Get(s, key).value);
    }
  }

  lemma ChainClosed(root: Value, nodes: set<Value>, schema: Value)
    requires Closed(root, nodes) && schema in nodes
    ensures var shape := ValidatorShape(schema);
      && (shape.Reference? && Target(root, shape.ref).Some? ==> Target(root, shape.ref).value in nodes)
      && (shape.Combine? ==>
            forall i :: 0 <= i < |shape.variants| ==> shape.variants[i] in nodes)
  {
    hide ValidatorShape;
    assert ClosedAt(root, nodes, schema);
  }

  lemma PlainParts(root: Value, nodes: set<Value>, schema: Value)
    requires ClosedAt(root, nodes, schema) && ValidatorShape(schema).Plain?
    ensures var properties := Entries(Get(schema, "properties"));
      forall i :: 0 <= i < |properties| ==> properties[i].value in nodes
    ensures var additional := Get(schema, "additionalProperties");
      additional.Some? && IsObjectLike(additional.value) ==> additional.value in nodes
    ensures Truthy(Get(schema, "items")) ==> Get(schema, "items").value in nodes
  {
    hide ValidatorShape;
  }

  lemma PlainClosed(root: Value, nodes: set<Value>, schema: Value)
    requires Closed(root, nodes) && schema in nodes && ValidatorShape(schema).Plain?
    ensures var properties := Entries(Get(schema, "properties"));
      forall i :: 0 <= i < |properties| ==> properties[i].value in nodes
    ensures var additional := Get(schema, "additionalProperties");
      additional.Some? && IsObjectLike(additional.value) ==> additional.value in nodes
    ensures Truthy(Get(schema, "items")) ==> Get(schema, "items").value in nodes
  {
    hide ValidatorShape, ClosedAt;
    assert ClosedAt(root, nodes, schema);
    PlainParts(root, nodes, schema);
  }

  // ----- the nodes that are reached -----

  /** One step of a reader: to the target of a reference, a variant, a property, an item or a member schema. */
  ghost predicate Visits(root: Value, s: Value, t: Value) {
    match ValidatorShape(s)
    case Reference(ref) => Target(root, ref) == Some(t)
    case Combine(_, variants) => t in variants
    case Plain =>
      var additional, items := Get(s, "additionalProperties"), Get(s, "items");
      || (exists i :: 0 <= i < |Entries(Get(s, "properties"))| && Entries(Get(s, "properties"))[i].value == t)
      || (additional == Some(t) && IsObjectLike(t))
      || (items == Some(t) && Truthy(items))
    case _ => false
  }

  lemma ClosedAtIff(root: Value, nodes: set<Value>, s: Value)
    ensures ClosedAt(root, nodes, s) <==> forall t :: Visits(root, s, t) ==> t in nodes
  {
    hide ValidatorShape, Target, Get, Truthy;
    var shape := ValidatorShape(s);
    if forall t :: Visits(root, s, t) ==> t in nodes {
      if shape.Reference? && Target(root, shape.ref).Some? {
        assert Visits(root, s, Target(root, shape.ref).value);
      } else if shape.Combine? {
        forall i | 0 <= i < |shape.variants| ensures shape.variants[i] in nodes {
          assert Visits(root, s, shape.variants[i]);
        }
      } else if shape.Plain? {
        PlainVisitsIn(root, nodes, s);
      }
    }
  }

  lemma PlainVisitsIn(root: Value, nodes: set<Value>, s: Value)
    requires ValidatorShape(s).Plain? && forall t :: Visits(root, s, t) ==> t in nodes
    ensures ClosedAt(root, nodes, s)
  {
    hide ValidatorShape, Target, Get, Truthy;
    var properties := Entries(Get(s, "properties"));
    forall i | 0 <= i < |properties| ensures properties[i].value in nodes {
      assert Visits(root, s, properties[i].value);
    }
    var additional, items := Get(s, "additionalProperties"), Get(s, "items");
    if additional.Some? && IsObjectLike(additional.value) {
      assert Visits(root, s, additional.value);
    }
    if items.Some? && Truthy(items) {
      assert Visits(root, s, items.value);
    }
    assert Truthy(items) ==> items.Some? by { TruthyIsSome(items); }
  }

  lemma TruthyIsSome(v: Option<Value>)
    ensures Truthy(v) ==> v.Some?
  {
  }

  ghost predicate Route(root: Value, c: seq<Value>) {
    c != [] && c[0] == root && forall i :: 0 <= i < |c| - 1 ==> Visits(root, c[i], c[i + 1])
  }

  ghost predicate Reaches(root: Value, s: Value) {
    exists c :: Route(root, c) && Last(c) == s
  }

  /** The nodes the readers can come to from the root of a document. */
  ghost function Reachable(root: Value): set<Value> {
    set s | s in Parts(root) && Reaches(root, s)
  }

  lemma ReachesOn(root: Value, s: Value, t: Value)
    requires Reaches(root, s) && Visits(root, s, t)
    ensures Reaches(root, t)
  {
    hide Visits;
    var c :| Route(root, c) && Last(c) == s;
    var d := c + [t];
    assert forall i :: 0 <= i < |c| ==> d[i] == c[i];
    assert Route(root, d) && Last(d) == t;
  }

  /** The reachable nodes are closed and hold the root. */
  lemma ReachableClosed(root: Value)
    ensures Closed(root, Reachable(root)) && root in Reachable(root)
  {
    hide Parts, ClosedAt, Visits;
    PartsClosed(root);
    assert Route(root, [root]) && Last([root]) == root;
    forall s | s in Reachable(root) ensures ClosedAt(root, Reachable(root), s) {
      ClosedAtIff(root, Parts(root), s);
      forall t | Visits(root, s, t) ensures t in Reachable(root) { ReachesOn(root, s, t); }
      ClosedAtIff(root, Reachable(root), s);
    }
  }

  lemma {:induction false} RouteStays(root: Value, nodes: set<Value>, c: seq<Value>)
    requires Closed(root, nodes) && root in nodes && Route(root, c)
    ensures Last(c) in nodes
    decreases |c|
  {
    hide Visits, ClosedAt;
    if |c| > 1 {
      var init := c[..|c| - 1];
      RouteStays(root, nodes, init);
      assert Visits(root, c[|c| - 2], c[|c| - 2 + 1]);
      ClosedAtIff(root, nodes, Last(init));
    }
  }

  /** They are the least such set, so a condition on them asks as little as possible. */
  lemma ReachableLeast(root: Value, nodes: set<Value>)
    requires Closed(root, nodes) && root in nodes
    ensures Reachable(root) <= nodes
  {
    hide Closed, Parts, Visits;
    forall s | s in Reachable(root) ensures s in nodes {
      var c :| Route(root, c) && Last(c) == s;
      RouteStays(root, nodes, c);
    }
  }

  // ----- cycles that consume nothing of the value -----

  /** A step that stays at the same value: a reference or a combinator. */
  ghost predicate Link(root: Value, s: Value, t: Value) {
    match ValidatorShape(s)
    case Reference(ref) => Target(root, ref) == Some(t)
    case Combine(_, variants) => t in variants
    case _ => false
  }

  ghost predicate Chain(root: Value, c: seq<Value>) {
    forall i :: 0 <= i < |c| - 1 ==> Link(root, c[i], c[i + 1])
  }

  ghost predicate Cycle(root: Value, c: seq<Value>) {
    |c| >= 2 && c[0] == Last(c) && Chain(root, c)
  }

  /** Some cycle of references and combinators passes through no `properties`, `items` or `additionalProperties`. */
  ghost predicate UnguardedCycle(root: Value, nodes: set<Value>) {
    exists c :: Cycle(root, c) && c[0] in nodes
  }

  lemma {:induction false} ChainStays(root: Value, nodes: set<Value>, c: seq<Value>, i: nat)
    requires Closed(root, nodes) && Chain(root, c) && i < |c| && c[0] in nodes
    ensures c[i] in nodes
  {
    hide ValidatorShape, Target;
    if i > 0 {
      ChainStays(root, nodes, c, i - 1);
      assert Link(root, c[i - 1], c[i - 1 + 1]);
      ChainClosed(root, nodes, c[i - 1]);
    }
  }

  lemma {:induction false} DistinctFits(c: seq<Value>, nodes: set<Value>)
    requires Distinct(c) && forall i :: 0 <= i < |c| ==> c[i] in nodes
    ensures |c| <= |nodes|
  {
    if c != [] {
      var init := c[..|c| - 1];
      DistinctFits(init, nodes - {Last(c)});
    }
  }

  /** A chain longer than the number of nodes comes back to a node it has passed. */
  lemma LongChainCycles(root: Value, nodes: set<Value>, c: seq<Value>)
    requires Closed(root, nodes) && Chain(root, c) && c != [] && c[0] in nodes && |c| > |nodes|
    ensures UnguardedCycle(root, nodes)
  {
    hide Link, Closed;
    forall i | 0 <= i < |c| ensures c[i] in nodes { ChainStays(root, nodes, c, i); }
    if Distinct(c) {
      DistinctFits(c, nodes);
    }
    var i, j :| 0 <= i < j < |c| && c[i] == c[j];
    var d := c[i..j + 1];
    forall k | 0 <= k < |d| - 1 ensures Link(root, d[k], d[k + 1]) {
      assert d[k] == c[i + k] && d[k + 1] == c[i + k + 1];
    }
    assert Cycle(root, d);
  }
}
