/**
 What the generated type text means, keyword by keyword: exactly the values it holds, for every schema.

 The flat text of an intersection is read clause by clause.  Where the parts have one clause each it is their
 intersection; else the clauses next to an ampersand are all it joins.
 */
module TypeMeaning {
  import opened Prelude
  import opened Json
  import opened SchemaDocument
  import opened TypeText
  import opened TypeRenderer
  import opened SchemaSoundness

  ghost predicate InScope(root: Value, schema: Value, all: set<string>) {
    Strings(root) <= all && Strings(schema) <= all
  }

  // ----- clauses of a flat text -----

  /** The text cut at its top-level bars. */
  function Clauses(text: TypeExpr): (r: seq<TypeExpr>)
    ensures |r| >= 1
  {
    if text == [] then [[]] else Prepend(text[0], Clauses(text[1..]))
  }

  /** One more token in front: a bar opens a clause, any other joins the first. */
  function Prepend(t: Token, clauses: seq<TypeExpr>): (r: seq<TypeExpr>)
    requires |clauses| >= 1
    ensures |r| >= 1
  {
    if t == Bar then [[]] + clauses else [[t] + clauses[0]] + clauses[1..]
  }

  /** Every operand of the clause holds. */
  predicate Operands(clause: TypeExpr, v: Value) {
    forall i :: 0 <= i < |clause| ==> clause[i] == Amp || InToken(clause[i], v)
  }

  ghost predicate SomeClause(clauses: seq<TypeExpr>, v: Value) {
    exists i :: 0 <= i < |clauses| && Operands(clauses[i], v)
  }

  lemma OperandsMore(t: Token, clause: TypeExpr, v: Value)
    ensures Operands([t] + clause, v) <==> (t == Amp || InToken(t, v)) && Operands(clause, v)
  {
    hide InToken;
    var more := [t] + clause;
    assert more[0] == t && forall i :: 0 <= i < |clause| ==> more[i + 1] == clause[i];
    if Operands(more, v) {
      forall i | 0 <= i < |clause| ensures clause[i] == Amp || InToken(clause[i], v) {
        assert more[i + 1] == clause[i];
      }
    }
  }

  lemma SomeMore(clause: TypeExpr, rest: seq<TypeExpr>, v: Value)
    ensures SomeClause([clause] + rest, v) <==> Operands(clause, v) || SomeClause(rest, v)
  {
    hide Operands;
    var more := [clause] + rest;
    assert more[0] == clause && forall i :: 0 <= i < |rest| ==> more[i + 1] == rest[i];
    if i :| 0 <= i < |rest| && Operands(rest[i], v) {
      assert Operands(more[i + 1], v);
    }
    if i :| 0 <= i < |more| && Operands(more[i], v) {
      assert i == 0 || more[i] == rest[i - 1];
    }
  }

  /** A text holds what all operands of one of its clauses hold. */
  lemma {:induction false} ReadClauses(text: TypeExpr, v: Value, clause: bool)
    ensures InUnion(text, v, clause) <==>
      (clause && Operands(Clauses(text)[0], v)) || SomeClause(Clauses(text)[1..], v)
  {
    hide InToken, Operands, SomeClause;
    if text == [] {
      EmptyClause(v);
      assert |Clauses(text)| == 1 && Clauses(text)[1..] == [];
    } else {
      var rest := Clauses(text[1..]);
      assert rest == [rest[0]] + rest[1..];
      SomeMore(rest[0], rest[1..], v);
      if text[0] == Bar {
        ReadClauses(text[1..], v, true);
        EmptyClause(v);
        assert Clauses(text)[1..] == rest;
      } else {
        OperandsMore(text[0], rest[0], v);
        assert Clauses(text)[1..] == rest[1..];
        ReadClauses(text[1..], v, clause && (text[0] == Amp || InToken(text[0], v)));
      }
    }
  }

  lemma EmptyClause(v: Value)
    ensures Operands([], v) && !SomeClause([], v)
  {
  }

  lemma InhabitsClauses(text: TypeExpr, v: Value)
    ensures Inhabits(v, text) <==> SomeClause(Clauses(text), v)
  {
    hide InUnion, Operands, SomeClause;
    var clauses := Clauses(text);
    assert clauses == [clauses[0]] + clauses[1..];
    ReadClauses(text, v, true);
    SomeMore(clauses[0], clauses[1..], v);
  }

  /** The last clause on the left and the first on the right become one. */
  function Glue(cx: seq<TypeExpr>, cy: seq<TypeExpr>): (r: seq<TypeExpr>)
    requires |cx| >= 1 && |cy| >= 1
    ensures |r| >= 1
  {
    cx[..|cx| - 1] + [Last(cx) + [Amp] + cy[0]] + cy[1..]
  }

  lemma PrependGlue(t: Token, cx: seq<TypeExpr>, cy: seq<TypeExpr>)
    requires |cx| >= 1 && |cy| >= 1
    ensures Prepend(t, Glue(cx, cy)) == Glue(Prepend(t, cx), cy)
  {
    hide Prepend, Glue;
    if t == Bar {
      BarGlue(cx, cy);
    } else if |cx| == 1 {
      ShortGlue(t, cx, cy);
    } else {
      LongGlue(t, cx, cy);
    }
  }

  lemma BarGlue(cx: seq<TypeExpr>, cy: seq<TypeExpr>)
    requires |cx| >= 1 && |cy| >= 1
    ensures Prepend(Bar, Glue(cx, cy)) == Glue(Prepend(Bar, cx), cy)
  {
    assert ([[]] + cx)[..|cx|] == [[]] + cx[..|cx| - 1];
  }

  lemma ShortGlue(t: Token, cx: seq<TypeExpr>, cy: seq<TypeExpr>)
    requires t != Bar && |cx| == 1 && |cy| >= 1
    ensures Prepend(t, Glue(cx, cy)) == Glue(Prepend(t, cx), cy)
  {
    var joined := cx[0] + [Amp] + cy[0];
    assert Glue(cx, cy) == [joined] + cy[1..];
    assert [t] + joined == [t] + cx[0] + [Amp] + cy[0];
    assert Prepend(t, cx) == [[t] + cx[0]];
  }

  lemma LongGlue(t: Token, cx: seq<TypeExpr>, cy: seq<TypeExpr>)
    requires t != Bar && |cx| > 1 && |cy| >= 1
    ensures Prepend(t, Glue(cx, cy)) == Glue(Prepend(t, cx), cy)
  {
    var joined := Last(cx) + [Amp] + cy[0];
    assert Glue(cx, cy)[0] == cx[0] && Glue(cx, cy)[1..] == cx[1..|cx| - 1] + [joined] + cy[1..];
    assert Prepend(t, cx)[..|cx| - 1] == [[t] + cx[0]] + cx[1..|cx| - 1];
  }

  /** An ampersand joins the last clause before it and the first behind it. */
  lemma {:induction false} ClausesJoin(x: TypeExpr, y: TypeExpr)
    ensures Clauses(x + [Amp] + y) == Glue(Clauses(x), Clauses(y))
  {
    hide Prepend, Glue;
    var z := x + [Amp] + y;
    if x == [] {
      assert z == [Amp] + y && z[1..] == y;
      NothingGlued(Clauses(y));
    } else {
      assert z[0] == x[0] && z[1..] == x[1..] + [Amp] + y;
      ClausesJoin(x[1..], y);
      PrependGlue(x[0], Clauses(x[1..]), Clauses(y));
    }
  }

  lemma NothingGlued(cy: seq<TypeExpr>)
    requires |cy| >= 1
    ensures Prepend(Amp, cy) == Glue([[]], cy)
  {
    assert [] + [Amp] + cy[0] == [Amp] + cy[0];
  }

  /** The flat reading of two texts with an ampersand between them. */
  ghost predicate Glued(x: TypeExpr, y: TypeExpr, v: Value) {
    var cx, cy := Clauses(x), Clauses(y);
    || SomeClause(cx[..|cx| - 1], v)
    || (Operands(Last(cx), v) && Operands(cy[0], v))
    || SomeClause(cy[1..], v)
  }

  lemma SomeConcat(a: seq<TypeExpr>, b: seq<TypeExpr>, v: Value)
    ensures SomeClause(a + b, v) <==> SomeClause(a, v) || SomeClause(b, v)
  {
    hide Operands;
    assert forall i :: 0 <= i < |a| ==> (a + b)[i] == a[i];
    assert forall i :: 0 <= i < |b| ==> (a + b)[|a| + i] == b[i];
    if i :| 0 <= i < |b| && Operands(b[i], v) {
      assert Operands((a + b)[|a| + i], v);
    }
    if i :| 0 <= i < |a| && Operands(a[i], v) {
      assert Operands((a + b)[i], v);
    }
    if i :| 0 <= i < |a + b| && Operands((a + b)[i], v) {
      assert i >= |a| ==> (a + b)[i] == b[i - |a|];
    }
  }

  lemma OperandsGlued(a: TypeExpr, b: TypeExpr, v: Value)
    ensures Operands(a + [Amp] + b, v) <==> Operands(a, v) && Operands(b, v)
  {
    hide InToken;
    var c := a + [Amp] + b;
    assert forall i :: 0 <= i < |a| ==> c[i] == a[i];
    assert forall i :: 0 <= i < |b| ==> c[|a| + 1 + i] == b[i];
    assert c[|a|] == Amp;
    if Operands(c, v) {
      forall i | 0 <= i < |b| ensures b[i] == Amp || InToken(b[i], v) { assert c[|a| + 1 + i] == b[i]; }
    }
    if Operands(a, v) && Operands(b, v) {
      forall i | 0 <= i < |c| ensures c[i] == Amp || InToken(c[i], v) {
        if i > |a| { assert c[i] == b[i - |a| - 1]; }
      }
    }
  }

  lemma AmpReads(x: TypeExpr, y: TypeExpr, v: Value)
    ensures Inhabits(v, x + [Amp] + y) <==> Glued(x, y, v)
  {
    hide InUnion, Inhabits, Operands, SomeClause, Clauses;
    var cx, cy := Clauses(x), Clauses(y);
    ClausesJoin(x, y);
    assert Glue(cx, cy) == cx[..|cx| - 1] + [Last(cx) + [Amp] + cy[0]] + cy[1..];
    InhabitsClauses(x + [Amp] + y, v);
    var joined := [Last(cx) + [Amp] + cy[0]];
    SomeConcat(cx[..|cx| - 1] + joined, cy[1..], v);
    SomeConcat(cx[..|cx| - 1], joined, v);
    SomeMore(joined[0], [], v);
    EmptyClause(v);
    assert joined == joined + [];
    OperandsGlued(Last(cx), cy[0], v);
  }

  lemma {:induction false} OneClauseOnly(text: TypeExpr)
    requires Bar !in text
    ensures Clauses(text) == [text]
  {
    if text != [] {
      OneClauseOnly(text[1..]);
      assert [text[0]] + text[1..] == text;
    }
  }

  /** Texts without a top-level bar are joined to their intersection, and only those in general. */
  lemma {:induction false} JoinAmpIsIntersection(texts: seq<TypeExpr>, v: Value)
    requires texts != [] && forall i :: 0 <= i < |texts| ==> Bar !in texts[i]
    ensures Bar !in Join(texts, Amp)
    ensures Inhabits(v, Join(texts, Amp)) <==> forall i :: 0 <= i < |texts| ==> Inhabits(v, texts[i])
  {
    hide InUnion, Inhabits;
    if |texts| > 1 {
      var rest := Join(texts[1..], Amp);
      assert forall i :: 0 <= i < |texts| - 1 ==> texts[1..][i] == texts[i + 1];
      assert forall i :: 0 < i < |texts| ==> texts[i] == texts[1..][i - 1];
      JoinAmpIsIntersection(texts[1..], v);
      AmpReads(texts[0], rest, v);
      SingleGlued(texts[0], rest, v);
      SingleReads(texts[0], v);
      SingleReads(rest, v);
    }
  }

  lemma SingleGlued(x: TypeExpr, y: TypeExpr, v: Value)
    requires Bar !in x && Bar !in y
    ensures Glued(x, y, v) <==> Operands(x, v) && Operands(y, v)
  {
    hide Operands, Clauses;
    OneClauseOnly(x);
    OneClauseOnly(y);
    assert [x][..0] == [] && [y][1..] == [];
  }

  lemma SingleReads(text: TypeExpr, v: Value)
    requires Bar !in text
    ensures Inhabits(v, text) <==> Operands(text, v)
  {
    hide Operands, Clauses, InUnion, Inhabits;
    OneClauseOnly(text);
    InhabitsClauses(text, v);
    assert [text][0] == text;
  }

  // ----- the meaning of each keyword -----

  /** A value in a generated union lies in one of its parts. */
  lemma UnionPart(texts: seq<TypeExpr>, fallback: Token, v: Value) returns (i: nat)
    requires texts != [] && [] !in texts && Inhabits(v, OrElse(Join(Unique(texts), Bar), fallback))
    ensures i < |texts| && Inhabits(v, texts[i])
  {
    var parts := Unique(texts);
    assert texts[0] in parts;
    assert [] !in parts;
    JoinNonEmpty(parts, Bar);
    JoinBarIsUnion(parts, v);
    var k :| 0 <= k < |parts| && Inhabits(v, parts[k]);
    assert parts[k] in texts;
    i :| 0 <= i < |texts| && texts[i] == parts[k];
  }

  /** A generated union holds what one of its parts holds. */
  lemma UnionIff(texts: seq<TypeExpr>, fallback: Token, v: Value)
    requires texts != [] && [] !in texts
    ensures Inhabits(v, OrElse(Join(Unique(texts), Bar), fallback)) <==>
      exists i :: 0 <= i < |texts| && Inhabits(v, texts[i])
  {
    hide InUnion;
    if Inhabits(v, OrElse(Join(Unique(texts), Bar), fallback)) {
      var i := UnionPart(texts, fallback, v);
    }
    if i :| 0 <= i < |texts| && Inhabits(v, texts[i]) {
      UnionReads(texts, fallback, v, i);
    }
  }

  lemma ConstMeans(root: Value, schema: Value, v: Value, seen: set<string>, all: set<string>)
    requires InScope(root, schema, all) && RendererShape(schema).ConstOf?
    ensures Inhabits(v, Render(root, schema, seen, all)) <==> InLiteral(RendererShape(schema).value, v)
  {
    hide RendererShape, InUnion, RenderByType, RenderEach, Inhabits;
    ReadsOne(Literal(RendererShape(schema).value), v);
  }

  lemma EnumMeans(root: Value, schema: Value, v: Value, seen: set<string>, all: set<string>)
    requires InScope(root, schema, all) && RendererShape(schema).EnumOf?
    ensures Inhabits(v, Render(root, schema, seen, all)) <==>
      exists i :: 0 <= i < |RendererShape(schema).items| && InLiteral(RendererShape(schema).items[i], v)
  {
    hide RendererShape, InUnion, RenderByType, RenderEach, Inhabits, Literals;
    var items := RendererShape(schema).items;
    var texts := Literals(items);
    forall i | 0 <= i < |items| ensures Inhabits(v, texts[i]) <==> InLiteral(items[i], v) {
      ReadsOne(Literal(items[i]), v);
    }
    assert [] !in texts;
    if items == [] {
      ReadsOne(Never, v);
      assert texts == [] && Unique(texts) == [];
    } else {
      hide Render;
      EnumText(root, schema, seen, all);
      UnionIff(texts, Never, v);
    }
  }

  lemma EnumText(root: Value, schema: Value, seen: set<string>, all: set<string>)
    requires InScope(root, schema, all) && RendererShape(schema).EnumOf?
    ensures Render(root, schema, seen, all) == OrElse(Join(Unique(Literals(RendererShape(schema).items)), Bar), Never)
  {
    hide RendererShape, RenderByType, RenderEach;
  }

  /** The variants of a combinator are in scope, and its text is joined from theirs. */
  lemma CombineText(root: Value, schema: Value, seen: set<string>, all: set<string>)
    requires InScope(root, schema, all) && RendererShape(schema).Combine?
    ensures var Combine(how, variants) := RendererShape(schema);
      && (forall i :: 0 <= i < |variants| ==> Strings(variants[i]) <= all)
      && Render(root, schema, seen, all)
           == OrElse(Join(Unique(RenderEach(root, variants, seen, all)), if how.AllOf? then Amp else Bar), Unknown)
  {
    hide RendererShape, CombinatorShape, RenderEach, Join;
    StringsOfVariants(schema);
  }

  /** `anyOf` and `oneOf`: the union; of no variants at all, every value. */
  lemma UnionMeans(root: Value, schema: Value, v: Value, seen: set<string>, all: set<string>)
    requires InScope(root, schema, all) && RendererShape(schema).Combine? && !RendererShape(schema).how.AllOf?
    ensures var variants := RendererShape(schema).variants;
      && (forall i :: 0 <= i < |variants| ==> Strings(variants[i]) <= all)
      && (Inhabits(v, Render(root, schema, seen, all)) <==>
            variants == [] || exists i :: 0 <= i < |variants| && Inhabits(v, Render(root, variants[i], seen, all)))
  {
    hide RendererShape, InUnion, Inhabits, Render, RenderEach, Join, OrElse, Unique, Strings;
    CombineText(root, schema, seen, all);
    var variants := RendererShape(schema).variants;
    var texts := RenderEach(root, variants, seen, all);
    if variants == [] {
      NothingJoined(texts, Bar, v);
    } else {
      UnionIff(texts, Unknown, v);
      forall i | 0 <= i < |variants| ensures texts[i] == Render(root, variants[i], seen, all) {
        RenderEachAt(root, variants, seen, all, i);
      }
    }
  }

  lemma NothingJoined(texts: seq<TypeExpr>, sep: Token, v: Value)
    requires texts == []
    ensures Inhabits(v, OrElse(Join(Unique(texts), sep), Unknown))
  {
    ReadsOne(Unknown, v);
  }

  lemma OneJoined(texts: seq<TypeExpr>, sep: Token)
    requires |texts| == 1 && texts[0] != []
    ensures OrElse(Join(Unique(texts), sep), Unknown) == texts[0]
  {
    assert texts[..0] == [] && Unique(texts) == [texts[0]];
  }

  /**
   `allOf`: with no variant every value, with one what it holds, and without top-level bars exactly what all hold.
   In general the text is read flat: its first part is glued to the rest clause by clause.
   */
  lemma AllOfMeans(root: Value, schema: Value, v: Value, seen: set<string>, all: set<string>)
    requires InScope(root, schema, all) && RendererShape(schema).Combine? && RendererShape(schema).how.AllOf?
    ensures var variants := RendererShape(schema).variants;
      && (forall i :: 0 <= i < |variants| ==> Strings(variants[i]) <= all)
      && (|variants| == 0 ==> Inhabits(v, Render(root, schema, seen, all)))
      && (|variants| == 1 ==> Render(root, schema, seen, all) == Render(root, variants[0], seen, all))
      && ((forall i :: 0 <= i < |variants| ==> Bar !in Render(root, variants[i], seen, all)) ==>
            (Inhabits(v, Render(root, schema, seen, all)) <==>
               forall i :: 0 <= i < |variants| ==> Inhabits(v, Render(root, variants[i], seen, all))))
    ensures var parts := Unique(RenderEach(root, RendererShape(schema).variants, seen, all));
      |parts| > 1 ==>
        (Inhabits(v, Render(root, schema, seen, all)) <==> Glued(parts[0], Join(parts[1..], Amp), v))
  {
    hide RendererShape, InUnion, Inhabits, Render, RenderEach, Strings, Glued;
    CombineText(root, schema, seen, all);
    var variants := RendererShape(schema).variants;
    var texts := RenderEach(root, variants, seen, all);
    forall i | 0 <= i < |variants| ensures texts[i] == Render(root, variants[i], seen, all) {
      RenderEachAt(root, variants, seen, all, i);
    }
    hide Unique, OrElse, Join;
    if variants == [] {
      NothingJoined(texts, Amp, v);
    } else {
      if |variants| == 1 { OneJoined(texts, Amp); }
      if forall i :: 0 <= i < |texts| ==> Bar !in texts[i] { IntersectionIff(texts, v); }
      FlatIff(texts, v);
    }
  }

  lemma IntersectionIff(texts: seq<TypeExpr>, v: Value)
    requires texts != [] && [] !in texts && forall i :: 0 <= i < |texts| ==> Bar !in texts[i]
    ensures Inhabits(v, OrElse(Join(Unique(texts), Amp), Unknown)) <==>
      forall i :: 0 <= i < |texts| ==> Inhabits(v, texts[i])
  {
    hide InUnion, Inhabits, Unique, Join;
    var parts := Unique(texts);
    assert texts[0] in parts;
    forall k | 0 <= k < |parts| ensures parts[k] in texts && Bar !in parts[k] { assert parts[k] in parts; }
    JoinNonEmpty(parts, Amp);
    JoinAmpIsIntersection(parts, v);
    if forall k :: 0 <= k < |parts| ==> Inhabits(v, parts[k]) {
      forall i | 0 <= i < |texts| ensures Inhabits(v, texts[i]) {
        assert texts[i] in parts;
        var k :| 0 <= k < |parts| && parts[k] == texts[i];
      }
    } else {
      var k :| 0 <= k < |parts| && !Inhabits(v, parts[k]);
      var i :| 0 <= i < |texts| && texts[i] == parts[k];
    }
  }

  lemma FlatIff(texts: seq<TypeExpr>, v: Value)
    requires texts != [] && [] !in texts
    ensures var parts := Unique(texts);
      |parts| > 1 ==>
        (Inhabits(v, OrElse(Join(parts, Amp), Unknown)) <==> Glued(parts[0], Join(parts[1..], Amp), v))
  {
    hide InUnion, Inhabits, Unique, Glued;
    var parts := Unique(texts);
    if |parts| > 1 {
      AmpReads(parts[0], Join(parts[1..], Amp), v);
    }
  }

  /** A list of types: the union; of none at all, every value. */
  lemma ListMeans(root: Value, schema: Value, types: seq<Value>, v: Value, seen: set<string>, all: set<string>)
    requires InScope(root, schema, all)
    ensures Inhabits(v, RenderByType(root, schema, Some(Arr(types)), seen, all)) <==>
      types == [] || exists i :: 0 <= i < |types| && Inhabits(v, RenderByType(root, schema, Some(types[i]), seen, all))
  {
    hide InUnion, Inhabits, RenderByType, RenderEachType, Join, OrElse, Unique, Strings;
    RenderTypeList(root, schema, types, seen, all);
    var texts := RenderEachType(root, schema, types, seen, all);
    if types == [] {
      NothingJoined(texts, Bar, v);
    } else {
      UnionIff(texts, Unknown, v);
      forall i | 0 <= i < |types| ensures texts[i] == RenderByType(root, schema, Some(types[i]), seen, all) {
        RenderEachTypeAt(root, schema, types, seen, all, i);
      }
    }
  }

  /** The words for values without parts. */
  lemma WordMeans(root: Value, schema: Value, word: string, v: Value, seen: set<string>, all: set<string>)
    requires InScope(root, schema, all)
    ensures var holds := Inhabits(v, RenderByType(root, schema, Some(Str(word)), seen, all));
      && (word == "null" ==> (holds <==> v.Null?))
      && (word == "string" ==> (holds <==> v.Str?))
      && (word == "boolean" ==> (holds <==> v.Bool?))
      && (word == "number" || word == "integer" ==> (holds <==> v.Num?))
  {
    hide InUnion, Inhabits, Strings, Get, RenderObject, Render;
    ReadsOne(NullType, v);
    ReadsOne(StringType, v);
    ReadsOne(BooleanType, v);
    ReadsOne(NumberType, v);
  }

  /** Any other type, and none, is the object type if `properties` or `required` is there, and else every value. */
  lemma OtherMeans(root: Value, schema: Value, ty: Option<Value>, v: Value, seen: set<string>, all: set<string>)
    requires InScope(root, schema, all) && !IsArray(ty) && (ty.None? || !KnownName(ty.value))
    ensures Inhabits(v, RenderByType(root, schema, ty, seen, all)) <==>
      (Truthy(Get(schema, "properties")) || Truthy(Get(schema, "required")) ==>
         Inhabits(v, RenderObject(root, schema, seen, all)))
  {
    hide InUnion, Inhabits, Strings, Get, RenderObject, Render;
    ReadsOne(Unknown, v);
  }

  lemma ArrayMeans(root: Value, schema: Value, v: Value, seen: set<string>, all: set<string>)
    requires InScope(root, schema, all)
    ensures var items := Get(schema, "items");
      && (items.Some? ==> Strings(items.value) <= all)
      && (Inhabits(v, RenderByType(root, schema, Some(Str("array")), seen, all)) <==>
            && v.Arr?
            && (items.Some? && !items.value.Null? ==>
                  forall i :: 0 <= i < |v.items| ==> Inhabits(v.items[i], Render(root, items.value, seen, all))))
  {
    hide InUnion, Strings, Get, RenderObject, Render;
    var items := Get(schema, "items");
    if items.Some? { StringsOfGet(schema, "items"); }
    ReadsOne(ArrayOf([Unknown]), v);
    forall w: Value ensures Inhabits(w, [Unknown]) { ReadsOne(Unknown, w); }
    if items.Some? && !items.value.Null? {
      ReadsOne(ArrayOf(Render(root, items.value, seen, all)), v);
    } else if v.Arr? {
      assert forall i :: 0 <= i < |v.items| ==> Inhabits(v.items[i], [Unknown]);
    }
  }

  /** What the object type says about one declared member. */
  ghost predicate DeclaredFits(root: Value, property: Field<real>, required: seq<Value>, fields: seq<Field<real>>,
                               seen: set<string>, all: set<string>)
    requires Strings(root) <= all && Strings(property.value) <= all
  {
    var own := Lookup(fields, property.key);
    if own.None? then Str(property.key) !in required else Inhabits(own.value, Render(root, property.value, seen, all))
  }

  /** The declared members, and the index signature, which covers all members. */
  lemma ObjectMeans(root: Value, schema: Value, v: Value, seen: set<string>, all: set<string>)
    requires InScope(root, schema, all)
    ensures var properties := Entries(Get(schema, "properties"));
      forall i :: 0 <= i < |properties| ==> Strings(properties[i].value) <= all
    ensures Get(schema, "additionalProperties").Some? ==> Strings(Get(schema, "additionalProperties").value) <= all
    ensures var properties, additional := Entries(Get(schema, "properties")), Get(schema, "additionalProperties");
      Inhabits(v, RenderObject(root, schema, seen, all)) <==>
        && v.Obj?
        && (forall i :: 0 <= i < |properties| ==>
              DeclaredFits(root, properties[i], Elements(Get(schema, "required")), v.fields, seen, all))
        && (Truthy(additional) && additional.value != Bool(true) ==>
              forall i :: 0 <= i < |v.fields| ==>
                Inhabits(v.fields[i].value, Render(root, additional.value, seen, all)))
  {
    hide InUnion, InMember, Inhabits, RenderProperties, RenderIndex, Strings, Get, RenderObject, DeclaredMembers;
    PartsInScope(root, schema, all);
    if Inhabits(v, RenderObject(root, schema, seen, all)) {
      RecordIsObject(root, schema, v, seen, all);
      RenderObjectSays(root, schema, seen, all, v);
    }
    if v.Obj? {
      DeclaredIff(root, schema, v, seen, all);
      IndexIff(root, schema, v, seen, all);
      if && AllHold(DeclaredMembers(root, schema, seen, all), v.fields)
         && AllHold(RenderIndex(root, schema, seen, all), v.fields) {
        RenderObjectMembers(root, schema, seen, all, v);
      }
    }
  }

  lemma PartsInScope(root: Value, schema: Value, all: set<string>)
    requires InScope(root, schema, all)
    ensures var properties := Entries(Get(schema, "properties"));
      forall i :: 0 <= i < |properties| ==> Strings(properties[i].value) <= all
    ensures Get(schema, "additionalProperties").Some? ==> Strings(Get(schema, "additionalProperties").value) <= all
  {
    hide Get;
    if Get(schema, "additionalProperties").Some? { StringsOfGet(schema, "additionalProperties"); }
    var properties := Entries(Get(schema, "properties"));
    if properties != [] {
      StringsOfGet(schema, "properties");
    }
  }

  lemma RecordIsObject(root: Value, schema: Value, v: Value, seen: set<string>, all: set<string>)
    requires InScope(root, schema, all) && Inhabits(v, RenderObject(root, schema, seen, all))
    ensures v.Obj?
  {
    hide InUnion, RenderProperties, RenderIndex, InMember;
    var text := RenderObject(root, schema, seen, all);
    ReadsOne(text[0], v);
    assert text == [text[0]];
  }

  lemma DeclaredIff(root: Value, schema: Value, v: Value, seen: set<string>, all: set<string>)
    requires InScope(root, schema, all) && v.Obj?
    ensures var properties := Entries(Get(schema, "properties"));
      && (forall i :: 0 <= i < |properties| ==> Strings(properties[i].value) <= all)
      && (AllHold(DeclaredMembers(root, schema, seen, all), v.fields) <==>
            forall i :: 0 <= i < |properties| ==>
              DeclaredFits(root, properties[i], Elements(Get(schema, "required")), v.fields, seen, all))
  {
    hide InUnion, Render, RenderProperties, Strings, Get, Lookup;
    PartsInScope(root, schema, all);
    var properties, required := Entries(Get(schema, "properties")), Elements(Get(schema, "required"));
    var declared := DeclaredMembers(root, schema, seen, all);
    if properties != [] {
      StringsOfGet(schema, "properties");
    }
    assert |declared| == |properties|;
    forall i | 0 <= i < |properties|
      ensures InMember(declared[i], v.fields) <==> DeclaredFits(root, properties[i], required, v.fields, seen, all)
    {
      RenderPropertiesAt(root, properties, required, seen, all, i);
    }
  }

  lemma IndexIff(root: Value, schema: Value, v: Value, seen: set<string>, all: set<string>)
    requires InScope(root, schema, all) && v.Obj?
    ensures var additional := Get(schema, "additionalProperties");
      && (additional.Some? ==> Strings(additional.value) <= all)
      && (AllHold(RenderIndex(root, schema, seen, all), v.fields) <==>
            (Truthy(additional) && additional.value != Bool(true) ==>
               forall i :: 0 <= i < |v.fields| ==>
                 Inhabits(v.fields[i].value, Render(root, additional.value, seen, all))))
  {
    hide InUnion, Render, Strings, Get;
    PartsInScope(root, schema, all);
    var additional := Get(schema, "additionalProperties");
    if Truthy(additional) {
      var ty := if additional == Some(Bool(true)) then [Unknown] else Render(root, additional.value, seen, all);
      assert RenderIndex(root, schema, seen, all) == [IndexSignature(ty)];
      OneHolds(IndexSignature(ty), v.fields);
      assert InMember(IndexSignature(ty), v.fields) <==>
        forall i :: 0 <= i < |v.fields| ==> Inhabits(v.fields[i].value, ty);
      forall w: Value ensures Inhabits(w, [Unknown]) { ReadsOne(Unknown, w); }
    }
  }

  lemma OneHolds(m: Member, fields: seq<Field<real>>)
    ensures AllHold([m], fields) <==> InMember(m, fields)
  {
    hide InMember;
    assert [m][0] == m;
  }
}
