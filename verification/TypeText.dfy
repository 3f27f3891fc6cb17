/**
 TypeScript type text, read the way the TypeScript compiler reads it: `&` binds tighter than `|`,
 and the generator writes no parentheses.
 */
module TypeText {
  import opened Prelude
  import opened Json
  import opened SchemaDocument

  /** A type is a flat run of operands and the two operators. */
  type TypeExpr = seq<Token>

  datatype Token =
    | Bar
    | Amp
    | Unknown
    | Never
    | NullType
    | StringType
    | BooleanType
    | NumberType
    | Literal(value: Value)
    | ArrayOf(element: seq<Token>)
    | AnyRecord
    | ObjectOf(members: seq<Member>)

  datatype Member =
    | Property(name: string, optional: bool, ty: seq<Token>)
    | IndexSignature(ty: seq<Token>)

  /** A literal type read off JSON text: a tuple fixes its length, an object type is open. */
  predicate InLiteral(literal: Value, v: Value) {
    match literal
    case Arr(items) =>
      v.Arr? && |v.items| == |items| && forall i :: 0 <= i < |items| ==> InLiteral(items[i], v.items[i])
    case Obj(fields) =>
      v.Obj? && forall i :: 0 <= i < |fields| ==>
        var other := Lookup(v.fields, fields[i].key);
        other.Some? && InLiteral(fields[i].value, other.value)
    case _ => v == literal
  }

  /** Does `v` inhabit one operand?  Object types are read as types of JSON objects, so no array inhabits one. */
  predicate InToken(t: Token, v: Value)
    decreases t
  {
    match t
    case Unknown => true
    case NullType => v.Null?
    case StringType => v.Str?
    case BooleanType => v.Bool?
    case NumberType => v.Num?
    case Literal(literal) => InLiteral(literal, v)
    case ArrayOf(element) => v.Arr? && forall i :: 0 <= i < |v.items| ==> InUnion(element, v.items[i], true)
    case AnyRecord => v.Obj?
    case ObjectOf(members) => v.Obj? && forall i :: 0 <= i < |members| ==> InMember(members[i], v.fields)
    case _ => false
  }

  /** An index signature constrains every member, the declared ones included. */
  predicate InMember(m: Member, fields: seq<Field<real>>)
    decreases m
  {
    match m
    case Property(name, optional, ty) =>
      var own := Lookup(fields, name);
      (own.None? ==> optional) && (own.Some? ==> InUnion(ty, own.value, true))
    case IndexSignature(ty) => forall i :: 0 <= i < |fields| ==> InUnion(ty, fields[i].value, true)
  }

  /** Left-to-right reading: `clause` says whether the operands of the current `&` run hold so far. */
  predicate InUnion(ts: TypeExpr, v: Value, clause: bool)
    decreases ts
  {
    if ts == [] then clause
    else match ts[0]
      case Bar => clause || InUnion(ts[1..], v, true)
      case Amp => InUnion(ts[1..], v, clause)
      case t => InUnion(ts[1..], v, clause && InToken(t, v))
  }

  predicate Inhabits(v: Value, ty: TypeExpr) {
    InUnion(ty, v, true)
  }

  /** A type of one operand holds what the operand holds. */
  lemma ReadsOne(t: Token, v: Value)
    requires t != Bar && t != Amp
    ensures Inhabits(v, [t]) <==> InToken(t, v)
  {
    assert [t][1..] == [];
    assert InUnion([t], v, true) == InUnion([t][1..], v, InToken(t, v));
  }

  // ----- the generator's joins -----

  function Join(texts: seq<TypeExpr>, sep: Token): TypeExpr {
    if texts == [] then [] else if |texts| == 1 then texts[0] else texts[0] + [sep] + Join(texts[1..], sep)
  }

  /** `[...new Set(values)]`: first occurrences, in order. */
  function Unique(texts: seq<TypeExpr>): (r: seq<TypeExpr>)
    ensures forall t :: t in r <==> t in texts
    ensures Distinct(r)
  {
    if texts == [] then []
    else
      var front := Unique(texts[..|texts| - 1]);
      assert texts == texts[..|texts| - 1] + [Last(texts)];
      if Last(texts) in front then front else front + [Last(texts)]
  }

  lemma {:induction false} ReadBar(x: TypeExpr, y: TypeExpr, v: Value, clause: bool)
    ensures InUnion(x + [Bar] + y, v, clause) <==> InUnion(x, v, clause) || InUnion(y, v, true)
  {
    var z := x + [Bar] + y;
    if x == [] {
      assert z[1..] == y;
    } else {
      assert z[1..] == x[1..] + [Bar] + y && z[0] == x[0];
      match x[0]
      case Bar => ReadBar(x[1..], y, v, true);
      case Amp => ReadBar(x[1..], y, v, clause);
      case t => ReadBar(x[1..], y, v, clause && InToken(t, v));
    }
  }

  /** The flat reading of `x & y` contains the intended one. */
  lemma {:induction false} ReadAmp(x: TypeExpr, y: TypeExpr, v: Value, clause: bool)
    requires InUnion(x, v, clause) && InUnion(y, v, true)
    ensures InUnion(x + [Amp] + y, v, clause)
  {
    var z := x + [Amp] + y;
    if x == [] {
      assert z[1..] == y;
    } else {
      assert z[1..] == x[1..] + [Amp] + y && z[0] == x[0];
      match x[0]
      case Bar => if !clause { ReadAmp(x[1..], y, v, true); }
      case Amp => ReadAmp(x[1..], y, v, clause);
      case t => ReadAmp(x[1..], y, v, clause && InToken(t, v));
    }
  }

  lemma {:induction false} JoinNonEmpty(texts: seq<TypeExpr>, sep: Token)
    requires texts != [] && [] !in texts
    ensures Join(texts, sep) != []
  {
    assert texts[0] != [];
  }

  /** A union text is read exactly as the union of its parts. */
  lemma {:induction false} JoinBarIsUnion(texts: seq<TypeExpr>, v: Value)
    requires texts != []
    ensures Inhabits(v, Join(texts, Bar)) <==> exists i :: 0 <= i < |texts| && Inhabits(v, texts[i])
  {
    if |texts| > 1 {
      ReadBar(texts[0], Join(texts[1..], Bar), v, true);
      JoinBarIsUnion(texts[1..], v);
      assert forall i :: 0 < i < |texts| ==> texts[i] == texts[1..][i - 1];
      assert forall i :: 0 <= i < |texts| - 1 ==> texts[1..][i] == texts[i + 1];
    }
  }

  /** Whatever lies in every part lies in the flat reading of the unparenthesised intersection. */
  lemma {:induction false} JoinAmpContains(texts: seq<TypeExpr>, v: Value)
    requires forall i :: 0 <= i < |texts| ==> Inhabits(v, texts[i])
    ensures Inhabits(v, Join(texts, Amp))
  {
    if |texts| > 1 {
      assert forall i :: 0 <= i < |texts| - 1 ==> texts[1..][i] == texts[i + 1];
      JoinAmpContains(texts[1..], v);
      ReadAmp(texts[0], Join(texts[1..], Amp), v, true);
    }
  }

  /** The flat reading can be strictly larger: `string | null & number` holds of a string. */
  lemma JoinAmpCanBeLarger()
    ensures var texts := [[StringType, Bar, NullType], [NumberType]];
            Inhabits(Str("x"), Join(texts, Amp)) && !Inhabits(Str("x"), texts[1])
  {
    var texts := [[StringType, Bar, NullType], [NumberType]];
    assert Join(texts[1..], Amp) == [NumberType];
    assert Join(texts, Amp) == [StringType, Bar, NullType] + [Amp] + [NumberType];
    assert Join(texts, Amp) == [StringType, Bar, NullType, Amp, NumberType];
    assert Join(texts, Amp)[1..][0] == Bar;
  }
}
