/**
 JSON documents as both halves of the repository see them.

 An object keeps its members in enumeration order, because JavaScript's `JSON.stringify` and an
 order-preserving `serde_json::Map` both print in that order.  Numbers are a parameter: the schema
 code compares them as numbers, the loop guard only through their text.
 */
module Json {
  import opened Prelude

  datatype Json<N> =
    | Null
    | Bool(b: bool)
    | Num(n: N)
    | Str(s: string)
    | Arr(items: seq<Json<N>>)
    | Obj(fields: seq<Field<N>>)

  datatype Field<N> = Field(key: string, value: Json<N>)

  /** The member named `key`, if there is one. */
  function Lookup<N>(fields: seq<Field<N>>, key: string): (r: Option<Json<N>>)
    ensures r.Some? ==> exists i :: 0 <= i < |fields| && fields[i] == Field(key, r.value)
    ensures r.None? <==> forall i :: 0 <= i < |fields| ==> fields[i].key != key
  {
    if fields == [] then None
    else if fields[0].key == key then
      assert fields[0] == Field(key, fields[0].value);
      Some(fields[0].value)
    else
      var r := Lookup(fields[1..], key);
      assert forall i :: 0 <= i < |fields| - 1 ==> fields[1..][i] == fields[i + 1];
      r
  }

  predicate HasKey<N>(fields: seq<Field<N>>, key: string) {
    Lookup(fields, key).Some?
  }

  predicate DistinctKeys<N>(fields: seq<Field<N>>) {
    forall i, j :: 0 <= i < j < |fields| ==> fields[i].key != fields[j].key
  }

  /** With distinct keys the member found is the one stored, wherever it stands. */
  lemma {:induction false} LookupAt<N>(fields: seq<Field<N>>, i: nat)
    requires DistinctKeys(fields) && i < |fields|
    ensures Lookup(fields, fields[i].key) == Some(fields[i].value)
  {
    if i != 0 {
      assert fields[0].key != fields[i].key;
      LookupAt(fields[1..], i - 1);
    }
  }

  /** No object anywhere in the document repeats a key. */
  predicate WellFormed<N>(v: Json<N>) {
    match v
    case Arr(items) => forall i :: 0 <= i < |items| ==> WellFormed(items[i])
    case Obj(fields) =>
      DistinctKeys(fields) && forall i :: 0 <= i < |fields| ==> WellFormed(fields[i].value)
    case _ => true
  }

  /** Equality of JSON data: member order is irrelevant at every depth (RFC 8259, section 4). */
  predicate SameData<N(==)>(v: Json<N>, w: Json<N>)
    decreases v
  {
    match v
    case Arr(items) =>
      w.Arr? && |items| == |w.items|
      && forall i :: 0 <= i < |items| ==> SameData(items[i], w.items[i])
    case Obj(fields) =>
      w.Obj? && |fields| == |w.fields|
      && forall i :: 0 <= i < |fields| ==>
           var other := Lookup(w.fields, fields[i].key);
           other.Some? && SameData(fields[i].value, other.value)
    case _ => v == w
  }
}
