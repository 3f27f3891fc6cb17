/**
 `normalize_json`: the same document with every object's members sorted by key.
 */
module CanonicalJson {
  import opened Prelude
  import opened Json

  /** The order of Rust's `String`: by code points, the shorter text first. */
  predicate Below(a: string, b: string) {
    b != "" && (a == "" || a[0] < b[0] || (a[0] == b[0] && Below(a[1..], b[1..])))
  }

  /** The texts agree up to some place, where the first one ends or has the smaller character. */
  lemma {:induction false} BelowIff(a: string, b: string)
    ensures Below(a, b) <==> exists k: nat :: DiffersAt(a, b, k) && (k == |a| || a[k] < b[k])
  {
    if Below(a, b) {
      if a == "" || a[0] < b[0] {
        assert DiffersAt(a, b, 0);
      } else {
        BelowIff(a[1..], b[1..]);
        var k: nat :| DiffersAt(a[1..], b[1..], k) && (k == |a[1..]| || a[1..][k] < b[1..][k]);
        DiffersLater(a, b, k);
        assert DiffersAt(a, b, k + 1);
      }
    }
    if k: nat :| DiffersAt(a, b, k) && (k == |a| || a[k] < b[k]) {
      if k == 0 {
        assert a == "" || a[0] < b[0];
      } else {
        assert a[..k][0] == b[..k][0];
        DiffersLater(a, b, k - 1);
        BelowIff(a[1..], b[1..]);
        assert DiffersAt(a[1..], b[1..], k - 1);
      }
    }
  }

  /** The texts agree before `k` and not beyond. */
  predicate DiffersAt(a: string, b: string, k: nat) {
    k <= |a| && k < |b| && a[..k] == b[..k] && (k < |a| ==> a[k] != b[k])
  }

  lemma DiffersLater(a: string, b: string, k: nat)
    requires a != "" && b != "" && a[0] == b[0]
    ensures DiffersAt(a[1..], b[1..], k) <==> DiffersAt(a, b, k + 1)
  {
    if k + 1 <= |a| && k + 1 <= |b| {
      assert a[..k + 1] == [a[0]] + a[1..][..k] && b[..k + 1] == [b[0]] + b[1..][..k];
      assert a[..k + 1][1..] == a[1..][..k] && b[..k + 1][1..] == b[1..][..k];
    }
  }

  lemma {:induction false} BelowTransitive(a: string, b: string, c: string)
    requires Below(a, b) && Below(b, c)
    ensures Below(a, c)
  {
    if a != "" && a[0] == b[0] == c[0] {
      BelowTransitive(a[1..], b[1..], c[1..]);
    }
  }

  lemma {:induction false} BelowTotal(a: string, b: string)
    ensures a != b ==> Below(a, b) || Below(b, a)
    ensures !(Below(a, b) && Below(b, a)) && !Below(a, a)
  {
    if a != "" {
      BelowTotal(a[1..], a[1..]);
      if b != "" && a[0] == b[0] {
        BelowTotal(a[1..], b[1..]);
        assert a == [a[0]] + a[1..] && b == [b[0]] + b[1..];
      }
    }
  }

  function Insert<N>(f: Field<N>, sorted: seq<Field<N>>): (r: seq<Field<N>>)
    ensures |r| == |sorted| + 1
  {
    if sorted == [] || Below(f.key, sorted[0].key) then [f] + sorted
    else [sorted[0]] + Insert(f, sorted[1..])
  }

  function Sort<N>(fields: seq<Field<N>>): (r: seq<Field<N>>)
    ensures |r| == |fields|
  {
    if fields == [] then [] else Insert(fields[0], Sort(fields[1..]))
  }

  function Canon<N>(v: Json<N>): Json<N> {
    match v
    case Arr(items) => Arr(CanonItems(items))
    case Obj(fields) => Obj(Sort(CanonFields(fields)))
    case _ => v
  }

  function CanonItems<N>(items: seq<Json<N>>): (r: seq<Json<N>>)
    ensures |r| == |items| && forall i :: 0 <= i < |items| ==> r[i] == Canon(items[i])
  {
    if items == [] then [] else [Canon(items[0])] + CanonItems(items[1..])
  }

  function CanonFields<N>(fields: seq<Field<N>>): (r: seq<Field<N>>)
    ensures |r| == |fields|
    ensures forall i :: 0 <= i < |fields| ==> r[i] == Field(fields[i].key, Canon(fields[i].value))
  {
    if fields == [] then []
    else [Field(fields[0].key, Canon(fields[0].value))] + CanonFields(fields[1..])
  }

  // ----- sorting -----

  predicate Sorted<N>(fields: seq<Field<N>>) {
    forall i, j :: 0 <= i < j < |fields| ==> Below(fields[i].key, fields[j].key)
  }

  lemma {:induction false} InsertHolds<N>(f: Field<N>, sorted: seq<Field<N>>)
    ensures forall g :: g in Insert(f, sorted) <==> g == f || g in sorted
  {
    if !(sorted == [] || Below(f.key, sorted[0].key)) {
      InsertHolds(f, sorted[1..]);
      assert sorted == [sorted[0]] + sorted[1..];
    }
  }

  lemma {:induction false} SortHolds<N>(fields: seq<Field<N>>)
    ensures forall g :: g in Sort(fields) <==> g in fields
  {
    if fields != [] {
      SortHolds(fields[1..]);
      InsertHolds(fields[0], Sort(fields[1..]));
      assert fields == [fields[0]] + fields[1..];
    }
  }

  lemma InsertHas<N>(f: Field<N>, sorted: seq<Field<N>>, g: Field<N>)
    ensures g in Insert(f, sorted) <==> g == f || g in sorted
  {
    InsertHolds(f, sorted);
  }

  lemma SortHas<N>(fields: seq<Field<N>>, g: Field<N>)
    ensures g in Sort(fields) <==> g in fields
  {
    SortHolds(fields);
  }

  lemma InTail<N>(fields: seq<Field<N>>, g: Field<N>) returns (i: nat)
    requires fields != [] && g in fields[1..]
    ensures 1 <= i < |fields| && fields[i] == g
  {
    var rest := fields[1..];
    var j :| 0 <= j < |rest| && rest[j] == g;
    i := j + 1;
  }

  lemma {:induction false} InsertSorts<N>(f: Field<N>, sorted: seq<Field<N>>)
    requires Sorted(sorted) && forall g :: g in sorted ==> g.key != f.key
    ensures Sorted(Insert(f, sorted))
  {
    if sorted != [] {
      BelowTotal(f.key, sorted[0].key);
      if Below(f.key, sorted[0].key) {
        forall j | 0 <= j < |sorted| ensures Below(f.key, sorted[j].key) {
          if j > 0 { BelowTransitive(f.key, sorted[0].key, sorted[j].key); }
        }
      } else {
        assert sorted[0] in sorted;
        InsertSorts(f, sorted[1..]);
        InsertHolds(f, sorted[1..]);
        forall g | g in Insert(f, sorted[1..]) ensures Below(sorted[0].key, g.key) {
          InsertHas(f, sorted[1..], g);
          if g != f {
            var j := InTail(sorted, g);
          }
        }
        PrependSorted(sorted[0], Insert(f, sorted[1..]));
      }
    }
  }

  lemma PrependSorted<N>(f: Field<N>, sorted: seq<Field<N>>)
    requires Sorted(sorted) && forall g :: g in sorted ==> Below(f.key, g.key)
    ensures Sorted([f] + sorted)
  {
  }

  lemma {:induction false} SortSorts<N>(fields: seq<Field<N>>)
    requires DistinctKeys(fields)
    ensures Sorted(Sort(fields))
  {
    if fields != [] {
      SortSorts(fields[1..]);
      SortHolds(fields[1..]);
      forall g | g in Sort(fields[1..]) ensures g.key != fields[0].key {
        SortHas(fields[1..], g);
        var j := InTail(fields, g);
      }
      InsertSorts(fields[0], Sort(fields[1..]));
    }
  }

  lemma SortedDistinct<N>(fields: seq<Field<N>>)
    requires Sorted(fields)
    ensures DistinctKeys(fields)
  {
    forall i, j | 0 <= i < j < |fields| ensures fields[i].key != fields[j].key {
      BelowTotal(fields[i].key, fields[i].key);
    }
  }

  /** A sorted object is determined by its members. */
  lemma {:induction false} SortedUnique<N>(a: seq<Field<N>>, b: seq<Field<N>>)
    requires Sorted(a) && Sorted(b) && forall f :: f in a <==> f in b
    ensures a == b
  {
    if a == [] {
      assert forall i :: 0 <= i < |b| ==> b[i] in b;
    } else {
      assert a[0] in a && a[0] in b;
      assert b != [];
      assert b[0] in b && b[0] in a;
      HeadIsLeast(a, b[0]);
      HeadIsLeast(b, a[0]);
      BelowTotal(a[0].key, b[0].key);
      assert a[0] == b[0];
      TailMembers(a);
      TailMembers(b);
      SortedUnique(a[1..], b[1..]);
      assert a == [a[0]] + a[1..] && b == [b[0]] + b[1..];
    }
  }

  lemma HeadIsLeast<N>(a: seq<Field<N>>, f: Field<N>)
    requires Sorted(a) && f in a
    ensures f == a[0] || Below(a[0].key, f.key)
  {
    var i :| 0 <= i < |a| && a[i] == f;
  }

  lemma TailMembers<N>(a: seq<Field<N>>)
    requires Sorted(a) && a != []
    ensures Sorted(a[1..]) && forall f :: f in a[1..] <==> f in a && f != a[0]
  {
    SortedDistinct(a);
    assert a == [a[0]] + a[1..];
  }

  /** Sorting what is sorted changes nothing. */
  lemma SortIdempotent<N>(fields: seq<Field<N>>)
    requires Sorted(fields)
    ensures Sort(fields) == fields
  {
    SortedDistinct(fields);
    SortSorts(fields);
    SortHolds(fields);
    SortedUnique(Sort(fields), fields);
  }

  // ----- the normal form -----

  /** Objects sorted at every depth. */
  predicate Canonical<N>(v: Json<N>) {
    match v
    case Arr(items) => forall i :: 0 <= i < |items| ==> Canonical(items[i])
    case Obj(fields) => Sorted(fields) && forall i :: 0 <= i < |fields| ==> Canonical(fields[i].value)
    case _ => true
  }

  lemma {:induction false} CanonIsCanonical<N>(v: Json<N>)
    requires WellFormed(v)
    ensures Canonical(Canon(v)) && WellFormed(Canon(v))
    decreases v
  {
    match v
    case Arr(items) =>
      forall i | 0 <= i < |items| ensures Canonical(Canon(items[i])) && WellFormed(Canon(items[i])) {
        CanonIsCanonical(items[i]);
      }
    case Obj(fields) =>
      forall i | 0 <= i < |fields| ensures Canonical(Canon(fields[i].value)) && WellFormed(Canon(fields[i].value)) {
        CanonIsCanonical(fields[i].value);
      }
      ObjectIsCanonical(fields);
    case _ =>
  }

  lemma ObjectIsCanonical<N>(fields: seq<Field<N>>)
    requires DistinctKeys(fields)
    requires forall i :: 0 <= i < |fields| ==> Canonical(Canon(fields[i].value)) && WellFormed(Canon(fields[i].value))
    ensures Canonical(Canon(Obj(fields))) && WellFormed(Canon(Obj(fields)))
  {
    hide Sort, CanonFields, DistinctKeys;
    var s := Sort(CanonFields(fields));
    assert DistinctKeys(CanonFields(fields)) by { CanonKeepsKeys(fields); }
    SortSorts(CanonFields(fields));
    SortedDistinct(s);
    hide Sorted;
    forall i | 0 <= i < |s| ensures Canonical(s[i].value) && WellFormed(s[i].value) {
      assert s[i] in s;
      var j := FieldFrom(fields, s[i]);
    }
    assert Canon(Obj(fields)) == Obj(s);
  }

  lemma CanonKeepsKeys<N>(fields: seq<Field<N>>)
    requires DistinctKeys(fields)
    ensures DistinctKeys(CanonFields(fields))
  {
  }

  lemma {:induction false} CanonicalFixed<N>(v: Json<N>)
    requires Canonical(v)
    ensures Canon(v) == v
    decreases v
  {
    match v
    case Arr(items) =>
      forall i | 0 <= i < |items| ensures Canon(items[i]) == items[i] { CanonicalFixed(items[i]); }
      assert CanonItems(items) == items;
    case Obj(fields) =>
      forall i | 0 <= i < |fields| ensures Canon(fields[i].value) == fields[i].value {
        CanonicalFixed(fields[i].value);
      }
      assert CanonFields(fields) == fields;
      SortIdempotent(fields);
    case _ =>
  }

  /** Normalising twice is normalising once. */
  lemma CanonIdempotent<N>(v: Json<N>)
    requires WellFormed(v)
    ensures Canon(Canon(v)) == Canon(v)
  {
    CanonIsCanonical(v);
    CanonicalFixed(Canon(v));
  }

  lemma FieldOf<N>(fields: seq<Field<N>>, i: nat)
    requires i < |fields|
    ensures Field(fields[i].key, Canon(fields[i].value)) in Sort(CanonFields(fields))
  {
    SortHolds(CanonFields(fields));
    assert CanonFields(fields)[i] in CanonFields(fields);
  }

  lemma FieldFrom<N>(fields: seq<Field<N>>, f: Field<N>) returns (i: nat)
    requires f in Sort(CanonFields(fields))
    ensures i < |fields| && f == Field(fields[i].key, Canon(fields[i].value))
  {
    var cs := CanonFields(fields);
    SortHolds(cs);
    i :| 0 <= i < |cs| && cs[i] == f;
  }

  /** The normal form is the same data. */
  lemma {:induction false} SameCanon<N>(v: Json<N>, w: Json<N>)
    requires WellFormed(v) && WellFormed(w) && Canon(v) == Canon(w)
    ensures SameData(v, w)
    decreases v
  {
    match v
    case Arr(items) =>
      forall i | 0 <= i < |items| ensures SameData(items[i], w.items[i]) {
        assert CanonItems(items)[i] == CanonItems(w.items)[i];
        SameCanon(items[i], w.items[i]);
      }
    case Obj(fields) =>
      forall i | 0 <= i < |fields|
        ensures var other := Lookup(w.fields, fields[i].key); other.Some? && SameData(fields[i].value, other.value)
      {
        FieldOf(fields, i);
        var j := FieldFrom(w.fields, Field(fields[i].key, Canon(fields[i].value)));
        LookupAt(w.fields, j);
        SameCanon(fields[i].value, w.fields[j].value);
      }
    case _ =>
  }

  lemma {:induction false} CanonSame<N>(v: Json<N>, w: Json<N>)
    requires WellFormed(v) && WellFormed(w) && SameData(v, w)
    ensures Canon(v) == Canon(w)
    decreases v
  {
    match v
    case Arr(items) =>
      forall i | 0 <= i < |items| ensures Canon(items[i]) == Canon(w.items[i]) { CanonSame(items[i], w.items[i]); }
      assert CanonItems(items) == CanonItems(w.items);
    case Obj(fields) =>
      forall i | 0 <= i < |fields|
        ensures var other := Lookup(w.fields, fields[i].key);
          other.Some? && WellFormed(other.value) && Canon(fields[i].value) == Canon(other.value)
      {
        var other := Lookup(w.fields, fields[i].key);
        var j :| 0 <= j < |w.fields| && w.fields[j] == Field(fields[i].key, other.value);
        assert WellFormed(w.fields[j].value);
        CanonSame(fields[i].value, other.value);
      }
      SameMembers(fields, w.fields);
      SortSorts(CanonFields(fields));
      SortSorts(CanonFields(w.fields));
      SortedUnique(Sort(CanonFields(fields)), Sort(CanonFields(w.fields)));
    case _ =>
  }

  function Keys<N>(fields: seq<Field<N>>): set<string> {
    set i | 0 <= i < |fields| :: fields[i].key
  }

  lemma KeysCons<N>(fields: seq<Field<N>>, k: string)
    requires fields != []
    ensures k in Keys(fields) <==> k == fields[0].key || k in Keys(fields[1..])
  {
    var rest := fields[1..];
    if k in Keys(fields) {
      var i :| 0 <= i < |fields| && fields[i].key == k;
      if i > 0 { assert rest[i - 1].key == k; }
    }
    if k in Keys(rest) {
      var i :| 0 <= i < |rest| && rest[i].key == k;
      assert fields[i + 1].key == k;
    }
  }

  lemma {:induction false} KeyCount<N>(fields: seq<Field<N>>)
    requires DistinctKeys(fields)
    ensures |Keys(fields)| == |fields|
  {
    if fields != [] {
      var rest := fields[1..];
      KeyCount(rest);
      assert fields[0].key !in Keys(rest);
      hide Keys;
      forall k ensures k in Keys(fields) <==> k == fields[0].key || k in Keys(rest) {
        KeysCons(fields, k);
      }
      assert Keys(fields) == {fields[0].key} + Keys(rest);
    }
  }

  lemma SubsetFull(a: set<string>, b: set<string>)
    requires a <= b && |a| == |b|
    ensures a == b
  {
    if x :| x in b && x !in a {
      assert a <= b - {x};
      SubsetSmaller(a, b - {x});
    }
  }

  lemma {:induction false} SubsetSmaller(a: set<string>, b: set<string>)
    requires a <= b
    ensures |a| <= |b|
  {
    if x :| x in a {
      SubsetSmaller(a - {x}, b - {x});
    }
  }

  /** As many members on both sides, each with its counterpart: then the members are the same. */
  lemma SameMembers<N>(a: seq<Field<N>>, b: seq<Field<N>>)
    requires DistinctKeys(a) && DistinctKeys(b) && |a| == |b|
    requires forall i :: 0 <= i < |a| ==>
      var other := Lookup(b, a[i].key); other.Some? && Canon(a[i].value) == Canon(other.value)
    ensures forall f :: f in Sort(CanonFields(a)) <==> f in Sort(CanonFields(b))
  {
    SameKeys(a, b);
    forall f ensures f in Sort(CanonFields(a)) <==> f in Sort(CanonFields(b)) {
      if f in Sort(CanonFields(a)) {
        var i := FieldFrom(a, f);
        var j :| 0 <= j < |b| && b[j] == Field(a[i].key, Lookup(b, a[i].key).value);
        FieldOf(b, j);
      }
      if f in Sort(CanonFields(b)) {
        var j := FieldFrom(b, f);
        assert b[j].key in Keys(a);
        var i :| 0 <= i < |a| && a[i].key == b[j].key;
        LookupAt(b, j);
        FieldOf(a, i);
      }
    }
  }

  lemma SameKeys<N>(a: seq<Field<N>>, b: seq<Field<N>>)
    requires DistinctKeys(a) && DistinctKeys(b) && |a| == |b|
    requires forall i :: 0 <= i < |a| ==> Lookup(b, a[i].key).Some?
    ensures Keys(a) == Keys(b)
  {
    forall k | k in Keys(a) ensures k in Keys(b) {
      var i :| 0 <= i < |a| && a[i].key == k;
      var v := Lookup(b, a[i].key).value;
      var j :| 0 <= j < |b| && b[j] == Field(a[i].key, v);
      assert b[j].key == k;
    }
    KeyCount(a);
    KeyCount(b);
    SubsetFull(Keys(a), Keys(b));
  }

  /** Normal forms agree exactly when the documents are the same data, key order aside, at every depth. */
  lemma CanonIff<N>(v: Json<N>, w: Json<N>)
    requires WellFormed(v) && WellFormed(w)
    ensures Canon(v) == Canon(w) <==> SameData(v, w)
  {
    if Canon(v) == Canon(w) { SameCanon(v, w); }
    if SameData(v, w) { CanonSame(v, w); }
  }

  /** Normalising keeps the data. */
  lemma CanonKeepsData<N>(v: Json<N>)
    requires WellFormed(v)
    ensures SameData(v, Canon(v))
  {
    CanonIsCanonical(v);
    CanonIdempotent(v);
    SameCanon(v, Canon(v));
  }

  // ----- objects, key by key -----

  predicate SameOption<N(==)>(a: Option<Json<N>>, b: Option<Json<N>>) {
    match (a, b)
    case (None, None) => true
    case (Some(v), Some(w)) => SameData(v, w)
    case _ => false
  }

  ghost predicate AnswerAlike<N>(a: seq<Field<N>>, b: seq<Field<N>>) {
    forall k :: SameOption(Lookup(a, k), Lookup(b, k))
  }

  lemma SameLookups<N>(a: seq<Field<N>>, b: seq<Field<N>>, k: string)
    requires DistinctKeys(a) && DistinctKeys(b) && SameData(Obj(a), Obj(b))
    ensures SameOption(Lookup(a, k), Lookup(b, k))
  {
    SameKeys(a, b);
    KeysLookup(a, k);
    KeysLookup(b, k);
    if k in Keys(a) {
      var i :| 0 <= i < |a| && a[i].key == k;
      LookupAt(a, i);
    }
  }

  lemma LookupsSame<N>(a: seq<Field<N>>, b: seq<Field<N>>)
    requires DistinctKeys(a) && DistinctKeys(b) && AnswerAlike(a, b)
    ensures SameData(Obj(a), Obj(b))
  {
    forall i | 0 <= i < |a|
      ensures var other := Lookup(b, a[i].key); other.Some? && SameData(a[i].value, other.value)
    {
      LookupAt(a, i);
      assert SameOption(Lookup(a, a[i].key), Lookup(b, a[i].key));
    }
    hide SameData;
    forall k ensures k in Keys(a) <==> k in Keys(b) {
      assert SameOption(Lookup(a, k), Lookup(b, k));
      KeysLookup(a, k);
      KeysLookup(b, k);
    }
    assert Keys(a) == Keys(b);
    KeyCount(a);
    KeyCount(b);
    ObjectSame(a, b);
  }

  lemma ObjectSame<N>(a: seq<Field<N>>, b: seq<Field<N>>)
    requires |a| == |b|
    requires forall i :: 0 <= i < |a| ==>
      var other := Lookup(b, a[i].key); other.Some? && SameData(a[i].value, other.value)
    ensures SameData(Obj(a), Obj(b))
  {
    hide Lookup;
  }

  /** Two objects are the same data exactly when they answer every lookup alike. */
  lemma ObjectsSameIff<N>(a: seq<Field<N>>, b: seq<Field<N>>)
    requires DistinctKeys(a) && DistinctKeys(b)
    ensures SameData(Obj(a), Obj(b)) <==> AnswerAlike(a, b)
  {
    hide SameData, DistinctKeys;
    if SameData(Obj(a), Obj(b)) {
      forall k ensures SameOption(Lookup(a, k), Lookup(b, k)) { SameLookups(a, b, k); }
    }
    if AnswerAlike(a, b) {
      LookupsSame(a, b);
    }
  }

  lemma KeysLookup<N>(fields: seq<Field<N>>, k: string)
    ensures k in Keys(fields) <==> Lookup(fields, k).Some?
  {
    if Lookup(fields, k).Some? {
      var v := Lookup(fields, k).value;
      var i :| 0 <= i < |fields| && fields[i] == Field(k, v);
      assert fields[i].key == k;
    }
  }
}
