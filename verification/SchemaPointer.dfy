/**
 Local references as the standards read them: a URI fragment is percent-decoded (RFC 3986, section 2.1),
 then evaluated as a JSON Pointer (RFC 6901, sections 3, 4 and 6).  The repository's readers split the text
 at `/` and do nothing else; `ResolutionAgreesIff` says on which texts that is the same.
 */
module SchemaPointer {
  import opened Prelude
  import opened Json
  import opened Text
  import opened SchemaDocument

  // ----- percent-encoding -----

  function HexValue(c: char): Option<nat> {
    if '0' <= c <= '9' then Some(c as int - '0' as int)
    else if 'a' <= c <= 'f' then Some(c as int - 'a' as int + 10)
    else if 'A' <= c <= 'F' then Some(c as int - 'A' as int + 10)
    else None
  }

  /** The octet written `%XY` at a position. */
  function Octet(s: string, i: nat): (r: Option<nat>)
    ensures r.Some? ==> r.value < 256 && i + 2 < |s| && s[i] == '%'
  {
    if i + 2 < |s| && s[i] == '%' && HexValue(s[i + 1]).Some? && HexValue(s[i + 2]).Some?
    then Some(16 * HexValue(s[i + 1]).value + HexValue(s[i + 2]).value)
    else None
  }

  /** The six low bits of a UTF-8 continuation octet (RFC 3629, section 3). */
  function Continuation(s: string, i: nat): (r: Option<nat>)
    ensures r.Some? ==> r.value < 64 && i + 2 < |s|
  {
    var o := Octet(s, i);
    if o.Some? && 0x80 <= o.value < 0xC0 then Some(o.value - 0x80) else None
  }

  predicate Scalar(n: int) {
    0 <= n < 0xD800 || 0xE000 <= n < 0x110000
  }

  /** The encoded character at the start of a text and the length of its code. */
  function Decoded(s: string): (r: Option<(char, nat)>)
    ensures r.Some? ==> 3 <= r.value.1 <= |s| && s[0] == '%'
  {
    var o := Octet(s, 0);
    if o.None? then None
    else
      var a, b, c := Continuation(s, 3), Continuation(s, 6), Continuation(s, 9);
      if o.value < 0x80 then Some((o.value as char, 3))
      else if 0xC2 <= o.value < 0xE0 && a.Some? then Some((((o.value - 0xC0) * 64 + a.value) as char, 6))
      else if 0xE0 <= o.value < 0xF0 && a.Some? && b.Some? then
        var n := (o.value - 0xE0) * 4096 + a.value * 64 + b.value;
        if n >= 0x800 && Scalar(n) then Some((n as char, 9)) else None
      else if 0xF0 <= o.value < 0xF5 && a.Some? && b.Some? && c.Some? then
        var n := (o.value - 0xF0) * 262144 + a.value * 4096 + b.value * 64 + c.value;
        if n >= 0x10000 && Scalar(n) then Some((n as char, 12)) else None
      else None
  }

  /** Nothing, where the text is no valid encoding. */
  function PercentDecode(s: string): (r: Option<string>)
    ensures r.Some? ==> |r.value| <= |s|
    decreases |s|
  {
    if s == "" then Some("")
    else if s[0] != '%' then
      var rest := PercentDecode(s[1..]);
      if rest.None? then None else Some([s[0]] + rest.value)
    else
      var d := Decoded(s);
      if d.None? then None
      else
        var rest := PercentDecode(s[d.value.1..]);
        if rest.None? then None else Some([d.value.0] + rest.value)
  }

  // ----- JSON Pointer -----

  /** `~1` stands for `/`, `~0` for `~`; any other `~` is an error. */
  function Unescape(part: string): (r: Option<string>)
    ensures r.Some? ==> |r.value| <= |part|
    decreases |part|
  {
    if part == "" then Some("")
    else if part[0] != '~' then
      var rest := Unescape(part[1..]);
      if rest.None? then None else Some([part[0]] + rest.value)
    else if |part| > 1 && (part[1] == '0' || part[1] == '1') then
      var rest := Unescape(part[2..]);
      if rest.None? then None else Some([if part[1] == '0' then '~' else '/'] + rest.value)
    else None
  }

  function UnescapeAll(parts: seq<string>): (r: Option<seq<string>>)
    ensures r.Some? ==> |r.value| == |parts| && forall i :: 0 <= i < |parts| ==> Unescape(parts[i]) == Some(r.value[i])
  {
    if parts == [] then Some([])
    else
      var first, rest := Unescape(parts[0]), UnescapeAll(parts[1..]);
      if first.None? || rest.None? then None else Some([first.value] + rest.value)
  }

  /** The names a reference walks along; nothing, if it leaves the document or is no pointer. */
  function StandardParts(ref: string): Option<seq<string>> {
    if ref == "" then Some([])
    else if ref[0] != '#' then None
    else
      var fragment := PercentDecode(ref[1..]);
      if fragment.None? then None
      else if fragment.value == "" then Some([])
      else if fragment.value[0] != '/' then None
      else UnescapeAll(Split(fragment.value[1..], '/'))
  }

  predicate Digits(s: string) {
    forall i :: 0 <= i < |s| ==> '0' <= s[i] <= '9'
  }

  /** An array position: digits without a leading zero. */
  predicate IsIndex(part: string) {
    part != "" && Digits(part) && (part == "0" || part[0] != '0')
  }

  function IndexOf(part: string): nat
    requires Digits(part)
  {
    if part == "" then 0
    else 10 * IndexOf(part[..|part| - 1]) + (part[|part| - 1] as int - '0' as int)
  }

  function StandardStep(v: Value, part: string): Option<Value> {
    match v
    case Obj(fields) => Lookup(fields, part)
    case Arr(items) => if IsIndex(part) && IndexOf(part) < |items| then Some(items[IndexOf(part)]) else None
    case _ => None
  }

  function StandardWalk(v: Value, parts: seq<string>): Option<Value> {
    if parts == [] then Some(v)
    else
      var next := StandardStep(v, parts[0]);
      if next.None? then None else StandardWalk(next.value, parts[1..])
  }

  function StandardResolve(root: Value, ref: string): Option<Value> {
    var parts := StandardParts(ref);
    if parts.None? then None else StandardWalk(root, parts.value)
  }

  // ----- where the two readings agree -----

  predicate NoIndex(parts: seq<string>) {
    forall i :: 0 <= i < |parts| ==> !IsIndex(parts[i])
  }

  /**
   A text both readings take alike: behind `#/` no `%`, no `~` and no array position; in any other form,
   something neither of them follows.
   */
  predicate PlainReference(ref: string) {
    if PointerParts(ref).Some? then '%' !in ref && '~' !in ref && NoIndex(PointerParts(ref).value)
    else StandardParts(ref).None?
  }

  /** A text is its own decoding exactly when it encodes nothing. */
  lemma {:induction false} DecodesToItself(s: string)
    ensures PercentDecode(s) == Some(s) <==> '%' !in s
    decreases |s|
  {
    if s != "" {
      assert s == [s[0]] + s[1..];
      if s[0] != '%' {
        DecodesToItself(s[1..]);
      } else if PercentDecode(s).Some? {
        assert |PercentDecode(s).value| < |s|;
      }
    }
  }

  lemma {:induction false} UnescapesToItself(part: string)
    ensures Unescape(part) == Some(part) <==> '~' !in part
    decreases |part|
  {
    if part != "" {
      assert part == [part[0]] + part[1..];
      if part[0] != '~' {
        UnescapesToItself(part[1..]);
      } else if |part| > 1 && Unescape(part[2..]).Some? && Unescape(part).Some? {
        assert |Unescape(part).value| < |part|;
      }
    }
  }

  lemma {:induction false} UnescapeAllItself(parts: seq<string>)
    ensures UnescapeAll(parts) == Some(parts) <==> forall i :: 0 <= i < |parts| ==> '~' !in parts[i]
  {
    if parts != [] {
      UnescapesToItself(parts[0]);
      UnescapeAllItself(parts[1..]);
      assert parts == [parts[0]] + parts[1..];
      assert forall i :: 0 <= i < |parts| - 1 ==> parts[1..][i] == parts[i + 1];
    }
  }

  /** A character other than the separator is in the text exactly when it is in one of the pieces. */
  lemma {:induction false} SplitHolds(s: string, sep: char, c: char)
    requires c != sep
    ensures c in s <==> exists i :: 0 <= i < |Split(s, sep)| && c in Split(s, sep)[i]
  {
    if s != "" {
      SplitHolds(s[1..], sep, c);
      var rest, parts := Split(s[1..], sep), Split(s, sep);
      assert s == [s[0]] + s[1..];
      if i :| 0 <= i < |rest| && c in rest[i] {
        var k := if s[0] == sep then i + 1 else i;
        assert c in parts[k];
      }
      if i :| 0 <= i < |parts| && c in parts[i] {
        if s[0] == sep {
          assert i > 0 && c in rest[i - 1];
        } else if i > 0 {
          assert c in rest[i];
        } else {
          assert c == s[0] || c in rest[0];
        }
      } else if c == s[0] {
        assert c in parts[0];
      }
    }
  }

  /** A document of one member at every level, with `true` at the end of the walk. */
  function Nest(parts: seq<string>): Value {
    if parts == [] then Bool(true) else Obj([Field(parts[0], Nest(parts[1..]))])
  }

  lemma {:induction false} NestWalks(parts: seq<string>, other: seq<string>)
    ensures StandardWalk(Nest(parts), other) == Some(Bool(true)) <==> other == parts
  {
    if parts != [] && other != [] {
      var field := Field(parts[0], Nest(parts[1..]));
      assert [field][1..] == [];
      assert Lookup([field], other[0]) == if parts[0] == other[0] then Some(field.value) else None;
      NestWalks(parts[1..], other[1..]);
      assert parts == [parts[0]] + parts[1..] && other == [other[0]] + other[1..];
    }
  }

  lemma {:induction false} NestResolves(parts: seq<string>)
    ensures Walk(Nest(parts), parts) == Some(Bool(true))
  {
    if parts != [] {
      assert [Field(parts[0], Nest(parts[1..]))][1..] == [];
      NestResolves(parts[1..]);
    }
  }

  /** The same with an array in the place of object number `k`. */
  function NestArray(parts: seq<string>, k: nat): Value
    requires k < |parts| && IsIndex(parts[k])
  {
    if k == 0 then Arr(seq(IndexOf(parts[0]) + 1, _ => Nest(parts[1..])))
    else Obj([Field(parts[0], NestArray(parts[1..], k - 1))])
  }

  lemma {:induction false} NestArrayWalks(parts: seq<string>, k: nat)
    requires k < |parts| && IsIndex(parts[k])
    ensures StandardWalk(NestArray(parts, k), parts) == Some(Bool(true)) && Walk(NestArray(parts, k), parts) == None
  {
    if k == 0 {
      NestWalks(parts[1..], parts[1..]);
    } else {
      assert [Field(parts[0], NestArray(parts[1..], k - 1))][1..] == [];
      NestArrayWalks(parts[1..], k - 1);
    }
  }

  lemma {:induction false} WalksAgree(v: Value, parts: seq<string>)
    requires NoIndex(parts)
    ensures StandardWalk(v, parts) == Walk(v, parts)
    decreases |parts|
  {
    if parts != [] {
      assert !IsIndex(parts[0]);
      assert forall i :: 0 <= i < |parts| - 1 ==> parts[1..][i] == parts[i + 1];
      var next := Get(v, parts[0]);
      if next.Some? { WalksAgree(next.value, parts[1..]); }
    }
  }

  /** Behind `#/` the two splittings agree exactly when nothing is escaped. */
  lemma PartsAgree(ref: string)
    requires PointerParts(ref).Some?
    ensures StandardParts(ref) == PointerParts(ref) <==> '%' !in ref && '~' !in ref
  {
    hide PercentDecode, UnescapeAll, Split;
    var fragment := ref[1..];
    assert ref == "#/" + ref[2..] && fragment == "/" + ref[2..];
    DecodesToItself(fragment);
    var parts := Split(ref[2..], '/');
    SplitHolds(ref[2..], '/', '~');
    UnescapeAllItself(parts);
    if '%' !in ref {
      assert fragment[1..] == ref[2..];
    } else {
      EncodedDiffers(ref);
    }
  }

  function Total(parts: seq<string>): nat {
    if parts == [] then 0 else |parts[0]| + Total(parts[1..])
  }

  lemma {:induction false} SplitTotal(s: string, sep: char)
    ensures Total(Split(s, sep)) + |Split(s, sep)| == |s| + 1
  {
    if s != "" {
      SplitTotal(s[1..], sep);
    }
  }

  lemma {:induction false} UnescapeTotal(parts: seq<string>)
    requires UnescapeAll(parts).Some?
    ensures Total(UnescapeAll(parts).value) <= Total(parts)
  {
    if parts != [] {
      UnescapeTotal(parts[1..]);
    }
  }

  lemma {:induction false} DecodeShrinks(s: string)
    requires '%' in s && PercentDecode(s).Some?
    ensures |PercentDecode(s).value| < |s|
    decreases |s|
  {
    if s[0] != '%' {
      assert s == [s[0]] + s[1..];
      DecodeShrinks(s[1..]);
    }
  }

  /** Decoding makes the text shorter, so its pieces are others. */
  lemma EncodedDiffers(ref: string)
    requires PointerParts(ref).Some? && '%' in ref
    ensures StandardParts(ref) != PointerParts(ref)
  {
    hide PercentDecode, UnescapeAll, Split, Total;
    var fragment := ref[1..];
    assert ref == "#/" + ref[2..] && '%' in fragment;
    if StandardParts(ref).Some? {
      var text := PercentDecode(fragment).value;
      DecodeShrinks(fragment);
      if text != "" {
        SplitTotal(text[1..], '/');
        SplitTotal(ref[2..], '/');
        UnescapeTotal(Split(text[1..], '/'));
      }
    }
  }

  /** The code resolves a reference as the standards do, in every document, exactly when its text is plain. */
  lemma ResolutionAgreesIff(ref: string)
    ensures PlainReference(ref) <==> forall root :: StandardResolve(root, ref) == Resolve(root, ref)
  {
    hide StandardParts, StandardWalk, Walk, PointerParts;
    if PlainReference(ref) {
      forall root ensures StandardResolve(root, ref) == Resolve(root, ref) { ResolutionAgrees(root, ref); }
    } else {
      var root := ResolutionDiffers(ref);
    }
  }

  lemma ResolutionAgrees(root: Value, ref: string)
    requires PlainReference(ref)
    ensures StandardResolve(root, ref) == Resolve(root, ref)
  {
    hide StandardParts, StandardWalk, Walk, PointerParts;
    if PointerParts(ref).Some? {
      PartsAgree(ref);
      WalksAgree(root, PointerParts(ref).value);
    }
  }

  lemma ResolutionDiffers(ref: string) returns (root: Value)
    requires !PlainReference(ref)
    ensures StandardResolve(root, ref) != Resolve(root, ref)
  {
    hide StandardParts, StandardWalk, Walk, PointerParts, Nest;
    var code, standard := PointerParts(ref), StandardParts(ref);
    if code.None? {
      root := Nest(standard.value);
      NestWalks(standard.value, standard.value);
    } else {
      PartsAgree(ref);
      if standard == code {
        var k :| 0 <= k < |code.value| && IsIndex(code.value[k]);
        root := NestArray(code.value, k);
        NestArrayWalks(code.value, k);
      } else {
        root := Nest(code.value);
        NestResolves(code.value);
        if standard.Some? { NestWalks(code.value, standard.value); }
      }
    }
  }
}
