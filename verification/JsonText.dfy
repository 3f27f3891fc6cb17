/**
 The compact printer behind `Value::to_string` and `JSON.stringify` (RFC 8259), and the proof that
 its output determines the document.  Both halves of the repository compare documents by comparing
 this text.

 Every printing function takes the text `rest` that follows, as a writer appending to a buffer does.
 */
module JsonText {
  import opened Prelude
  import opened Json

  predicate IsNumChar(c: char) {
    '0' <= c <= '9' || c == '-' || c == '+' || c == '.' || c == 'e' || c == 'E'
  }

  predicate IsNumText(s: string) {
    s != "" && ('0' <= s[0] <= '9' || s[0] == '-') && forall i :: 0 <= i < |s| ==> IsNumChar(s[i])
  }

  /** The text of a number. */
  type NumText = s: string | IsNumText(s) witness "0"

  function HexDigit(d: nat): (c: char)
    requires d < 16
  {
    (if d < 10 then '0' as int + d else 'a' as int + d - 10) as char
  }

  function EscapeCode(c: char): (code: string)
    ensures |code| in {1, 2, 6} && (|code| > 1 <==> code[0] == '\\')
    ensures |code| == 6 <==> |code| > 1 && code[1] == 'u'
  {
    if c == '\"' then ['\\', '\"']
    else if c == '\\' then ['\\', '\\']
    else if c as int == 8 then ['\\', 'b']
    else if c as int == 9 then ['\\', 't']
    else if c as int == 10 then ['\\', 'n']
    else if c as int == 12 then ['\\', 'f']
    else if c as int == 13 then ['\\', 'r']
    else if c as int < 32 then
      ['\\', 'u', '0', '0', HexDigit(c as int / 16), HexDigit(c as int % 16)]
    else [c]
  }

  /** The escaped characters and the closing quote. */
  function Escape(s: string, rest: string): string {
    if s == "" then ['\"'] + rest else EscapeCode(s[0]) + Escape(s[1..], rest)
  }

  function Quote(s: string, rest: string): string {
    ['\"'] + Escape(s, rest)
  }

  function PrintTo<N>(v: Json<N>, num: N -> NumText, rest: string): string {
    match v
    case Null => "null" + rest
    case Bool(b) => if b then "true" + rest else "false" + rest
    case Num(n) => num(n) + rest
    case Str(s) => Quote(s, rest)
    case Arr(items) =>
      if items == [] then "[]" + rest
      else ['['] + PrintTo(items[0], num, PrintItems(items[1..], num, rest))
    case Obj(fields) =>
      if fields == [] then "{}" + rest
      else ['{'] + PrintField(fields[0], num, PrintFields(fields[1..], num, rest))
  }

  function PrintField<N>(f: Field<N>, num: N -> NumText, rest: string): string {
    Quote(f.key, [':'] + PrintTo(f.value, num, rest))
  }

  /** The items after the first, each with the comma before it, and the closing bracket. */
  function PrintItems<N>(items: seq<Json<N>>, num: N -> NumText, rest: string): (r: string)
    ensures r != "" && (items == [] <==> r[0] == ']') && (items != [] <==> r[0] == ',')
  {
    if items == [] then [']'] + rest
    else [','] + PrintTo(items[0], num, PrintItems(items[1..], num, rest))
  }

  function PrintFields<N>(fields: seq<Field<N>>, num: N -> NumText, rest: string): (r: string)
    ensures r != "" && (fields == [] <==> r[0] == '}') && (fields != [] <==> r[0] == ',')
  {
    if fields == [] then ['}'] + rest
    else [','] + PrintField(fields[0], num, PrintFields(fields[1..], num, rest))
  }

  function Print<N>(v: Json<N>, num: N -> NumText): string {
    PrintTo(v, num, "")
  }

  // ----- the text determines the document -----

  ghost predicate Injective<N(!new)>(num: N -> NumText) {
    forall a, b :: num(a) == num(b) ==> a == b
  }

  /** What may follow a printed document inside a larger one: nothing that could extend a number. */
  predicate Closed(rest: string) {
    rest == "" || !IsNumChar(rest[0])
  }

  lemma Cancel(p: string, q: string, r: string, s: string)
    requires p + r == q + s && |p| == |q|
    ensures p == q && r == s
  {
    assert p == (p + r)[..|p|] && q == (q + s)[..|q|];
    assert r == (p + r)[|p|..] && s == (q + s)[|q|..];
  }

  lemma EscapeCodeInjective(c: char, d: char)
    requires EscapeCode(c) == EscapeCode(d)
    ensures c == d
  {
    var x, y := EscapeCode(c), EscapeCode(d);
    if |x| == 6 {
      assert x[4] == y[4] && x[5] == y[5];
      assert c as int == d as int;
    }
  }

  lemma EscapeCharUnique(c: char, d: char, r: string, s: string)
    requires r != "" && s != "" && EscapeCode(c) + r == EscapeCode(d) + s
    ensures c == d && r == s
  {
    var x, y := EscapeCode(c), EscapeCode(d);
    assert (x + r)[0] == x[0] && (y + s)[0] == y[0];
    assert |x| > 1 ==> (x + r)[1] == x[1] && (y + s)[1] == y[1];
    Cancel(x, y, r, s);
    EscapeCodeInjective(c, d);
  }

  lemma {:induction false} EscapeUnique(a: string, b: string, r: string, s: string)
    requires Escape(a, r) == Escape(b, s)
    ensures a == b && r == s
  {
    assert a == "" <==> Escape(a, r)[0] == '\"' by { if a != "" { assert EscapeCode(a[0])[0] != '\"'; } }
    assert b == "" <==> Escape(b, s)[0] == '\"' by { if b != "" { assert EscapeCode(b[0])[0] != '\"'; } }
    if a == "" {
      Cancel(['\"'], ['\"'], r, s);
    } else {
      EscapeCharUnique(a[0], b[0], Escape(a[1..], r), Escape(b[1..], s));
      EscapeUnique(a[1..], b[1..], r, s);
      assert a == [a[0]] + a[1..] && b == [b[0]] + b[1..];
    }
  }

  lemma QuoteUnique(a: string, b: string, r: string, s: string)
    requires Quote(a, r) == Quote(b, s)
    ensures a == b && r == s
  {
    Cancel(['\"'], ['\"'], Escape(a, r), Escape(b, s));
    EscapeUnique(a, b, r, s);
  }

  /** How far a number at the start of a text reaches. */
  function NumberEnd(t: string): (n: nat) {
    if t == "" || !IsNumChar(t[0]) then 0 else 1 + NumberEnd(t[1..])
  }

  lemma {:induction false} NumberEndIs(a: string, r: string)
    requires Closed(r) && forall i :: 0 <= i < |a| ==> IsNumChar(a[i])
    ensures NumberEnd(a + r) == |a|
  {
    if a == "" {
      assert a + r == r;
    } else {
      assert (a + r)[1..] == a[1..] + r;
      NumberEndIs(a[1..], r);
    }
  }

  lemma NumTextUnique(a: NumText, b: NumText, r: string, s: string)
    requires Closed(r) && Closed(s) && a + r == b + s
    ensures a == b && r == s
  {
    NumberEndIs(a, r);
    NumberEndIs(b, s);
    Cancel(a, b, r, s);
  }

  /** The first character of a document tells which kind of value it is. */
  function Kind<N>(v: Json<N>): nat {
    match v
    case Null => 0 case Bool(b) => if b then 1 else 2 case Num(_) => 3
    case Str(_) => 4 case Arr(_) => 5 case Obj(_) => 6
  }

  function KindOfChar(c: char): nat {
    if c == 'n' then 0 else if c == 't' then 1 else if c == 'f' then 2
    else if c == '\"' then 4 else if c == '[' then 5 else if c == '{' then 6 else 3
  }

  lemma FirstChar<N>(v: Json<N>, num: N -> NumText, r: string)
    ensures PrintTo(v, num, r) != "" && KindOfChar(PrintTo(v, num, r)[0]) == Kind(v)
    ensures PrintTo(v, num, r)[0] != ']'
  {
  }

  /** Printed documents are uniquely readable, whatever follows them. */
  lemma {:induction false} PrintUnique<N(!new)>(v: Json<N>, w: Json<N>, num: N -> NumText, r: string, s: string)
    requires Injective(num) && Closed(r) && Closed(s)
    requires PrintTo(v, num, r) == PrintTo(w, num, s)
    ensures v == w && r == s
    decreases v
  {
    FirstChar(v, num, r);
    FirstChar(w, num, s);
    match v
    case Null => Cancel("null", "null", r, s);
    case Bool(b) => if b { Cancel("true", "true", r, s); } else { Cancel("false", "false", r, s); }
    case Num(n) => NumTextUnique(num(n), num(w.n), r, s);
    case Str(t) => QuoteUnique(t, w.s, r, s);
    case Arr(items) => ArrayUnique(items, w.items, num, r, s);
    case Obj(fields) => ObjectUnique(fields, w.fields, num, r, s);
  }

  lemma {:induction false} ArrayUnique<N(!new)>(
      a: seq<Json<N>>, b: seq<Json<N>>, num: N -> NumText, r: string, s: string)
    requires Injective(num) && Closed(r) && Closed(s)
    requires PrintTo(Arr(a), num, r) == PrintTo(Arr(b), num, s)
    ensures a == b && r == s
    decreases a, 1
  {
    var x, y := PrintTo(Arr(a), num, r), PrintTo(Arr(b), num, s);
    assert a == [] <==> x[1] == ']' by {
      if a != [] { FirstChar(a[0], num, PrintItems(a[1..], num, r)); }
    }
    assert b == [] <==> y[1] == ']' by {
      if b != [] { FirstChar(b[0], num, PrintItems(b[1..], num, s)); }
    }
    if a == [] {
      Cancel("[]", "[]", r, s);
    } else {
      var ra, rb := PrintItems(a[1..], num, r), PrintItems(b[1..], num, s);
      Cancel(['['], ['['], PrintTo(a[0], num, ra), PrintTo(b[0], num, rb));
      PrintUnique(a[0], b[0], num, ra, rb);
      ItemsUnique(a[1..], b[1..], num, r, s);
      assert a == [a[0]] + a[1..] && b == [b[0]] + b[1..];
    }
  }

  lemma {:induction false} ObjectUnique<N(!new)>(
      a: seq<Field<N>>, b: seq<Field<N>>, num: N -> NumText, r: string, s: string)
    requires Injective(num) && Closed(r) && Closed(s)
    requires PrintTo(Obj(a), num, r) == PrintTo(Obj(b), num, s)
    ensures a == b && r == s
    decreases a, 1
  {
    var x, y := PrintTo(Obj(a), num, r), PrintTo(Obj(b), num, s);
    assert (a == [] <==> x[1] == '}') && (b == [] <==> y[1] == '}');
    if a == [] {
      Cancel("{}", "{}", r, s);
    } else {
      var ra, rb := PrintFields(a[1..], num, r), PrintFields(b[1..], num, s);
      Cancel(['{'], ['{'], PrintField(a[0], num, ra), PrintField(b[0], num, rb));
      FieldUnique(a[0], b[0], num, ra, rb);
      FieldsUnique(a[1..], b[1..], num, r, s);
      assert a == [a[0]] + a[1..] && b == [b[0]] + b[1..];
    }
  }

  lemma {:induction false} FieldUnique<N(!new)>(f: Field<N>, g: Field<N>, num: N -> NumText, r: string, s: string)
    requires Injective(num) && Closed(r) && Closed(s)
    requires PrintField(f, num, r) == PrintField(g, num, s)
    ensures f == g && r == s
    decreases f
  {
    QuoteUnique(f.key, g.key, [':'] + PrintTo(f.value, num, r), [':'] + PrintTo(g.value, num, s));
    Cancel([':'], [':'], PrintTo(f.value, num, r), PrintTo(g.value, num, s));
    PrintUnique(f.value, g.value, num, r, s);
  }

  lemma {:induction false} ItemsUnique<N(!new)>(
      a: seq<Json<N>>, b: seq<Json<N>>, num: N -> NumText, r: string, s: string)
    requires Injective(num)
    requires PrintItems(a, num, r) == PrintItems(b, num, s)
    ensures a == b && r == s
    decreases a
  {
    if a == [] {
      Cancel([']'], [']'], r, s);
    } else {
      var ra, rb := PrintItems(a[1..], num, r), PrintItems(b[1..], num, s);
      Cancel([','], [','], PrintTo(a[0], num, ra), PrintTo(b[0], num, rb));
      PrintUnique(a[0], b[0], num, ra, rb);
      ItemsUnique(a[1..], b[1..], num, r, s);
      assert a == [a[0]] + a[1..] && b == [b[0]] + b[1..];
    }
  }

  lemma {:induction false} FieldsUnique<N(!new)>(
      a: seq<Field<N>>, b: seq<Field<N>>, num: N -> NumText, r: string, s: string)
    requires Injective(num)
    requires PrintFields(a, num, r) == PrintFields(b, num, s)
    ensures a == b && r == s
    decreases a
  {
    if a == [] {
      Cancel(['}'], ['}'], r, s);
    } else {
      var ra, rb := PrintFields(a[1..], num, r), PrintFields(b[1..], num, s);
      Cancel([','], [','], PrintField(a[0], num, ra), PrintField(b[0], num, rb));
      FieldUnique(a[0], b[0], num, ra, rb);
      FieldsUnique(a[1..], b[1..], num, r, s);
      assert a == [a[0]] + a[1..] && b == [b[0]] + b[1..];
    }
  }

  /**
   Comparing the text is comparing the documents, member order included.  Numbers must have a text each, as the
   finite doubles do; no printing does that for all reals.
   */
  lemma PrintInjective<N(!new)>(v: Json<N>, w: Json<N>, num: N -> NumText)
    requires Injective(num)
    ensures Print(v, num) == Print(w, num) <==> v == w
  {
    if Print(v, num) == Print(w, num) {
      PrintUnique(v, w, num, "", "");
    }
  }

  // ----- the same text without the accumulator -----

  /** The texts with commas between them. */
  function Commas(texts: seq<string>): string {
    if texts == [] then "" else if |texts| == 1 then texts[0] else texts[0] + "," + Commas(texts[1..])
  }

  function Escaped(s: string): string {
    if s == "" then "" else EscapeCode(s[0]) + Escaped(s[1..])
  }

  function Quoted(s: string): string {
    "\"" + Escaped(s) + "\""
  }

  function Show<N>(v: Json<N>, num: N -> NumText): string {
    match v
    case Null => "null"
    case Bool(b) => if b then "true" else "false"
    case Num(n) => num(n)
    case Str(s) => Quoted(s)
    case Arr(items) =>
      "[" + Commas(seq(|items|, i requires 0 <= i < |items| => Show(items[i], num))) + "]"
    case Obj(fields) =>
      "{" + Commas(seq(|fields|, i requires 0 <= i < |fields| =>
                         Quoted(fields[i].key) + ":" + Show(fields[i].value, num))) + "}"
  }

  lemma {:induction false} EscapeIs(s: string, rest: string)
    ensures Escape(s, rest) == Escaped(s) + "\"" + rest
  {
    hide EscapeCode;
    if s == "" {
      assert "" + "\"" + rest == ['\"'] + rest;
    } else {
      EscapeIs(s[1..], rest);
      assert EscapeCode(s[0]) + (Escaped(s[1..]) + "\"" + rest) == EscapeCode(s[0]) + Escaped(s[1..]) + "\"" + rest;
    }
  }

  lemma QuoteIs(s: string, rest: string)
    ensures Quote(s, rest) == Quoted(s) + rest
  {
    EscapeIs(s, rest);
    assert ['\"'] + (Escaped(s) + "\"" + rest) == "\"" + Escaped(s) + "\"" + rest;
  }

  lemma CommasFirst(texts: seq<string>)
    requires texts != []
    ensures Commas(texts) == texts[0] + After(texts[1..])
  {
    if |texts| == 1 {
      assert texts[0] + "" == texts[0];
    }
  }

  /** The texts after the first, each with the comma before it. */
  function After(texts: seq<string>): string {
    if texts == [] then "" else "," + Commas(texts)
  }

  function ShowItems<N>(items: seq<Json<N>>, num: N -> NumText): (r: seq<string>)
    ensures |r| == |items|
  {
    seq(|items|, i requires 0 <= i < |items| => Show(items[i], num))
  }

  function ShowField<N>(f: Field<N>, num: N -> NumText): string {
    Quoted(f.key) + ":" + Show(f.value, num)
  }

  function ShowFields<N>(fields: seq<Field<N>>, num: N -> NumText): (r: seq<string>)
    ensures |r| == |fields|
  {
    seq(|fields|, i requires 0 <= i < |fields| => ShowField(fields[i], num))
  }

  /** Printing in front of `rest` is printing, followed by `rest`. */
  lemma {:induction false} PrintToIs<N>(v: Json<N>, num: N -> NumText, rest: string)
    ensures PrintTo(v, num, rest) == Show(v, num) + rest
    decreases v, 1
  {
    hide Quote, Quoted, Commas;
    match v
    case Null =>
    case Bool(_) =>
    case Num(_) =>
    case Str(s) => QuoteIs(s, rest);
    case Arr(items) =>
      var texts := ShowItems(items, num);
      if items == [] {
        NoCommas();
        assert texts == [] && "[" + "" + "]" + rest == "[]" + rest;
      } else {
        PrintToIs(items[0], num, PrintItems(items[1..], num, rest));
        PrintItemsIs(items[1..], num, rest);
        CommasFirst(texts);
        assert texts[1..] == ShowItems(items[1..], num);
        Brackets("[", texts[0], After(texts[1..]), "]", rest);
      }
    case Obj(fields) =>
      var texts := ShowFields(fields, num);
      assert seq(|fields|, i requires 0 <= i < |fields| =>
                   Quoted(fields[i].key) + ":" + Show(fields[i].value, num)) == texts;
      if fields == [] {
        NoCommas();
        assert texts == [] && "{" + "" + "}" + rest == "{}" + rest;
      } else {
        PrintFieldIs(fields[0], num, PrintFields(fields[1..], num, rest));
        PrintFieldsIs(fields[1..], num, rest);
        CommasFirst(texts);
        assert texts[1..] == ShowFields(fields[1..], num);
        Brackets("{", texts[0], After(texts[1..]), "}", rest);
      }
  }

  lemma NoCommas()
    ensures Commas([]) == ""
  {
  }

  lemma Brackets(open: string, first: string, others: string, shut: string, rest: string)
    ensures open + (first + (others + shut + rest)) == open + (first + others) + shut + rest
  {
  }

  lemma {:induction false} PrintFieldIs<N>(f: Field<N>, num: N -> NumText, rest: string)
    ensures PrintField(f, num, rest) == ShowField(f, num) + rest
    decreases f, 2
  {
    hide Quote, Quoted;
    PrintToIs(f.value, num, rest);
    QuoteIs(f.key, [':'] + PrintTo(f.value, num, rest));
    Brackets(Quoted(f.key), ":", Show(f.value, num), rest, "");
    assert Quoted(f.key) + ([':'] + (Show(f.value, num) + rest)) == Quoted(f.key) + ":" + Show(f.value, num) + rest;
  }

  lemma {:induction false} PrintItemsIs<N>(items: seq<Json<N>>, num: N -> NumText, rest: string)
    ensures PrintItems(items, num, rest) == After(ShowItems(items, num)) + "]" + rest
    decreases items
  {
    hide Commas, Show;
    var texts := ShowItems(items, num);
    if items == [] {
      assert texts == [] && "" + "]" + rest == [']'] + rest;
    } else {
      PrintToIs(items[0], num, PrintItems(items[1..], num, rest));
      PrintItemsIs(items[1..], num, rest);
      CommasFirst(texts);
      assert texts[1..] == ShowItems(items[1..], num);
      Brackets(",", texts[0], After(texts[1..]), "]", rest);
    }
  }

  lemma {:induction false} PrintFieldsIs<N>(fields: seq<Field<N>>, num: N -> NumText, rest: string)
    ensures PrintFields(fields, num, rest) == After(ShowFields(fields, num)) + "}" + rest
    decreases fields
  {
    hide Commas, Show;
    var texts := ShowFields(fields, num);
    if fields == [] {
      assert texts == [] && "" + "}" + rest == ['}'] + rest;
    } else {
      PrintFieldIs(fields[0], num, PrintFields(fields[1..], num, rest));
      PrintFieldsIs(fields[1..], num, rest);
      CommasFirst(texts);
      assert texts[1..] == ShowFields(fields[1..], num);
      Brackets(",", texts[0], After(texts[1..]), "}", rest);
    }
  }

  /** The printer as RFC 8259 has it: words, brackets, commas and colons, without white space. */
  lemma PrintIs<N>(v: Json<N>, num: N -> NumText)
    ensures Print(v, num) == Show(v, num)
  {
    hide Show;
    PrintToIs(v, num, "");
    assert Show(v, num) + "" == Show(v, num);
  }

  /** The escapes of section 7. */
  lemma EscapesAre(c: char)
    ensures EscapeCode('\"') == "\\\"" && EscapeCode('\\') == "\\\\" && EscapeCode('\n') == "\\n"
    ensures EscapeCode('\t') == "\\t" && EscapeCode('\r') == "\\r" && EscapeCode('\U{08}') == "\\b"
    ensures EscapeCode('\U{0C}') == "\\f" && EscapeCode('\U{01}') == "\\u0001" && EscapeCode('\U{1F}') == "\\u001f"
    ensures c >= ' ' && c != '\"' && c != '\\' ==> EscapeCode(c) == [c]
  {
  }
}
