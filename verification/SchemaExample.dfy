/**
 A small protocol schema in the style of the repository's: a tagged union of two messages, one of them with a
 referenced member.  It meets every condition of the schema theorems at once.
 */
module SchemaExample {
  import opened Prelude
  import opened Json
  import opened Text
  import opened TypeText
  import opened TypeRenderer
  import opened SchemaDocument
  import opened SchemaNodes
  import opened SchemaPointer
  import opened SchemaValidator
  import opened SchemaSoundness
  import opened SchemaStandard
  import opened SchemaTagged
  import opened SchemaExact
  import opened SchemaTight
  import opened SchemaTermination
  import opened SchemaAnswers

  function Pair(a: string, v: Value, b: string, w: Value): Value {
    Obj([Field(a, v), Field(b, w)])
  }

  const TEXT: Value := Obj([Field("type", Str("string"))])
  const TEXT_REF: Value := Obj([Field("$ref", Str("#/s"))])

  function Tag(tag: string): Value {
    Obj([Field("enum", Arr([Str(tag)]))])
  }

  /** An object with a tag and one member of its own. */
  function Message(tag: string, member: Value): Value {
    Obj([Field("type", Str("object")),
         Field("properties", Pair("type", Tag(tag), "text", member)),
         Field("required", Arr([Str("type")]))])
  }

  const DOCUMENT: Value := Pair("oneOf", Arr([Message("a", TEXT), Message("b", TEXT_REF)]), "s", TEXT)

  const NODES: set<Value> := {DOCUMENT, Message("a", TEXT), Message("b", TEXT_REF), Tag("a"), Tag("b"), TEXT, TEXT_REF}

  /** Keywords differ in length or in their first letter. */
  function Mark(key: string): (nat, char) {
    (|key|, if key == "" then ' ' else key[0])
  }

  lemma Marks()
    ensures Mark("$ref") == (4, '$') && Mark("enum") == (4, 'e') && Mark("type") == (4, 't') && Mark("text") == (4, 't')
    ensures Mark("const") == (5, 'c') && Mark("anyOf") == (5, 'a') && Mark("oneOf") == (5, 'o')
    ensures Mark("allOf") == (5, 'a')
    ensures Mark("items") == (5, 'i') && Mark("minimum") == (7, 'm') && Mark("required") == (8, 'r')
    ensures Mark("properties") == (10, 'p') && Mark("additionalProperties") == (20, 'a') && Mark("s") == (1, 's')
  {
  }

  lemma GetOne(a: string, v: Value, k: string)
    ensures Get(Obj([Field(a, v)]), k) == if a == k then Some(v) else None
  {
    assert [Field(a, v)][1..] == [];
  }

  lemma GetTwo(a: string, v: Value, b: string, w: Value, k: string)
    ensures Get(Pair(a, v, b, w), k) == if a == k then Some(v) else if b == k then Some(w) else None
  {
    assert [Field(a, v), Field(b, w)][1..] == [Field(b, w)];
    GetOne(b, w, k);
  }

  lemma GetMessage(tag: string, member: Value, k: string)
    ensures Get(Message(tag, member), k) ==
      if k == "type" then Some(Str("object"))
      else if k == "properties" then Some(Pair("type", Tag(tag), "text", member))
      else if k == "required" then Some(Arr([Str("type")])) else None
  {
    var rest := [Field("properties", Pair("type", Tag(tag), "text", member)), Field("required", Arr([Str("type")]))];
    assert Message(tag, member).fields[1..] == rest;
    GetTwo("properties", rest[0].value, "required", rest[1].value, k);
  }

  lemma MessageKeys(tag: string, member: Value)
    ensures var m := Message(tag, member);
      && ValidatorShape(m) == RendererShape(m) == Plain
      && Get(m, "type") == Some(Str("object")) && Get(m, "minimum").None? && Get(m, "items").None?
      && Get(m, "additionalProperties").None? && Get(m, "required") == Some(Arr([Str("type")]))
      && Get(m, "properties") == Some(Pair("type", Tag(tag), "text", member))
      && Only(m, PLAIN_KEYWORDS)
  {
    var m := Message(tag, member);
    hide Get;
    Marks();
    forall k ensures Get(m, k) ==
      if k == "type" then Some(Str("object"))
      else if k == "properties" then Some(Pair("type", Tag(tag), "text", member))
      else if k == "required" then Some(Arr([Str("type")])) else None
    {
      GetMessage(tag, member, k);
    }
  }

  lemma TagKeys(tag: string)
    ensures ValidatorShape(Tag(tag)) == RendererShape(Tag(tag)) == EnumOf([Str(tag)])
    ensures Get(Tag(tag), "type").None? && Only(Tag(tag), {"enum", "type"})
  {
    hide Get;
    Marks();
    forall k ensures Get(Tag(tag), k) == if "enum" == k then Some(Arr([Str(tag)])) else None {
      GetOne("enum", Arr([Str(tag)]), k);
    }
  }

  lemma TextKeys()
    ensures ValidatorShape(TEXT) == RendererShape(TEXT) == Plain
    ensures Get(TEXT, "type") == Some(Str("string")) && Only(TEXT, {"type"})
  {
    hide Get;
    Marks();
    forall k ensures Get(TEXT, k) == if "type" == k then Some(Str("string")) else None {
      GetOne("type", Str("string"), k);
    }
  }

  lemma RefKeys()
    ensures ValidatorShape(TEXT_REF) == RendererShape(TEXT_REF) == Reference("#/s")
    ensures Only(TEXT_REF, {"$ref"})
  {
    hide Get;
    Marks();
    forall k ensures Get(TEXT_REF, k) == if "$ref" == k then Some(Str("#/s")) else None {
      GetOne("$ref", Str("#/s"), k);
    }
  }

  lemma DocumentKeys()
    ensures ValidatorShape(DOCUMENT) == RendererShape(DOCUMENT)
         == Combine(OneOf, [Message("a", TEXT), Message("b", TEXT_REF)])
    ensures Only(DOCUMENT, {"oneOf"}) && Get(DOCUMENT, "s") == Some(TEXT)
  {
    hide Get;
    Marks();
    var variants := Arr([Message("a", TEXT), Message("b", TEXT_REF)]);
    forall k
      ensures Get(DOCUMENT, k) == if "oneOf" == k then Some(variants) else if "s" == k then Some(TEXT) else None
    {
      GetTwo("oneOf", variants, "s", TEXT, k);
    }
  }

  lemma TextTarget()
    ensures Resolve(DOCUMENT, "#/s") == Target(DOCUMENT, "#/s") == Some(TEXT)
  {
    DocumentKeys();
    assert "#/s"[..2] == "#/" && "#/s"[2..] == "s";
    assert '/' !in "s";
    SplitOne("s", '/');
    assert ["s"][1..] == [];
    assert Walk(TEXT, []) == Some(TEXT);
    assert Walk(DOCUMENT, ["s"]) == Some(TEXT);
  }

  /** The conditions of soundness, of the standard and of exactness on one node. */
  ghost predicate MeetsAll(s: Value) {
    ClosedAt(DOCUMENT, NODES, s) && SoundNode(s) && StandardNode(s) && ExactNode(DOCUMENT, s) && AnswerNode(DOCUMENT, s)
  }

  /** Everything the conditions ask about a message. */
  lemma MessageNode(tag: string, member: Value)
    requires Tag(tag) in NODES && member in NODES
    ensures MeetsAll(Message(tag, member)) && TightPlain(Message(tag, member))
  {
    MessageKeys(tag, member);
    hide Get, ValidatorShape, RendererShape, Message, Tag;
    MessageMeets(Message(tag, member), tag, member);
  }

  lemma MessageMeets(m: Value, tag: string, member: Value)
    requires Tag(tag) in NODES && member in NODES
    requires ValidatorShape(m) == RendererShape(m) == Plain && Only(m, PLAIN_KEYWORDS)
    requires Get(m, "type") == Some(Str("object")) && Get(m, "minimum").None? && Get(m, "items").None?
    requires Get(m, "additionalProperties").None? && Get(m, "required") == Some(Arr([Str("type")]))
    requires Get(m, "properties") == Some(Pair("type", Tag(tag), "text", member))
    ensures MeetsAll(m) && TightPlain(m)
  {
    hide Get, ValidatorShape, RendererShape, Tag, Only;
    var properties := Entries(Get(m, "properties"));
    assert properties == [Field("type", Tag(tag)), Field("text", member)];
    var required := Elements(Get(m, "required"));
    assert required == [Str("type")];
    assert HasKey(properties, "type");
  }

  lemma LeafNodes(tag: string)
    ensures MeetsAll(Tag(tag))
    ensures MeetsAll(TEXT) && TightPlain(TEXT)
  {
    TagKeys(tag);
    TextKeys();
    hide Get, ValidatorShape, RendererShape;
    Marks();
    var other := {"required", "properties", "additionalProperties", "items", "minimum"};
    assert forall k :: k in other ==> Get(TEXT, k).None?;
    assert "properties" in other && "required" in other && "additionalProperties" in other;
    assert "items" in other && "minimum" in other;
  }

  lemma RefNode()
    ensures MeetsAll(TEXT_REF)
  {
    RefKeys();
    TextTarget();
    TextPlain();
    hide Get, ValidatorShape, RendererShape, Resolve, PlainReference;
  }

  lemma TextPlain()
    ensures PlainReference("#/s")
  {
    assert "#/s"[..2] == "#/" && "#/s"[2..] == "s";
    assert '/' !in "s";
    SplitOne("s", '/');
    assert PointerParts("#/s") == Some(["s"]);
    assert !IsIndex("s") by { assert "s"[0] == 's'; }
  }

  lemma MessageTagged(tag: string, member: Value)
    ensures Tagged(Message(tag, member), tag)
  {
    MessageKeys(tag, member);
    TagKeys(tag);
    hide Get, ValidatorShape, RendererShape;
    var properties := Entries(Get(Message(tag, member), "properties"));
    assert properties[0] == Field("type", Tag(tag));
    assert Lookup(properties, "type") == Some(Tag(tag));
  }

  lemma DocumentNode()
    ensures MeetsAll(DOCUMENT)
  {
    DocumentKeys();
    MessageTagged("a", TEXT);
    MessageTagged("b", TEXT_REF);
    hide Get, ValidatorShape, RendererShape, Tagged;
    var tags := ["a", "b"];
    assert "a"[0] != "b"[0];
    assert TaggedUnion([Message("a", TEXT), Message("b", TEXT_REF)], tags);
  }

  lemma NodeMeetsAll(s: Value)
    requires s in NODES
    ensures MeetsAll(s)
  {
    hide Get, ValidatorShape, RendererShape, ClosedAt, SoundNode, StandardNode, ExactNode, AnswerNode;
    if s == DOCUMENT {
      DocumentNode();
    } else if s == Message("a", TEXT) {
      MessageNode("a", TEXT);
    } else if s == Message("b", TEXT_REF) {
      MessageNode("b", TEXT_REF);
    } else if s == TEXT_REF {
      RefNode();
    } else {
      LeafNodes("a");
      LeafNodes("b");
    }
  }

  /** The conditions of soundness, of the standard and of exactness hold together. */
  lemma ExampleConditions()
    ensures SoundNodes(DOCUMENT, NODES) && StandardNodes(DOCUMENT, NODES) && DOCUMENT in NODES
    ensures ExactNodes(DOCUMENT, NODES) && AnswerNodes(DOCUMENT, NODES)
  {
    hide ClosedAt, SoundNode, StandardNode, ExactNode, AnswerNode, Message, Tag, Pair;
    forall s | s in NODES
      ensures ClosedAt(DOCUMENT, NODES, s) && SoundNode(s) && StandardNode(s)
      ensures ExactNode(DOCUMENT, s) && AnswerNode(DOCUMENT, s)
    {
      NodeMeetsAll(s);
    }
  }

  lemma TextTight(n: nat, seen: set<string>)
    requires n > 0
    ensures Tight(n, DOCUMENT, TEXT, seen)
  {
    TextKeys();
    LeafNodes("a");
    hide Get, ValidatorShape, RendererShape, TightPlain;
    Marks();
    var other := {"properties", "additionalProperties", "items"};
    assert forall k :: k in other ==> Get(TEXT, k).None?;
    assert "properties" in other && "additionalProperties" in other && "items" in other;
  }

  lemma RefTight()
    ensures Tight(2, DOCUMENT, TEXT_REF, {})
  {
    RefKeys();
    TextTarget();
    TextTight(1, {"#/s"});
    assert {} + {"#/s"} == {"#/s"};
    hide Get, ValidatorShape, RendererShape, Resolve, Target;
  }

  lemma TagTight(tag: string)
    ensures Tight(2, DOCUMENT, Tag(tag), {})
  {
    TagKeys(tag);
    hide Get, ValidatorShape, RendererShape;
  }

  lemma MessageTight(tag: string, member: Value)
    requires Tag(tag) in NODES && member in NODES && Tight(2, DOCUMENT, member, {})
    ensures Tight(3, DOCUMENT, Message(tag, member), {})
  {
    MessageKeys(tag, member);
    MessageNode(tag, member);
    TagTight(tag);
    hide Get, ValidatorShape, RendererShape, TightPlain, Message;
    PlainMessageTight(Message(tag, member), tag, member);
  }

  lemma PlainMessageTight(m: Value, tag: string, member: Value)
    requires ValidatorShape(m) == RendererShape(m) == Plain && TightPlain(m)
    requires Get(m, "properties") == Some(Pair("type", Tag(tag), "text", member))
    requires Get(m, "items").None? && Get(m, "additionalProperties").None?
    requires Tight(2, DOCUMENT, Tag(tag), {}) && Tight(2, DOCUMENT, member, {})
    ensures Tight(3, DOCUMENT, m, {})
  {
    hide Get, ValidatorShape, RendererShape, TightPlain, Tag;
    var properties := Entries(Get(m, "properties"));
    assert properties == [Field("type", Tag(tag)), Field("text", member)];
    TightAtThree(m, properties);
  }

  lemma TightAtThree(m: Value, properties: seq<Field<real>>)
    requires ValidatorShape(m) == RendererShape(m) == Plain && TightPlain(m)
    requires properties == Entries(Get(m, "properties"))
    requires Get(m, "items").None? && Get(m, "additionalProperties").None?
    requires forall i :: 0 <= i < |properties| ==> Tight(2, DOCUMENT, properties[i].value, {})
    ensures Tight(3, DOCUMENT, m, {})
  {
    hide Get, ValidatorShape, RendererShape, TightPlain;
  }

  lemma UnionTight(n: nat, s: Value, variants: seq<Value>)
    requires ValidatorShape(s) == RendererShape(s) == Combine(OneOf, variants) && variants != []
    requires forall i :: 0 <= i < |variants| ==> Tight(n, DOCUMENT, variants[i], {})
    ensures Tight(n + 1, DOCUMENT, s, {})
  {
    hide Get, ValidatorShape, RendererShape, TightPlain;
  }

  lemma DocumentTight()
    ensures Tight(4, DOCUMENT, DOCUMENT, {})
  {
    hide Get, ValidatorShape, RendererShape, TightPlain, Tight, Message;
    DocumentKeys();
    TextTight(2, {});
    RefTight();
    MessageTight("a", TEXT);
    MessageTight("b", TEXT_REF);
    UnionTight(3, DOCUMENT, [Message("a", TEXT), Message("b", TEXT_REF)]);
  }

  lemma SimplyGrounded(n: nat, s: Value)
    requires !ValidatorShape(s).Reference? && !ValidatorShape(s).Combine?
    ensures Grounded(n, DOCUMENT, s)
  {
    hide ValidatorShape;
  }

  lemma RefGrounded(n: nat)
    requires n > 0
    ensures Grounded(n, DOCUMENT, TEXT_REF)
  {
    RefKeys();
    TextTarget();
    TextKeys();
    SimplyGrounded(n - 1, TEXT);
    hide ValidatorShape, RendererShape, Target, Resolve;
    GroundedUnfolds(n, DOCUMENT, TEXT_REF);
  }

  lemma MessageGrounded(n: nat, tag: string, member: Value)
    ensures Grounded(n, DOCUMENT, Message(tag, member)) && Grounded(n, DOCUMENT, Tag(tag))
  {
    MessageKeys(tag, member);
    TagKeys(tag);
    hide ValidatorShape, RendererShape, Grounded;
    SimplyGrounded(n, Message(tag, member));
    SimplyGrounded(n, Tag(tag));
  }

  lemma UnionGrounded(n: nat, s: Value, variants: seq<Value>)
    requires ValidatorShape(s) == Combine(OneOf, variants)
    requires forall i :: 0 <= i < |variants| ==> Grounded(n, DOCUMENT, variants[i])
    ensures Grounded(n + 1, DOCUMENT, s)
  {
    hide ValidatorShape, Grounded;
    GroundedUnfolds(n + 1, DOCUMENT, s);
  }

  lemma DocumentGrounded()
    ensures Grounded(3, DOCUMENT, DOCUMENT)
  {
    hide ValidatorShape, RendererShape, Grounded, Message, Tag, Get;
    DocumentKeys();
    MessageGrounded(2, "a", TEXT);
    MessageGrounded(2, "b", TEXT_REF);
    UnionGrounded(2, DOCUMENT, [Message("a", TEXT), Message("b", TEXT_REF)]);
  }

  lemma NodesGrounded()
    ensures GroundedNodes(3, DOCUMENT, NODES)
  {
    hide ClosedAt, SoundNode, StandardNode, ExactNode, Grounded, ValidatorShape, RendererShape;
    ExampleConditions();
    forall s | s in NODES ensures Grounded(3, DOCUMENT, s) {
      if s == DOCUMENT {
        DocumentGrounded();
      } else if s == TEXT_REF {
        RefGrounded(3);
      } else if s == TEXT {
        TextKeys();
        SimplyGrounded(3, TEXT);
      } else {
        MessageGrounded(3, "a", TEXT);
        MessageGrounded(3, "b", TEXT_REF);
      }
    }
  }

  /** The nodes the readers come to meet the conditions of every theorem. */
  lemma ReachableConditions()
    ensures SoundDocument(DOCUMENT) && Answerable(DOCUMENT) && !UnguardedCycle(DOCUMENT, Reachable(DOCUMENT))
  {
    hide Reachable, SoundNode, StandardNode, ExactNode, AnswerNode, UnguardedCycle, ClosedAt, Grounded;
    ExampleConditions();
    NodesGrounded();
    SoundSomewhere(DOCUMENT, NODES);
    ReachableClosed(DOCUMENT);
    ReachableLeast(DOCUMENT, NODES);
    GroundedAcyclic(3, DOCUMENT, NODES);
    FewerNodes(DOCUMENT, NODES, Reachable(DOCUMENT));
  }

  /**
   On this document the validator and the standard both answer on every value, and the validator's answer, the
   exported type and the standard agree.
   */
  lemma ExampleExact(d: nat, n: nat, v: Value)
    requires WellFormed(v) && d >= Depth(DOCUMENT, v) && n >= Depth(DOCUMENT, v)
    ensures Validate(d, DOCUMENT, DOCUMENT, v, []).Some? && Verdict(n, DOCUMENT, DOCUMENT, v).Some?
    ensures Validate(d, DOCUMENT, DOCUMENT, v, []) == Some([]) <==> Inhabits(v, RenderDocument(DOCUMENT))
    ensures Validate(d, DOCUMENT, DOCUMENT, v, []) == Some([]) <==> Verdict(n, DOCUMENT, DOCUMENT, v) == Some(true)
  {
    hide Validate, Verdict, Tight, SoundDocument, Answerable, UnguardedCycle, Depth, RenderDocument, Inhabits;
    ReachableConditions();
    DocumentTight();
    DocumentExact(d, n, DOCUMENT, v, []);
    TypeExact(4, d, DOCUMENT, v, []);
  }

  // ----- a document on which validation never returns -----

  const LOOP_REF: Value := Obj([Field("$ref", Str("#/a"))])
  const LOOP: Value := Pair("$ref", Str("#/a"), "a", LOOP_REF)

  lemma LoopKeys()
    ensures ValidatorShape(LOOP) == ValidatorShape(LOOP_REF) == Reference("#/a") && Get(LOOP, "a") == Some(LOOP_REF)
  {
    hide Get;
    Marks();
    assert Mark("a") == (1, 'a');
    GetOne("$ref", Str("#/a"), "$ref");
    GetTwo("$ref", Str("#/a"), "a", LOOP_REF, "$ref");
    GetTwo("$ref", Str("#/a"), "a", LOOP_REF, "a");
  }

  /** A reference to itself: no depth suffices, on any value. */
  lemma LoopNeverReturns(depth: nat, v: Value, path: Path)
    ensures Validate(depth, LOOP, LOOP, v, path).None?
  {
    LoopKeys();
    hide Get, ValidatorShape, Validate;
    assert "#/a"[..2] == "#/" && "#/a"[2..] == "a";
    assert '/' !in "a";
    SplitOne("a", '/');
    assert ["a"][1..] == [];
    assert Walk(LOOP_REF, []) == Some(LOOP_REF);
    assert Target(LOOP, "#/a") == Some(LOOP_REF);
    assert Link(LOOP, LOOP_REF, LOOP_REF);
    CycleNeverReturns(depth, LOOP, [LOOP_REF, LOOP_REF], 0, v, path);
    if depth > 0 {
      ValidateReference(depth, LOOP, LOOP, v, path);
      CycleNeverReturns(depth - 1, LOOP, [LOOP_REF, LOOP_REF], 0, v, path);
    } else {
      NoDepth(LOOP, LOOP, v, path);
    }
  }

  lemma NoDepth(root: Value, schema: Value, v: Value, path: Path)
    ensures Validate(0, root, schema, v, path).None?
  {
  }

  // ----- a reference the two readings take differently -----

  const NUMBER: Value := Obj([Field("type", Str("number"))])
  const ESCAPED: Value := Obj([Field("$ref", Str("#/a~1b")), Field("a/b", TEXT), Field("a~1b", NUMBER)])

  lemma EscapedKeys(k: string)
    ensures Get(ESCAPED, k) ==
      if k == "$ref" then Some(Str("#/a~1b")) else if k == "a/b" then Some(TEXT)
      else if k == "a~1b" then Some(NUMBER) else None
  {
    assert ESCAPED.fields[1..] == Pair("a/b", TEXT, "a~1b", NUMBER).fields;
    GetTwo("a/b", TEXT, "a~1b", NUMBER, k);
  }

  lemma EscapedShape()
    ensures ValidatorShape(ESCAPED) == Reference("#/a~1b") && Only(ESCAPED, {"$ref"})
    ensures Get(ESCAPED, "a~1b") == Some(NUMBER) && Get(ESCAPED, "a/b") == Some(TEXT)
  {
    hide Get;
    Marks();
    assert |"a/b"| == 3 && |"a~1b"| == 4 && "a~1b"[0] == 'a' && "a~1b"[1] == '~' && "$ref"[0] == '$';
    forall k ensures Get(ESCAPED, k) ==
      if k == "$ref" then Some(Str("#/a~1b")) else if k == "a/b" then Some(TEXT)
      else if k == "a~1b" then Some(NUMBER) else None
    {
      EscapedKeys(k);
    }
  }

  lemma EscapedParts()
    ensures PointerParts("#/a~1b") == Some(["a~1b"]) && StandardParts("#/a~1b") == Some(["a/b"])
  {
    assert "#/a~1b"[..2] == "#/" && "#/a~1b"[2..] == "a~1b" && "#/a~1b"[1..] == "/a~1b" && "/a~1b"[1..] == "a~1b";
    assert '/' !in "a~1b" && '%' !in "/a~1b";
    SplitOne("a~1b", '/');
    DecodesToItself("/a~1b");
    EscapedName();
    hide PercentDecode, Split, Unescape;
    assert ["a~1b"][1..] == [];
    assert UnescapeAll([]) == Some([]);
    assert ["a/b"] + [] == ["a/b"];
    assert UnescapeAll(["a~1b"]).value == ["a/b"];
  }

  lemma EscapedName()
    ensures Unescape("a~1b") == Some("a/b")
  {
    assert "b"[1..] == "" && "b"[0] == 'b' && ['b'] + "" == "b";
    assert Unescape("") == Some("");
    assert Unescape("b") == Some("b");
    assert "~1b"[0] == '~' && "~1b"[1] == '1' && "~1b"[2..] == "b" && ['/'] + "b" == "/b";
    assert Unescape("~1b") == Some("/b");
    assert "a~1b"[0] == 'a' && "a~1b"[1..] == "~1b" && ['a'] + "/b" == "a/b";
  }

  lemma EscapedTargets()
    ensures Target(ESCAPED, "#/a~1b") == Some(NUMBER) && StandardResolve(ESCAPED, "#/a~1b") == Some(TEXT)
  {
    EscapedShape();
    EscapedParts();
    hide Get, PointerParts, StandardParts, ValidatorShape;
    assert ["a~1b"][1..] == [] && ["a/b"][1..] == [];
    assert Walk(NUMBER, []) == Some(NUMBER) && StandardWalk(TEXT, []) == Some(TEXT);
    assert Walk(ESCAPED, ["a~1b"]) == Some(NUMBER);
    assert StandardStep(ESCAPED, "a/b") == Some(TEXT) by {
      assert Get(ESCAPED, "a/b") == Some(TEXT);
      LookupOf(ESCAPED, "a/b");
    }
    assert StandardWalk(ESCAPED, ["a/b"]) == Some(TEXT);
  }

  lemma LookupOf(schema: Value, key: string)
    requires schema.Obj?
    ensures StandardStep(schema, key) == Get(schema, key)
  {
  }

  lemma TextVerdict(n: nat, s: string)
    requires n > 0
    ensures Verdict(n, ESCAPED, TEXT, Str(s)) == Some(true)
  {
    TextKeys();
    hide Get, ValidatorShape, RendererShape, Applicators, ObjectPart, ArrayPart;
    VerdictIs(n, ESCAPED, TEXT, Str(s));
    assert "$ref" in KEYWORDS && "anyOf" in KEYWORDS && "oneOf" in KEYWORDS && "allOf" in KEYWORDS;
    assert "enum" in KEYWORDS && "const" in KEYWORDS && "minimum" in KEYWORDS && "items" in KEYWORDS;
    assert "required" in KEYWORDS && "properties" in KEYWORDS && "additionalProperties" in KEYWORDS;
    Marks();
    NoApplicators(n - 1, ESCAPED, TEXT, Str(s));
    NoObjectPart(n - 1, ESCAPED, TEXT, Str(s));
    NoArrayPart(n - 1, ESCAPED, TEXT, Str(s));
  }

  lemma EscapedValid(n: nat, s: string)
    requires n > 1
    ensures Verdict(n, ESCAPED, ESCAPED, Str(s)) == Some(true)
  {
    hide Get, ValidatorShape, Applicators, Assertions, ObjectPart, ArrayPart, Verdict, StandardResolve, Target;
    EscapedShape();
    EscapedTargets();
    TextVerdict(n - 1, s);
    VerdictIs(n, ESCAPED, ESCAPED, Str(s));
    assert Get(ESCAPED, "$ref") == Some(Str("#/a~1b"));
    LoneReference(n - 1, ESCAPED, ESCAPED, "#/a~1b", Str(s));
  }

  lemma EscapedRefused(depth: nat, s: string)
    requires depth > 1
    ensures Validate(depth, ESCAPED, ESCAPED, Str(s), []).Some?
    ensures Validate(depth, ESCAPED, ESCAPED, Str(s), []) != Some([])
  {
    EscapedShape();
    EscapedTargets();
    NumberRefuses(depth - 1, s);
    hide Get, ValidatorShape, Validate, Target;
    ValidateReference(depth, ESCAPED, ESCAPED, Str(s), []);
  }

  /** `~1` is taken literally: a string the standard accepts is checked against the wrong schema and refused. */
  lemma EscapedReferenceRefused(depth: nat, n: nat, s: string)
    requires depth > 1 && n > 1
    ensures Verdict(n, ESCAPED, ESCAPED, Str(s)) == Some(true)
    ensures Validate(depth, ESCAPED, ESCAPED, Str(s), []).Some?
    ensures Validate(depth, ESCAPED, ESCAPED, Str(s), []) != Some([])
    ensures !PlainReference("#/a~1b")
  {
    hide Verdict, Validate;
    EscapedValid(n, s);
    EscapedRefused(depth, s);
    assert '~' in "#/a~1b" by { assert "#/a~1b"[3] == '~'; }
    assert PointerParts("#/a~1b").Some? by { EscapedParts(); }
  }

  lemma NumberRefuses(depth: nat, s: string)
    requires depth > 0
    ensures Validate(depth, ESCAPED, NUMBER, Str(s), []).Some?
    ensures Validate(depth, ESCAPED, NUMBER, Str(s), []) != Some([])
  {
    hide Get, Validate;
    Marks();
    forall k ensures Get(NUMBER, k) == if "type" == k then Some(Str("number")) else None {
      GetOne("type", Str("number"), k);
    }
    assert ValidatorShape(NUMBER) == Plain;
    ValidatePlain(depth, ESCAPED, NUMBER, Str(s), []);
  }

  // ----- a neighbour that is not read -----

  /** A deciding keyword with `minimum` beside it, in a document that has `true` at `#/s`. */
  function Beside(keyword: string, v: Value): Value {
    Obj([Field(keyword, v), Field("minimum", Num(3.0)), Field("s", Bool(true))])
  }

  const BESIDE: set<Value> :=
    {Beside("$ref", Str("#/s")), Beside("enum", Arr([Num(1.0)])), Beside("const", Num(1.0)),
     Beside("anyOf", Arr([Bool(true)]))}

  lemma BesideKeys(keyword: string, v: Value, k: string)
    ensures Get(Beside(keyword, v), k) ==
      if k == keyword then Some(v) else if k == "minimum" then Some(Num(3.0))
      else if k == "s" then Some(Bool(true)) else None
  {
    assert Beside(keyword, v).fields[1..] == Pair("minimum", Num(3.0), "s", Bool(true)).fields;
    GetTwo("minimum", Num(3.0), "s", Bool(true), k);
  }

  const DECIDING: set<string> := {"$ref", "enum", "const", "anyOf", "oneOf", "allOf"}

  /** Of the keywords that can decide the schema has this one alone. */
  predicate Alone(s: Value, keyword: string, v: Value) {
    s.Obj? && Get(s, keyword) == Some(v) && forall k :: k in DECIDING && k != keyword ==> Get(s, k).None?
  }

  lemma AloneShape(s: Value, keyword: string, v: Value)
    requires Alone(s, keyword, v)
    ensures keyword == "$ref" && v.Str? ==> ValidatorShape(s) == Reference(v.s)
    ensures keyword == "enum" && v.Arr? ==> ValidatorShape(s) == EnumOf(v.items)
    ensures keyword == "const" ==> ValidatorShape(s) == ConstOf(v)
    ensures keyword == "anyOf" && v.Arr? ==> ValidatorShape(s) == Combine(AnyOf, v.items)
  {
    hide Get;
    Marks();
    assert "$ref" in DECIDING && "enum" in DECIDING && "const" in DECIDING && "anyOf" in DECIDING;
  }

  lemma AloneApplicators(n: nat, root: Value, s: Value, keyword: string, v: Value, w: Value)
    requires Alone(s, keyword, v)
    ensures keyword in {"$ref", "enum", "const"} ==> Combinators(n, root, s, w) == Some(true)
    ensures keyword in {"enum", "const"} ==> Applicators(n, root, s, w) == Some(true)
  {
    hide Get, Combinators, Applicators;
    Marks();
    assert "$ref" in DECIDING && "oneOf" in DECIDING && "allOf" in DECIDING && "anyOf" in DECIDING;
    if keyword in {"$ref", "enum", "const"} {
      NoCombinators(n, root, s, w);
      if keyword != "$ref" {
        NoApplicators(n, root, s, w);
      }
    }
  }

  lemma BesideAlone(keyword: string, v: Value)
    requires keyword in {"$ref", "enum", "const", "anyOf"}
    ensures Alone(Beside(keyword, v), keyword, v) && Get(Beside(keyword, v), "s") == Some(Bool(true))
  {
    Marks();
    var s := Beside(keyword, v);
    assert s.Obj?;
    hide Get, Beside;
    BesideKeys(keyword, v, keyword);
    BesideKeys(keyword, v, "s");
    forall k | k in DECIDING && k != keyword ensures Get(s, k).None? { BesideKeys(keyword, v, k); }
  }

  lemma BesideOwn(keyword: string, v: Value, n: nat)
    requires keyword in {"$ref", "enum", "const", "anyOf"}
    ensures var s := Beside(keyword, v);
      && !MinimumHolds(s, Num(1.0))
      && ObjectPart(n, s, s, Num(1.0)) == Some(true) && ArrayPart(n, s, s, Num(1.0)) == Some(true)
  {
    Marks();
    var s := Beside(keyword, v);
    hide Get, ObjectPart, ArrayPart, Beside;
    BesideKeys(keyword, v, "minimum");
    BesideKeys(keyword, v, "required");
    BesideKeys(keyword, v, "properties");
    BesideKeys(keyword, v, "additionalProperties");
    BesideKeys(keyword, v, "items");
    NoObjectPart(n, s, s, Num(1.0));
    NoArrayPart(n, s, s, Num(1.0));
  }

  /** The neighbour fails on 1, and no other keyword stands in the schema. */
  lemma BesideParts(keyword: string, v: Value, n: nat)
    requires keyword in {"$ref", "enum", "const", "anyOf"}
    ensures var s := Beside(keyword, v);
      && Alone(s, keyword, v) && Get(s, "s") == Some(Bool(true)) && !MinimumHolds(s, Num(1.0))
      && ObjectPart(n, s, s, Num(1.0)) == Some(true) && ArrayPart(n, s, s, Num(1.0)) == Some(true)
  {
    hide *;
    BesideAlone(keyword, v);
    BesideOwn(keyword, v, n);
  }

  /** Then the standard refuses the value, if it has an answer. */
  lemma BesideRefused(n: nat, s: Value)
    requires n > 0 && s.Obj? && !MinimumHolds(s, Num(1.0))
    requires ObjectPart(n - 1, s, s, Num(1.0)) == Some(true) && ArrayPart(n - 1, s, s, Num(1.0)) == Some(true)
    requires Applicators(n - 1, s, s, Num(1.0)).Some?
    ensures Verdict(n, s, s, Num(1.0)) == Some(false)
  {
    hide Get, ObjectPart, ArrayPart, Applicators, MinimumHolds, TypeHolds, EnumHolds, ConstHolds;
    VerdictIs(n, s, s, Num(1.0));
  }

  lemma RefBeside(depth: nat, n: nat)
    requires depth > 1 && n > 1
    ensures var s := Beside("$ref", Str("#/s"));
      Validate(depth, s, s, Num(1.0), []) == Some([]) && Verdict(n, s, s, Num(1.0)) == Some(false)
  {
    hide *;
    var s := Beside("$ref", Str("#/s"));
    BesideParts("$ref", Str("#/s"), n - 1);
    AloneParts(s, "$ref", Str("#/s"));
    AloneShape(s, "$ref", Str("#/s"));
    AloneApplicators(n - 1, s, s, "$ref", Str("#/s"), Num(1.0));
    BesideTarget(s);
    TextPlain();
    ResolutionAgrees(s, "#/s");
    TrueAccepts(depth - 1, n - 1, s, Num(1.0));
    ValidateReference(depth, s, s, Num(1.0), []);
    RefApplicators(n - 1, s, "#/s", Num(1.0));
    BesideRefused(n, s);
  }

  lemma AloneParts(s: Value, keyword: string, v: Value)
    requires Alone(s, keyword, v)
    ensures s.Obj? && Get(s, keyword) == Some(v)
  {
  }

  lemma TrueAccepts(depth: nat, n: nat, root: Value, v: Value)
    requires depth > 0 && n > 0
    ensures Validate(depth, root, Bool(true), v, []) == Some([]) && Verdict(n, root, Bool(true), v) == Some(true)
  {
  }

  lemma RefApplicators(n: nat, s: Value, ref: string, v: Value)
    requires Get(s, "$ref") == Some(Str(ref)) && Combinators(n, s, s, v) == Some(true)
    requires StandardResolve(s, ref).Some? && Verdict(n, s, StandardResolve(s, ref).value, v) == Some(true)
    ensures Applicators(n, s, s, v) == Some(true)
  {
    hide Get, Combinators, StandardResolve, Verdict;
  }

  lemma BesideTarget(s: Value)
    requires Get(s, "s") == Some(Bool(true))
    ensures Resolve(s, "#/s") == Target(s, "#/s") == Some(Bool(true))
  {
    hide Get;
    assert "#/s"[..2] == "#/" && "#/s"[2..] == "s";
    assert '/' !in "s";
    SplitOne("s", '/');
    assert ["s"][1..] == [];
    assert Walk(Bool(true), []) == Some(Bool(true));
    assert Walk(s, ["s"]) == Some(Bool(true));
  }

  lemma LeafBeside(depth: nat, n: nat, keyword: string, v: Value)
    requires depth > 1 && n > 1
    requires (keyword == "enum" && v == Arr([Num(1.0)])) || (keyword == "const" && v == Num(1.0))
    ensures var s := Beside(keyword, v);
      Validate(depth, s, s, Num(1.0), []) == Some([]) && Verdict(n, s, s, Num(1.0)) == Some(false)
  {
    hide *;
    var s := Beside(keyword, v);
    BesideParts(keyword, v, n - 1);
    AloneParts(s, keyword, v);
    AloneShape(s, keyword, v);
    AloneApplicators(n - 1, s, s, keyword, v, Num(1.0));
    ValidateLeaf(depth, s, s, Num(1.0), []);
    assert Num(1.0) in [Num(1.0)];
    BesideRefused(n, s);
  }

  lemma AnyBeside(depth: nat, n: nat)
    requires depth > 1 && n > 1
    ensures var s := Beside("anyOf", Arr([Bool(true)]));
      Validate(depth, s, s, Num(1.0), []) == Some([]) && Verdict(n, s, s, Num(1.0)) == Some(false)
  {
    hide *;
    var s, variants := Beside("anyOf", Arr([Bool(true)])), [Bool(true)];
    BesideParts("anyOf", Arr(variants), n - 1);
    AloneParts(s, "anyOf", Arr(variants));
    AloneShape(s, "anyOf", Arr(variants));
    TrueAccepts(depth - 1, n - 1, s, Num(1.0));
    ValidateCombine(depth, s, s, Num(1.0), []);
    CombinedOutcome(depth - 1, s, AnyOf, variants, Num(1.0), []);
    assert variants[0] == Bool(true);
    AnyApplicators(n - 1, s, Num(1.0));
    BesideRefused(n, s);
  }

  lemma AnyApplicators(n: nat, s: Value, v: Value)
    requires n > 0 && Alone(s, "anyOf", Arr([Bool(true)]))
    ensures Applicators(n, s, s, v).Some?
  {
    Marks();
    hide Get, Verdict, Applicators, Alone, Every, ExactlyOne;
    var variants := [Bool(true)];
    var vs := EachVerdict(n, s, variants, v);
    TrueAccepts(1, n, s, v);
    assert |vs| == 1 && vs[0] == Verdict(n, s, variants[0], v) == Some(true);
    assert OneCombinator(s, AnyOf, variants) by { AloneIsOne(s, variants); }
    LoneApplicator(n, s, s, AnyOf, variants, v);
  }

  lemma AloneIsOne(s: Value, variants: seq<Value>)
    requires Alone(s, "anyOf", Arr(variants))
    ensures OneCombinator(s, AnyOf, variants)
  {
    hide Get;
    Marks();
    assert "$ref" in DECIDING && "oneOf" in DECIDING && "allOf" in DECIDING;
  }

  /** In each of these documents 1 draws no hint, and the standard refuses it for its `minimum` of 3. */
  lemma SiblingMissed(depth: nat, n: nat, s: Value)
    requires depth > 1 && n > 1 && s in BESIDE
    ensures Validate(depth, s, s, Num(1.0), []) == Some([]) && Verdict(n, s, s, Num(1.0)) == Some(false)
  {
    hide Validate, Verdict, Beside;
    RefBeside(depth, n);
    LeafBeside(depth, n, "enum", Arr([Num(1.0)]));
    LeafBeside(depth, n, "const", Num(1.0));
    AnyBeside(depth, n);
  }
}
