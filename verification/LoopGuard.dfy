/**
 The loop guard: two counters that must agree with the whole history of calls and iterations.
 Hashes are a parameter; where a claim needs them to be free of collisions it says so.
 */
module LoopGuard {
  import opened Prelude
  import opened Json
  import opened JsonText
  import opened CanonicalJson
  import opened Text

  datatype DuplicateMode = WarnThenReject | WarnOnly

  datatype Config = Config(enabled: bool, maxDuplicates: nat, maxStalled: nat, mode: DuplicateMode)

  datatype Signature = Signature(toolName: string, target: Option<string>, normalizedInput: string, inputHash: nat)

  datatype Fingerprint = Fingerprint(prefixHash: nat, suffixHash: nat, totalLen: nat)

  /** The messages are left out. */
  datatype Decision = Allow | AllowWithWarning | Reject

  // ----- histories -----

  /** How often the last entry has been repeated at the end of the history, itself included. */
  function Trailing<T(==)>(h: seq<T>): (n: nat)
    ensures n <= |h| && (h != [] ==> n > 0)
  {
    if h == [] then 0
    else
      var init := h[..|h| - 1];
      if init != [] && Last(init) == Last(h) then Trailing(init) + 1 else 1
  }

  /** `Trailing` is the length of the longest constant suffix. */
  lemma {:induction false} TrailingIsLongest<T>(h: seq<T>)
    requires h != []
    ensures var n := Trailing(h);
      && (forall i :: |h| - n <= i < |h| ==> h[i] == Last(h))
      && (n < |h| ==> h[|h| - n - 1] != Last(h))
  {
    var init := h[..|h| - 1];
    if init != [] && Last(init) == Last(h) {
      TrailingIsLongest(init);
    }
  }

  /** Repetitions of the last call before it. */
  function Duplicates<T(==)>(h: seq<T>): nat {
    if h == [] then 0 else Trailing(h) - 1
  }

  /** The decision on the last call of a history. */
  function Decide<T(==)>(config: Config, h: seq<T>): Decision {
    if !config.enabled then Allow
    else if Duplicates(h) >= config.maxDuplicates && config.mode == WarnThenReject then Reject
    else if Duplicates(h) >= 1 then AllowWithWarning
    else Allow
  }

  /** `calls` and `iterations` are everything the guard was asked while enabled. */
  class LoopGuardState {
    const config: Config
    var lastCall: Option<Signature>
    var duplicates: nat
    var lastIteration: Option<(Fingerprint, nat)>
    var stalled: nat
    ghost var calls: seq<Signature>
    ghost var iterations: seq<(Fingerprint, nat)>

    ghost predicate Valid()
      reads this
    {
      && lastCall == (if calls == [] then None else Some(Last(calls)))
      && duplicates == Duplicates(calls)
      && lastIteration == (if iterations == [] then None else Some(Last(iterations)))
      && stalled == Duplicates(iterations)
    }

    constructor (config: Config)
      ensures Valid() && this.config == config && calls == [] && iterations == []
    {
      this.config := config;
      lastCall, duplicates, lastIteration, stalled := None, 0, None, 0;
      calls, iterations := [], [];
    }

    method EvaluateToolCall(signature: Signature) returns (decision: Decision)
      requires Valid()
      modifies this
      ensures Valid() && iterations == old(iterations)
      ensures calls == if config.enabled then old(calls) + [signature] else old(calls)
      ensures decision == Decide(config, old(calls) + [signature])
    {
      if !config.enabled { return Allow; }
      if lastCall == Some(signature) {
        duplicates := duplicates + 1;
      } else {
        lastCall := Some(signature);
        duplicates := 0;
      }
      calls := calls + [signature];
      assert calls[..|calls| - 1] == old(calls);
      if duplicates >= config.maxDuplicates && config.mode == WarnThenReject {
        return Reject;
      }
      if duplicates >= 1 {
        return AllowWithWarning;
      }
      return Allow;
    }

    method DetectStalledIteration(fingerprint: Fingerprint, toolCallsHash: nat) returns (isStalled: bool)
      requires Valid()
      modifies this
      ensures Valid() && calls == old(calls)
      ensures iterations == if config.enabled then old(iterations) + [(fingerprint, toolCallsHash)] else old(iterations)
      ensures isStalled <==>
        config.enabled && Duplicates(old(iterations) + [(fingerprint, toolCallsHash)]) >= config.maxStalled
    {
      if !config.enabled { return false; }
      var current := (fingerprint, toolCallsHash);
      if lastIteration == Some(current) {
        stalled := stalled + 1;
      } else {
        lastIteration := Some(current);
        stalled := 0;
      }
      iterations := iterations + [current];
      assert iterations[..|iterations| - 1] == old(iterations);
      return stalled >= config.maxStalled;
    }

    method DuplicateCount() returns (n: nat)
      requires Valid()
      ensures n == Duplicates(calls)
    {
      n := duplicates;
    }

    method StalledCount() returns (n: nat)
      requires Valid()
      ensures n == Duplicates(iterations)
    {
      n := stalled;
    }
  }

  // ----- what is let through over a whole history -----

  /** The maximal runs of equal calls, in order: what was called, and how often in a row. */
  function Runs<T(==)>(h: seq<T>): (runs: seq<(T, nat)>)
    ensures h != [] ==> runs != []
  {
    if h == [] then []
    else
      var runs, x := Runs(h[..|h| - 1]), Last(h);
      if runs != [] && Last(runs).0 == x then runs[..|runs| - 1] + [(x, Last(runs).1 + 1)] else runs + [(x, 1)]
  }

  function Repeat<T>(x: T, n: nat): (r: seq<T>)
    ensures |r| == n && forall i :: 0 <= i < n ==> r[i] == x
  {
    seq(n, _ => x)
  }

  function Expand<T>(runs: seq<(T, nat)>): seq<T> {
    if runs == [] then [] else Expand(runs[..|runs| - 1]) + Repeat(Last(runs).0, Last(runs).1)
  }

  /** Non-empty runs whose neighbours differ, so that none could be longer. */
  predicate Maximal<T(==)>(runs: seq<(T, nat)>) {
    && (forall i :: 0 <= i < |runs| ==> runs[i].1 >= 1)
    && (forall i :: 0 <= i < |runs| - 1 ==> runs[i].0 != runs[i + 1].0)
  }

  lemma LongerRun<T>(runs: seq<(T, nat)>)
    requires runs != [] && Maximal(runs)
    ensures var (x, n) := Last(runs);
      var longer := runs[..|runs| - 1] + [(x, n + 1)];
      Maximal(longer) && Expand(longer) == Expand(runs) + [x]
  {
    var (x, n) := Last(runs);
    var longer := runs[..|runs| - 1] + [(x, n + 1)];
    assert longer[..|longer| - 1] == runs[..|runs| - 1];
    assert Repeat(x, n + 1) == Repeat(x, n) + [x];
  }

  lemma NewRun<T>(runs: seq<(T, nat)>, x: T)
    requires Maximal(runs) && (runs == [] || Last(runs).0 != x)
    ensures var more := runs + [(x, 1)]; Maximal(more) && Expand(more) == Expand(runs) + [x]
  {
    var more := runs + [(x, 1)];
    assert more[..|more| - 1] == runs;
    assert Repeat(x, 1) == [x];
  }

  /** The runs spell the history, and the last one is what `Trailing` counts. */
  lemma {:induction false} RunsSpell<T>(h: seq<T>)
    ensures var runs := Runs(h);
      Expand(runs) == h && Maximal(runs) && (h != [] ==> Last(runs) == (Last(h), Trailing(h)))
  {
    hide Expand, Maximal;
    if h == [] {
      NoRuns<T>();
    } else {
      var init, x := h[..|h| - 1], Last(h);
      RunsSpell(init);
      var before := Runs(init);
      assert h == init + [x];
      if before != [] && Last(before).0 == x {
        LongerRun(before);
      } else {
        NewRun(before, x);
      }
    }
  }

  lemma NoRuns<T>()
    ensures Expand<T>([]) == [] && Maximal<T>([])
  {
  }

  /** The number of calls of the history that were not rejected. */
  function LetThrough<T(==)>(config: Config, h: seq<T>): nat {
    if h == [] then 0
    else LetThrough(config, h[..|h| - 1]) + if Decide(config, h) == Reject then 0 else 1
  }

  function Least(a: nat, b: nat): nat {
    if a < b then a else b
  }

  function Capped<T>(runs: seq<(T, nat)>, m: nat): nat {
    if runs == [] then 0 else Capped(runs[..|runs| - 1], m) + Least(Last(runs).1, m)
  }

  lemma CappedStep<T>(h: seq<T>, m: nat)
    requires h != []
    ensures Capped(Runs(h), m) == Capped(Runs(h[..|h| - 1]), m) + if Trailing(h) <= m then 1 else 0
  {
    hide Maximal, Expand;
    var init, x := h[..|h| - 1], Last(h);
    RunsSpell(init);
    RunsSpell(h);
    var before, runs := Runs(init), Runs(h);
    hide Trailing;
    if before != [] && Last(before).0 == x {
      assert runs[..|runs| - 1] == before[..|before| - 1];
    } else {
      assert runs[..|runs| - 1] == before;
    }
  }

  /** In warn-then-reject mode exactly the first `min(k, m)` calls of each run of `k` are let through. */
  lemma {:induction false} LetThroughIs<T>(config: Config, h: seq<T>)
    requires config.enabled && config.mode == WarnThenReject
    ensures LetThrough(config, h) == Capped(Runs(h), config.maxDuplicates)
  {
    hide Runs, Trailing;
    if h == [] {
      assert Runs(h) == [] by { NothingRuns<T>(); }
    } else {
      LetThroughIs(config, h[..|h| - 1]);
      CappedStep(h, config.maxDuplicates);
    }
  }

  lemma NothingRuns<T>()
    ensures Runs<T>([]) == []
  {
  }

  lemma {:induction false} TrailingRepeat<T>(h: seq<T>, x: T, k: nat)
    requires k > 0 && (h == [] || Last(h) != x)
    ensures Trailing(h + Repeat(x, k)) == k
  {
    var all := h + Repeat(x, k);
    if k == 1 {
      assert all[..|all| - 1] == h;
    } else {
      TrailingRepeat(h, x, k - 1);
      assert all[..|all| - 1] == h + Repeat(x, k - 1);
    }
  }

  /** The `k`-th call of a maximal run, whatever came before it. */
  lemma DecisionInRun<T>(config: Config, h: seq<T>, x: T, k: nat)
    requires k > 0 && (h == [] || Last(h) != x)
    ensures Decide(config, h + Repeat(x, k)) ==
      if config.enabled && config.mode == WarnThenReject && k > config.maxDuplicates then Reject
      else if config.enabled && k > 1 then AllowWithWarning
      else Allow
  {
    TrailingRepeat(h, x, k);
  }

  // ----- signatures -----

  function TextOf(t: NumText): NumText {
    t
  }

  /** `Value::get` on a key: only objects have members. */
  function Member(input: Json<NumText>, key: string): Option<Json<NumText>> {
    if input.Obj? then Lookup(input.fields, key) else None
  }

  function PathOf(input: Json<NumText>): Option<Json<NumText>> {
    if Member(input, "file_path").Some? then Member(input, "file_path") else Member(input, "path")
  }

  function TrimRust(s: string): string {
    Trim(s, RustSpace)
  }

  function TargetOf(path: Option<Json<NumText>>): Option<string> {
    if path.Some? && path.value.Str? then Some(TrimRust(path.value.s)) else None
  }

  function CommandOf(input: Json<NumText>): string {
    var c := Member(input, "command");
    if c.Some? && c.value.Str? then TrimRust(c.value.s) else ""
  }

  function Copy(key: string, value: Option<Json<NumText>>): seq<Field<NumText>> {
    if value.Some? then [Field(key, value.value)] else []
  }

  /** The members the signature is made of. */
  function Parts(name: string, input: Json<NumText>): seq<Field<NumText>> {
    if name == "Read" then
      Copy("file_path", PathOf(input)) + Copy("offset", Member(input, "offset")) + Copy("limit", Member(input, "limit"))
    else if name == "Write" || name == "Edit" then Copy("file_path", PathOf(input))
    else if name == "Bash" then [Field("command", Str(CommandOf(input)))]
    else [Field("input", Canon(input))]
  }

  function CallFields(name: string, input: Json<NumText>): seq<Field<NumText>> {
    [Field("tool", Str(name))] + Parts(name, input)
  }

  function CanonicalCall(name: string, input: Json<NumText>): Json<NumText> {
    Obj(CallFields(name, input))
  }

  function BuildToolCallSignature(toolName: string, input: Json<NumText>, hash: string -> nat): Signature {
    var name := TrimRust(toolName);
    var target := if name == "Read" || name == "Write" || name == "Edit" then TargetOf(PathOf(input)) else None;
    var normalized := Print(Canon(CanonicalCall(name, input)), TextOf);
    Signature(name, target, normalized, hash(normalized))
  }

  /** The part of two inputs that counts as the call. */
  predicate SameCall(name: string, a: Json<NumText>, b: Json<NumText>) {
    if name == "Read" then
      && SameOption(PathOf(a), PathOf(b))
      && SameOption(Member(a, "offset"), Member(b, "offset"))
      && SameOption(Member(a, "limit"), Member(b, "limit"))
    else if name == "Write" || name == "Edit" then SameOption(PathOf(a), PathOf(b))
    else if name == "Bash" then CommandOf(a) == CommandOf(b)
    else SameData(a, b)
  }

  lemma MemberWellFormed(input: Json<NumText>, key: string)
    requires WellFormed(input)
    ensures Member(input, key).Some? ==> WellFormed(Member(input, key).value)
  {
    if Member(input, key).Some? {
      var v := Member(input, key).value;
      var i :| 0 <= i < |input.fields| && input.fields[i] == Field(key, v);
      assert WellFormed(input.fields[i].value);
    }
  }

  /** What a canonical call holds under a key. */
  function Answer(name: string, input: Json<NumText>, k: string): Option<Json<NumText>> {
    if k == "tool" then Some(Str(name))
    else if name == "Read" then
      if k == "file_path" then PathOf(input) else if k == "offset" || k == "limit" then Member(input, k) else None
    else if name == "Write" || name == "Edit" then if k == "file_path" then PathOf(input) else None
    else if name == "Bash" then if k == "command" then Some(Str(CommandOf(input))) else None
    else if k == "input" then Some(Canon(input)) else None
  }

  lemma LookupParts(name: string, input: Json<NumText>, k: string)
    ensures Lookup(CallFields(name, input), k) == Answer(name, input, k)
  {
    hide Member, PathOf, CommandOf, Canon;
    var tool, parts := Field("tool", Str(name)), Parts(name, input);
    LookupAppend([tool], parts, k);
    LookupSingle(tool, k);
    if name == "Read" {
      var x, y := Copy("file_path", PathOf(input)), Copy("offset", Member(input, "offset"));
      var z := Copy("limit", Member(input, "limit"));
      LookupAppend(x + y, z, k);
      LookupAppend(x, y, k);
      LookupCopy("file_path", PathOf(input), k);
      LookupCopy("offset", Member(input, "offset"), k);
      LookupCopy("limit", Member(input, "limit"), k);
    } else if name == "Write" || name == "Edit" {
      LookupCopy("file_path", PathOf(input), k);
    } else if name == "Bash" {
      LookupSingle(Field("command", Str(CommandOf(input))), k);
    } else {
      LookupSingle(Field("input", Canon(input)), k);
    }
  }

  lemma {:induction false} LookupAppend(a: seq<Field<NumText>>, b: seq<Field<NumText>>, k: string)
    ensures Lookup(a + b, k) == if Lookup(a, k).Some? then Lookup(a, k) else Lookup(b, k)
  {
    if a == [] {
      assert a + b == b;
    } else {
      assert (a + b)[0] == a[0] && (a + b)[1..] == a[1..] + b;
      LookupAppend(a[1..], b, k);
    }
  }

  lemma LookupSingle(f: Field<NumText>, k: string)
    ensures Lookup([f], k) == if f.key == k then Some(f.value) else None
  {
    assert [f][1..] == [];
  }

  lemma LookupCopy(key: string, value: Option<Json<NumText>>, k: string)
    ensures Lookup(Copy(key, value), k) == if key == k then value else None
  {
    if value.Some? {
      LookupSingle(Field(key, value.value), k);
    }
  }

  /** At most one member, under this key. */
  predicate Only(fields: seq<Field<NumText>>, key: string) {
    |fields| <= 1 && forall i :: 0 <= i < |fields| ==> fields[i].key == key
  }

  predicate Without(fields: seq<Field<NumText>>, key: string) {
    forall i :: 0 <= i < |fields| ==> fields[i].key != key
  }

  lemma AppendDistinct(fields: seq<Field<NumText>>, more: seq<Field<NumText>>, key: string)
    requires DistinctKeys(fields) && Without(fields, key) && Only(more, key)
    ensures DistinctKeys(fields + more)
    ensures forall k :: Without(fields, k) && k != key ==> Without(fields + more, k)
  {
  }

  lemma PartsDistinct(name: string, input: Json<NumText>)
    ensures DistinctKeys(CallFields(name, input))
  {
    hide Member, PathOf, CommandOf, Canon, DistinctKeys;
    var tool := [Field("tool", Str(name))];
    assert DistinctKeys(tool) by { ToolDistinct(name); }
    assert |"tool"| == 4 && |"file_path"| == 9 && |"offset"| == 6;
    assert |"limit"| == 5 && |"command"| == 7 && |"input"| == 5;
    if name == "Read" {
      ReadDistinct(name, input);
    } else if name == "Write" || name == "Edit" {
      AppendDistinct(tool, Copy("file_path", PathOf(input)), "file_path");
    } else if name == "Bash" {
      AppendDistinct(tool, [Field("command", Str(CommandOf(input)))], "command");
    } else {
      AppendDistinct(tool, [Field("input", Canon(input))], "input");
    }
  }

  lemma ToolDistinct(name: string)
    ensures DistinctKeys<NumText>([Field("tool", Str(name))])
  {
  }

  lemma ReadDistinct(name: string, input: Json<NumText>)
    requires name == "Read"
    ensures DistinctKeys(CallFields(name, input))
  {
    hide Member, PathOf, CommandOf, Canon, DistinctKeys;
    var tool := [Field("tool", Str(name))];
    assert DistinctKeys(tool) by { ToolDistinct(name); }
    assert |"tool"| == 4 && |"file_path"| == 9 && |"offset"| == 6 && |"limit"| == 5;
    var x, y := Copy("file_path", PathOf(input)), Copy("offset", Member(input, "offset"));
    var z := Copy("limit", Member(input, "limit"));
    AppendDistinct(tool, x, "file_path");
    AppendDistinct(tool + x, y, "offset");
    AppendDistinct(tool + x + y, z, "limit");
    assert tool + x + y + z == CallFields(name, input);
  }

  predicate AllWellFormed(fields: seq<Field<NumText>>) {
    forall i :: 0 <= i < |fields| ==> WellFormed(fields[i].value)
  }

  lemma AppendWellFormed(a: seq<Field<NumText>>, b: seq<Field<NumText>>)
    requires AllWellFormed(a) && AllWellFormed(b)
    ensures AllWellFormed(a + b)
  {
    hide WellFormed;
  }

  lemma CopyWellFormed(key: string, value: Option<Json<NumText>>)
    requires value.Some? ==> WellFormed(value.value)
    ensures AllWellFormed(Copy(key, value))
  {
    hide WellFormed;
  }

  lemma TextWellFormed(s: string)
    ensures WellFormed<NumText>(Str(s))
  {
  }

  lemma PathWellFormed(input: Json<NumText>)
    requires WellFormed(input)
    ensures PathOf(input).Some? ==> WellFormed(PathOf(input).value)
  {
    hide WellFormed, Member;
    MemberWellFormed(input, "file_path");
    MemberWellFormed(input, "path");
  }

  lemma PartsWellFormed(name: string, input: Json<NumText>)
    requires WellFormed(input)
    ensures AllWellFormed(Parts(name, input))
  {
    hide WellFormed, Canonical, Member, PathOf, Canon, CommandOf, Copy;
    var x, y := Copy("file_path", PathOf(input)), Copy("offset", Member(input, "offset"));
    var z := Copy("limit", Member(input, "limit"));
    PathWellFormed(input);
    CopyWellFormed("file_path", PathOf(input));
    MemberWellFormed(input, "offset");
    CopyWellFormed("offset", Member(input, "offset"));
    MemberWellFormed(input, "limit");
    CopyWellFormed("limit", Member(input, "limit"));
    AppendWellFormed(x, y);
    AppendWellFormed(x + y, z);
    TextWellFormed(CommandOf(input));
    CanonIsCanonical(input);
  }

  lemma CanonicalCallWellFormed(name: string, input: Json<NumText>)
    requires WellFormed(input)
    ensures WellFormed(CanonicalCall(name, input))
  {
    hide DistinctKeys, Parts;
    PartsDistinct(name, input);
    PartsWellFormed(name, input);
    AppendWellFormed([Field("tool", Str(name))], Parts(name, input));
  }

  lemma SameCanonical(a: Json<NumText>, b: Json<NumText>)
    requires WellFormed(a) && WellFormed(b)
    ensures SameData(Canon(a), Canon(b)) <==> SameData(a, b)
  {
    CanonIsCanonical(a);
    CanonIsCanonical(b);
    CanonIdempotent(a);
    CanonIdempotent(b);
    CanonIff(Canon(a), Canon(b));
    CanonIff(a, b);
  }

  /** The canonical calls are the same data exactly when the names and the parts that count agree. */
  lemma CallsSameIff(m: string, a: Json<NumText>, n: string, b: Json<NumText>)
    requires WellFormed(a) && WellFormed(b)
    ensures AnswerAlike(CallFields(m, a), CallFields(n, b)) <==> m == n && SameCall(m, a, b)
  {
    hide Member, PathOf, CommandOf, Canon, SameData;
    var f, g := CallFields(m, a), CallFields(n, b);
    if AnswerAlike(f, g) {
      AlikeCounts(m, a, n, b);
    }
    if m == n && SameCall(m, a, b) {
      forall k ensures SameOption(Lookup(f, k), Lookup(g, k)) {
        CountsAlike(m, a, b, k);
      }
    }
  }

  lemma AlikeCounts(m: string, a: Json<NumText>, n: string, b: Json<NumText>)
    requires WellFormed(a) && WellFormed(b)
    requires AnswerAlike(CallFields(m, a), CallFields(n, b))
    ensures m == n && SameCall(m, a, b)
  {
    hide *;
    AlikeAt(m, a, n, b, "tool");
    ToolAnswers(m, a, n, b);
    AlikeAt(m, a, n, b, "file_path");
    AlikeAt(m, a, n, b, "offset");
    AlikeAt(m, a, n, b, "limit");
    AlikeAt(m, a, n, b, "command");
    AlikeAt(m, a, n, b, "input");
    AnswersDecide(m, a, b);
  }

  lemma AlikeAt(m: string, a: Json<NumText>, n: string, b: Json<NumText>, k: string)
    requires AnswerAlike(CallFields(m, a), CallFields(n, b))
    ensures SameOption(Answer(m, a, k), Answer(n, b, k))
  {
    hide Lookup, CallFields, Answer, SameOption;
    LookupParts(m, a, k);
    LookupParts(n, b, k);
  }

  lemma ToolAnswers(m: string, a: Json<NumText>, n: string, b: Json<NumText>)
    requires SameOption(Answer(m, a, "tool"), Answer(n, b, "tool"))
    ensures m == n
  {
  }

  /** The answers about the members a call can have hold all that counts about it. */
  lemma AnswersDecide(m: string, a: Json<NumText>, b: Json<NumText>)
    requires WellFormed(a) && WellFormed(b)
    requires SameOption(Answer(m, a, "file_path"), Answer(m, b, "file_path"))
    requires SameOption(Answer(m, a, "offset"), Answer(m, b, "offset"))
    requires SameOption(Answer(m, a, "limit"), Answer(m, b, "limit"))
    requires SameOption(Answer(m, a, "command"), Answer(m, b, "command"))
    requires SameOption(Answer(m, a, "input"), Answer(m, b, "input"))
    ensures SameCall(m, a, b)
  {
    hide Member, PathOf, CommandOf, Canon;
    SameCanonical(a, b);
    SameTexts(CommandOf(a), CommandOf(b));
  }

  lemma SameTexts(x: string, y: string)
    ensures SameData<NumText>(Str(x), Str(y)) <==> x == y
  {
  }

  lemma CountsAlike(m: string, a: Json<NumText>, b: Json<NumText>, k: string)
    requires WellFormed(a) && WellFormed(b) && SameCall(m, a, b)
    ensures SameOption(Lookup(CallFields(m, a), k), Lookup(CallFields(m, b), k))
  {
    hide Member, PathOf, CommandOf, Canon, CallFields, Lookup;
    LookupParts(m, a, k);
    LookupParts(m, b, k);
    SameCanonical(a, b);
  }

  /** No two numbers print alike, because a number is modelled by its text. */
  lemma TextOfInjective()
    ensures Injective(TextOf)
  {
  }

  /**
   Two calls get equal signatures exactly when their trimmed names agree and so do the parts that count: for
   `Read` the effective path, offset and limit; for `Write` and `Edit` the path; for `Bash` the trimmed command;
   for any other tool the whole input, key order aside.
   */
  lemma SignatureIff(s: string, a: Json<NumText>, t: string, b: Json<NumText>, hash: string -> nat)
    requires WellFormed(a) && WellFormed(b)
    ensures BuildToolCallSignature(s, a, hash) == BuildToolCallSignature(t, b, hash) <==>
      TrimRust(s) == TrimRust(t) && SameCall(TrimRust(s), a, b)
  {
    hide CanonicalCall, PathOf, Member, TrimRust, Canon, SameCall, Print;
    NormalizedIff(TrimRust(s), a, TrimRust(t), b);
    if TrimRust(s) == TrimRust(t) && SameCall(TrimRust(s), a, b) {
      SameTargets(TrimRust(s), a, b);
    }
  }

  lemma NormalizedIff(m: string, a: Json<NumText>, n: string, b: Json<NumText>)
    requires WellFormed(a) && WellFormed(b)
    ensures Print(Canon(CanonicalCall(m, a)), TextOf) == Print(Canon(CanonicalCall(n, b)), TextOf) <==>
      m == n && SameCall(m, a, b)
  {
    hide CallFields, SameCall, Canon, SameData, Print, AnswerAlike, Injective;
    var f, g := CanonicalCall(m, a), CanonicalCall(n, b);
    TextOfInjective();
    PrintInjective(Canon(f), Canon(g), TextOf);
    CanonicalCallWellFormed(m, a);
    CanonicalCallWellFormed(n, b);
    CanonIff(f, g);
    PartsDistinct(m, a);
    PartsDistinct(n, b);
    ObjectsSameIff(f.fields, g.fields);
    CallsSameIff(m, a, n, b);
  }

  lemma SameTargets(name: string, a: Json<NumText>, b: Json<NumText>)
    requires SameCall(name, a, b)
    ensures name == "Read" || name == "Write" || name == "Edit" ==> TargetOf(PathOf(a)) == TargetOf(PathOf(b))
  {
    hide PathOf, TrimRust;
  }

  /** The member under the first of the two keys that is there. */
  lemma PathIs(input: Json<NumText>)
    ensures input.Obj? && HasKey(input.fields, "file_path") ==> PathOf(input) == Lookup(input.fields, "file_path")
    ensures input.Obj? && !HasKey(input.fields, "file_path") ==> PathOf(input) == Lookup(input.fields, "path")
    ensures !input.Obj? ==> PathOf(input) == None
  {
  }

  /** A command counts without surrounding white space; one that is missing or no text is empty. */
  lemma CommandIs(input: Json<NumText>)
    ensures var c := Member(input, "command");
      CommandOf(input) == if c.Some? && c.value.Str? then Trim(c.value.s, RustSpace) else ""
  {
    hide Trim;
  }

  /**
   Besides the name and the parts that count, a signature names the file a call is about: the path as it is given,
   without surrounding white space, for the three tools that have one and if it is a text.  Its hash is that of the
   normalised text.
   */
  lemma SignatureIs(toolName: string, input: Json<NumText>, hash: string -> nat)
    ensures var s, name := BuildToolCallSignature(toolName, input, hash), Trim(toolName, RustSpace);
      && s.toolName == name && s.inputHash == hash(s.normalizedInput)
      && s.target ==
           if name in {"Read", "Write", "Edit"} && PathOf(input).Some? && PathOf(input).value.Str?
           then Some(Trim(PathOf(input).value.s, RustSpace)) else None
  {
  }

  // ----- fingerprints -----

  const WINDOW: nat := 64

  function Prefix(text: string): string {
    if |text| <= WINDOW then text else text[..WINDOW]
  }

  function Suffix(text: string): string {
    if |text| <= WINDOW then text else text[|text| - WINDOW..]
  }

  function AssistantFingerprint(text: string, hash: string -> nat): Fingerprint {
    Fingerprint(hash(Prefix(text)), hash(Suffix(text)), |text|)
  }

  ghost predicate CollisionFree(hash: string -> nat) {
    forall a, b :: hash(a) == hash(b) ==> a == b
  }

  /** The parts of a fingerprint: the hashes of the first and the last 64 characters, or of all, and the length. */
  lemma FingerprintIs(text: string, hash: string -> nat)
    ensures var f := AssistantFingerprint(text, hash);
      && f.totalLen == |text|
      && (|text| <= 64 ==> f.prefixHash == f.suffixHash == hash(text))
      && (|text| > 64 ==> f.prefixHash == hash(text[..64]) && f.suffixHash == hash(text[|text| - 64..]))
  {
  }

  /** A fingerprint is the length and the two ends of the text. */
  lemma FingerprintIff(a: string, b: string, hash: string -> nat)
    requires CollisionFree(hash)
    ensures AssistantFingerprint(a, hash) == AssistantFingerprint(b, hash) <==>
      |a| == |b| && forall i :: 0 <= i < |a| && (i < WINDOW || |a| - i <= WINDOW) ==> a[i] == b[i]
  {
    if |a| == |b| {
      if Prefix(a) == Prefix(b) && Suffix(a) == Suffix(b) && |a| > WINDOW {
        EndsAgree(a, b);
      }
    }
  }

  lemma EndsAgree(a: string, b: string)
    requires |a| == |b| > WINDOW && Prefix(a) == Prefix(b) && Suffix(a) == Suffix(b)
    ensures forall i :: 0 <= i < |a| && (i < WINDOW || |a| - i <= WINDOW) ==> a[i] == b[i]
  {
    forall i | 0 <= i < |a| && (i < WINDOW || |a| - i <= WINDOW) ensures a[i] == b[i] {
      if i < WINDOW {
        assert Prefix(a)[i] == Prefix(b)[i];
      } else {
        var j := i - (|a| - WINDOW);
        assert Suffix(a)[j] == Suffix(b)[j];
      }
    }
  }

  lemma ShortDetermined(a: string, b: string, hash: string -> nat)
    requires CollisionFree(hash) && |a| <= 128 && AssistantFingerprint(a, hash) == AssistantFingerprint(b, hash)
    ensures a == b
  {
    FingerprintIff(a, b, hash);
  }

  /** Another text with the same fingerprint. */
  ghost predicate Confused(a: string, b: string, hash: string -> nat) {
    a != b && AssistantFingerprint(a, hash) == AssistantFingerprint(b, hash)
  }

  /** A text is determined by its fingerprint exactly when it has at most 128 characters. */
  lemma FingerprintDetermines(a: string, hash: string -> nat)
    requires CollisionFree(hash)
    ensures (exists b :: Confused(a, b, hash)) <==> |a| > 128
  {
    if b :| Confused(a, b, hash) {
      if |a| <= 128 {
        ShortDetermined(a, b, hash);
      }
    }
    if |a| > 128 {
      var c := if a[64] == 'x' then 'y' else 'x';
      var b := a[64 := c];
      FingerprintIff(a, b, hash);
      assert b[64] != a[64];
      assert Confused(a, b, hash);
    }
  }
}
