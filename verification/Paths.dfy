/**
 Lexical path normalisation and the checks built on it, for Unix paths: `components`, `join`, `push`, `pop`
 and `starts_with` as `std::path` defines them.
 */
module Paths {
  import opened Prelude
  import opened Text

  datatype Component = RootDir | CurDir | ParentDir | Name(name: string)

  predicate IsAbsolute(path: string) {
    path != "" && path[0] == '/'
  }

  /** Empty pieces and `.` vanish. */
  function PieceComponents(pieces: seq<string>): seq<Component> {
    if pieces == [] then []
    else
      var rest := PieceComponents(pieces[1..]);
      if pieces[0] == "" || pieces[0] == "." then rest
      else [if pieces[0] == ".." then ParentDir else Name(pieces[0])] + rest
  }

  /** `Path::components`: `.` survives only at the start of a relative path. */
  function Components(path: string): seq<Component> {
    var pieces := Split(path, '/');
    (if IsAbsolute(path) then [RootDir] else if pieces[0] == "." then [CurDir] else []) + PieceComponents(pieces)
  }

  /** A path buffer without `.` and `..`. */
  datatype Buffer = Buffer(absolute: bool, names: seq<string>)

  const EMPTY := Buffer(false, [])
  const ROOT := Buffer(true, [])

  /** `push` and `pop` by one component; popping the root or the empty path does nothing. */
  function Step(b: Buffer, c: Component): Buffer {
    match c
    case ParentDir => if b.names == [] then b else b.(names := b.names[..|b.names| - 1])
    case CurDir => b
    case RootDir => ROOT
    case Name(n) => b.(names := b.names + [n])
  }

  function Walk(b: Buffer, components: seq<Component>): Buffer
    decreases |components|
  {
    if components == [] then b else Walk(Step(b, components[0]), components[1..])
  }

  function Normal(path: string): Buffer {
    Walk(EMPTY, Components(path))
  }

  lemma {:induction false} WalkConcat(b: Buffer, s: seq<Component>, t: seq<Component>)
    ensures Walk(b, s + t) == Walk(Walk(b, s), t)
    decreases |s|
  {
    if s == [] {
      assert s + t == t;
    } else {
      assert (s + t)[0] == s[0] && (s + t)[1..] == s[1..] + t;
      WalkConcat(Step(b, s[0]), s[1..], t);
    }
  }

  method NormalizePath(path: string) returns (normalized: Buffer)
    ensures normalized == Normal(path)
  {
    normalized := EMPTY;
    var components := Components(path);
    for i := 0 to |components|
      invariant Walk(normalized, components[i..]) == Normal(path)
    {
      assert components[i..][0] == components[i] && components[i..][1..] == components[i + 1..];
      match components[i] {
        case ParentDir =>
          if normalized.names != [] {
            normalized := normalized.(names := normalized.names[..|normalized.names| - 1]);
          }
        case CurDir =>
        case RootDir => normalized := ROOT;
        case Name(n) => normalized := normalized.(names := normalized.names + [n]);
      }
    }
  }

  predicate Prefix(a: seq<string>, b: seq<string>) {
    |a| <= |b| && a == b[..|a|]
  }

  /** `starts_with`, component by component; every path starts with the empty one. */
  predicate StartsWith(path: Buffer, root: Buffer) {
    && Prefix(root.names, path.names)
    && (root.absolute ==> path.absolute) && (!root.absolute && root.names != [] ==> !path.absolute)
  }

  predicate IsWithinRoot(path: string, root: string) {
    StartsWith(Normal(path), Normal(root))
  }

  // ----- the normal form -----

  /** A name a path can hold. */
  predicate Proper(name: string) {
    name != "" && name != "." && name != ".." && '/' !in name
  }

  predicate AllProper(names: seq<string>) {
    forall i :: 0 <= i < |names| ==> Proper(names[i])
  }

  predicate ProperComponents(components: seq<Component>) {
    forall i :: 0 <= i < |components| ==> components[i].Name? ==> Proper(components[i].name)
  }

  lemma {:induction false} PiecesProper(pieces: seq<string>)
    requires forall i :: 0 <= i < |pieces| ==> '/' !in pieces[i]
    ensures ProperComponents(PieceComponents(pieces))
  {
    if pieces != [] {
      PiecesProper(pieces[1..]);
    }
  }

  lemma {:induction false} WalkProper(b: Buffer, components: seq<Component>)
    requires AllProper(b.names) && ProperComponents(components)
    ensures AllProper(Walk(b, components).names)
    decreases |components|
  {
    if components != [] {
      WalkProper(Step(b, components[0]), components[1..]);
    }
  }

  lemma NormalIsProper(path: string)
    ensures AllProper(Normal(path).names)
  {
    SplitPieces(path, '/');
    PiecesProper(Split(path, '/'));
    WalkProper(EMPTY, Components(path));
  }

  function JoinNames(names: seq<string>): string {
    if names == [] then "" else if |names| == 1 then names[0] else names[0] + "/" + JoinNames(names[1..])
  }

  /** The text of a buffer. */
  function Render(b: Buffer): string {
    (if b.absolute then "/" else "") + JoinNames(b.names)
  }

  lemma {:induction false} SplitNames(names: seq<string>)
    requires names != [] && AllProper(names)
    ensures Split(JoinNames(names), '/') == names
  {
    if |names| == 1 {
      SplitOne(names[0], '/');
      assert names == [names[0]];
    } else {
      SplitConcat(names[0], JoinNames(names[1..]), '/');
      SplitOne(names[0], '/');
      SplitNames(names[1..]);
      assert names == [names[0]] + names[1..];
    }
  }

  function AsComponents(names: seq<string>): (r: seq<Component>)
    ensures |r| == |names| && forall i :: 0 <= i < |names| ==> r[i] == Name(names[i])
  {
    seq(|names|, i requires 0 <= i < |names| => Name(names[i]))
  }

  lemma {:induction false} PiecesOfNames(names: seq<string>)
    requires AllProper(names)
    ensures PieceComponents(names) == AsComponents(names)
  {
    if names != [] {
      PiecesOfNames(names[1..]);
    }
  }

  /** The text of a normal form parses to its names: no `.` and no `..` is left. */
  lemma RenderParses(b: Buffer)
    requires AllProper(b.names)
    ensures Components(Render(b)) == (if b.absolute then [RootDir] else []) + AsComponents(b.names)
  {
    PiecesOfNames(b.names);
    var text := JoinNames(b.names);
    if b.names == [] {
      assert Split("/", '/') == ["", ""] by { SplitConcat("", "", '/'); assert "" + ['/'] + "" == "/"; }
      assert PieceComponents([""]) == [] && PieceComponents(["", ""]) == PieceComponents([""]);
      assert "/" + text == "/";
    } else {
      SplitNames(b.names);
      SplitConcat("", text, '/');
      assert "" + ['/'] + text == "/" + text;
      assert [""] + b.names == Split("/" + text, '/');
      assert ([""] + b.names)[1..] == b.names;
      NameNotSlash(b.names);
      assert "" + text == text;
    }
  }

  lemma NameNotSlash(names: seq<string>)
    requires names != [] && AllProper(names)
    ensures !IsAbsolute(JoinNames(names))
  {
    assert names[0][0] in names[0];
  }

  lemma {:induction false} WalkNames(b: Buffer, names: seq<string>)
    ensures Walk(b, AsComponents(names)) == b.(names := b.names + names)
    decreases |names|
  {
    if names == [] {
      assert b.names + names == b.names;
    } else {
      assert AsComponents(names)[1..] == AsComponents(names[1..]);
      WalkNames(Step(b, Name(names[0])), names[1..]);
      assert b.names + names == b.names + [names[0]] + names[1..];
    }
  }

  /** Normalising is idempotent, and what it leaves contains neither `.` nor `..`. */
  lemma NormalIdempotent(path: string)
    ensures Normal(Render(Normal(path))) == Normal(path)
    ensures forall c :: c in Components(Render(Normal(path))) ==> c != ParentDir && c != CurDir
  {
    var b := Normal(path);
    NormalIsProper(path);
    RenderParses(b);
    hide Components;
    var names := AsComponents(b.names);
    if b.absolute {
      WalkConcat(EMPTY, [RootDir], names);
      assert [RootDir][1..] == [];
      assert Walk(ROOT, []) == ROOT;
      assert Walk(EMPTY, [RootDir]) == ROOT;
      WalkNames(ROOT, b.names);
      assert ROOT.names + b.names == b.names;
    } else {
      assert [] + names == names;
      WalkNames(EMPTY, b.names);
      assert EMPTY.names + b.names == b.names;
    }
  }

  // ----- joining is walking on -----

  /** `Path::join`. */
  function Join(a: string, b: string): string {
    if IsAbsolute(b) then b
    else if a == "" || Last(a) == '/' then a + b
    else a + "/" + b
  }

  lemma {:induction false} PiecesConcat(s: seq<string>, t: seq<string>)
    ensures PieceComponents(s + t) == PieceComponents(s) + PieceComponents(t)
  {
    if s == [] {
      assert s + t == t;
    } else {
      PiecesConcat(s[1..], t);
      assert (s + t)[1..] == s[1..] + t && (s + t)[0] == s[0];
    }
  }

  /** A leading `.` makes no difference to a walk. */
  lemma WalkComponents(b: Buffer, path: string)
    ensures Walk(b, Components(path)) == Walk(if IsAbsolute(path) then ROOT else b, PieceComponents(Split(path, '/')))
  {
    var pieces := PieceComponents(Split(path, '/'));
    var c := if IsAbsolute(path) then RootDir else CurDir;
    assert ([c] + pieces)[1..] == pieces;
    assert Walk(b, [c] + pieces) == Walk(Step(b, c), pieces);
    assert [] + pieces == pieces;
  }

  lemma JoinedPieces(a: string, b: string)
    requires !IsAbsolute(b)
    ensures PieceComponents(Split(Join(a, b), '/')) == PieceComponents(Split(a, '/')) + PieceComponents(Split(b, '/'))
  {
    hide PieceComponents, Split;
    if a == "" {
      assert a + b == b;
      EmptyPieces();
      var pieces := PieceComponents(Split(b, '/'));
      assert [] + pieces == pieces;
    } else if Last(a) == '/' {
      var front := a[..|a| - 1];
      assert a == front + ['/'] + "" && a + b == front + ['/'] + b;
      SplitConcat(front, b, '/');
      SplitConcat(front, "", '/');
      PiecesConcat(Split(front, '/'), Split(b, '/'));
      PiecesConcat(Split(front, '/'), Split("", '/'));
      EmptyPieces();
      var pieces := PieceComponents(Split(front, '/'));
      assert pieces + [] == pieces;
    } else {
      assert a + "/" + b == a + ['/'] + b;
      SplitConcat(a, b, '/');
      PiecesConcat(Split(a, '/'), Split(b, '/'));
    }
  }

  lemma EmptyPieces()
    ensures PieceComponents(Split("", '/')) == []
  {
    assert [""][1..] == [];
  }

  /** Normalising a joined path is walking on from the normalised base. */
  lemma JoinWalks(a: string, b: string)
    ensures Normal(Join(a, b)) == if IsAbsolute(b) then Normal(b) else Walk(Normal(a), Components(b))
  {
    hide PieceComponents, Split, Components, Walk;
    if !IsAbsolute(b) {
      JoinedPieces(a, b);
      var j := Join(a, b);
      assert IsAbsolute(j) <==> IsAbsolute(a);
      var start := if IsAbsolute(a) then ROOT else EMPTY;
      WalkComponents(EMPTY, j);
      WalkComponents(EMPTY, a);
      WalkComponents(Normal(a), b);
      WalkConcat(start, PieceComponents(Split(a, '/')), PieceComponents(Split(b, '/')));
    }
  }

  // ----- what a relative reference does -----

  /** How many levels the reference climbs above where it starts. */
  function Dips(components: seq<Component>): nat {
    if components == [] then 0
    else
      var init, c := components[..|components| - 1], Last(components);
      if c == ParentDir && Tail(init) == [] then Dips(init) + 1 else Dips(init)
  }

  /** The names it walks down into after its last climb. */
  function Tail(components: seq<Component>): seq<string> {
    if components == [] then []
    else
      var before, c := Tail(components[..|components| - 1]), Last(components);
      match c
      case ParentDir => if before == [] then [] else before[..|before| - 1]
      case Name(n) => before + [n]
      case _ => before
  }

  function DropLast(names: seq<string>, n: nat): (r: seq<string>)
    ensures |r| <= |names| && r == names[..|r|]
  {
    if n >= |names| then [] else names[..|names| - n]
  }

  predicate Relative(components: seq<Component>) {
    RootDir !in components
  }

  /** A relative reference removes `Dips` names, as far as there are any, and appends `Tail`. */
  lemma {:induction false} WalkEffect(b: Buffer, components: seq<Component>)
    requires Relative(components)
    ensures Walk(b, components) == b.(names := DropLast(b.names, Dips(components)) + Tail(components))
    decreases |components|
  {
    if components == [] {
      assert DropLast(b.names, 0) + [] == b.names;
    } else {
      var init, c := components[..|components| - 1], Last(components);
      assert components == init + [c];
      assert Relative(init) && c != RootDir;
      WalkEffect(b, init);
      WalkConcat(b, init, [c]);
      assert [c][1..] == [];
      assert Walk(Walk(b, init), [c]) == Step(Walk(b, init), c);
      StepEffect(b, init, c);
    }
  }

  lemma StepEffect(b: Buffer, init: seq<Component>, c: Component)
    requires c != RootDir
    ensures var after := b.(names := DropLast(b.names, Dips(init)) + Tail(init));
      Step(after, c) == b.(names := DropLast(b.names, Dips(init + [c])) + Tail(init + [c]))
  {
    assert (init + [c])[..|init|] == init;
    var kept, tail := DropLast(b.names, Dips(init)), Tail(init);
    match c
    case ParentDir =>
      if tail != [] {
        assert (kept + tail)[..|kept + tail| - 1] == kept + tail[..|tail| - 1];
      } else if kept != [] {
        assert (kept + tail)[..|kept + tail| - 1] == DropLast(b.names, Dips(init) + 1);
      }
    case Name(n) => assert kept + tail + [n] == kept + (tail + [n]);
    case CurDir =>
  }

  lemma {:induction false} PiecesRelative(pieces: seq<string>)
    ensures Relative(PieceComponents(pieces))
  {
    if pieces != [] {
      PiecesRelative(pieces[1..]);
    }
  }

  lemma ReferenceRelative(path: string)
    requires !IsAbsolute(path)
    ensures Relative(Components(path))
  {
    PiecesRelative(Split(path, '/'));
  }

  /** The names of the base a reference climbs out of. */
  function Left(base: seq<string>, components: seq<Component>): seq<string> {
    base[|DropLast(base, Dips(components))|..]
  }

  /**
   A relative reference passes the project check exactly when it walks back into every name of the project
   directory's normal form it climbed out of.
   */
  lemma ProjectCheckIff(project: string, reference: string)
    requires !IsAbsolute(reference)
    ensures IsWithinRoot(Join(project, reference), project) <==>
      Prefix(Left(Normal(project).names, Components(reference)), Tail(Components(reference)))
  {
    hide Components, Walk;
    var p, components := Normal(project), Components(reference);
    JoinWalks(project, reference);
    ReferenceRelative(reference);
    WalkEffect(p, components);
    var kept := DropLast(p.names, Dips(components));
    assert p.names == kept + Left(p.names, components);
    PrefixCancels(kept, Left(p.names, components), Tail(components));
  }

  lemma PrefixCancels(kept: seq<string>, a: seq<string>, b: seq<string>)
    ensures Prefix(kept + a, kept + b) <==> Prefix(a, b)
  {
    if Prefix(kept + a, kept + b) {
      assert (kept + a)[|kept|..] == a && (kept + b)[..|kept + a|][|kept|..] == b[..|a|];
    }
    if Prefix(a, b) {
      assert (kept + b)[..|kept + a|] == kept + b[..|a|];
    }
  }

  lemma AbsoluteStays(path: string)
    ensures Normal(path).absolute <==> IsAbsolute(path)
  {
    hide Components, Walk;
    WalkComponents(EMPTY, path);
    PiecesRelative(Split(path, '/'));
    WalkEffect(if IsAbsolute(path) then ROOT else EMPTY, PieceComponents(Split(path, '/')));
  }

  /** A reference no prefix of which climbs above its start always passes, whatever the project directory. */
  lemma NoDipPasses(project: string, reference: string)
    requires !IsAbsolute(reference) && Dips(Components(reference)) == 0
    ensures IsWithinRoot(Join(project, reference), project)
  {
    hide Components, Walk;
    JoinWalks(project, reference);
    ReferenceRelative(reference);
    WalkEffect(Normal(project), Components(reference));
  }

  /** `Dips` counts exactly the prefixes with more `..` than names. */
  function Balance(components: seq<Component>): int {
    if components == [] then 0
    else
      var before, c := Balance(components[..|components| - 1]), Last(components);
      if c == ParentDir then before - 1 else if c.Name? then before + 1 else before
  }

  function BalanceAt(components: seq<Component>, k: nat): int
    requires k <= |components|
  {
    Balance(components[..k])
  }

  /** No prefix has more `..` than names. */
  predicate NeverBelow(components: seq<Component>) {
    forall k :: 0 <= k <= |components| ==> BalanceAt(components, k) >= 0
  }

  lemma BalanceBefore(components: seq<Component>, k: nat)
    requires k < |components|
    ensures BalanceAt(components[..|components| - 1], k) == BalanceAt(components, k)
  {
    hide Balance;
    assert components[..|components| - 1][..k] == components[..k];
  }

  lemma NeverBelowStep(components: seq<Component>)
    requires components != []
    ensures NeverBelow(components) <==> NeverBelow(components[..|components| - 1]) && Balance(components) >= 0
  {
    var init := components[..|components| - 1];
    assert BalanceAt(components, |components|) == Balance(components) by {
      assert components[..|components|] == components;
    }
    hide BalanceAt;
    forall k | 0 <= k <= |init| ensures BalanceAt(init, k) == BalanceAt(components, k) {
      BalanceBefore(components, k);
    }
  }

  lemma {:induction false} DipsAre(components: seq<Component>)
    ensures Balance(components) == |Tail(components)| - Dips(components)
    ensures Dips(components) == 0 <==> NeverBelow(components)
  {
    hide NeverBelow;
    if components != [] {
      DipsAre(components[..|components| - 1]);
      NeverBelowStep(components);
    } else {
      assert NeverBelow([]) by { NothingBelow(); }
    }
  }

  lemma NothingBelow()
    ensures NeverBelow([])
  {
  }

  /** A relative path loses its leading `..`, so its normal form means the path only when there are none. */
  lemma RelativeNormalIff(path: string)
    requires !IsAbsolute(path)
    ensures Normal(path).names == Tail(Components(path))
    ensures var exact := seq(Dips(Components(path)), _ => "..") + Tail(Components(path));
      Normal(path).names == exact <==> Dips(Components(path)) == 0
  {
    hide Components, Walk;
    ReferenceRelative(path);
    WalkEffect(EMPTY, Components(path));
    assert [] + Tail(Components(path)) == Tail(Components(path));
  }

  /**
   For a relative project directory whose names all cancel, such as `.` or `..`, the check accepts every
   reference.
   */
  lemma EmptyProjectAcceptsAll(project: string, reference: string)
    requires !IsAbsolute(project) && Tail(Components(project)) == []
    ensures IsWithinRoot(Join(project, reference), project)
  {
    RelativeNormalIff(project);
    AbsoluteStays(project);
    hide Normal, Join;
  }

  // ----- where a path lies -----

  /** Levels above the current directory, or the root, and the names from there. */
  datatype Location = Location(absolute: bool, ups: nat, names: seq<string>)

  /** The place a path means, symbolic links aside; above the root there is nothing. */
  function Locate(path: string): Location {
    if IsAbsolute(path) then Location(true, 0, Normal(path).names)
    else Location(false, Dips(Components(path)), Tail(Components(path)))
  }

  /** As far as the texts tell: what is above the current directory contains what is in it. */
  predicate Inside(path: string, root: string) {
    var p, r := Locate(path), Locate(root);
    p.absolute == r.absolute && ((p.ups == r.ups && Prefix(r.names, p.names)) || (p.ups < r.ups && r.names == []))
  }

  /** A relative directory, whose leading `..` are dropped, also passes paths that lie elsewhere. */
  predicate Mistaken(path: string, root: string) {
    var p, r := Locate(path), Locate(root);
    !r.absolute &&
    if r.names == [] then p.absolute || p.ups > r.ups
    else !p.absolute && p.ups != r.ups && Prefix(r.names, p.names)
  }

  /** The check passes what is inside, and of the rest exactly the mistaken paths. */
  lemma WithinIff(path: string, root: string)
    ensures IsWithinRoot(path, root) <==> Inside(path, root) || Mistaken(path, root)
    ensures !(Inside(path, root) && Mistaken(path, root)) && (IsAbsolute(root) ==> !Mistaken(path, root))
  {
    hide Components, Dips, Tail, Normal;
    AbsoluteStays(path);
    AbsoluteStays(root);
    if !IsAbsolute(path) { RelativeNormalIff(path); }
    if !IsAbsolute(root) { RelativeNormalIff(root); }
  }

  function Excess(a: nat, b: nat): nat {
    if a > b then a - b else 0
  }

  /** What one walk after another does. */
  lemma {:induction false} EffectConcat(s: seq<Component>, t: seq<Component>)
    requires Relative(t)
    ensures Tail(s + t) == DropLast(Tail(s), Dips(t)) + Tail(t)
    ensures Dips(s + t) == Dips(s) + Excess(Dips(t), |Tail(s)|)
    decreases |t|
  {
    hide Dips, Tail, DropLast;
    if t == [] {
      assert s + t == s;
      HeadDoesNothing();
      DropNothing(Tail(s));
    } else {
      var init, c := t[..|t| - 1], Last(t);
      assert t == init + [c] && c != RootDir;
      EffectConcat(s, init);
      assert (s + init) + [c] == s + t;
      EffectStep(s, init, c);
    }
  }

  lemma DropNothing(names: seq<string>)
    ensures DropLast(names, 0) + [] == names
  {
  }

  lemma EffectStep(s: seq<Component>, init: seq<Component>, c: Component)
    requires c != RootDir
    requires Tail(s + init) == DropLast(Tail(s), Dips(init)) + Tail(init)
    requires Dips(s + init) == Dips(s) + Excess(Dips(init), |Tail(s)|)
    ensures Tail(s + init + [c]) == DropLast(Tail(s), Dips(init + [c])) + Tail(init + [c])
    ensures Dips(s + init + [c]) == Dips(s) + Excess(Dips(init + [c]), |Tail(s)|)
  {
    hide Dips, Tail;
    StepEffect(Buffer(false, Tail(s)), init, c);
    StepDips(s + init, c);
    StepDips(init, c);
  }

  lemma StepDips(init: seq<Component>, c: Component)
    ensures Dips(init + [c]) == Dips(init) + if c == ParentDir && Tail(init) == [] then 1 else 0
    ensures c != RootDir ==> Tail(init + [c]) == Step(Buffer(false, Tail(init)), c).names
  {
    assert (init + [c])[..|init|] == init;
  }

  /** A leading `.` or root makes no difference. */
  lemma EffectOfPieces(path: string)
    ensures var pieces := PieceComponents(Split(path, '/'));
      Dips(Components(path)) == Dips(pieces) && Tail(Components(path)) == Tail(pieces)
  {
    hide PieceComponents, Split;
    var pieces := PieceComponents(Split(path, '/'));
    PiecesRelative(Split(path, '/'));
    var head := if IsAbsolute(path) then [RootDir] else if Split(path, '/')[0] == "." then [CurDir] else [];
    assert Components(path) == head + pieces;
    EffectConcat(head, pieces);
    HeadDoesNothing();
  }

  lemma HeadDoesNothing()
    ensures Dips([]) == Dips([CurDir]) == Dips([RootDir]) == 0
    ensures Tail([]) == Tail([CurDir]) == Tail([RootDir]) == []
  {
  }

  /** The effect of a joined path, from those of its parts. */
  lemma JoinEffect(project: string, reference: string)
    requires !IsAbsolute(reference)
    ensures var p, r, j := Components(project), Components(reference), Components(Join(project, reference));
      && Tail(j) == DropLast(Tail(p), Dips(r)) + Tail(r)
      && Dips(j) == Dips(p) + Excess(Dips(r), |Tail(p)|)
  {
    hide PieceComponents, Split, Components;
    JoinedPieces(project, reference);
    EffectOfPieces(project);
    EffectOfPieces(reference);
    EffectOfPieces(Join(project, reference));
    PiecesRelative(Split(reference, '/'));
    EffectConcat(PieceComponents(Split(project, '/')), PieceComponents(Split(reference, '/')));
  }

  lemma JoinKind(project: string, reference: string)
    requires !IsAbsolute(reference)
    ensures IsAbsolute(Join(project, reference)) <==> IsAbsolute(project)
  {
  }

  /** For an absolute project directory the check means what it says. */
  lemma AbsoluteCheckExact(project: string, reference: string)
    requires IsAbsolute(project) && !IsAbsolute(reference)
    ensures IsWithinRoot(Join(project, reference), project) <==> Inside(Join(project, reference), project)
  {
    hide Normal;
    JoinKind(project, reference);
    AbsoluteStays(project);
    AbsoluteStays(Join(project, reference));
  }

  /**
   For a relative one a reference is inside exactly when it passes the check and climbs no more levels than the
   project directory has names; what climbs further passes only because leading `..` are dropped.
   */
  lemma RelativeCheckIff(project: string, reference: string)
    requires !IsAbsolute(project) && !IsAbsolute(reference)
    ensures Inside(Join(project, reference), project) <==>
      && IsWithinRoot(Join(project, reference), project)
      && Dips(Components(reference)) <= |Tail(Components(project))|
  {
    hide Components, Dips, Tail, Normal;
    var joined := Join(project, reference);
    JoinKind(project, reference);
    JoinEffect(project, reference);
    RelativeNormalIff(project);
    RelativeNormalIff(joined);
    AbsoluteStays(project);
    AbsoluteStays(joined);
  }

  /** So what the check accepts is inside exactly when the reference climbs no further than that. */
  lemma AcceptedInsideIff(project: string, reference: string)
    requires !IsAbsolute(project) && !IsAbsolute(reference) && IsWithinRoot(Join(project, reference), project)
    ensures Inside(Join(project, reference), project) <==>
      Dips(Components(reference)) <= |Tail(Components(project))|
  {
    hide Components, Dips, Tail, Normal, Inside, IsWithinRoot;
    RelativeCheckIff(project, reference);
  }

  lemma OnePiece(piece: string)
    ensures PieceComponents([piece]) ==
      if piece == "" || piece == "." then [] else [if piece == ".." then ParentDir else Name(piece)]
  {
    assert [piece][1..] == [];
  }

  /** Under `.` the reference `../x` passes the check and is outside; so does every reference that climbs. */
  lemma DotProject(reference: string)
    requires !IsAbsolute(reference)
    ensures IsWithinRoot(Join(".", reference), ".")
    ensures Inside(Join(".", reference), ".") <==> Dips(Components(reference)) == 0
  {
    OnePiece(".");
    SplitOne(".", '/');
    assert PieceComponents(Split(".", '/')) == [];
    EffectOfPieces(".");
    HeadDoesNothing();
    hide Components, Dips, Tail, Normal, Inside, IsWithinRoot;
    EmptyProjectAcceptsAll(".", reference);
    AcceptedInsideIff(".", reference);
  }

  const ESCAPE := "../../a/x"

  lemma PieceThen(a: string, b: string)
    requires '/' !in a
    ensures PieceComponents(Split(a + "/" + b, '/')) == PieceComponents([a]) + PieceComponents(Split(b, '/'))
  {
    hide PieceComponents, Split;
    assert a + ['/'] + b == a + "/" + b;
    SplitConcat(a, b, '/');
    SplitOne(a, '/');
    PiecesConcat([a], Split(b, '/'));
  }

  lemma EscapePieces()
    ensures PieceComponents(Split(ESCAPE, '/')) == [ParentDir, ParentDir, Name("a"), Name("x")]
  {
    hide PieceComponents, Split;
    assert '/' !in ".." && '/' !in "a" && '/' !in "x" && |".."| == 2 && "a"[0] == 'a' && "x"[0] == 'x';
    PieceThen("..", "../a/x");
    PieceThen("..", "a/x");
    PieceThen("a", "x");
    assert ".." + "/" + "../a/x" == ESCAPE && ".." + "/" + "a/x" == "../a/x" && "a" + "/" + "x" == "a/x";
    SplitOne("x", '/');
    OnePiece("..");
    OnePiece("a");
    OnePiece("x");
  }

  lemma EscapeEffect()
    ensures Dips(Components(ESCAPE)) == 2 && Tail(Components(ESCAPE)) == ["a", "x"]
  {
    EscapePieces();
    EffectOfPieces(ESCAPE);
    hide Components, Split, PieceComponents;
    var one, two, three := [ParentDir], [ParentDir, ParentDir], [ParentDir, ParentDir, Name("a")];
    HeadDoesNothing();
    StepDips([], ParentDir);
    assert [] + [ParentDir] == one;
    StepDips(one, ParentDir);
    assert one + [ParentDir] == two;
    StepDips(two, Name("a"));
    assert two + [Name("a")] == three;
    StepDips(three, Name("x"));
    assert three + [Name("x")] == [ParentDir, ParentDir, Name("a"), Name("x")];
  }

  lemma NamedEffect()
    ensures Dips(Components("a")) == 0 && Tail(Components("a")) == ["a"]
  {
    assert '/' !in "a" && "a"[0] == 'a';
    SplitOne("a", '/');
    OnePiece("a");
    EffectOfPieces("a");
    hide Components, Split, PieceComponents, Dips, Tail;
    assert [] + [Name("a")] == [Name("a")];
    StepDips([], Name("a"));
    HeadDoesNothing();
  }

  /** Under `a`, whose normal form is not empty, `../../a/x` passes the check and means `../a/x`. */
  lemma NamedProject()
    ensures IsWithinRoot(Join("a", ESCAPE), "a") && !Inside(Join("a", ESCAPE), "a")
    ensures Locate(Join("a", ESCAPE)) == Location(false, 1, ["a", "x"])
  {
    hide Components, Dips, Tail, Normal, Join, Inside, IsWithinRoot;
    EscapeEffect();
    NamedEffect();
    assert !IsAbsolute(ESCAPE) && !IsAbsolute("a") by { assert ESCAPE[0] == '.' && "a"[0] == 'a'; }
    JoinKind("a", ESCAPE);
    JoinEffect("a", ESCAPE);
    assert DropLast(["a"], 2) + ["a", "x"] == ["a", "x"];
    ProjectCheckIff("a", ESCAPE);
    RelativeNormalIff("a");
    assert Left(["a"], Components(ESCAPE)) == ["a"];
    assert Prefix(["a"], ["a", "x"]);
    RelativeCheckIff("a", ESCAPE);
  }

  // ----- resolving a reference -----

  datatype Origin = RelativeToProject | Absolute

  datatype Resolved = Resolved(targetPath: string, isDir: bool, origin: Origin)

  /** The texts of the errors are left out. */
  datatype PathError = EmptyReference | EmptyAfterAt | OutsideProject | OutsideAllowedRoot | NotFound

  /** The reference without surrounding white space and one leading `@`. */
  function Bare(raw: string): string {
    var trimmed := Trim(raw, RustSpace);
    if trimmed != "" && trimmed[0] == '@' then Trim(trimmed[1..], RustSpace) else trimmed
  }

  /** `exists` and `isDir` are the file system's answers. */
  function ResolvePathRef(
      raw: string, project: string, allowedRoot: Option<string>, requireExists: bool,
      existsAt: string -> bool, isDirAt: string -> bool): Result<Resolved, PathError> {
    if Trim(raw, RustSpace) == "" then Err(EmptyReference)
    else if Bare(raw) == "" then Err(EmptyAfterAt)
    else
      var origin := if IsAbsolute(Bare(raw)) then Absolute else RelativeToProject;
      var target := if origin == Absolute then Bare(raw) else Join(project, Bare(raw));
      if origin == RelativeToProject && !IsWithinRoot(target, project) then Err(OutsideProject)
      else if allowedRoot.Some? && !IsWithinRoot(target, allowedRoot.value) then Err(OutsideAllowedRoot)
      else if requireExists && !existsAt(target) then Err(NotFound)
      else Ok(Resolved(target, isDirAt(target), origin))
  }

  /**
   A reference resolves exactly when its lexical target is inside the project, unless the reference is absolute, and
   inside the allowed root, if one is given, and exists, if it must; a relative directory also takes what is mistaken.
   */
  lemma ResolvesIff(
      raw: string, project: string, allowedRoot: Option<string>, requireExists: bool,
      existsAt: string -> bool, isDirAt: string -> bool)
    ensures var target := Join(project, Bare(raw));
      ResolvePathRef(raw, project, allowedRoot, requireExists, existsAt, isDirAt).Ok? <==>
        && Bare(raw) != ""
        && (!IsAbsolute(Bare(raw)) ==> Inside(target, project) || Mistaken(target, project))
        && (allowedRoot.Some? ==> Inside(target, allowedRoot.value) || Mistaken(target, allowedRoot.value))
        && (requireExists ==> existsAt(target))
    ensures var r := ResolvePathRef(raw, project, allowedRoot, requireExists, existsAt, isDirAt);
      r.Ok? ==> r.value.targetPath == Join(project, Bare(raw))
  {
    hide IsWithinRoot, Inside, Mistaken, Bare;
    var target := Join(project, Bare(raw));
    EmptyBare(raw);
    assert IsAbsolute(Bare(raw)) ==> target == Bare(raw);
    WithinIff(target, project);
    if allowedRoot.Some? { WithinIff(target, allowedRoot.value); }
  }

  /** Surrounding white space goes, then one leading `@` and the white space behind it. */
  lemma BareIs(raw: string)
    ensures var text := Trim(raw, RustSpace);
      && (text != "" && text[0] == '@' ==> Bare(raw) == Trim(text[1..], RustSpace))
      && (text == "" || text[0] != '@' ==> Bare(raw) == text)
  {
    hide Trim;
  }

  /** What the answer is, whichever it is: the first check that fails names the error. */
  lemma ResolveAnswers(
      raw: string, project: string, allowedRoot: Option<string>, requireExists: bool,
      existsAt: string -> bool, isDirAt: string -> bool)
    ensures var r := ResolvePathRef(raw, project, allowedRoot, requireExists, existsAt, isDirAt);
      var bare, target := Bare(raw), Join(project, Bare(raw));
      var inProject := IsAbsolute(bare) || Inside(target, project) || Mistaken(target, project);
      var inRoot := allowedRoot.None? || Inside(target, allowedRoot.value) || Mistaken(target, allowedRoot.value);
      && (r == Err(EmptyReference) <==> Trim(raw, RustSpace) == "")
      && (r == Err(EmptyAfterAt) <==> Trim(raw, RustSpace) != "" && bare == "")
      && (r == Err(OutsideProject) <==> bare != "" && !inProject)
      && (r == Err(OutsideAllowedRoot) <==> bare != "" && inProject && !inRoot)
      && (r == Err(NotFound) <==> bare != "" && inProject && inRoot && requireExists && !existsAt(target))
      && (r.Ok? ==>
        r.value == Resolved(target, isDirAt(target), if bare[0] == '/' then Absolute else RelativeToProject))
  {
    hide IsWithinRoot, Inside, Mistaken, Bare;
    var target := Join(project, Bare(raw));
    EmptyBare(raw);
    assert IsAbsolute(Bare(raw)) ==> target == Bare(raw);
    WithinIff(target, project);
    if allowedRoot.Some? { WithinIff(target, allowedRoot.value); }
  }

  /** With absolute directories nothing is mistaken: what resolves lies where it should. */
  lemma AbsoluteResolves(
      raw: string, project: string, allowedRoot: Option<string>, requireExists: bool,
      existsAt: string -> bool, isDirAt: string -> bool)
    requires IsAbsolute(project) && (allowedRoot.Some? ==> IsAbsolute(allowedRoot.value))
    requires ResolvePathRef(raw, project, allowedRoot, requireExists, existsAt, isDirAt).Ok?
    ensures var target := Join(project, Bare(raw));
      && IsAbsolute(target) && (!IsAbsolute(Bare(raw)) ==> Inside(target, project))
      && (allowedRoot.Some? ==> Inside(target, allowedRoot.value))
  {
    hide IsWithinRoot, Inside, Mistaken, Bare, ResolvePathRef;
    ResolvesIff(raw, project, allowedRoot, requireExists, existsAt, isDirAt);
    var target := Join(project, Bare(raw));
    WithinIff(target, project);
    if allowedRoot.Some? { WithinIff(target, allowedRoot.value); }
  }

  /** With `.` as the allowed root every absolute path resolves. */
  lemma DotAllowsAll(raw: string, project: string, existsAt: string -> bool, isDirAt: string -> bool)
    requires IsAbsolute(Bare(raw))
    ensures ResolvePathRef(raw, project, Some("."), false, existsAt, isDirAt).Ok? && Mistaken(Bare(raw), ".")
  {
    DotIsHere();
    hide IsWithinRoot, Inside, Bare, ResolvePathRef, Components;
    ResolvesIff(raw, project, Some("."), false, existsAt, isDirAt);
  }

  lemma DotIsHere()
    ensures Locate(".") == Location(false, 0, [])
  {
    OnePiece(".");
    SplitOne(".", '/');
    EffectOfPieces(".");
    HeadDoesNothing();
    hide Components, Dips, Tail;
  }

  lemma EmptyBare(raw: string)
    ensures Trim(raw, RustSpace) == "" ==> Bare(raw) == ""
  {
  }

  /** A relative reference resolves to a file of the project exactly when it re-enters what it left. */
  lemma RelativeResolvesIff(raw: string, project: string, existsAt: string -> bool, isDirAt: string -> bool)
    requires !IsAbsolute(Bare(raw))
    ensures ResolvePathRef(raw, project, None, false, existsAt, isDirAt).Ok? <==>
      && Bare(raw) != ""
      && Prefix(Left(Normal(project).names, Components(Bare(raw))), Tail(Components(Bare(raw))))
  {
    hide Left, Tail, Components, IsWithinRoot, Join, Bare, Normal, Prefix;
    ProjectCheckIff(project, Bare(raw));
    EmptyBare(raw);
  }
}
