/**
 Cutting a stream of tokens into sentences: `extractAndEnqueue` on the text buffered so far.
 */
module SpeechText {
  import opened Prelude
  import opened Text

  const MIN_SENTENCE: nat := 6
  const MAX_BUFFER: nat := 150

  predicate CnEnd(c: char) {
    c == '\U{3002}' || c == '\U{FF01}' || c == '\U{FF1F}' || c == '\U{FF1B}' || c == '\n'
  }

  predicate EnEnd(c: char) {
    c == '.' || c == '!' || c == '?'
  }

  const CN_COMMA: char := '\U{FF0C}'

  /** The first Chinese terminator or line break, or the length when there is none. */
  function FindCn(s: string): (i: nat)
    ensures i <= |s| && (i < |s| ==> CnEnd(s[i]))
  {
    if s == "" || CnEnd(s[0]) then 0 else 1 + FindCn(s[1..])
  }

  lemma {:induction false} FindCnFirst(s: string)
    ensures forall j :: 0 <= j < FindCn(s) ==> !CnEnd(s[j])
  {
    if s != "" && !CnEnd(s[0]) {
      FindCnFirst(s[1..]);
      assert forall j :: 0 < j < |s| ==> s[j] == s[1..][j - 1];
    }
  }

  predicate EnAt(s: string, i: nat) {
    i + 1 < |s| && EnEnd(s[i]) && JsSpace(s[i + 1])
  }

  /** The first `.`, `!` or `?` followed by white space, or the length when there is none. */
  function FindEn(s: string): (i: nat)
    ensures i <= |s| && (i < |s| ==> EnAt(s, i))
  {
    if s == "" || EnAt(s, 0) then 0
    else
      var rest := FindEn(s[1..]);
      assert rest < |s| - 1 ==> EnAt(s, rest + 1);
      1 + rest
  }

  lemma {:induction false} FindEnFirst(s: string)
    ensures forall j :: 0 <= j < FindEn(s) ==> !EnAt(s, j)
  {
    if s != "" && !EnAt(s, 0) {
      FindEnFirst(s[1..]);
      assert forall j :: 1 <= j < |s| ==> (EnAt(s, j) <==> EnAt(s[1..], j - 1));
    }
  }

  /** `lastIndexOf(c, from)`: -1 when there is none. */
  function LastIndexOf(s: string, c: char, from: nat): (i: int)
    ensures -1 <= i < |s| && i <= from && (i >= 0 ==> s[i] == c)
  {
    if from < |s| && s[from] == c then from
    else if from == 0 then -1
    else LastIndexOf(s, c, from - 1)
  }

  lemma {:induction false} LastIndexOfLast(s: string, c: char, from: nat)
    ensures forall j :: LastIndexOf(s, c, from) < j <= from && j < |s| ==> s[j] != c
  {
    if !(from < |s| && s[from] == c) && from > 0 {
      LastIndexOfLast(s, c, from - 1);
    }
  }

  /** Where the buffer is cut next; -1 when it stays whole. */
  function SplitIndex(s: string): (i: int)
    ensures i == -1 || 0 < i <= |s|
    ensures i == -1 <==> FindCn(s) == |s| && FindEn(s) == |s| && |s| <= MAX_BUFFER
  {
    var cn, en := FindCn(s), FindEn(s);
    if cn < |s| then cn + 1
    else if en < |s| then en + 2
    else if |s| > MAX_BUFFER then
      var comma, space := LastIndexOf(s, CN_COMMA, MAX_BUFFER), LastIndexOf(s, ' ', MAX_BUFFER);
      var last := if comma > space then comma else space;
      if last <= 0 then MAX_BUFFER else last + 1
    else -1
  }

  /** The sentences cut off, and the text that stays buffered. */
  function Extract(s: string): (r: (seq<string>, string))
    decreases |s|
  {
    var i := SplitIndex(s);
    if i == -1 then ([], s)
    else
      var sentence := Trim(s[..i], JsSpace);
      if |sentence| >= MIN_SENTENCE then
        var (more, rest) := Extract(s[i..]);
        ([sentence] + more, rest)
      else if sentence != "" then ([], sentence + s[i..])
      else Extract(s[i..])
  }

  /** The sentences cut off while tokens arrive one by one, and the text that stays buffered. */
  function FeedAll(s: string, tokens: seq<string>): (r: (seq<string>, string))
    decreases |tokens|
  {
    if tokens == [] then ([], s)
    else
      var (first, rest) := Extract(s + tokens[0]);
      var (more, last) := FeedAll(rest, tokens[1..]);
      (first + more, last)
  }

  // ----- nothing but white space is lost -----

  function NoSpace(s: string): (r: string) {
    if s == "" then ""
    else if JsSpace(s[0]) then NoSpace(s[1..])
    else [s[0]] + NoSpace(s[1..])
  }

  lemma {:induction false} NoSpaceConcat(a: string, b: string)
    ensures NoSpace(a + b) == NoSpace(a) + NoSpace(b)
  {
    hide JsSpace;
    if a == "" {
      assert a + b == b;
    } else {
      NoSpaceConcat(a[1..], b);
      assert (a + b)[1..] == a[1..] + b && (a + b)[0] == a[0];
    }
  }

  lemma {:induction false} NoSpaceBlank(s: string)
    requires forall i :: 0 <= i < |s| ==> JsSpace(s[i])
    ensures NoSpace(s) == ""
  {
    hide JsSpace;
    if s != "" {
      NoSpaceBlank(s[1..]);
    }
  }

  lemma NoSpaceTrim(s: string)
    ensures NoSpace(Trim(s, JsSpace)) == NoSpace(s)
  {
    hide NoSpace, JsSpace, TrimStart, TrimEnd;
    var start := TrimStart(s, JsSpace);
    var r := TrimEnd(start, JsSpace);
    var k := |s| - |start|;
    assert s == s[..k] + start && start == r + start[|r|..];
    NoSpaceConcat(s[..k], start);
    NoSpaceConcat(r, start[|r|..]);
    TrimStartDrops(s, JsSpace);
    TrimEndDrops(start, JsSpace);
    NoSpaceBlank(s[..k]);
    NoSpaceBlank(start[|r|..]);
  }

  lemma NoSpaceCut(s: string, i: nat)
    requires i <= |s|
    ensures NoSpace(s) == NoSpace(Trim(s[..i], JsSpace)) + NoSpace(s[i..])
  {
    hide NoSpace, Trim;
    assert s == s[..i] + s[i..];
    NoSpaceConcat(s[..i], s[i..]);
    NoSpaceTrim(s[..i]);
  }

  /** Sentences followed by the buffer are the text, up to white space. */
  lemma {:induction false} ExtractConserves(s: string)
    ensures var (sentences, rest) := Extract(s); NoSpace(s) == NoSpace(Flatten(sentences) + rest)
    decreases |s|
  {
    hide NoSpace, Trim, SplitIndex;
    var i := SplitIndex(s);
    assert Flatten<char>([]) == [];
    if i == -1 {
      assert [] + s == s;
    } else {
      NoSpaceCut(s, i);
      var sentence := Trim(s[..i], JsSpace);
      if |sentence| >= MIN_SENTENCE {
        ExtractConserves(s[i..]);
        var (more, rest) := Extract(s[i..]);
        NoSpaceConcat(sentence, Flatten(more) + rest);
        assert ([sentence] + more)[1..] == more;
        assert Flatten([sentence] + more) + rest == sentence + (Flatten(more) + rest);
      } else if sentence != "" {
        NoSpaceConcat(sentence, s[i..]);
        assert [] + (sentence + s[i..]) == sentence + s[i..];
      } else {
        ExtractConserves(s[i..]);
        NoSpaceBlank("");
        assert NoSpace(s) == NoSpace(s[i..]);
      }
    }
  }

  lemma NoSpaceCongruent(a: string, b: string, c: string, d: string)
    requires NoSpace(a) == NoSpace(b) && NoSpace(c) == NoSpace(d)
    ensures NoSpace(a + c) == NoSpace(b + d)
  {
    hide NoSpace;
    NoSpaceConcat(a, c);
    NoSpaceConcat(b, d);
  }

  lemma Regroup(a: string, b: string, c: string)
    ensures a + b + c == a + (b + c)
  {
  }

  /** One token: what was alike before is alike after its sentences are cut off. */
  lemma FeedOne(fed: string, enqueued: seq<string>, pending: string, token: string)
    requires NoSpace(fed) == NoSpace(Flatten(enqueued) + pending)
    ensures var (found, rest) := Extract(pending + token);
      NoSpace(fed + token) == NoSpace(Flatten(enqueued + found) + rest)
  {
    hide NoSpace, Extract, Flatten;
    var (found, rest) := Extract(pending + token);
    var before := Flatten(enqueued);
    NoSpaceCongruent(fed, before + pending, token, token);
    Regroup(before, pending, token);
    ExtractConserves(pending + token);
    NoSpaceCongruent(before, before, pending + token, Flatten(found) + rest);
    Regroup(before, Flatten(found), rest);
    FlattenConcat(enqueued, found);
  }

  lemma FlattenFirst(tokens: seq<string>)
    requires tokens != []
    ensures Flatten(tokens) == tokens[0] + Flatten(tokens[1..])
  {
  }

  lemma {:induction false} FeedMore(fed: string, enqueued: seq<string>, pending: string, tokens: seq<string>)
    requires NoSpace(fed) == NoSpace(Flatten(enqueued) + pending)
    ensures var (found, rest) := FeedAll(pending, tokens);
      NoSpace(fed + Flatten(tokens)) == NoSpace(Flatten(enqueued + found) + rest)
    decreases |tokens|
  {
    hide NoSpace, Extract, Flatten;
    if tokens == [] {
      assert fed + Flatten<char>([]) == fed by { assert Flatten<char>([]) == [] by { FlattenNothing(); } }
      assert enqueued + [] == enqueued;
    } else {
      var (first, mid) := Extract(pending + tokens[0]);
      var (more, last) := FeedAll(mid, tokens[1..]);
      FeedOne(fed, enqueued, pending, tokens[0]);
      FeedMore(fed + tokens[0], enqueued + first, mid, tokens[1..]);
      FlattenFirst(tokens);
      Regroup(fed, tokens[0], Flatten(tokens[1..]));
      assert enqueued + first + more == enqueued + (first + more);
    }
  }

  lemma FlattenNothing()
    ensures Flatten<char>([]) == []
  {
  }

  /** The same over any stream of tokens. */
  lemma FeedConserves(s: string, tokens: seq<string>)
    ensures var (sentences, rest) := FeedAll(s, tokens);
      NoSpace(s + Flatten(tokens)) == NoSpace(Flatten(sentences) + rest)
  {
    hide NoSpace, FeedAll, Flatten;
    FlattenNothing();
    assert [] + s == s;
    FeedMore(s, [], s, tokens);
    var found := FeedAll(s, tokens).0;
    assert [] + found == found;
  }

  // ----- the shape of a sentence -----

  /** Long enough, without white space around it, and no Chinese terminator before its last character. */
  predicate Sentence(s: string) {
    && |s| >= MIN_SENTENCE && !JsSpace(s[0]) && !JsSpace(Last(s))
    && forall j :: 0 <= j < |s| - 1 ==> !CnEnd(s[j])
  }

  lemma CutIsClean(s: string)
    requires SplitIndex(s) != -1
    ensures forall j :: 0 <= j < SplitIndex(s) - 1 ==> !CnEnd(s[j])
  {
    FindCnFirst(s);
  }

  lemma TrimKeepsClean(s: string)
    requires forall j :: 0 <= j < |s| - 1 ==> !CnEnd(s[j])
    ensures var t := Trim(s, JsSpace); forall j :: 0 <= j < |t| - 1 ==> !CnEnd(t[j])
  {
    hide JsSpace, CnEnd;
    var start := TrimStart(s, JsSpace);
    var t := TrimEnd(start, JsSpace);
    var k := |s| - |start|;
    assert forall j :: 0 <= j < |t| ==> t[j] == s[k + j];
  }

  /** Every sentence cut off has its shape. */
  lemma {:induction false} ExtractShapes(s: string)
    ensures forall x :: x in Extract(s).0 ==> Sentence(x)
    decreases |s|
  {
    hide SplitIndex, JsSpace, CnEnd, Trim;
    var i := SplitIndex(s);
    if i != -1 {
      var sentence := Trim(s[..i], JsSpace);
      CutIsClean(s);
      TrimKeepsClean(s[..i]);
      if |sentence| >= MIN_SENTENCE || sentence == "" {
        ExtractShapes(s[i..]);
      }
    }
  }

  // ----- the text that stays -----

  /** How much of the text the sentences cut off, and blank pieces between them, take up. */
  function CutPoint(s: string): (k: nat)
    ensures k <= |s|
    decreases |s|
  {
    var i := SplitIndex(s);
    if i == -1 then 0
    else
      var sentence := Trim(s[..i], JsSpace);
      if |sentence| >= MIN_SENTENCE || sentence == "" then i + CutPoint(s[i..]) else 0
  }

  /**
   The sentences hold the text before the cut point, up to white space.  Behind it either nothing can be cut, and the
   text stays as it is, or the next piece is a fragment of one to five characters, put back without the white space
   around it.
   */
  lemma {:induction false} ExtractLeaves(s: string)
    ensures var (sentences, rest) := Extract(s);
      var k := CutPoint(s);
      var u := s[k..];
      var i := SplitIndex(u);
      && NoSpace(Flatten(sentences)) == NoSpace(s[..k])
      && (i == -1 ==> rest == u)
      && (i != -1 ==> 1 <= |Trim(u[..i], JsSpace)| < MIN_SENTENCE && rest == Trim(u[..i], JsSpace) + u[i..])
    decreases |s|
  {
    hide NoSpace, Trim, SplitIndex, Flatten;
    var i := SplitIndex(s);
    FlattenNothing();
    assert s[0..] == s && s[..0] == "";
    if i != -1 {
      var sentence := Trim(s[..i], JsSpace);
      if |sentence| >= MIN_SENTENCE || sentence == "" {
        ExtractLeaves(s[i..]);
        var k := CutPoint(s[i..]);
        assert s[i..][k..] == s[i + k..];
        TakesMore(s, i, k, Extract(s[i..]).0);
      }
    }
  }

  /** One more piece in front: its trimmed text is one more sentence, or nothing if it is blank. */
  lemma TakesMore(s: string, i: nat, k: nat, more: seq<string>)
    requires i <= |s| && k <= |s| - i && NoSpace(Flatten(more)) == NoSpace(s[i..][..k])
    ensures var sentence := Trim(s[..i], JsSpace);
      && NoSpace(Flatten([sentence] + more)) == NoSpace(s[..i + k])
      && (sentence == "" ==> NoSpace(Flatten(more)) == NoSpace(s[..i + k]))
  {
    hide NoSpace, Trim, Flatten;
    var sentence := Trim(s[..i], JsSpace);
    NoSpaceTrim(s[..i]);
    NoSpaceCongruent(sentence, s[..i], Flatten(more), s[i..][..k]);
    assert s[..i] + s[i..][..k] == s[..i + k];
    FlattenFirst([sentence] + more);
    assert ([sentence] + more)[1..] == more;
    if sentence == "" {
      assert "" + Flatten(more) == Flatten(more);
    }
  }

  predicate IsSuffix(t: string, s: string) {
    |t| <= |s| && t == s[|s| - |t|..]
  }

  lemma SuffixMeets(f: string, u: string, i: nat)
    requires f != "" && 0 < i <= |u| && IsSuffix(f + u[i..], u)
    ensures Last(f) == u[i - 1]
  {
    var rest := f + u[i..];
    assert rest[|f| - 1] == u[|u| - |rest|..][|f| - 1];
  }

  /** A piece that ends in white space is no longer followed by the rest of its text once it is trimmed. */
  lemma TrimmedPiece(u: string, i: nat)
    requires 0 < i <= |u| && Trim(u[..i], JsSpace) != ""
    ensures var rest := Trim(u[..i], JsSpace) + u[i..]; IsSuffix(rest, u) <==> !JsSpace(u[i - 1])
  {
    hide JsSpace, TrimStart, TrimEnd;
    var f := Trim(u[..i], JsSpace);
    if JsSpace(u[i - 1]) {
      if IsSuffix(f + u[i..], u) {
        SuffixMeets(f, u, i);
      }
    } else {
      NothingToTrim(u[..i]);
      assert u == u[..i] + u[i..];
    }
  }

  /** A piece that ends in no white space loses none there. */
  lemma NothingToTrim(piece: string)
    requires piece != "" && !JsSpace(Last(piece))
    ensures IsSuffix(Trim(piece, JsSpace), piece)
  {
    hide JsSpace;
    TrimStartDrops(piece, JsSpace);
    var start := TrimStart(piece, JsSpace);
    assert start != "" && Last(start) == Last(piece);
  }

  /**
   The buffer is the end of the text, letter by letter, exactly when the piece put back had no white space at its
   end to lose; white space in the middle of a message is lost in no other way.
   */
  lemma BufferIsSuffixIff(s: string)
    ensures var u := s[CutPoint(s)..];
      var i := SplitIndex(u);
      IsSuffix(Extract(s).1, s) <==> i == -1 || !JsSpace(u[i - 1])
  {
    hide NoSpace, Trim, SplitIndex, JsSpace, Extract, CutPoint;
    ExtractLeaves(s);
    var k := CutPoint(s);
    var u := s[k..];
    var i := SplitIndex(u);
    if i != -1 {
      TrimmedPiece(u, i);
      var rest := Extract(s).1;
      assert |Trim(u[..i], JsSpace)| <= i;
      assert u[|u| - |rest|..] == s[|s| - |rest|..];
    } else {
      assert s[|s| - |u|..] == u;
    }
  }

  predicate Gap(c: char) {
    c == CN_COMMA || c == ' '
  }

  /** An overlong buffer is cut behind the last comma or space among its first 151 characters, or at 150. */
  lemma ForcedCut(s: string)
    requires FindCn(s) == |s| && FindEn(s) == |s| && |s| > MAX_BUFFER
    ensures var i := SplitIndex(s);
      && 1 < i <= MAX_BUFFER + 1
      && (if exists j :: 1 <= j <= MAX_BUFFER && Gap(s[j])
          then Gap(s[i - 1]) && forall j :: i <= j <= MAX_BUFFER ==> !Gap(s[j])
          else i == MAX_BUFFER)
  {
    var comma, space := LastIndexOf(s, CN_COMMA, MAX_BUFFER), LastIndexOf(s, ' ', MAX_BUFFER);
    LastIndexOfLast(s, CN_COMMA, MAX_BUFFER);
    LastIndexOfLast(s, ' ', MAX_BUFFER);
    assert forall j :: 1 <= j <= MAX_BUFFER && Gap(s[j]) ==> j <= comma || j <= space;
  }

  // ----- where the buffer is cut, character by character -----

  lemma ExtractRound(s: string)
    ensures var i := SplitIndex(s);
      if i == -1 then Extract(s) == ([], s)
      else
        var sentence := Trim(s[..i], JsSpace);
        if |sentence| >= MIN_SENTENCE then Extract(s) == ([sentence] + Extract(s[i..]).0, Extract(s[i..]).1)
        else if sentence == "" then Extract(s) == Extract(s[i..])
        else Extract(s) == ([], sentence + s[i..])
  {
  }

  /** The piece up to `i` is the next sentence, or blank and dropped, or too short and put back. */
  ghost predicate CutAt(s: string, i: nat)
    requires i <= |s|
  {
    var piece, after := Trim(s[..i], JsSpace), Extract(s[i..]);
    Extract(s) == if |piece| >= 6 then ([piece] + after.0, after.1) else if piece == "" then after
                  else ([], piece + s[i..])
  }

  predicate CnMark(c: char) {
    c in {'\U{3002}', '\U{FF01}', '\U{FF1F}', '\U{FF1B}', '\n'}
  }

  /** A Chinese comma or a space. */
  predicate Pause(c: char) {
    c in {'\U{FF0C}', ' '}
  }

  /** `[.!?]\s` at a position. */
  predicate EnMark(s: string, i: nat) {
    i + 1 < |s| && s[i] in {'.', '!', '?'} && JsSpace(s[i + 1])
  }

  /** A Chinese full stop, exclamation mark, question mark or semicolon, or a line break: cut behind the first one. */
  lemma ChineseCut(s: string, i: nat)
    requires i < |s| && CnMark(s[i]) && forall j :: 0 <= j < i ==> !CnMark(s[j])
    ensures CutAt(s, i + 1)
  {
    hide Trim, Extract;
    FindCnIs(s, i);
    ExtractRound(s);
  }

  /** Otherwise a full stop, exclamation mark or question mark with white space behind it: cut behind that. */
  lemma EnglishCut(s: string, i: nat)
    requires forall j :: 0 <= j < |s| ==> !CnMark(s[j])
    requires i < |s| && EnMark(s, i) && forall j :: 0 <= j < i ==> !EnMark(s, j)
    ensures CutAt(s, i + 2)
  {
    hide Trim, Extract, JsSpace;
    NoCnMark(s);
    FindEnFirst(s);
    assert EnAt(s, i);
    assert FindEn(s) < |s| ==> EnMark(s, FindEn(s));
    FindEnWithin(s, i);
    assert FindEn(s) == i;
    ExtractRound(s);
  }

  lemma {:induction false} FindEnWithin(s: string, i: nat)
    requires EnAt(s, i)
    ensures FindEn(s) <= i
  {
    if !EnAt(s, 0) {
      assert EnAt(s[1..], i - 1);
      FindEnWithin(s[1..], i - 1);
    }
  }

  lemma NoCnMark(s: string)
    requires forall j :: 0 <= j < |s| ==> !CnMark(s[j])
    ensures FindCn(s) == |s|
  {
    assert FindCn(s) < |s| ==> CnMark(s[FindCn(s)]);
  }

  lemma NoEnMark(s: string)
    requires forall j :: 0 <= j < |s| ==> !EnMark(s, j)
    ensures FindEn(s) == |s|
  {
    assert FindEn(s) < |s| ==> EnMark(s, FindEn(s));
  }

  /**
   With neither, a buffer of up to 150 characters stays whole; a longer one is cut behind the last Chinese comma or
   space among its first 151 characters, the first of all excepted, and else behind the 150th.
   */
  lemma UnmarkedCut(s: string)
    requires (forall j :: 0 <= j < |s| ==> !CnMark(s[j])) && forall j :: 0 <= j < |s| ==> !EnMark(s, j)
    ensures |s| <= 150 ==> Extract(s) == ([], s)
    ensures |s| > 150 && (forall j :: 1 <= j <= 150 ==> !Pause(s[j])) ==> CutAt(s, 150)
    ensures |s| > 150 ==>
      forall i :: 1 <= i <= 150 && Pause(s[i]) && (forall j :: i < j <= 150 ==> !Pause(s[j])) ==> CutAt(s, i + 1)
  {
    hide *;
    NoCnMark(s);
    NoEnMark(s);
    if |s| <= 150 {
      StaysWhole(s);
    } else {
      if forall j :: 1 <= j <= 150 ==> !Pause(s[j]) {
        ForcedEnd(s);
      }
      forall i | 1 <= i <= 150 && Pause(s[i]) && (forall j :: i < j <= 150 ==> !Pause(s[j])) ensures CutAt(s, i + 1) {
        ForcedPause(s, i);
      }
    }
  }

  lemma StaysWhole(s: string)
    requires FindCn(s) == |s| && FindEn(s) == |s| && |s| <= 150
    ensures Extract(s) == ([], s)
  {
    hide Trim;
  }

  lemma ForcedEnd(s: string)
    requires FindCn(s) == |s| && FindEn(s) == |s| && |s| > 150
    requires forall j :: 1 <= j <= 150 ==> !Pause(s[j])
    ensures CutAt(s, 150)
  {
    hide Trim, Extract, SplitIndex, FindCn, FindEn;
    ForcedCut(s);
    ExtractRound(s);
  }

  lemma ForcedPause(s: string, i: nat)
    requires FindCn(s) == |s| && FindEn(s) == |s| && |s| > 150
    requires 1 <= i <= 150 && Pause(s[i]) && forall j :: i < j <= 150 ==> !Pause(s[j])
    ensures CutAt(s, i + 1)
  {
    hide Trim, Extract, SplitIndex, FindCn, FindEn;
    ForcedCut(s);
    ExtractRound(s);
    assert Gap(s[i]);
  }

  // ----- buffers from which nothing more is ever spoken -----

  /**
   The buffer starts with a fragment that is cut off and put back for ever: up to the first terminator other
   than a line break it has fewer than six characters, once blank lines are dropped and short lines are joined.
   */
  predicate Stuck(s: string)
    decreases |s|
  {
    var cn := FindCn(s);
    if cn == |s| then false
    else
      var sentence := Trim(s[..cn + 1], JsSpace);
      if |sentence| >= MIN_SENTENCE then false
      else if s[cn] != '\n' then true
      else
        LineIsShorter(s, cn);
        Stuck(sentence + s[cn + 1..])
  }

  lemma LineIsShorter(s: string, cn: nat)
    requires cn < |s| && s[cn] == '\n'
    ensures |Trim(s[..cn + 1], JsSpace)| <= cn
  {
    assert JsSpace(s[cn]);
  }

  lemma FindCnIs(s: string, i: nat)
    requires i < |s| && CnEnd(s[i]) && forall j :: 0 <= j < i ==> !CnEnd(s[j])
    ensures FindCn(s) == i
  {
    FindCnFirst(s);
    hide CnEnd;
  }

  /** The first terminator of a text is that of any text it starts. */
  lemma FindCnMore(s: string, t: string)
    requires FindCn(s) < |s|
    ensures FindCn(s + t) == FindCn(s) && (s + t)[..FindCn(s) + 1] == s[..FindCn(s) + 1]
    ensures (s + t)[FindCn(s)] == s[FindCn(s)] && (s + t)[FindCn(s) + 1..] == s[FindCn(s) + 1..] + t
  {
    hide CnEnd;
    FindCnFirst(s);
    FindCnIs(s + t, FindCn(s));
  }

  /** More text does not free a stuck buffer. */
  lemma {:induction false} StuckGrows(s: string, t: string)
    requires FindCn(s) < |s|
    ensures Stuck(s) ==> Stuck(s + t)
    decreases |s|
  {
    hide Trim, FindCn;
    FindCnMore(s, t);
    var cn := FindCn(s);
    var sentence := Trim(s[..cn + 1], JsSpace);
    if Stuck(s) && s[cn] == '\n' {
      LineIsShorter(s, cn);
      var joined := sentence + s[cn + 1..];
      assert sentence + (s + t)[cn + 1..] == joined + t;
      StuckHasEnd(joined);
      StuckGrows(joined, t);
    }
  }

  lemma StuckHasEnd(s: string)
    requires Stuck(s)
    ensures FindCn(s) < |s|
  {
  }

  lemma ExtractStuckStep(s: string)
    requires FindCn(s) < |s|
    ensures var sentence := Trim(s[..FindCn(s) + 1], JsSpace);
      var rest := s[FindCn(s) + 1..];
      && SplitIndex(s) == FindCn(s) + 1
      && (|sentence| >= MIN_SENTENCE ==> Extract(s).0 == [sentence] + Extract(rest).0)
      && (|sentence| < MIN_SENTENCE && sentence != "" ==> Extract(s) == ([], sentence + rest))
      && (sentence == "" ==> Extract(s) == Extract(rest))
  {
    hide Trim, FindCn, FindEn, LastIndexOf;
  }

  /** A fragment that ends in a terminator is cut in the same place again. */
  lemma FragmentAgain(s: string, cn: nat)
    requires cn == FindCn(s) < |s| && s[cn] != '\n'
    ensures var sentence := Trim(s[..cn + 1], JsSpace);
      |sentence| < MIN_SENTENCE ==> sentence != "" && Stuck(sentence + s[cn + 1..])
  {
    var sentence := Trim(s[..cn + 1], JsSpace);
    if |sentence| < MIN_SENTENCE {
      TrimmedEnd(s, cn);
      var again := sentence + s[cn + 1..];
      FindCnFirst(s);
      TrimKeepsClean(s[..cn + 1]);
      FindCnIs(again, |sentence| - 1);
      assert again[..|sentence|] == sentence;
      TrimTrimmed(sentence, JsSpace);
    }
  }

  lemma TrimmedEnd(s: string, cn: nat)
    requires cn < |s| && CnEnd(s[cn]) && s[cn] != '\n'
    ensures var sentence := Trim(s[..cn + 1], JsSpace); sentence != "" && Last(sentence) == s[cn]
  {
    assert !JsSpace(s[cn]);
    var start := TrimStart(s[..cn + 1], JsSpace);
    TrimStartDrops(s[..cn + 1], JsSpace);
    TrimEndDrops(start, JsSpace);
    assert start != "" && Last(start) == s[cn];
  }

  /** A stuck buffer yields nothing and stays stuck. */
  lemma {:induction false} StuckStays(s: string)
    requires Stuck(s)
    ensures Extract(s).0 == [] && Stuck(Extract(s).1)
    decreases |s|
  {
    hide Trim, FindCn, Extract;
    ExtractStuckStep(s);
    var cn := FindCn(s);
    var sentence := Trim(s[..cn + 1], JsSpace);
    if s[cn] != '\n' {
      FragmentAgain(s, cn);
    } else if sentence == "" {
      assert sentence + s[cn + 1..] == s[cn + 1..];
      StuckStays(s[cn + 1..]);
    }
  }

  lemma {:induction false} StuckSilent(s: string, tokens: seq<string>)
    requires Stuck(s)
    ensures FeedAll(s, tokens).0 == []
    decreases |tokens|
  {
    hide Extract, Stuck;
    if tokens != [] {
      StuckHasEnd(s);
      StuckGrows(s, tokens[0]);
      StuckStays(s + tokens[0]);
      StuckSilent(Extract(s + tokens[0]).1, tokens[1..]);
    }
  }

  const LONG_SENTENCE := "aaaaaa\U{3002}"

  lemma LongSentenceEnds(s: string)
    requires FindCn(s) == |s|
    ensures FindCn(s + LONG_SENTENCE) == |s| + 6 && |s + LONG_SENTENCE| == |s| + 7
  {
    var t := s + LONG_SENTENCE;
    FindCnFirst(s);
    assert forall j :: 0 <= j < 6 ==> !CnEnd(LONG_SENTENCE[j]);
    assert CnEnd(LONG_SENTENCE[6]) && t[|s| + 6] == LONG_SENTENCE[6];
    hide CnEnd;
    FindCnIs(t, |s| + 6);
  }

  lemma LongSentenceSpeaks(s: string)
    requires FindCn(s) == |s|
    ensures Extract(s + LONG_SENTENCE).0 != []
  {
    hide FindCn, CnEnd, Trim, Extract, SplitIndex;
    var t := s + LONG_SENTENCE;
    LongSentenceEnds(s);
    assert t[..|s| + 7] == t;
    ExtractStuckStep(t);
    LongTrim(s);
  }

  lemma LongTrim(s: string)
    ensures |Trim(s + LONG_SENTENCE, JsSpace)| >= MIN_SENTENCE
  {
    var t := s + LONG_SENTENCE;
    var start := TrimStart(t, JsSpace);
    assert !JsSpace(t[|s|]) && !JsSpace(Last(t));
    TrimStartDrops(t, JsSpace);
    assert |start| >= 7;
    TrimEndDrops(start, JsSpace);
    assert Last(start) == Last(t);
  }

  /** Any other buffer can still be made to speak. */
  lemma {:induction false} FreeSpeaks(s: string) returns (tokens: seq<string>)
    requires !Stuck(s)
    ensures FeedAll(s, tokens).0 != []
    decreases |s|
  {
    hide Trim, FindCn, Extract;
    var cn := FindCn(s);
    if cn == |s| {
      tokens := [LONG_SENTENCE];
      LongSentenceSpeaks(s);
    } else {
      ExtractStuckStep(s);
      var sentence := Trim(s[..cn + 1], JsSpace);
      assert s + "" == s;
      if |sentence| >= MIN_SENTENCE {
        tokens := [""];
      } else {
        LineIsShorter(s, cn);
        var joined := sentence + s[cn + 1..];
        var more := FreeSpeaks(joined);
        if sentence != "" {
          tokens := [""] + more;
          assert tokens[1..] == more;
        } else {
          assert joined == s[cn + 1..];
          tokens := more;
          BlankLineGone(s, more[0]);
        }
      }
    }
  }

  /** A blank line in front makes no difference to the next token. */
  lemma BlankLineGone(s: string, token: string)
    requires FindCn(s) < |s| && Trim(s[..FindCn(s) + 1], JsSpace) == ""
    ensures Extract(s + token) == Extract(s[FindCn(s) + 1..] + token)
  {
    hide Trim, FindCn, Extract;
    FindCnMore(s, token);
    ExtractStuckStep(s + token);
  }

  /**
   Exactly when speech stops: nothing is spoken before the end of the message, whatever is still to come, if
   and only if the buffer is stuck.
   */
  lemma SilentIffStuck(s: string)
    ensures (forall tokens :: FeedAll(s, tokens).0 == []) <==> Stuck(s)
  {
    if Stuck(s) {
      forall tokens ensures FeedAll(s, tokens).0 == [] { StuckSilent(s, tokens); }
    } else {
      var tokens := FreeSpeaks(s);
    }
  }

  const SHORT_GREETING := "\U{4F60}\U{597D}\U{3002}"

  /** A short greeting silences the rest of its message. */
  lemma ShortGreetingSticks(tokens: seq<string>)
    ensures FeedAll(SHORT_GREETING, tokens).0 == []
  {
    FindCnIs(SHORT_GREETING, 2);
    assert SHORT_GREETING[..3] == SHORT_GREETING;
    StuckSilent(SHORT_GREETING, tokens);
  }

  /** One English word or abbreviation, without white space or a Chinese terminator. */
  predicate Word(s: string) {
    s != "" && forall i :: 0 <= i < |s| ==> !JsSpace(s[i]) && !CnEnd(s[i])
  }

  lemma FindEnIs(s: string, i: nat)
    requires EnAt(s, i) && forall j :: 0 <= j < i ==> !EnAt(s, j)
    ensures FindEn(s) == i
  {
    FindEnFirst(s);
    hide EnEnd, JsSpace;
  }

  lemma TrimSpaced(s: string)
    requires Word(s)
    ensures Trim(s + " ", JsSpace) == s
  {
    var t := s + " ";
    assert TrimStart(t, JsSpace) == t;
    assert JsSpace(' ') && t[..|s|] == s;
    assert TrimEnd(t, JsSpace) == TrimEnd(s, JsSpace) == s;
  }

  lemma WordHasNoSplit(s: string)
    requires Word(s) && |s| <= MAX_BUFFER
    ensures Extract(s) == ([], s)
  {
    hide JsSpace, CnEnd, EnEnd;
    assert forall i :: 0 <= i < |s| ==> !EnAt(s, i);
  }

  lemma EnglishFragment(f: string)
    requires Word(f) && |f| < MIN_SENTENCE && EnEnd(Last(f))
    ensures Extract(f + " ") == ([], f)
  {
    hide Word, FindEn, FindCn, Trim;
    var s := f + " ";
    TrimSpaced(f);
    SpacedFinds(f);
    assert s[..|s|] == s && s[|s|..] == "" && f + "" == f;
    assert f != "" by { WordNonEmpty(f); }
  }

  lemma WordNonEmpty(s: string)
    requires Word(s)
    ensures s != ""
  {
  }

  lemma SpacedFinds(f: string)
    requires Word(f) && EnEnd(Last(f))
    ensures FindCn(f + " ") == |f| + 1 && FindEn(f + " ") == |f| - 1
  {
    var s := f + " ";
    assert !CnEnd(' ') && JsSpace(' ');
    hide JsSpace, CnEnd, EnEnd;
    assert forall j :: 0 <= j < |f| - 1 ==> !EnAt(s, j);
    FindEnIs(s, |f| - 1);
  }

  /** A short English fragment loses the space that ended it, and its words run together. */
  lemma FragmentLosesSpace(f: string, word: string)
    requires Word(f) && |f| < MIN_SENTENCE && EnEnd(Last(f)) && Word(word) && |f| + |word| <= MAX_BUFFER
    ensures FeedAll("", [f + " ", word]) == ([], f + word)
  {
    hide Extract;
    EnglishFragment(f);
    WordHasNoSplit(f + word);
    hide Word;
    assert "" + (f + " ") == f + " ";
    assert [f + " ", word][1..] == [word] && [word][1..] == [];
    assert FeedAll(f + word, []) == ([], f + word);
    assert FeedAll(f, [word]).0 == [];
  }
}
