/**
 `StreamingTTSManager`: sentences are synthesised by one loop and played by another, each suspended at
 its `await`.  Between two awaits nothing else runs, so an event is a token, a call, or the completion of
 something awaited, and its effect is everything that runs before control returns to the event loop.
 */
module SpeechPipeline {
  import opened Prelude
  import opened Text
  import opened SpeechText

  type Audio = nat

  /** An attempted synthesis: `None` for an error result, no result or an exception. */
  datatype Attempt = Attempt(sentence: string, audio: Option<Audio>)

  /**
   The manager's fields, the loops suspended at an `await` with what each waits for, and the history since
   `startStreaming`: the text fed, the sentences queued, the syntheses finished, the audio handed to the player.
   */
  datatype State = State(
    pending: string, sentences: seq<string>, audios: seq<Audio>, synthesizing: bool, playing: bool, cancelled: bool,
    inSynthesis: seq<string>, inPlayback: seq<Audio>,
    fed: string, enqueued: seq<string>, attempts: seq<Attempt>, played: seq<Audio>)

  const INITIAL := State("", [], [], false, false, true, [], [], "", [], [], [])

  /** The head of `synthesizeLoop`: wait for the next sentence, or stop. */
  function SynthesizeNext(st: State): State {
    if st.sentences != [] && !st.cancelled then
      st.(sentences := st.sentences[1..], inSynthesis := st.inSynthesis + [st.sentences[0]])
    else st.(synthesizing := false)
  }

  function KickSynthesis(st: State): State {
    if !st.synthesizing && st.sentences != [] && !st.cancelled then SynthesizeNext(st.(synthesizing := true)) else st
  }

  /** The head of `playLoop`. */
  function PlayNext(st: State): State {
    if st.audios != [] && !st.cancelled then
      st.(audios := st.audios[1..], inPlayback := st.inPlayback + [st.audios[0]], played := st.played + [st.audios[0]])
    else st.(playing := false)
  }

  function Extracted(st: State, cut: (seq<string>, string)): State {
    st.(pending := cut.1, sentences := st.sentences + cut.0, enqueued := st.enqueued + cut.0)
  }

  function FeedToken(st: State, token: string): State {
    if st.cancelled then st
    else
      KickSynthesis(Extracted(st.(fed := st.fed + token), Extract(st.pending + token)))
  }

  function FinishStreaming(st: State): State {
    if st.cancelled then st
    else
      var remaining := Trim(st.pending, JsSpace);
      if remaining == "" then st
      else KickSynthesis(Extracted(st, ([remaining], "")))
  }

  function Cancel(st: State): State {
    if st.cancelled then st
    else st.(cancelled := true, pending := "", sentences := [], audios := [], synthesizing := false, playing := false)
  }

  function StartStreaming(st: State): State {
    Cancel(st).(cancelled := false, pending := "", fed := "", enqueued := [], attempts := [], played := [])
  }

  function Without<T>(s: seq<T>, k: nat): seq<T>
    requires k < |s|
  {
    s[..k] + s[k + 1..]
  }

  /** A synthesis loop wakes up: `break` when cancelled, else keep the audio, wake the player, go on. */
  function SynthesisDone(st: State, k: nat, audio: Option<Audio>): State
    requires k < |st.inSynthesis|
  {
    var woken := st.(inSynthesis := Without(st.inSynthesis, k),
                     attempts := st.attempts + [Attempt(st.inSynthesis[k], audio)]);
    if st.cancelled then woken.(synthesizing := false)
    else if audio.None? then SynthesizeNext(woken)
    else
      var filled := woken.(audios := woken.audios + [audio.value]);
      SynthesizeNext(if filled.playing then filled else PlayNext(filled.(playing := true)))
  }

  function PlaybackDone(st: State, k: nat): State
    requires k < |st.inPlayback|
  {
    PlayNext(st.(inPlayback := Without(st.inPlayback, k)))
  }

  /** `found` has been cut off `text` so far and `rest` is still to be cut. */
  predicate Cut(text: string, found: seq<string>, rest: string) {
    Extract(text) == (found + Extract(rest).0, Extract(rest).1)
  }

  lemma CutNothing(text: string)
    ensures Cut(text, [], text)
  {
    hide Extract;
    assert [] + Extract(text).0 == Extract(text).0;
  }

  lemma CutOnce(text: string, found: seq<string>, rest: string)
    requires Cut(text, found, rest)
    ensures var i := SplitIndex(rest);
      if i == -1 then Extract(text) == (found, rest)
      else
        var sentence := Trim(rest[..i], JsSpace);
        if |sentence| >= MIN_SENTENCE then Cut(text, found + [sentence], rest[i..])
        else if sentence == "" then Cut(text, found, rest[i..])
        else Extract(text) == (found, sentence + rest[i..])
  {
    hide SplitIndex, Trim;
    var i := SplitIndex(rest);
    ExtractRound(rest);
    if i != -1 {
      var sentence := Trim(rest[..i], JsSpace);
      hide Extract;
      var more := Extract(rest[i..]).0;
      assert found + ([sentence] + more) == found + [sentence] + more;
    }
    assert found + [] == found;
  }

  /** The fields and loops of the manager, changed in place. */
  class StreamingTTSManager {
    var pendingText: string
    var sentenceQueue: seq<string>
    var audioQueue: seq<Audio>
    var isSynthesizing: bool
    var isPlaying: bool
    var cancelled: bool
    var inSynthesis: seq<string>
    var inPlayback: seq<Audio>
    ghost var fed: string
    ghost var enqueued: seq<string>
    ghost var attempts: seq<Attempt>
    ghost var played: seq<Audio>

    ghost function View(): State
      reads this
    {
      State(pendingText, sentenceQueue, audioQueue, isSynthesizing, isPlaying, cancelled,
            inSynthesis, inPlayback, fed, enqueued, attempts, played)
    }

    constructor ()
      ensures View() == INITIAL
    {
      pendingText, sentenceQueue, audioQueue := "", [], [];
      isSynthesizing, isPlaying, cancelled := false, false, true;
      inSynthesis, inPlayback := [], [];
      fed, enqueued, attempts, played := "", [], [], [];
    }

    method Start()
      modifies this
      ensures View() == StartStreaming(old(View()))
    {
      CancelAll();
      cancelled := false;
      pendingText := "";
      fed, enqueued, attempts, played := "", [], [], [];
    }

    method CancelAll()
      modifies this
      ensures View() == Cancel(old(View()))
    {
      if cancelled { return; }
      cancelled := true;
      pendingText := "";
      sentenceQueue := [];
      audioQueue := [];
      isSynthesizing := false;
      isPlaying := false;
    }

    method Feed(token: string)
      modifies this
      ensures View() == FeedToken(old(View()), token)
    {
      hide KickSynthesis, Extract;
      if cancelled { return; }
      pendingText := pendingText + token;
      fed := fed + token;
      ExtractAndEnqueue();
    }

    method ExtractAndEnqueue()
      modifies this
      ensures View() == KickSynthesis(Extracted(old(View()), Extract(old(pendingText))))
    {
      hide SplitIndex, Trim, Extract, KickSynthesis;
      ghost var found: seq<string> := [];
      CutNothing(pendingText);
      while true
        invariant View() == Extracted(old(View()), (found, pendingText))
        invariant Cut(old(pendingText), found, pendingText)
        decreases |pendingText|
      {
        CutOnce(old(pendingText), found, pendingText);
        var splitIdx := SplitIndex(pendingText);
        if splitIdx == -1 { break; }
        var sentence := Trim(pendingText[..splitIdx], JsSpace);
        pendingText := pendingText[splitIdx..];
        if |sentence| >= MIN_SENTENCE {
          sentenceQueue := sentenceQueue + [sentence];
          enqueued := enqueued + [sentence];
          found := found + [sentence];
        } else if sentence != "" {
          pendingText := sentence + pendingText;
          break;
        }
      }
      Kick();
    }

    method Finish()
      modifies this
      ensures View() == FinishStreaming(old(View()))
    {
      hide KickSynthesis, Trim;
      if cancelled { return; }
      var remaining := Trim(pendingText, JsSpace);
      if remaining != "" {
        sentenceQueue := sentenceQueue + [remaining];
        enqueued := enqueued + [remaining];
        pendingText := "";
        Kick();
      }
    }

    method Kick()
      modifies this
      ensures View() == KickSynthesis(old(View()))
    {
      if !isSynthesizing && sentenceQueue != [] && !cancelled {
        isSynthesizing := true;
        AwaitSynthesis();
      }
    }

    /** `synthesizeLoop` up to its `await`, or to its end. */
    method AwaitSynthesis()
      modifies this
      ensures View() == SynthesizeNext(old(View()))
    {
      if sentenceQueue != [] && !cancelled {
        inSynthesis := inSynthesis + [sentenceQueue[0]];
        sentenceQueue := sentenceQueue[1..];
      } else {
        isSynthesizing := false;
      }
    }

    /** `playLoop` up to its `await`, or to its end. */
    method AwaitPlayback()
      modifies this
      ensures View() == PlayNext(old(View()))
    {
      if audioQueue != [] && !cancelled {
        inPlayback := inPlayback + [audioQueue[0]];
        played := played + [audioQueue[0]];
        audioQueue := audioQueue[1..];
      } else {
        isPlaying := false;
      }
    }

    /** A synthesis loop resumes behind its `await`. */
    method ResumeSynthesis(k: nat, audio: Option<Audio>)
      requires k < |inSynthesis|
      modifies this
      ensures View() == SynthesisDone(old(View()), k, audio)
    {
      attempts := attempts + [Attempt(inSynthesis[k], audio)];
      inSynthesis := Without(inSynthesis, k);
      if cancelled {
        isSynthesizing := false;
        return;
      }
      if audio.Some? {
        audioQueue := audioQueue + [audio.value];
        if !isPlaying {
          isPlaying := true;
          AwaitPlayback();
        }
      }
      AwaitSynthesis();
    }

    /** A play loop resumes behind its `await`. */
    method ResumePlayback(k: nat)
      requires k < |inPlayback|
      modifies this
      ensures View() == PlaybackDone(old(View()), k)
    {
      inPlayback := Without(inPlayback, k);
      AwaitPlayback();
    }
  }

  // ----- runs -----

  datatype Event =
    | Begin
    | Token(text: string)
    | End
    | Stop
    | Synthesized(k: nat, audio: Option<Audio>)
    | Played(k: nat)

  predicate Enabled(st: State, e: Event) {
    match e
    case Synthesized(k, _) => k < |st.inSynthesis|
    case Played(k) => k < |st.inPlayback|
    case _ => true
  }

  function Apply(st: State, e: Event): State
    requires Enabled(st, e)
  {
    match e
    case Begin => StartStreaming(st)
    case Token(text) => FeedToken(st, text)
    case End => FinishStreaming(st)
    case Stop => Cancel(st)
    case Synthesized(k, audio) => SynthesisDone(st, k, audio)
    case Played(k) => PlaybackDone(st, k)
  }

  predicate EnabledRun(st: State, events: seq<Event>)
    decreases |events|
  {
    events == [] || (Enabled(st, events[0]) && EnabledRun(Apply(st, events[0]), events[1..]))
  }

  function Run(st: State, events: seq<Event>): State
    requires EnabledRun(st, events)
    decreases |events|
  {
    if events == [] then st else Run(Apply(st, events[0]), events[1..])
  }

  /** Nothing is suspended when speech is cancelled or restarted. */
  predicate CalmRun(st: State, events: seq<Event>)
    requires EnabledRun(st, events)
    decreases |events|
  {
    events == [] ||
    ((events[0].Begin? || events[0].Stop? ==> st.inSynthesis == [] && st.inPlayback == [])
     && CalmRun(Apply(st, events[0]), events[1..]))
  }

  function Successes(attempts: seq<Attempt>): seq<Audio> {
    if attempts == [] then []
    else (if attempts[0].audio.Some? then [attempts[0].audio.value] else []) + Successes(attempts[1..])
  }

  function Sentences(attempts: seq<Attempt>): (r: seq<string>)
    ensures |r| == |attempts| && forall i :: 0 <= i < |r| ==> r[i] == attempts[i].sentence
  {
    seq(|attempts|, i requires 0 <= i < |attempts| => attempts[i].sentence)
  }

  lemma SuccessesFirst(a: Attempt, rest: seq<Attempt>)
    ensures Successes([a] + rest) == (if a.audio.Some? then [a.audio.value] else []) + Successes(rest)
  {
    assert ([a] + rest)[1..] == rest;
  }

  lemma {:induction false} SuccessesConcat(a: seq<Attempt>, b: seq<Attempt>)
    ensures Successes(a + b) == Successes(a) + Successes(b)
  {
    hide Successes;
    if a == [] {
      assert a + b == b && [] + Successes(b) == Successes(b);
      assert Successes([]) == [] by { NoSuccesses(); }
    } else {
      SuccessesConcat(a[1..], b);
      SuccessesFirst(a[0], a[1..]);
      SuccessesFirst(a[0], a[1..] + b);
      assert a == [a[0]] + a[1..] && a + b == [a[0]] + (a[1..] + b);
    }
  }

  lemma NoSuccesses()
    ensures Successes([]) == []
  {
  }

  /** At most one loop of each kind, and the flags say whether it lives. */
  predicate OneLoop(st: State) {
    && |st.inSynthesis| == (if st.synthesizing then 1 else 0)
    && |st.inPlayback| == (if st.playing then 1 else 0)
  }

  /** Whatever is queued has a loop that will come for it. */
  predicate Awake(st: State) {
    && (st.sentences != [] ==> st.synthesizing)
    && (st.audios != [] ==> st.playing)
    && (st.cancelled ==> !st.synthesizing && !st.playing)
  }

  /** Sentences are attempted in the order they were queued, audio is played in the order it was made. */
  predicate InOrder(st: State) {
    && (!st.cancelled ==> st.enqueued == Sentences(st.attempts) + st.inSynthesis + st.sentences)
    && (!st.cancelled ==> Successes(st.attempts) == st.played + st.audios)
    && (st.cancelled ==> st.pending == "" && st.sentences == [] && st.audios == [])
  }

  /** The sentences queued and the buffer hold the text fed, up to white space. */
  predicate Conserved(st: State) {
    !st.cancelled ==> NoSpace(st.fed) == NoSpace(Flatten(st.enqueued) + st.pending)
  }

  predicate Good(st: State) {
    OneLoop(st) && Awake(st) && InOrder(st) && Conserved(st)
  }

  /** What the queues and loops keep; `enqueued` is fixed while they run. */
  predicate Flowing(st: State) {
    OneLoop(st) && Awake(st) && InOrder(st)
  }

  lemma SynthesizeNextFlows(st: State)
    requires InOrder(st) && !st.cancelled && st.synthesizing && st.inSynthesis == []
    requires |st.inPlayback| == (if st.playing then 1 else 0) && (st.audios != [] ==> st.playing)
    ensures Flowing(SynthesizeNext(st))
  {
    hide Successes;
    if st.sentences != [] {
      assert [st.sentences[0]] + st.sentences[1..] == st.sentences;
    }
  }

  lemma KickFlows(st: State)
    requires OneLoop(st) && InOrder(st) && !st.cancelled && (st.audios != [] ==> st.playing)
    ensures Flowing(KickSynthesis(st))
  {
    hide Successes;
    if !st.synthesizing && st.sentences != [] {
      SynthesizeNextFlows(st.(synthesizing := true));
    }
  }

  lemma PlayNextFlows(st: State)
    requires InOrder(st) && !st.cancelled && st.playing && st.inPlayback == []
    ensures var next := PlayNext(st);
      && InOrder(next) && |next.inPlayback| == (if next.playing then 1 else 0) && (next.audios != [] ==> next.playing)
      && next.synthesizing == st.synthesizing && next.inSynthesis == st.inSynthesis && next.sentences == st.sentences
      && !next.cancelled && next.enqueued == st.enqueued
  {
    hide Successes, Sentences;
    if st.audios != [] {
      assert st.played + st.audios == st.played + [st.audios[0]] + st.audios[1..];
    }
  }

  lemma SynthesisDoneFlows(st: State, k: nat, audio: Option<Audio>)
    requires Flowing(st) && k < |st.inSynthesis| && !st.cancelled
    ensures Flowing(SynthesisDone(st, k, audio))
  {
    var done := Attempt(st.inSynthesis[k], audio);
    var woken := st.(inSynthesis := Without(st.inSynthesis, k), attempts := st.attempts + [done]);
    assert k == 0 && Without(st.inSynthesis, k) == [];
    SuccessesConcat(st.attempts, [done]);
    assert Successes([done]) == if audio.Some? then [audio.value] else [] by {
      assert [done][1..] == [];
    }
    hide Successes;
    assert Sentences(woken.attempts) == Sentences(st.attempts) + st.inSynthesis;
    hide Sentences;
    if audio.None? {
      SynthesizeNextFlows(woken);
    } else {
      var filled := woken.(audios := woken.audios + [audio.value]);
      assert InOrder(filled);
      if filled.playing {
        SynthesizeNextFlows(filled);
      } else {
        PlayNextFlows(filled.(playing := true));
        SynthesizeNextFlows(PlayNext(filled.(playing := true)));
      }
    }
  }

  lemma PlaybackDoneFlows(st: State, k: nat)
    requires Flowing(st) && k < |st.inPlayback| && !st.cancelled
    ensures Flowing(PlaybackDone(st, k))
  {
    hide Successes, Sentences;
    assert Without(st.inPlayback, k) == [];
    PlayNextFlows(st.(inPlayback := []));
  }

  lemma ExtractedFlows(st: State, cut: (seq<string>, string))
    requires Flowing(st) && !st.cancelled
    ensures Flowing(KickSynthesis(Extracted(st, cut)))
  {
    hide Successes, Sentences;
    var next := Extracted(st, cut);
    var head := Sentences(st.attempts) + st.inSynthesis;
    assert next.enqueued == head + (st.sentences + cut.0);
    KickFlows(next);
  }

  /** A call that adds sentences changes neither the text fed nor what was found already. */
  lemma KickKeeps(st: State)
    ensures var next := KickSynthesis(st);
      next.fed == st.fed && next.enqueued == st.enqueued && next.pending == st.pending && next.cancelled == st.cancelled
  {
  }

  lemma FeedGood(st: State, token: string)
    requires Good(st)
    ensures Good(FeedToken(st, token))
  {
    hide NoSpace, Extract, KickSynthesis, OneLoop, Awake, InOrder;
    if !st.cancelled {
      var cut := Extract(st.pending + token);
      var fed := st.(fed := st.fed + token);
      FedFlows(st, fed.fed);
      ExtractedFlows(fed, cut);
      KickKeeps(Extracted(fed, cut));
      FeedOne(st.fed, st.enqueued, st.pending, token);
    }
  }

  lemma FedFlows(st: State, fed: string)
    requires Flowing(st)
    ensures Flowing(st.(fed := fed))
  {
  }

  /** Once the stream is finished, the sentences alone hold all of its text. */
  lemma FinishGood(st: State)
    requires Good(st)
    ensures Good(FinishStreaming(st))
    ensures var next := FinishStreaming(st); !st.cancelled ==> NoSpace(st.fed) == NoSpace(Flatten(next.enqueued))
  {
    hide NoSpace, Trim, KickSynthesis, OneLoop, Awake, InOrder;
    if !st.cancelled {
      var remaining := Trim(st.pending, JsSpace);
      NoSpaceTrim(st.pending);
      NoSpaceConcat(Flatten(st.enqueued), st.pending);
      if remaining != "" {
        ExtractedFlows(st, ([remaining], ""));
        KickKeeps(Extracted(st, ([remaining], "")));
        FlattenConcat(st.enqueued, [remaining]);
        assert [remaining][1..] == [];
        assert Flatten([remaining]) == remaining;
        NoSpaceConcat(Flatten(st.enqueued), remaining);
        assert Flatten(st.enqueued + [remaining]) + "" == Flatten(st.enqueued + [remaining]);
      } else {
        NoSpaceBlank("");
      }
    }
  }

  lemma CompletionKeeps(st: State, e: Event)
    requires Enabled(st, e) && (e.Synthesized? || e.Played?)
    ensures var next := Apply(st, e);
      next.fed == st.fed && next.enqueued == st.enqueued && next.pending == st.pending && next.cancelled == st.cancelled
  {
  }

  lemma ApplyGood(st: State, e: Event)
    requires Good(st) && Enabled(st, e)
    requires e.Begin? || e.Stop? ==> st.inSynthesis == [] && st.inPlayback == []
    ensures Good(Apply(st, e))
  {
    match e
    case Begin => assert NoSpace(Flatten<char>([]) + "") == NoSpace("");
    case Stop =>
    case Token(text) => FeedGood(st, text);
    case End => FinishGood(st);
    case Synthesized(k, audio) => SynthesisDoneFlows(st, k, audio); CompletionKeeps(st, e);
    case Played(k) => PlaybackDoneFlows(st, k); CompletionKeeps(st, e);
  }

  lemma InitialGood()
    ensures Good(INITIAL)
  {
    assert NoSpace(Flatten<char>([]) + "") == NoSpace("");
  }

  /**
   Over every calm run: one loop of each kind at most, no queue without its loop, everything in order and
   no text lost.
   */
  lemma {:induction false} RunGood(st: State, events: seq<Event>)
    requires Good(st) && EnabledRun(st, events) && CalmRun(st, events)
    ensures Good(Run(st, events))
    decreases |events|
  {
    hide Good, Enabled, Apply;
    if events != [] {
      ApplyGood(st, events[0]);
      RunGood(Apply(st, events[0]), events[1..]);
    }
  }

  /** Hence from a new manager on. */
  lemma SpeechInvariant(events: seq<Event>)
    requires EnabledRun(INITIAL, events) && CalmRun(INITIAL, events)
    ensures Good(Run(INITIAL, events))
  {
    hide Good, EnabledRun, CalmRun, Run;
    InitialGood();
    RunGood(INITIAL, events);
  }

  /** A manager that is not cancelled and waits for nothing has tried every sentence and played all its audio. */
  lemma SilentIsComplete(st: State)
    requires Good(st) && !st.cancelled && st.inSynthesis == [] && st.inPlayback == []
    ensures st.enqueued == Sentences(st.attempts) && st.played == Successes(st.attempts)
  {
    hide Successes, Sentences, Conserved;
    assert Sentences(st.attempts) + [] + [] == Sentences(st.attempts);
    assert st.played + [] == st.played;
  }

  // ----- everything is spoken in the end -----

  predicate Completion(e: Event) {
    e.Synthesized? || e.Played?
  }

  /** An upper bound on the completions still to come. */
  function Outstanding(st: State): nat {
    2 * |st.sentences| + 2 * |st.inSynthesis| + |st.audios| + |st.inPlayback|
  }

  lemma SynthesisWorks(st: State, k: nat, audio: Option<Audio>)
    requires OneLoop(st) && Awake(st) && !st.cancelled && k < |st.inSynthesis|
    ensures Outstanding(SynthesisDone(st, k, audio)) < Outstanding(st)
  {
    assert Without(st.inSynthesis, k) == [];
    var woken := st.(inSynthesis := [], attempts := st.attempts + [Attempt(st.inSynthesis[k], audio)]);
    NextWorks(woken);
    if audio.Some? {
      var filled := woken.(audios := woken.audios + [audio.value]);
      NextWorks(filled);
      PlayWorks(filled.(playing := true));
      NextWorks(PlayNext(filled.(playing := true)));
    }
  }

  /** Waiting for the next item only moves it. */
  lemma NextWorks(st: State)
    ensures Outstanding(SynthesizeNext(st)) == Outstanding(st)
  {
  }

  lemma PlayWorks(st: State)
    ensures Outstanding(PlayNext(st)) == Outstanding(st)
  {
  }

  lemma CompletionWorks(st: State, e: Event)
    requires Good(st) && !st.cancelled && Enabled(st, e) && Completion(e)
    ensures Outstanding(Apply(st, e)) < Outstanding(st)
  {
    hide PlayNext, SynthesisDone, InOrder, Conserved;
    if e.Synthesized? {
      SynthesisWorks(st, e.k, e.audio);
    } else {
      PlayWorks(st.(inPlayback := Without(st.inPlayback, e.k)));
    }
  }

  predicate AllCompletions(events: seq<Event>) {
    forall e :: e in events ==> Completion(e)
  }

  /** Nothing that was awaited can complete any more. */
  ghost predicate Quiet(st: State) {
    forall e :: Completion(e) ==> !Enabled(st, e)
  }

  /** Completions run out, and leave what was fed and found alone. */
  lemma {:induction false} CompletionsEnd(st: State, events: seq<Event>)
    requires Good(st) && !st.cancelled && EnabledRun(st, events) && AllCompletions(events)
    ensures var last := Run(st, events);
      && |events| + Outstanding(last) <= Outstanding(st)
      && Good(last) && !last.cancelled && last.enqueued == st.enqueued && last.fed == st.fed
    decreases |events|
  {
    hide Good, Apply, Outstanding;
    if events != [] {
      CompletionWorks(st, events[0]);
      ApplyGood(st, events[0]);
      CompletionKeeps(st, events[0]);
      CompletionsEnd(Apply(st, events[0]), events[1..]);
    }
  }

  /** Completions are still to come exactly while something is left to say. */
  lemma SomethingAwaited(st: State)
    requires Good(st)
    ensures Quiet(st) <==> Outstanding(st) == 0
  {
    hide InOrder, Conserved;
    if st.synthesizing { assert Enabled(st, Synthesized(0, None)); }
    if st.playing { assert Enabled(st, Played(0)); }
  }

  /**
   From the end of the stream on, whatever the order of completions: after at most `Outstanding` of them the
   manager falls silent, and then the sentences attempted hold exactly the text fed, up to white space, and the
   audio played is exactly what the successful syntheses made, in order.
   */
  lemma SpokenInFull(st: State, events: seq<Event>)
    requires Good(st) && !st.cancelled
    requires EnabledRun(Apply(st, End), events) && AllCompletions(events)
    ensures var ended := Apply(st, End);
      var last := Run(ended, events);
      && |events| <= Outstanding(ended)
      && (Quiet(last) ==>
            && NoSpace(Flatten(Sentences(last.attempts))) == NoSpace(st.fed)
            && last.played == Successes(last.attempts))
  {
    hide NoSpace, Successes, Sentences, Run, FinishStreaming, Outstanding, Quiet;
    var ended := Apply(st, End);
    FinishGood(st);
    FinishKeeps(st);
    CompletionsEnd(ended, events);
    var last := Run(ended, events);
    SomethingAwaited(last);
    if Quiet(last) {
      NothingAwaited(last);
      SilentIsComplete(last);
    }
  }

  lemma NothingAwaited(st: State)
    requires Outstanding(st) == 0
    ensures st.inSynthesis == [] && st.inPlayback == []
  {
  }

  lemma FinishKeeps(st: State)
    ensures FinishStreaming(st).fed == st.fed && FinishStreaming(st).cancelled == st.cancelled
  {
    hide Trim;
  }

  // ----- a message from its start to its end -----

  predicate NoRestart(events: seq<Event>) {
    forall i :: 0 <= i < |events| ==> !events[i].Begin? && !events[i].Stop?
  }

  lemma {:induction false} NoRestartIsCalm(st: State, events: seq<Event>)
    requires EnabledRun(st, events) && NoRestart(events)
    ensures CalmRun(st, events)
    decreases |events|
  {
    hide Apply, Enabled;
    if events != [] {
      NoRestartIsCalm(Apply(st, events[0]), events[1..]);
    }
  }

  /** A cancelled manager holds nothing and claims no loop. */
  predicate Drained(st: State) {
    st.cancelled ==> st.pending == "" && st.sentences == [] && st.audios == [] && !st.synthesizing && !st.playing
  }

  lemma DrainedStep(st: State, e: Event)
    requires Drained(st) && Enabled(st, e)
    ensures Drained(Apply(st, e))
  {
    hide Extract, Trim;
  }

  lemma {:induction false} AlwaysDrained(st: State, events: seq<Event>)
    requires Drained(st) && EnabledRun(st, events)
    ensures Drained(Run(st, events))
    decreases |events|
  {
    hide Apply, Enabled, Drained;
    if events != [] {
      DrainedStep(st, events[0]);
      AlwaysDrained(Apply(st, events[0]), events[1..]);
    }
  }

  /**
   A start opens the manager, whatever it did before, loops left suspended included: nothing is buffered or queued, no
   loop runs in its name, and text is taken.
   */
  lemma BeginOpens(before: seq<Event>)
    requires EnabledRun(INITIAL, before)
    ensures var st := Run(INITIAL, before);
      var next := Apply(st, Begin);
      && !next.cancelled && next.pending == "" && next.sentences == [] && next.audios == []
      && !next.synthesizing && !next.playing
      && next.fed == "" && next.enqueued == [] && next.attempts == [] && next.played == []
      && next.inSynthesis == st.inSynthesis && next.inPlayback == st.inPlayback
  {
    hide EnabledRun, Run;
    AlwaysDrained(INITIAL, before);
  }

  /** The texts fed and the audios made by the events, in their order. */
  function Texts(events: seq<Event>): seq<string> {
    if events == [] then [] else (if events[0].Token? then [events[0].text] else []) + Texts(events[1..])
  }

  function Made(events: seq<Event>): seq<Audio> {
    if events == [] then []
    else
      (if events[0].Synthesized? && events[0].audio.Some? then [events[0].audio.value] else []) + Made(events[1..])
  }

  /** An event of a running message: it feeds its own text and makes its own audio, and nothing else. */
  lemma EventKeepsHistory(st: State, e: Event)
    requires Enabled(st, e) && !e.Begin? && !e.Stop? && !st.cancelled
    ensures var next := Apply(st, e);
      && !next.cancelled && next.fed == st.fed + Flatten(Texts([e]))
      && Successes(next.attempts) == Successes(st.attempts) + Made([e])
  {
    hide Extract, Trim;
    assert [e][1..] == [];
    if e.Synthesized? {
      var done := Attempt(st.inSynthesis[e.k], e.audio);
      SuccessesConcat(st.attempts, [done]);
      assert [done][1..] == [];
    }
  }

  lemma {:induction false} HistoryOfRun(st: State, events: seq<Event>)
    requires EnabledRun(st, events) && NoRestart(events) && !st.cancelled
    ensures var last := Run(st, events);
      && !last.cancelled && last.fed == st.fed + Flatten(Texts(events))
      && Successes(last.attempts) == Successes(st.attempts) + Made(events)
    decreases |events|
  {
    hide Apply, Enabled, Successes;
    if events == [] {
      assert st.fed + Flatten(Texts([])) == st.fed && Successes(st.attempts) + Made([]) == Successes(st.attempts) by {
        NoHistory();
      }
    } else {
      EventKeepsHistory(st, events[0]);
      HistoryOfRun(Apply(st, events[0]), events[1..]);
      HistoryFirst(events);
      var t, u := Flatten(Texts([events[0]])), Flatten(Texts(events[1..]));
      assert st.fed + (t + u) == st.fed + t + u;
      var a, b, c := Successes(st.attempts), Made([events[0]]), Made(events[1..]);
      assert a + (b + c) == a + b + c;
    }
  }

  lemma NoHistory()
    ensures Flatten(Texts([])) == "" && Made([]) == []
  {
  }

  lemma HistoryFirst(events: seq<Event>)
    requires events != []
    ensures Flatten(Texts(events)) == Flatten(Texts([events[0]])) + Flatten(Texts(events[1..]))
    ensures Made(events) == Made([events[0]]) + Made(events[1..])
  {
    hide Flatten;
    var e := events[0];
    OneEvent(e);
    FlattenConcat(Texts([e]), Texts(events[1..]));
  }

  lemma OneEvent(e: Event)
    ensures Texts([e]) == (if e.Token? then [e.text] else [])
    ensures Made([e]) == if e.Synthesized? && e.audio.Some? then [e.audio.value] else []
  {
    assert [e][1..] == [];
  }

  lemma BeginClears(st: State)
    ensures var next := Apply(st, Begin); !next.cancelled && next.fed == "" && next.attempts == []
  {
  }

  /**
   A whole message, from a new manager or any other that waits for nothing: it is started, tokens arrive among
   completions in any order, it ends, and completions follow until nothing is awaited.  Then the sentences attempted
   hold the tokens, up to white space, and the audio played is what the syntheses made, in the order they made it.
   */
  lemma MessageSpoken(st: State, events: seq<Event>, completions: seq<Event>)
    requires st == INITIAL || (Good(st) && st.inSynthesis == [] && st.inPlayback == [])
    requires EnabledRun(Apply(st, Begin), events) && NoRestart(events) && AllCompletions(completions)
    requires EnabledRun(Apply(Run(Apply(st, Begin), events), End), completions)
    ensures var ended := Apply(Run(Apply(st, Begin), events), End);
      var last := Run(ended, completions);
      Quiet(last) ==>
        && NoSpace(Flatten(Sentences(last.attempts))) == NoSpace(Flatten(Texts(events)))
        && last.played == Made(events) + Made(completions)
  {
    hide Good, EnabledRun, CalmRun, Run, NoSpace, Successes, Sentences, Quiet, FinishStreaming, NoRestart, Outstanding;
    hide AllCompletions, Texts, Made;
    var begun := Apply(st, Begin);
    InitialGood();
    ApplyGood(st, Begin);
    BeginClears(st);
    NoRestartIsCalm(begun, events);
    RunGood(begun, events);
    HistoryOfRun(begun, events);
    var told := Run(begun, events);
    assert "" + Flatten(Texts(events)) == Flatten(Texts(events));
    SpokenInFull(told, completions);
    EventKeepsHistory(told, End);
    CompletionsRestart(completions);
    HistoryOfRun(Apply(told, End), completions);
    NothingMade(End);
    NoSuccesses();
    var a, b := Made(events), Made(completions);
    assert [] + a == a && a + [] == a;
  }

  lemma CompletionsRestart(events: seq<Event>)
    requires AllCompletions(events)
    ensures NoRestart(events)
  {
    forall i | 0 <= i < |events| ensures !events[i].Begin? && !events[i].Stop? {
      assert events[i] in events;
    }
  }

  lemma NothingMade(e: Event)
    requires e.End?
    ensures Made([e]) == []
  {
    assert [e][1..] == [];
  }

  // ----- after a stop -----

  /** Nothing to say, and nothing that could be said. */
  predicate Silent(st: State) {
    st.cancelled && st.sentences == [] && st.audios == []
  }

  lemma SilentStep(st: State, e: Event)
    requires Silent(st) && Enabled(st, e) && !e.Begin?
    ensures var next := Apply(st, e);
      && Silent(next) && next.pending == st.pending && next.played == st.played
      && |next.inSynthesis| <= |st.inSynthesis| && |next.inPlayback| <= |st.inPlayback|
  {
    hide Extract, Trim;
  }

  /**
   A completion wakes the loop that waits for it and no other: of each kind the others stay suspended, and at most one
   loop is suspended behind them.
   */
  lemma WakesOne(st: State, e: Event)
    requires Enabled(st, e) && (e.Synthesized? || e.Played?)
    ensures var next := Apply(st, e);
      var synthesis := if e.Synthesized? then st.inSynthesis[..e.k] + st.inSynthesis[e.k + 1..] else st.inSynthesis;
      var playback := if e.Played? then st.inPlayback[..e.k] + st.inPlayback[e.k + 1..] else st.inPlayback;
      && synthesis <= next.inSynthesis && |next.inSynthesis| <= |synthesis| + 1
      && playback <= next.inPlayback && |next.inPlayback| <= |playback| + 1
      && (e.Played? ==> next.inSynthesis == synthesis)
  {
    hide Extract, Trim, SplitIndex;
  }

  /** Until the next start nothing more is taken, synthesised or played. */
  lemma {:induction false} StopSilences(st: State, events: seq<Event>)
    requires Silent(st) && EnabledRun(st, events) && forall i :: 0 <= i < |events| ==> !events[i].Begin?
    ensures var last := Run(st, events);
      && Silent(last) && last.pending == st.pending && last.played == st.played
      && |last.inSynthesis| <= |st.inSynthesis| && |last.inPlayback| <= |st.inPlayback|
    decreases |events|
  {
    hide Apply, Enabled, Silent;
    if events != [] {
      SilentStep(st, events[0]);
      StopSilences(Apply(st, events[0]), events[1..]);
    }
  }

  /** A stop cancels and drops what is buffered and queued. */
  lemma StopCancels(st: State)
    requires !st.cancelled
    ensures var next := Apply(st, Stop);
      && Silent(next) && next.pending == "" && next.played == st.played
      && next.inSynthesis == st.inSynthesis && next.inPlayback == st.inPlayback
  {
  }

  // ----- restarting while a loop is suspended -----

  /** However the message goes on, there is one loop of each kind at most. */
  ghost predicate StaysSingle(st: State) {
    forall events :: EnabledRun(st, events) && NoRestart(events) ==>
      |Run(st, events).inSynthesis| <= 1 && |Run(st, events).inPlayback| <= 1
  }

  lemma GoodStaysSingle(st: State)
    requires Good(st)
    ensures StaysSingle(st)
  {
    hide EnabledRun, Run, NoRestart, CalmRun, Awake, InOrder, Conserved;
    forall events | EnabledRun(st, events) && NoRestart(events)
      ensures |Run(st, events).inSynthesis| <= 1 && |Run(st, events).inPlayback| <= 1
    {
      NoRestartIsCalm(st, events);
      RunGood(st, events);
    }
  }

  const WORD := "a"

  /** A word is spoken at once or stays in the buffer. */
  lemma WordIsKept()
    ensures Extract(WORD).0 != [] || Trim(Extract(WORD).1, JsSpace) != ""
  {
    ExtractConserves(WORD);
    assert WORD[1..] == "" && NoSpace("") == "" && NoSpace(WORD) == WORD;
    var rest := Extract(WORD).1;
    NoSpaceTrim(rest);
    FlattenNothing();
    hide Extract, Trim, NoSpace;
    assert "" + rest == rest;
    assert |WORD| == 1;
  }

  predicate Idle(st: State) {
    !st.cancelled && !st.synthesizing && !st.playing && st.pending == "" && st.sentences == [] && st.audios == []
  }

  /** A word and the end of the message start a synthesis loop. */
  lemma WordWakes(st: State)
    requires Idle(st)
    ensures var last := FinishStreaming(FeedToken(st, WORD));
      && |last.inSynthesis| == |st.inSynthesis| + 1 && last.inPlayback == st.inPlayback
      && !last.cancelled && last.synthesizing && !last.playing && last.audios == []
  {
    hide Extract, Trim;
    WordIsKept();
    assert "" + WORD == WORD;
  }

  lemma RunTwo(st: State, a: Event, b: Event)
    requires Enabled(st, a) && Enabled(Apply(st, a), b)
    ensures EnabledRun(st, [a, b]) && Run(st, [a, b]) == Apply(Apply(st, a), b)
  {
    hide Apply, Enabled;
    assert [a, b][1..] == [b] && [b][1..] == [];
    assert EnabledRun(Apply(st, a), [b]) && Run(Apply(st, a), [b]) == Apply(Apply(st, a), b);
  }

  /** And the audio made starts a play loop. */
  lemma AudioWakes(st: State, audio: Audio)
    requires !st.cancelled && !st.playing && st.audios == [] && st.inSynthesis != []
    ensures SynthesisDone(st, 0, Some(audio)).inPlayback == st.inPlayback + [audio]
  {
  }

  /** A second synthesis loop beside a suspended one. */
  lemma SynthesisDoubles(st: State)
    requires Idle(st) && st.inSynthesis != []
    ensures !StaysSingle(st)
  {
    hide FeedToken, FinishStreaming;
    WordWakes(st);
    RunTwo(st, Token(WORD), End);
    var events := [Token(WORD), End];
    assert NoRestart(events) && |Run(st, events).inSynthesis| > 1;
  }

  /** A second play loop beside a suspended one. */
  lemma PlaybackDoubles(st: State)
    requires Idle(st) && st.inPlayback != []
    ensures !StaysSingle(st)
  {
    hide FeedToken, FinishStreaming, SynthesisDone, EnabledRun, Run;
    WordWakes(st);
    RunTwo(st, Token(WORD), End);
    var said := FinishStreaming(FeedToken(st, WORD));
    AudioWakes(said, 0);
    RunThree(st, Token(WORD), End, Synthesized(0, Some(0)));
    var events := [Token(WORD), End, Synthesized(0, Some(0))];
    assert NoRestart(events) && |Run(st, events).inPlayback| > 1;
  }

  lemma RunThree(st: State, a: Event, b: Event, c: Event)
    requires Enabled(st, a) && Enabled(Apply(st, a), b) && Enabled(Apply(Apply(st, a), b), c)
    ensures EnabledRun(st, [a, b, c]) && Run(st, [a, b, c]) == Apply(Apply(Apply(st, a), b), c)
  {
    hide Apply, Enabled;
    RunTwo(Apply(st, a), b, c);
    assert [a, b, c][1..] == [b, c];
  }

  /**
   A restart is safe exactly when no loop is suspended: then the new message has one loop of each kind at most,
   however it goes on, and otherwise it can come to two synthesis or two play loops at once.
   */
  lemma RestartIffCalm(st: State)
    requires Good(st) && !st.cancelled
    ensures StaysSingle(Apply(st, Begin)) <==> st.inSynthesis == [] && st.inPlayback == []
  {
    hide Good, StaysSingle;
    var begun := Apply(st, Begin);
    if st.inSynthesis == [] && st.inPlayback == [] {
      ApplyGood(st, Begin);
      GoodStaysSingle(begun);
    } else if st.inSynthesis != [] {
      SynthesisDoubles(begun);
    } else {
      PlaybackDoubles(begun);
    }
  }

  /** Restarting under a suspended synthesis leaves two synthesis loops as soon as a sentence arrives. */
  lemma RestartDoublesLoop(st: State, token: string)
    requires Good(st) && !st.cancelled && st.synthesizing && Extract(token).0 != []
    ensures var next := Apply(Apply(st, Begin), Token(token));
      next.inSynthesis == st.inSynthesis + [Extract(token).0[0]] && |next.inSynthesis| == 2 && !OneLoop(next)
  {
    hide NoSpace, Successes, Sentences, Extract;
    assert "" + token == token;
  }

  /** The old loop then speaks a sentence of the old message in the new one. */
  lemma OldSpeechLeaks(st: State, audio: Audio)
    requires Good(st) && !st.cancelled && st.synthesizing
    ensures var next := Apply(Apply(st, Begin), Synthesized(0, Some(audio)));
      next.enqueued == [] && next.fed == "" && next.played == [audio]
  {
    hide NoSpace, Successes, Sentences;
  }
}
