/**
 `BargeInDetector`: after a calibration window, a sound must stay over an adaptive threshold and still be there
 a little later before it counts as speech.  Levels are real numbers; every clock reading of a frame is kept.
 */
module BargeIn {
  import opened Prelude

  type Byte = x: int | 0 <= x < 256

  const CALIBRATE_MS := 500
  const STAGE1_MS := 150
  const STAGE2_DELAY_MS := 120

  /** The source's fourth stage, `candidate`, never outlives the frame that enters it. */
  datatype Stage = Calibrate | Listen | Verify

  /** The readings of `Date.now()` at the four places of one frame that take one. */
  datatype Clock = Clock(elapsedAt: int, listenAt: int, candidateAt: int, verifyAt: int)

  datatype Frame = Frame(level: real, clock: Clock)

  /** `voiceStart` is 0 while no sound is being timed. */
  datatype State = State(
    active: bool, stage: Stage, baseline: real, startTime: int, voiceStart: int, verifyStart: int, samples: seq<real>)

  const IDLE := State(false, Calibrate, 0.0, 0, 0, 0, [])

  function Max(a: real, b: real): real {
    if a > b then a else b
  }

  function Threshold(baseline: real): (r: real)
    ensures r >= 10.0 && r >= baseline * 2.5 && (r == 10.0 || r == baseline * 2.5)
  {
    Max(baseline * 2.5, 10.0)
  }

  function Total(samples: seq<real>): real {
    if samples == [] then 0.0 else Total(samples[..|samples| - 1]) + Last(samples)
  }

  function Mean(samples: seq<real>): real
    requires samples != []
  {
    Total(samples) / |samples| as real
  }

  function StartAt(st: State, now: int): State {
    if st.active then st else State(true, Calibrate, 0.0, now, 0, 0, [])
  }

  function Stopped(st: State): State {
    st.(active := false, voiceStart := 0, verifyStart := 0, stage := Calibrate, samples := [])
  }

  function CalibrateStep(st: State, f: Frame): State {
    var samples := st.samples + [f.level];
    if f.clock.elapsedAt - st.startTime >= CALIBRATE_MS then
      st.(baseline := Mean(samples), samples := [], stage := Listen)
    else st.(samples := samples)
  }

  function ListenStep(st: State, f: Frame): State {
    if f.level <= Threshold(st.baseline) then
      st.(voiceStart := 0, baseline := st.baseline * 0.98 + f.level * 0.02)
    else if st.voiceStart == 0 then st.(voiceStart := f.clock.listenAt)
    else if f.clock.listenAt - st.voiceStart > STAGE1_MS then
      st.(stage := Verify, voiceStart := 0, verifyStart := f.clock.candidateAt)
    else st
  }

  /** `threshold` is the one computed at the head of the frame. */
  function VerifyStep(st: State, f: Frame, threshold: real): (r: (State, bool)) {
    if f.clock.verifyAt - st.verifyStart < STAGE2_DELAY_MS then (st, false)
    else if f.level > threshold then (Stopped(st), true)
    else (st.(stage := Listen, voiceStart := 0), false)
  }

  /** One animation frame; the flag says that the callback ran. */
  function Step(st: State, f: Frame): (r: (State, bool)) {
    if !st.active then (st, false)
    else if st.stage.Calibrate? then (CalibrateStep(st, f), false)
    else
      var heard := if st.stage.Listen? then ListenStep(st, f) else st;
      if heard.stage.Verify? then VerifyStep(heard, f, Threshold(st.baseline)) else (heard, false)
  }

  function Run(st: State, frames: seq<Frame>): State {
    if frames == [] then st else Step(Run(st, frames[..|frames| - 1]), Last(frames)).0
  }

  function Sum(data: seq<Byte>): int {
    if data == [] then 0 else Sum(data[..|data| - 1]) + Last(data)
  }

  lemma Cancels(a: real, b: real, n: real)
    requires n > 0.0 && a * n <= b * n
    ensures a <= b
  {
    assert (b - a) * n >= 0.0;
  }

  lemma QuotientBounds(total: real, n: real, lo: real, hi: real)
    requires n > 0.0 && lo * n <= total <= hi * n
    ensures lo <= total / n <= hi
  {
    var q := total / n;
    assert q * n == total;
    Cancels(lo, q, n);
    Cancels(q, hi, n);
  }

  lemma {:induction false} SumBounds(data: seq<Byte>)
    ensures 0 <= Sum(data) <= 255 * |data|
  {
    if data != [] {
      SumBounds(data[..|data| - 1]);
    }
  }

  method Average(data: array<Byte>) returns (avg: real)
    requires data.Length > 0
    ensures avg == Sum(data[..]) as real / data.Length as real
    ensures 0.0 <= avg <= 255.0
  {
    var sum: int := 0;
    for i := 0 to data.Length
      invariant sum == Sum(data[..i])
    {
      assert data[..i + 1][..i] == data[..i];
      sum := sum + data[i];
    }
    assert data[..data.Length] == data[..];
    SumBounds(data[..]);
    QuotientBounds(sum as real, data.Length as real, 0.0, 255.0);
    avg := sum as real / data.Length as real;
  }

  method MeanOf(samples: seq<real>) returns (mean: real)
    requires samples != []
    ensures mean == Mean(samples)
  {
    var total := 0.0;
    for i := 0 to |samples|
      invariant total == Total(samples[..i])
    {
      assert samples[..i + 1][..i] == samples[..i];
      total := total + samples[i];
    }
    assert samples[..|samples|] == samples;
    mean := total / |samples| as real;
  }

  class BargeInDetector {
    var active: bool
    var stage: Stage
    var baseline: real
    var startTime: int
    var voiceStart: int
    var verifyStart: int
    var calibrateSamples: seq<real>

    function View(): State
      reads this
    {
      State(active, stage, baseline, startTime, voiceStart, verifyStart, calibrateSamples)
    }

    constructor ()
      ensures View() == IDLE
    {
      active, stage, baseline := false, Calibrate, 0.0;
      startTime, voiceStart, verifyStart, calibrateSamples := 0, 0, 0, [];
    }

    method Start(now: int)
      modifies this
      ensures View() == StartAt(old(View()), now)
    {
      if active { return; }
      startTime := now;
      voiceStart := 0;
      verifyStart := 0;
      baseline := 0.0;
      calibrateSamples := [];
      stage := Calibrate;
      active := true;
    }

    method Stop()
      modifies this
      ensures View() == Stopped(old(View()))
    {
      active := false;
      voiceStart := 0;
      verifyStart := 0;
      stage := Calibrate;
      calibrateSamples := [];
    }

    method Check(data: array<Byte>, clock: Clock) returns (fired: bool)
      requires data.Length > 0
      modifies this
      ensures var level := Sum(data[..]) as real / data.Length as real;
        (View(), fired) == Step(old(View()), Frame(level, clock))
    {
      if !active { return false; }
      var avg := Average(data);
      var elapsed := clock.elapsedAt - startTime;
      if stage == Calibrate {
        calibrateSamples := calibrateSamples + [avg];
        if elapsed >= CALIBRATE_MS {
          baseline := MeanOf(calibrateSamples);
          calibrateSamples := [];
          stage := Listen;
        }
        return false;
      }
      var threshold := Threshold(baseline);
      if stage == Listen {
        if avg > threshold {
          if voiceStart == 0 {
            voiceStart := clock.listenAt;
          } else if clock.listenAt - voiceStart > STAGE1_MS {
            stage := Verify;
            voiceStart := 0;
            verifyStart := clock.candidateAt;
          }
        } else {
          voiceStart := 0;
          baseline := baseline * 0.98 + avg * 0.02;
        }
      }
      fired := false;
      if stage == Verify && clock.verifyAt - verifyStart >= STAGE2_DELAY_MS {
        if avg > threshold {
          Stop();
          fired := true;
        } else {
          stage := Listen;
          voiceStart := 0;
        }
      }
    }
  }

  lemma {:induction false} TotalBounds(samples: seq<real>, lo: real, hi: real)
    requires forall x :: x in samples ==> lo <= x <= hi
    ensures lo * |samples| as real <= Total(samples) <= hi * |samples| as real
  {
    if samples != [] {
      var init := samples[..|samples| - 1];
      assert forall x :: x in init ==> x in samples;
      TotalBounds(init, lo, hi);
      assert |samples| as real == |init| as real + 1.0;
      assert lo * |samples| as real == lo * |init| as real + lo;
      assert hi * |samples| as real == hi * |init| as real + hi;
      assert Last(samples) in samples;
    }
  }

  // ----- calibration -----

  function Levels(frames: seq<Frame>): (r: seq<real>)
    ensures |r| == |frames| && forall i :: 0 <= i < |r| ==> r[i] == frames[i].level
  {
    seq(|frames|, i requires 0 <= i < |frames| => frames[i].level)
  }

  /** A total adds up, however the samples are split. */
  lemma {:induction false} TotalSplits(a: seq<real>, b: seq<real>)
    ensures Total(a + b) == Total(a) + Total(b)
    ensures |b| == 1 ==> Total(b) == b[0]
    decreases |b|
  {
    if b == [] {
      assert a + b == a;
    } else {
      var init := b[..|b| - 1];
      TotalSplits(a, init);
      assert (a + b)[..|a + b| - 1] == a + init;
      if |b| == 1 { assert init == []; }
    }
  }

  lemma {:induction false} SumSplits(a: seq<Byte>, b: seq<Byte>)
    ensures Sum(a + b) == Sum(a) + Sum(b)
    ensures |b| == 1 ==> Sum(b) == b[0]
    decreases |b|
  {
    if b == [] {
      assert a + b == a;
    } else {
      var init := b[..|b| - 1];
      SumSplits(a, init);
      assert (a + b)[..|a + b| - 1] == a + init;
      if |b| == 1 { assert init == []; }
    }
  }

  lemma {:induction false} Calibrates(now: int, frames: seq<Frame>)
    requires forall i :: 0 <= i < |frames| ==> frames[i].clock.elapsedAt - now < 500
    ensures Run(StartAt(IDLE, now), frames) == State(true, Calibrate, 0.0, now, 0, 0, Levels(frames))
  {
    if frames == [] {
      assert Levels(frames) == [];
    } else {
      var init := frames[..|frames| - 1];
      Calibrates(now, init);
      assert Levels(frames) == Levels(init) + [Last(frames).level];
    }
  }

  /** The first frame 500 ms after the start ends calibration, and the baseline is the mean of all levels so far. */
  lemma CalibrationEnds(now: int, frames: seq<Frame>)
    requires frames != [] && Last(frames).clock.elapsedAt - now >= 500
    requires forall i :: 0 <= i < |frames| - 1 ==> frames[i].clock.elapsedAt - now < 500
    ensures var last := Run(StartAt(IDLE, now), frames);
      && last == State(true, Listen, last.baseline, now, 0, 0, [])
      && last.baseline * |frames| as real == Total(Levels(frames))
  {
    hide Mean, Total, Run;
    var init := frames[..|frames| - 1];
    Calibrates(now, init);
    assert Levels(frames) == Levels(init) + [Last(frames).level];
    RunLast(StartAt(IDLE, now), frames);
    MeanTimes(Levels(frames));
  }

  lemma RunLast(st: State, frames: seq<Frame>)
    requires frames != []
    ensures Run(st, frames) == Step(Run(st, frames[..|frames| - 1]), Last(frames)).0
  {
  }

  lemma MeanTimes(samples: seq<real>)
    requires samples != []
    ensures Mean(samples) * |samples| as real == Total(samples)
  {
  }

  // ----- starting and stopping -----

  /** Starting again, after a firing too, is starting anew; a running detector is left alone. */
  lemma StartsAnew(st: State, now: int)
    ensures StartAt(st, now) == if st.active then st else State(true, Calibrate, 0.0, now, 0, 0, [])
    ensures Stopped(st) == State(false, Calibrate, st.baseline, st.startTime, 0, 0, [])
    ensures StartAt(Stopped(st), now) == StartAt(IDLE, now)
  {
  }

  /** The callback runs exactly in the frame that turns the detector off; off, it hears nothing. */
  lemma FiresIffStops(st: State, f: Frame)
    ensures Step(st, f).1 <==> st.active && !Step(st, f).0.active
    ensures !st.active ==> Step(st, f).0 == st
    ensures Step(st, f).1 ==> StartAt(Step(st, f).0, 0) == StartAt(IDLE, 0)
  {
  }

  // ----- the baseline stays within what was heard -----

  predicate Within(frames: seq<Frame>, lo: real, hi: real) {
    forall f :: f in frames ==> lo <= f.level <= hi
  }

  predicate Calibrating(st: State) {
    st.active && st.stage.Calibrate?
  }

  predicate Settled(st: State, lo: real, hi: real) {
    && (forall x :: x in st.samples ==> lo <= x <= hi)
    && if Calibrating(st) then st.baseline == 0.0 else lo <= st.baseline <= hi
  }

  lemma StepSettled(st: State, f: Frame, lo: real, hi: real)
    requires Settled(st, lo, hi) && lo <= f.level <= hi
    ensures Settled(Step(st, f).0, lo, hi)
  {
    if st.active && st.stage.Calibrate? {
      var samples := st.samples + [f.level];
      TotalBounds(samples, lo, hi);
      QuotientBounds(Total(samples), |samples| as real, lo, hi);
    }
  }

  lemma {:induction false} RunSettled(st: State, frames: seq<Frame>, lo: real, hi: real)
    requires Settled(st, lo, hi) && Within(frames, lo, hi)
    ensures Settled(Run(st, frames), lo, hi)
  {
    if frames != [] {
      RunSettled(st, frames[..|frames| - 1], lo, hi);
      assert Last(frames) in frames;
      StepSettled(Run(st, frames[..|frames| - 1]), Last(frames), lo, hi);
    }
  }

  /**
   The baseline is zero during calibration and after that, firing included, lies between the quietest and the
   loudest frame heard; so it is within 0..255 throughout.
   */
  lemma BaselineBounded(now: int, frames: seq<Frame>, lo: real, hi: real)
    requires Within(frames, lo, hi)
    ensures var st := Run(StartAt(IDLE, now), frames);
      && (if Calibrating(st) then st.baseline == 0.0 else lo <= st.baseline <= hi)
      && (0.0 <= lo && hi <= 255.0 ==> 0.0 <= st.baseline <= 255.0)
  {
    RunSettled(StartAt(IDLE, now), frames, lo, hi);
  }

  /** A level that never rises to 2.5 times its own minimum, or never over 10, is not taken for speech. */
  lemma {:induction false} SteadyNoiseIgnored(now: int, frames: seq<Frame>, lo: real, hi: real)
    requires Within(frames, lo, hi) && (hi <= 2.5 * lo || hi <= 10.0)
    ensures Run(StartAt(IDLE, now), frames).active
    ensures Run(StartAt(IDLE, now), frames).stage != Verify
  {
    if frames != [] {
      var init := frames[..|frames| - 1];
      assert Within(init, lo, hi);
      SteadyNoiseIgnored(now, init, lo, hi);
      RunSettled(StartAt(IDLE, now), init, lo, hi);
      assert Last(frames) in frames;
    }
  }

  // ----- why the callback ran -----

  predicate Ascending(c: Clock) {
    0 < c.elapsedAt <= c.listenAt <= c.candidateAt <= c.verifyAt
  }

  /** Readings are positive and never go back. */
  predicate Forward(frames: seq<Frame>) {
    && (forall i :: 0 <= i < |frames| ==> Ascending(frames[i].clock))
    && (forall i, j :: 0 <= i < j < |frames| ==> frames[i].clock.verifyAt <= frames[j].clock.elapsedAt)
  }

  /** The frames that ended calibration, began the sound being timed, and moved on to verification. */
  datatype Marks = Marks(calibrated: nat, voiced: nat, candidate: nat)

  /** The marks after one more frame, the `n`-th. */
  function Mark(m: Marks, st: State, f: Frame, n: nat): Marks {
    var next := Step(st, f).0;
    if st.stage.Calibrate? then m.(calibrated := n)
    else if st.stage.Listen? && f.level > Threshold(st.baseline) then
      if st.voiceStart == 0 then m.(voiced := n)
      else if f.clock.listenAt - st.voiceStart > STAGE1_MS then m.(candidate := n)
      else m
    else m
  }

  function MarksOf(st: State, frames: seq<Frame>): Marks {
    if frames == [] then Marks(0, 0, 0)
    else
      var init := frames[..|frames| - 1];
      Mark(MarksOf(st, init), Run(st, init), Last(frames), |init|)
  }

  /** Every frame of the stretch is over the threshold. */
  predicate Loud(frames: seq<Frame>, from: nat, to: nat, threshold: real)
    requires to <= |frames|
  {
    forall i :: from <= i < to ==> frames[i].level > threshold
  }

  predicate Calibrated(start: int, frames: seq<Frame>, m: Marks) {
    m.calibrated < |frames| && frames[m.calibrated].clock.elapsedAt - start >= CALIBRATE_MS
  }

  predicate Voiced(frames: seq<Frame>, m: Marks, to: nat, threshold: real)
    requires to <= |frames|
  {
    m.calibrated < m.voiced < to && Loud(frames, m.voiced, to, threshold)
  }

  predicate Candidate(frames: seq<Frame>, m: Marks, threshold: real) {
    && m.candidate < |frames| && Voiced(frames, m, m.candidate + 1, threshold)
    && frames[m.candidate].clock.listenAt - frames[m.voiced].clock.listenAt > STAGE1_MS
  }

  predicate Explains(start: int, frames: seq<Frame>, m: Marks, st: State) {
    && st.startTime == start
    && (st.stage.Calibrate? ==> st.voiceStart == 0)
    && (st.stage.Listen? || st.stage.Verify? ==> Calibrated(start, frames, m))
    && (st.stage.Listen? && st.voiceStart != 0 ==>
          Voiced(frames, m, |frames|, Threshold(st.baseline)) && st.voiceStart == frames[m.voiced].clock.listenAt)
    && (st.stage.Verify? ==>
          Candidate(frames, m, Threshold(st.baseline)) && st.verifyStart == frames[m.candidate].clock.candidateAt)
  }

  lemma ListenExplained(start: int, init: seq<Frame>, f: Frame, m: Marks, st: State)
    requires Explains(start, init, m, st) && st.stage.Listen? && Ascending(f.clock)
    ensures Explains(start, init + [f], Mark(m, st, f, |init|), ListenStep(st, f))
  {
    hide Threshold;
    var frames := init + [f];
    assert forall i :: 0 <= i < |init| ==> frames[i] == init[i];
    assert frames[|init|] == f;
  }

  lemma VerifyExplained(start: int, init: seq<Frame>, f: Frame, m: Marks, st: State)
    requires Explains(start, init, m, st) && st.stage.Verify?
    ensures Explains(start, init + [f], m, st)
    ensures Explains(start, init + [f], m, st.(stage := Listen, voiceStart := 0))
  {
    hide Threshold;
    var frames := init + [f];
    assert forall i :: 0 <= i < |init| ==> frames[i] == init[i];
  }

  /** One threshold, at least 10, which the stretch from `voiced` to `candidate` and the last frame all exceed. */
  predicate Heard(frames: seq<Frame>, m: Marks, threshold: real)
    requires frames != []
  {
    threshold >= 10.0 && Candidate(frames, m, threshold) && Last(frames).level > threshold
  }

  /** What must have happened for the callback to run in the last frame. */
  ghost predicate Fires(start: int, frames: seq<Frame>, m: Marks) {
    && frames != []
    && Calibrated(start, frames, m)
    && (exists threshold :: Heard(frames, m, threshold))
    && Last(frames).clock.verifyAt - frames[m.candidate].clock.candidateAt >= STAGE2_DELAY_MS
  }

  lemma StepExplained(start: int, init: seq<Frame>, f: Frame, m: Marks, st: State)
    requires Explains(start, init, m, st) && st.active && Ascending(f.clock)
    ensures var (next, fired) := Step(st, f);
      !fired ==> next.active && Explains(start, init + [f], Mark(m, st, f, |init|), next)
    ensures var (next, fired) := Step(st, f);
      fired ==> Fires(start, init + [f], Mark(m, st, f, |init|))
  {
    hide Threshold, Explains;
    var frames := init + [f];
    assert frames[|init|] == f;
    if st.stage.Calibrate? {
      CalibrateExplained(start, init, f, m, st);
    } else {
      var mark := Mark(m, st, f, |init|);
      var heard := if st.stage.Listen? then ListenStep(st, f) else st;
      if st.stage.Listen? {
        ListenExplained(start, init, f, m, st);
      } else {
        VerifyExplained(start, init, f, m, st);
      }
      if heard.stage.Verify? {
        FallThrough(start, init, f, mark, heard);
        assert heard.baseline == st.baseline;
      }
    }
  }

  lemma CalibrateExplained(start: int, init: seq<Frame>, f: Frame, m: Marks, st: State)
    requires Explains(start, init, m, st) && st.stage.Calibrate?
    ensures Explains(start, init + [f], m.(calibrated := |init|), CalibrateStep(st, f))
  {
    hide Threshold;
  }

  lemma FallThrough(start: int, init: seq<Frame>, f: Frame, mark: Marks, heard: State)
    requires Explains(start, init + [f], mark, heard) && heard.stage.Verify?
    ensures Explains(start, init + [f], mark, heard.(stage := Listen, voiceStart := 0))
    ensures f.clock.verifyAt - heard.verifyStart >= STAGE2_DELAY_MS && f.level > Threshold(heard.baseline) ==>
      Fires(start, init + [f], mark)
  {
    hide Threshold;
    if f.level > Threshold(heard.baseline) {
      assert Heard(init + [f], mark, Threshold(heard.baseline));
    }
  }

  lemma {:induction false} RunExplained(now: int, frames: seq<Frame>)
    requires Forward(frames) && Run(StartAt(IDLE, now), frames).active
    ensures Explains(now, frames, MarksOf(StartAt(IDLE, now), frames), Run(StartAt(IDLE, now), frames))
  {
    if frames != [] {
      var init := frames[..|frames| - 1];
      assert init + [Last(frames)] == frames;
      RunExplained(now, init);
      StepExplained(now, init, Last(frames), MarksOf(StartAt(IDLE, now), init), Run(StartAt(IDLE, now), init));
    }
  }

  /**
   The callback runs only after calibration of at least 500 ms, then an unbroken stretch over one threshold
   lasting more than 150 ms, then a frame over that same threshold at least 120 ms later.
   */
  lemma FiringExplained(now: int, frames: seq<Frame>) returns (k: nat, s: nat, c: nat, threshold: real)
    requires frames != [] && Forward(frames)
    requires Step(Run(StartAt(IDLE, now), frames[..|frames| - 1]), Last(frames)).1
    ensures k < s < c < |frames| && threshold >= 10.0
    ensures frames[k].clock.elapsedAt - now >= 500
    ensures forall i :: s <= i <= c ==> frames[i].level > threshold
    ensures frames[c].clock.listenAt - frames[s].clock.listenAt > 150
    ensures Last(frames).level > threshold
    ensures Last(frames).clock.verifyAt - frames[c].clock.candidateAt >= 120
  {
    hide Run, Step, Mark, Explains, Threshold, Loud;
    var st := StartAt(IDLE, now);
    var init := frames[..|frames| - 1];
    assert init + [Last(frames)] == frames;
    FiringWasActive(Run(st, init), Last(frames));
    RunExplained(now, init);
    StepExplained(now, init, Last(frames), MarksOf(st, init), Run(st, init));
    var m := MarksOf(st, frames);
    assert Fires(now, frames, m);
    threshold :| Heard(frames, m, threshold);
    k, s, c := m.calibrated, m.voiced, m.candidate;
    LoudThroughout(frames, m, threshold);
  }

  lemma FiringWasActive(st: State, f: Frame)
    requires Step(st, f).1
    ensures st.active
  {
  }

  lemma LoudThroughout(frames: seq<Frame>, m: Marks, threshold: real)
    requires Candidate(frames, m, threshold)
    ensures m.voiced < m.candidate && forall i :: m.voiced <= i <= m.candidate ==> frames[i].level > threshold
  {
  }

  // ----- speech is detected -----

  /** Frame `c` is the first to find the sound older than 150 ms. */
  predicate FirstOver(frames: seq<Frame>, c: nat)
    requires c < |frames|
  {
    && frames[c].clock.listenAt - frames[0].clock.listenAt > 150
    && forall i :: 0 <= i < c ==> frames[i].clock.listenAt - frames[0].clock.listenAt <= 150
  }

  /** A sound that is still young is being timed from its first frame. */
  lemma {:induction false} YoungSound(st: State, frames: seq<Frame>)
    requires st.active && st.stage.Listen? && st.voiceStart == 0
    requires frames != [] && Forward(frames) && Loud(frames, 0, |frames|, Threshold(st.baseline))
    requires forall i :: 0 <= i < |frames| ==> frames[i].clock.listenAt - frames[0].clock.listenAt <= STAGE1_MS
    ensures Run(st, frames) == st.(voiceStart := frames[0].clock.listenAt)
  {
    hide Threshold;
    var init := frames[..|frames| - 1];
    if init == [] {
      assert Run(st, init) == st;
    } else {
      YoungSound(st, init);
    }
  }

  /** An unbroken loud stretch is reported exactly when it is seen 120 ms after it was found older than 150 ms. */
  lemma {:induction false} SpeechDetected(st: State, frames: seq<Frame>, c: nat)
    requires st.active && st.stage.Listen? && st.voiceStart == 0
    requires Forward(frames) && Loud(frames, 0, |frames|, Threshold(st.baseline))
    requires c < |frames| && FirstOver(frames, c)
    ensures var last := Run(st, frames);
      && (!last.active <==> Last(frames).clock.verifyAt - frames[c].clock.candidateAt >= 120)
      && (last.active ==> last == st.(stage := Verify, verifyStart := frames[c].clock.candidateAt))
  {
    hide Threshold;
    var init := frames[..|frames| - 1];
    if c == |init| {
      YoungSound(st, init);
      assert init[0] == frames[0];
    } else {
      assert FirstOver(init, c);
      SpeechDetected(st, init, c);
      assert Last(init) == frames[|init| - 1];
      assert Last(init).clock.verifyAt <= Last(frames).clock.verifyAt;
    }
  }

  /** In verification the first frame 120 ms on decides: over the threshold it is speech, otherwise it was a cough. */
  lemma {:induction false} VerifyDecides(st: State, frames: seq<Frame>)
    requires st.active && st.stage.Verify? && frames != []
    requires forall i :: 0 <= i < |frames| - 1 ==> frames[i].clock.verifyAt - st.verifyStart < 120
    requires Last(frames).clock.verifyAt - st.verifyStart >= 120
    ensures Run(st, frames) ==
      if Last(frames).level > Threshold(st.baseline) then Stopped(st) else st.(stage := Listen, voiceStart := 0)
  {
    hide Threshold;
    VerifyWaits(st, frames[..|frames| - 1]);
  }

  lemma {:induction false} VerifyWaits(st: State, frames: seq<Frame>)
    requires st.active && st.stage.Verify?
    requires forall i :: 0 <= i < |frames| ==> frames[i].clock.verifyAt - st.verifyStart < STAGE2_DELAY_MS
    ensures Run(st, frames) == st
  {
    hide Threshold;
    if frames != [] {
      VerifyWaits(st, frames[..|frames| - 1]);
    }
  }

  // ----- the baseline follows the room -----

  function Fading(n: nat): real {
    if n == 0 then 1.0 else Fading(n - 1) * 0.98
  }

  /** A steady level within the threshold stays within it, and the baseline comes nearer by two per cent a frame. */
  lemma {:induction false} QuietTracks(st: State, frames: seq<Frame>, level: real)
    requires st.active && st.stage.Listen? && st.voiceStart == 0 && level <= Threshold(st.baseline)
    requires forall f :: f in frames ==> f.level == level
    ensures var last := Run(st, frames);
      && last == st.(baseline := last.baseline) && level <= Threshold(last.baseline)
      && last.baseline - level == (st.baseline - level) * Fading(|frames|)
  {
    hide Threshold, Step, Fading;
    if frames == [] {
      assert Fading(0) == 1.0 by { FadingParts(0); }
    } else {
      var init := frames[..|frames| - 1];
      assert Last(frames) in frames && forall f :: f in init ==> f in frames;
      QuietTracks(st, init, level);
      var mid := Run(st, init);
      QuietStep(mid, Last(frames));
      FadingParts(|init|);
      Shrinks(mid.baseline, st.baseline - level, level, Fading(|init|));
    }
  }

  lemma FadingParts(n: nat)
    ensures Fading(0) == 1.0 && Fading(n + 1) == Fading(n) * 0.98
  {
  }

  lemma QuietStep(st: State, f: Frame)
    requires st.active && st.stage.Listen? && st.voiceStart == 0 && f.level <= Threshold(st.baseline)
    ensures Step(st, f).0 == st.(baseline := st.baseline * 0.98 + f.level * 0.02)
    ensures f.level <= Threshold(Step(st, f).0.baseline)
  {
  }

  lemma Shrinks(baseline: real, distance: real, level: real, fading: real)
    requires baseline - level == distance * fading
    ensures baseline * 0.98 + level * 0.02 - level == distance * (fading * 0.98)
  {
  }
}
