/**
 `AudioRecorder.resample`: linear interpolation at evenly spaced positions.  Samples, rates and positions
 are real numbers; `Floor` and `Round` are those of JavaScript.
 */
module Resample {

  /** `Math.round`: the nearest integer, halves upwards. */
  function Round(x: real): (r: int)
    ensures r as real - 0.5 <= x < r as real + 0.5
  {
    (x + 0.5).Floor
  }

  function OutputLength(n: nat, ratio: real): (m: nat)
    requires ratio > 0.0
  {
    QuotientNonNegative(n as real, ratio);
    Round(n as real / ratio)
  }

  lemma QuotientNonNegative(x: real, y: real)
    requires x >= 0.0 && y > 0.0
    ensures x / y >= 0.0
  {
  }

  /** `i * ratio`, the place in the input of output sample `i`. */
  function Position(i: nat, ratio: real): real {
    i as real * ratio
  }

  /** Output sample `i` is taken at its own time: the position and `i`, each over its rate, are the same instant. */
  lemma TimeKept(i: nat, fromRate: real, toRate: real)
    requires fromRate > 0.0 && toRate > 0.0
    ensures Position(i, fromRate / toRate) * toRate == i as real * fromRate
  {
    var ratio := fromRate / toRate;
    assert ratio * toRate == fromRate;
    assert (i as real * ratio) * toRate == i as real * (ratio * toRate);
  }

  /** Every position read lies before the end of the input. */
  lemma PositionInRange(n: nat, ratio: real, i: nat)
    requires ratio > 0.0 && i < OutputLength(n, ratio)
    ensures 0.0 <= Position(i, ratio) < n as real
    ensures 0 <= Position(i, ratio).Floor < n
  {
    var q := n as real / ratio;
    assert i as real <= Round(q) as real - 1.0 < q;
    MulDiv(n as real, ratio);
    Scale(i as real, q, ratio);
    FloorBelow(Position(i, ratio), n);
  }

  lemma MulDiv(x: real, y: real)
    requires y > 0.0
    ensures (x / y) * y == x
  {
  }

  lemma Scale(a: real, b: real, k: real)
    requires 0.0 <= a < b && k > 0.0
    ensures 0.0 <= a * k < b * k
  {
  }

  lemma FloorBelow(x: real, n: nat)
    requires 0.0 <= x < n as real
    ensures 0 <= x.Floor < n
  {
  }

  function Min(a: int, b: int): int {
    if a < b then a else b
  }

  /** The interpolated value at a position. */
  function At(input: seq<real>, position: real): real
    requires 0.0 <= position < |input| as real
  {
    var left := position.Floor;
    var right := Min(left + 1, |input| - 1);
    var fraction := position - left as real;
    FloorBelow(position, |input|);
    input[left] * (1.0 - fraction) + input[right] * fraction
  }

  /** Output sample `i` is the input interpolated at its position, which the input has. */
  predicate Resampled(input: seq<real>, ratio: real, output: seq<real>) {
    forall i :: 0 <= i < |output| ==>
      0.0 <= Position(i, ratio) < |input| as real && output[i] == At(input, Position(i, ratio))
  }

  method Resample(input: array<real>, fromRate: real, toRate: real) returns (output: array<real>)
    requires fromRate > 0.0 && toRate > 0.0
    ensures fresh(output) && output.Length == OutputLength(input.Length, fromRate / toRate)
    ensures Resampled(input[..], fromRate / toRate, output[..])
  {
    hide Position, OutputLength, Resampled;
    var ratio := fromRate / toRate;
    var outputLength := OutputLength(input.Length, ratio);
    output := new real[outputLength];
    NothingResampled(input[..], ratio);
    for i := 0 to outputLength
      invariant Resampled(input[..], ratio, output[..i])
    {
      PositionInRange(input.Length, ratio, i);
      var srcIndex := Position(i, ratio);
      var left := srcIndex.Floor;
      var right := Min(left + 1, input.Length - 1);
      var fraction := srcIndex - left as real;
      ghost var before := output[..i];
      output[i] := input[left] * (1.0 - fraction) + input[right] * fraction;
      OneMore(input[..], ratio, before, output[i]);
      assert output[..i + 1] == before + [output[i]];
    }
    assert output[..outputLength] == output[..];
  }

  lemma NothingResampled(input: seq<real>, ratio: real)
    ensures Resampled(input, ratio, [])
  {
  }

  lemma OneMore(input: seq<real>, ratio: real, output: seq<real>, x: real)
    requires Resampled(input, ratio, output)
    requires 0.0 <= Position(|output|, ratio) < |input| as real && x == At(input, Position(|output|, ratio))
    ensures Resampled(input, ratio, output + [x])
  {
    hide At, Position;
  }

  predicate Amid(x: real, a: real, b: real) {
    a <= x <= b || b <= x <= a
  }

  /** A value on the way from `a` to `b` lies between them. */
  lemma Between(a: real, b: real, t: real)
    requires 0.0 <= t <= 1.0
    ensures Amid(a * (1.0 - t) + b * t, a, b)
  {
    var x := a * (1.0 - t) + b * t;
    assert x - a == (b - a) * t;
    assert b - x == (b - a) * (1.0 - t);
  }

  /** An output sample lies between the two neighbouring inputs. */
  lemma AtBetween(input: seq<real>, position: real)
    requires 0.0 <= position < |input| as real
    ensures var left := position.Floor;
      var right := Min(left + 1, |input| - 1);
      && 0 <= left <= right < |input| && left as real <= position < left as real + 1.0
      && Amid(At(input, position), input[left], input[right])
  {
    FloorBelow(position, |input|);
    var left := position.Floor;
    var right := Min(left + 1, |input| - 1);
    var x := At(input, position);
    Between(input[left], input[right], position - left as real);
  }

  /** So no output is louder than the input. */
  lemma NeverLouder(input: seq<real>, position: real, lo: real, hi: real)
    requires 0.0 <= position < |input| as real
    requires forall x :: x in input ==> lo <= x <= hi
    ensures lo <= At(input, position) <= hi
  {
    AtBetween(input, position);
    var left := position.Floor;
    assert input[left] in input && input[Min(left + 1, |input| - 1)] in input;
  }

  /** Samples of a straight line are samples of the same line, up to the last input. */
  lemma LinesKept(input: seq<real>, a: real, b: real, position: real)
    requires 0.0 <= position <= |input| as real - 1.0
    requires forall i :: 0 <= i < |input| ==> input[i] == a + b * i as real
    ensures At(input, position) == a + b * position
  {
    FloorBelow(position, |input|);
    var left := position.Floor;
    var t := position - left as real;
    if left + 1 < |input| {
      assert input[left + 1] == a + b * (left as real + 1.0);
      Interpolates(a, b, left as real, t);
    } else {
      assert t == 0.0;
    }
  }

  lemma Interpolates(a: real, b: real, x: real, t: real)
    ensures (a + b * x) * (1.0 - t) + (a + b * (x + 1.0)) * t == a + b * (x + t)
  {
  }

  /** Equal rates copy the input. */
  lemma SameRateCopies(input: seq<real>, i: nat)
    requires i < |input|
    ensures OutputLength(|input|, 1.0) == |input| && At(input, i as real) == input[i]
  {
    assert (i as real).Floor == i;
  }

  /** The output lasts as long as the input, to within half an output sample. */
  lemma DurationKept(n: nat, ratio: real)
    requires ratio > 0.0
    ensures 0.0 - ratio / 2.0 <= n as real - Position(OutputLength(n, ratio), ratio) < ratio / 2.0
  {
    hide Position;
    var d := n as real / ratio - OutputLength(n, ratio) as real;
    Remainder(n, ratio);
    HalfScaled(d, ratio);
    var scaled, half := d * ratio, ratio / 2.0;
    assert scaled < half;
  }

  lemma Remainder(n: nat, ratio: real)
    requires ratio > 0.0
    ensures n as real - Position(OutputLength(n, ratio), ratio)
         == (n as real / ratio - OutputLength(n, ratio) as real) * ratio
  {
    MulDiv(n as real, ratio);
    Distribute(n as real / ratio, OutputLength(n, ratio) as real, ratio);
  }

  lemma Distribute(a: real, b: real, k: real)
    ensures (a - b) * k == a * k - b * k
  {
  }

  lemma HalfScaled(d: real, k: real)
    requires -0.5 <= d < 0.5 && k > 0.0
    ensures 0.0 - k / 2.0 <= d * k < k / 2.0
  {
    ScaleUp(-0.5, d, k);
    Scale(0.0, 0.5 - d, k);
    Distribute(0.5, d, k);
  }

  lemma ScaleUp(a: real, b: real, k: real)
    requires a <= b && k > 0.0
    ensures a * k <= b * k
  {
  }
}
