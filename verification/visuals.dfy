/**
 * The level-derived visual rules of the glass: the piecewise-linear foam
 * scale and foam band height, the bubble opacity factor and envelope, and
 * the ranges of the randomly drawn bubble and foam descriptors. Each
 * `Math.random()` draw is a parameter `r` with 0 <= r < 1.
 */
module Visuals {

  const BubbleCount: nat := 20
  const FoamBlobCount: nat := 8

  /** Peak opacity of a bubble's envelope. */
  const PeakOpacity: real := 0.7
  /** Level at and above which bubbles are fully visible. */
  const BubbleFadeLevel: real := 30.0

  /** A value `Math.random()` can return. */
  predicate IsDraw(r: real) { 0.0 <= r < 1.0 }

  // ---------------------------------------------------------------------
  // Piecewise-linear interpolation over three breakpoints
  // ---------------------------------------------------------------------

  datatype Breakpoints = Breakpoints(lo: real, mid: real, hi: real)

  predicate Increasing(b: Breakpoints) { b.lo < b.mid < b.hi }
  predicate NonDecreasing(b: Breakpoints) { b.lo <= b.mid <= b.hi }

  /** The straight line through (x0, y0) and (x1, y1), evaluated at x. */
  function Lerp(x: real, x0: real, x1: real, y0: real, y1: real): real
    requires x0 < x1
  {
    y0 + (x - x0) / (x1 - x0) * (y1 - y0)
  }

  lemma LerpEnds(x0: real, x1: real, y0: real, y1: real)
    requires x0 < x1
    ensures Lerp(x0, x0, x1, y0, y1) == y0
    ensures Lerp(x1, x0, x1, y0, y1) == y1
  {
    assert (x1 - x0) / (x1 - x0) == 1.0;
  }

  lemma LerpMonotone(x: real, x': real, x0: real, x1: real, y0: real, y1: real)
    requires x0 < x1 && y0 <= y1 && x <= x'
    ensures Lerp(x, x0, x1, y0, y1) <= Lerp(x', x0, x1, y0, y1)
  {
    var d := x1 - x0;
    var p, p' := (x - x0) / d, (x' - x0) / d;
    assert p <= p' by {
      assert p' - p == (x' - x) / d;
    }
    assert p * (y1 - y0) <= p' * (y1 - y0) by {
      assert (p' - p) * (y1 - y0) >= 0.0;
    }
  }

  /**
   * Interpolation as the glass uses it: a value at or below the middle
   * breakpoint takes the first segment, any other value the second.
   */
  function Interpolate(x: real, input: Breakpoints, output: Breakpoints): (r: real)
    requires Increasing(input)
    ensures x == input.lo ==> r == output.lo
    ensures x == input.mid ==> r == output.mid
    ensures x == input.hi ==> r == output.hi
  {
    LerpEnds(input.lo, input.mid, output.lo, output.mid);
    LerpEnds(input.mid, input.hi, output.mid, output.hi);
    if x <= input.mid then Lerp(x, input.lo, input.mid, output.lo, output.mid)
    else Lerp(x, input.mid, input.hi, output.mid, output.hi)
  }

  /** With non-decreasing outputs, interpolation is non-decreasing on the input range. */
  lemma InterpolateMonotone(x: real, x': real, input: Breakpoints, output: Breakpoints)
    requires Increasing(input) && NonDecreasing(output)
    requires input.lo <= x <= x' <= input.hi
    ensures Interpolate(x, input, output) <= Interpolate(x', input, output)
  {
    if x' <= input.mid {
      LerpMonotone(x, x', input.lo, input.mid, output.lo, output.mid);
    } else if input.mid < x {
      LerpMonotone(x, x', input.mid, input.hi, output.mid, output.hi);
    } else {
      LerpMonotone(x, input.mid, input.lo, input.mid, output.lo, output.mid);
      LerpMonotone(input.mid, x', input.mid, input.hi, output.mid, output.hi);
      LerpEnds(input.lo, input.mid, output.lo, output.mid);
      LerpEnds(input.mid, input.hi, output.mid, output.hi);
    }
  }

  /** On the input range, interpolation stays between the first and last outputs. */
  lemma InterpolateBounded(x: real, input: Breakpoints, output: Breakpoints)
    requires Increasing(input) && NonDecreasing(output)
    requires input.lo <= x <= input.hi
    ensures output.lo <= Interpolate(x, input, output) <= output.hi
  {
    InterpolateMonotone(input.lo, x, input, output);
    InterpolateMonotone(x, input.hi, input, output);
  }

  // ---------------------------------------------------------------------
  // Foam
  // ---------------------------------------------------------------------

  const FoamScaleInput := Breakpoints(0.0, 20.0, 100.0)
  const FoamScaleOutput := Breakpoints(0.0, 0.5, 1.0)
  const FoamHeightInput := Breakpoints(0.0, 10.0, 100.0)
  const FoamHeightOutput := Breakpoints(0.0, 15.0, 40.0)

  /** Scale (and opacity) of every foam blob at fill `level`. */
  function FoamScale(level: real): (r: real)
    ensures level == 0.0 ==> r == 0.0
    ensures level == 20.0 ==> r == 0.5
    ensures level == 100.0 ==> r == 1.0
    ensures 0.0 <= level <= 100.0 ==> 0.0 <= r <= 1.0
  {
    var r := Interpolate(level, FoamScaleInput, FoamScaleOutput);
    assert 0.0 <= level <= 100.0 ==> FoamScaleOutput.lo <= r <= FoamScaleOutput.hi by {
      if 0.0 <= level <= 100.0 { InterpolateBounded(level, FoamScaleInput, FoamScaleOutput); }
    }
    r
  }

  /** Height of the foam band at fill `level`. */
  function FoamHeight(level: real): (r: real)
    ensures level == 0.0 ==> r == 0.0
    ensures level == 10.0 ==> r == 15.0
    ensures level == 100.0 ==> r == 40.0
    ensures 0.0 <= level <= 100.0 ==> 0.0 <= r <= 40.0
  {
    var r := Interpolate(level, FoamHeightInput, FoamHeightOutput);
    assert 0.0 <= level <= 100.0 ==> FoamHeightOutput.lo <= r <= FoamHeightOutput.hi by {
      if 0.0 <= level <= 100.0 { InterpolateBounded(level, FoamHeightInput, FoamHeightOutput); }
    }
    r
  }

  /** More beer never means smaller foam blobs. */
  lemma FoamScaleGrowsWithLevel(level: real, level': real)
    requires 0.0 <= level <= level' <= 100.0
    ensures FoamScale(level) <= FoamScale(level')
  {
    InterpolateMonotone(level, level', FoamScaleInput, FoamScaleOutput);
  }

  /** More beer never means a thinner foam band. */
  lemma FoamHeightGrowsWithLevel(level: real, level': real)
    requires 0.0 <= level <= level' <= 100.0
    ensures FoamHeight(level) <= FoamHeight(level')
  {
    InterpolateMonotone(level, level', FoamHeightInput, FoamHeightOutput);
  }

  /** Horizontal position (percent) of a foam blob when the glass tilts by `tiltX`. */
  function FoamLeft(baseLeft: real, tiltX: real): (r: real)
    ensures tiltX == 0.0 ==> r == baseLeft
    ensures r > baseLeft <==> tiltX > 0.0
    ensures r < baseLeft <==> tiltX < 0.0
  {
    baseLeft + tiltX * 3.0
  }

  // ---------------------------------------------------------------------
  // Bubbles
  // ---------------------------------------------------------------------

  /** How visible the bubbles are at fill `level`: they fade out below 30. */
  function BubbleOpacityFactor(level: real): (r: real)
    ensures level == 0.0 ==> r == 0.0
    ensures level >= BubbleFadeLevel ==> r == 1.0
    ensures 0.0 <= level ==> 0.0 <= r <= 1.0
    ensures 0.0 <= level < BubbleFadeLevel ==> r < 1.0
  {
    if level / BubbleFadeLevel <= 1.0 then level / BubbleFadeLevel else 1.0
  }

  lemma BubbleFactorMonotone(level: real, level': real)
    requires level <= level'
    ensures BubbleOpacityFactor(level) <= BubbleOpacityFactor(level')
  {
    assert level / BubbleFadeLevel <= level' / BubbleFadeLevel;
  }

  /** Rendered opacity of a bubble whose envelope currently reads `envelope`. */
  function BubbleOpacity(envelope: real, level: real): (r: real)
    ensures level == 0.0 ==> r == 0.0
    ensures 0.0 <= envelope <= PeakOpacity && 0.0 <= level ==> 0.0 <= r <= PeakOpacity
    ensures level >= BubbleFadeLevel ==> r == envelope
  {
    var f := BubbleOpacityFactor(level);
    assert 0.0 <= envelope <= PeakOpacity && 0.0 <= level ==> envelope * f <= PeakOpacity by {
      if 0.0 <= envelope <= PeakOpacity && 0.0 <= level {
        assert envelope * f <= envelope * 1.0;
      }
    }
    envelope * f
  }

  /** One leg of a timed animation: move to `target` over `duration` ms. */
  datatype Leg = Leg(target: real, duration: real)

  function CycleLength(legs: seq<Leg>): real
  {
    if legs == [] then 0.0 else legs[0].duration + CycleLength(legs[1..])
  }

  /** The repeated opacity envelope of a bubble that rises for `duration` ms. */
  function OpacityCycle(duration: real): (legs: seq<Leg>)
    ensures |legs| == 4
    ensures forall i :: 0 <= i < |legs| ==> 0.0 <= legs[i].target <= PeakOpacity
    ensures legs[0].target == PeakOpacity && legs[|legs| - 1].target == 0.0
  {
    [Leg(PeakOpacity, duration * 0.1), Leg(PeakOpacity, duration * 0.7),
     Leg(0.0, duration * 0.2), Leg(0.0, 0.0)]
  }

  /** The repeated rise of a bubble in a glass `glassHeight` tall. */
  function RiseCycle(duration: real, glassHeight: real): (legs: seq<Leg>)
    ensures |legs| == 3 && legs[|legs| - 1].target == 0.0
  {
    [Leg(0.0, 0.0), Leg(-glassHeight * 0.6, duration), Leg(0.0, 0.0)]
  }

  /**
   * The fade envelope's phases (10%, 70%, 20%) take up the whole rise, so
   * both loops repeat with the same period and stay in step.
   */
  lemma CyclesInStep(duration: real, glassHeight: real)
    ensures CycleLength(OpacityCycle(duration)) == duration
    ensures CycleLength(RiseCycle(duration, glassHeight)) == duration
  {
    var o := OpacityCycle(duration);
    assert o[3..][1..] == [];
    assert CycleLength(o[3..]) == 0.0;
    assert o[2..][1..] == o[3..];
    assert CycleLength(o[2..]) == duration * 0.2;
    assert o[1..][1..] == o[2..];
    assert CycleLength(o[1..]) == duration * 0.7 + duration * 0.2;
    var u := RiseCycle(duration, glassHeight);
    assert u[2..][1..] == [];
    assert u[1..][1..] == u[2..];
  }

  // ---------------------------------------------------------------------
  // Randomly drawn descriptors
  // ---------------------------------------------------------------------

  /** A bubble's size (px), left edge (percent), start delay and rise time (ms). */
  datatype BubbleSpec = BubbleSpec(size: real, left: real, delay: real, duration: real)

  function MakeBubble(r1: real, r2: real, r3: real, r4: real): (b: BubbleSpec)
    ensures IsDraw(r1) ==> 3.0 <= b.size < 9.0
    ensures IsDraw(r2) ==> 10.0 <= b.left < 90.0
    ensures IsDraw(r3) ==> 0.0 <= b.delay < 4000.0
    ensures IsDraw(r4) ==> 2000.0 <= b.duration < 5000.0
  {
    BubbleSpec(3.0 + r1 * 6.0, 10.0 + r2 * 80.0, r3 * 4000.0, 2000.0 + r4 * 3000.0)
  }

  /** A foam blob's size (px), left edge (percent) and vertical offset (px). */
  datatype FoamSpec = FoamSpec(baseSize: real, baseLeft: real, yOffset: real)

  /** The `index`-th of the foam blobs, spread evenly with up to 10% jitter either way. */
  function MakeFoamBlob(index: nat, r1: real, r2: real, r3: real): (f: FoamSpec)
    ensures IsDraw(r1) ==> 25.0 <= f.baseSize < 65.0
    ensures IsDraw(r2) ==> 12.5 * index as real - 10.0 <= f.baseLeft < 12.5 * index as real + 10.0
    ensures IsDraw(r3) ==> 0.0 <= f.yOffset < 15.0
  {
    FoamSpec(25.0 + r1 * 40.0,
             (index as real / FoamBlobCount as real) * 100.0 - 10.0 + r2 * 20.0,
             r3 * 15.0)
  }

  /** Four draws per bubble, in the order the source draws them. */
  datatype BubbleDraws = BubbleDraws(r1: real, r2: real, r3: real, r4: real)
  datatype FoamDraws = FoamDraws(r1: real, r2: real, r3: real)

  predicate ValidBubbleDraws(d: BubbleDraws) { IsDraw(d.r1) && IsDraw(d.r2) && IsDraw(d.r3) && IsDraw(d.r4) }
  predicate ValidFoamDraws(d: FoamDraws) { IsDraw(d.r1) && IsDraw(d.r2) && IsDraw(d.r3) }

  /** The bubbles of one glass, one per draw. */
  function Bubbles(draws: seq<BubbleDraws>): (bs: seq<BubbleSpec>)
    requires |draws| == BubbleCount
    ensures |bs| == BubbleCount
    ensures forall i :: 0 <= i < |bs| && ValidBubbleDraws(draws[i]) ==>
      3.0 <= bs[i].size < 9.0 && 10.0 <= bs[i].left < 90.0 &&
      0.0 <= bs[i].delay < 4000.0 && 2000.0 <= bs[i].duration < 5000.0
  {
    seq(|draws|, i requires 0 <= i < |draws| =>
      MakeBubble(draws[i].r1, draws[i].r2, draws[i].r3, draws[i].r4))
  }

  /** The foam blobs of one glass; blob `i` sits around 12.5 * i percent. */
  function FoamBlobs(draws: seq<FoamDraws>): (fs: seq<FoamSpec>)
    requires |draws| == FoamBlobCount
    ensures |fs| == FoamBlobCount
    ensures forall i :: 0 <= i < |fs| && ValidFoamDraws(draws[i]) ==>
      25.0 <= fs[i].baseSize < 65.0 && 0.0 <= fs[i].yOffset < 15.0 &&
      12.5 * i as real - 10.0 <= fs[i].baseLeft < 12.5 * i as real + 10.0
  {
    seq(|draws|, i requires 0 <= i < |draws| =>
      MakeFoamBlob(i, draws[i].r1, draws[i].r2, draws[i].r3))
  }
}
