/**
 * The glass's sensor-sample step: each accelerometer sample sets the spring
 * targets of the tilt, decides whether the user is drinking, depletes the
 * fill level while drinking and requests a light haptic pulse on the first
 * sample of each drinking episode. The pulses are rate-limited to one per
 * 300 ms.
 *
 * Values are exact reals (the source computes in IEEE doubles); clock
 * readings are whole milliseconds passed in as `now`.
 */
module Glass {

  /** A sample whose `y` axis exceeds this value counts as drinking. */
  const DrinkThreshold: real := 0.45
  /** Level lost per unit of `y` above the threshold, per sample. */
  const DrinkRateFactor: real := 1.2
  /** A fresh glass is full. */
  const FullLevel: real := 100.0
  /** Two light pulses are never closer than this many milliseconds. */
  const MinPulseGap: int := 300

  /** Spring targets: how far each sensor axis moves each tilt value. */
  const TiltXPerX: real := 15.0
  const SurfaceTiltPerX: real := 12.0
  const TiltYPerY: real := 5.0

  function Max(a: real, b: real): real { if a >= b then a else b }
  function Min(a: real, b: real): real { if a <= b then a else b }

  /** How much one sample at vertical tilt `y` would drink. */
  function DrinkRate(y: real): (r: real)
    ensures y > DrinkThreshold ==> r > 0.0
  {
    (y - DrinkThreshold) * DrinkRateFactor
  }

  /** The part of the glass state that the drink detector reads and writes. */
  datatype DrinkState = DrinkState(level: real, isDrinking: bool)

  /** What `onDrink` is called with on a sample: nothing, or the new level. */
  datatype Report = NoDrink | Drank(level: real)

  datatype StepResult = StepResult(next: DrinkState, hapticRequest: bool, report: Report)

  /**
   * The drink detector and level integrator for one sample with vertical
   * axis `y`: the specification of `BeerGlass.OnSample`.
   */
  function Step(s: DrinkState, y: real): (r: StepResult)
    // drinking after the sample iff the phone is tipped up and there is beer left
    ensures r.next.isDrinking <==> y > DrinkThreshold && s.level > 0.0
    // a pulse is requested exactly on the idle -> drinking edge
    ensures r.hapticRequest <==> !s.isDrinking && r.next.isDrinking
    // the level drops by min(level, rate) when drinking, otherwise not at all
    ensures r.next.level == s.level - (if r.next.isDrinking then Min(s.level, DrinkRate(y)) else 0.0)
    ensures r.next.level <= s.level
    ensures 0.0 <= s.level <= FullLevel ==> 0.0 <= r.next.level <= FullLevel
    // onDrink hears of exactly the drinking samples, with the committed level
    ensures r.report == if r.next.isDrinking then Drank(r.next.level) else NoDrink
  {
    if y > DrinkThreshold && s.level > 0.0 then
      StepResult(DrinkState(Max(0.0, s.level - DrinkRate(y)), true), !s.isDrinking, Drank(Max(0.0, s.level - DrinkRate(y))))
    else
      StepResult(DrinkState(s.level, false), false, NoDrink)
  }

  /** The outcome of a run of samples: final state, pulse requests, reports. */
  datatype RunResult = RunResult(final: DrinkState, requests: nat, reports: seq<real>)

  /** Samples processed in arrival order, given by their `y` axes. */
  function Run(s: DrinkState, ys: seq<real>): (r: RunResult)
    ensures r.final.level <= s.level
    ensures 0.0 <= s.level ==> 0.0 <= r.final.level
    ensures r.requests <= |ys| && |r.reports| <= |ys|
    ensures forall i :: 0 <= i < |r.reports| ==> r.final.level <= r.reports[i] <= s.level
    decreases |ys|
  {
    if ys == [] then RunResult(s, 0, [])
    else
      var step := Step(s, ys[0]);
      var rest := Run(step.next, ys[1..]);
      RunResult(rest.final,
                (if step.hapticRequest then 1 else 0) + rest.requests,
                (if step.report.Drank? then [step.report.level] else []) + rest.reports)
  }

  /**
   * Once the glass is empty, no sample drinks: the level stays 0, nothing is
   * reported, no pulse is requested and the drinking flag is down after
   * any sample.
   */
  lemma {:induction false} EmptyGlassIsInert(s: DrinkState, ys: seq<real>)
    requires s.level == 0.0
    ensures Run(s, ys).final.level == 0.0
    ensures ys != [] ==> !Run(s, ys).final.isDrinking
    ensures Run(s, ys).requests == 0 && Run(s, ys).reports == []
    decreases |ys|
  {
    if ys != [] {
      EmptyGlassIsInert(Step(s, ys[0]).next, ys[1..]);
    }
  }

  /**
   * A continuous drinking episode (every sample above the threshold, beer
   * left before the last one) requests exactly one pulse if it starts idle
   * and none if it continues an episode already under way.
   */
  lemma {:induction false} OnePulsePerEpisode(s: DrinkState, ys: seq<real>)
    requires ys != []
    requires forall i :: 0 <= i < |ys| ==> ys[i] > DrinkThreshold
    requires Run(s, ys[..|ys| - 1]).final.level > 0.0
    ensures Run(s, ys).requests == if s.isDrinking then 0 else 1
    ensures Run(s, ys).final.isDrinking
    decreases |ys|
  {
    assert s.level > 0.0;
    var s1 := Step(s, ys[0]).next;
    assert s1.isDrinking;
    if |ys| > 1 {
      assert ys[..|ys| - 1][1..] == ys[1..][..|ys[1..]| - 1];
      OnePulsePerEpisode(s1, ys[1..]);
    }
  }

  function Repeat(y: real, n: nat): (ys: seq<real>)
    ensures |ys| == n && forall i :: 0 <= i < n ==> ys[i] == y
  {
    if n == 0 then [] else [y] + Repeat(y, n - 1)
  }

  /**
   * Holding the phone steadily at `y` for `n` samples with enough beer
   * drinks exactly `n` times the per-sample rate and requests one pulse
   * (when the episode starts with this run).
   */
  lemma {:induction false} SteadyDrinking(s: DrinkState, y: real, n: nat, drunk: real)
    requires y > DrinkThreshold
    requires drunk == n as real * DrinkRate(y)
    requires s.level >= drunk
    ensures Run(s, Repeat(y, n)).final.level == s.level - drunk
    ensures Run(s, Repeat(y, n)).requests == if n > 0 && !s.isDrinking then 1 else 0
    ensures n > 0 ==> Run(s, Repeat(y, n)).final.isDrinking
    decreases n
  {
    if n > 0 {
      var rate := DrinkRate(y);
      var before := drunk - rate;
      PeelOne(n, rate, drunk);
      var ys := Repeat(y, n);
      assert ys[0] == y && ys[1..] == Repeat(y, n - 1);
      var s1 := Step(s, y).next;
      assert s1 == DrinkState(s.level - rate, true);
      SteadyDrinking(s1, y, n - 1, before);
    }
  }

  lemma PeelOne(n: nat, rate: real, drunk: real)
    requires n > 0 && rate > 0.0
    requires drunk == n as real * rate
    ensures drunk - rate == (n - 1) as real * rate
    ensures drunk - rate >= 0.0
  {
  }

  /**
   * From a full, idle glass, ten samples at y = 0.6 drink 1.8 in total,
   * start one episode and request one pulse.
   */
  lemma TenSipsFromFull()
    ensures Run(DrinkState(FullLevel, false), Repeat(0.6, 10)).final == DrinkState(98.2, true)
    ensures Run(DrinkState(FullLevel, false), Repeat(0.6, 10)).requests == 1
  {
    SteadyDrinking(DrinkState(FullLevel, false), 0.6, 10, 1.8);
  }

  /** `triggerHaptic`'s rule: fire only when more than 300 ms have passed. */
  function ShouldFire(lastHaptic: int, now: int): (fire: bool)
    ensures fire ==> now > lastHaptic + MinPulseGap
    ensures now >= lastHaptic + MinPulseGap + 1 ==> fire
  {
    now - lastHaptic > MinPulseGap
  }

  /** Every pulse is more than the gap after the one before it (the first one after `start`). */
  ghost predicate Spaced(start: int, pulses: seq<int>)
  {
    && (|pulses| > 0 ==> pulses[0] - start > MinPulseGap)
    && forall i :: 0 < i < |pulses| ==> pulses[i] - pulses[i - 1] > MinPulseGap
  }

  function LastPulse(start: int, pulses: seq<int>): int
  {
    if pulses == [] then start else pulses[|pulses| - 1]
  }

  /** The pulses that fire when requests arrive at `times`, in order. */
  function Fired(lastHaptic: int, times: seq<int>): (pulses: seq<int>)
    ensures Spaced(lastHaptic, pulses)
    ensures |pulses| <= |times|
    ensures forall i :: 0 <= i < |pulses| ==> pulses[i] in times
    decreases |times|
  {
    if times == [] then []
    else if ShouldFire(lastHaptic, times[0]) then
      var rest := Fired(times[0], times[1..]);
      SpacedPrepend(lastHaptic, times[0], rest);
      [times[0]] + rest
    else Fired(lastHaptic, times[1..])
  }

  /**
   * `Fired` grows one request at a time: a request that comes later fires
   * exactly when it is more than the gap after the last pulse so far.
   */
  lemma {:induction false} FiredAppend(lastHaptic: int, times: seq<int>, t: int)
    ensures Fired(lastHaptic, times + [t]) ==
      Fired(lastHaptic, times) +
      (if ShouldFire(LastPulse(lastHaptic, Fired(lastHaptic, times)), t) then [t] else [])
    decreases |times|
  {
    if times == [] {
      assert [] + [t] == [t];
      assert [t][1..] == [];
    } else {
      assert (times + [t])[0] == times[0];
      assert (times + [t])[1..] == times[1..] + [t];
      if ShouldFire(lastHaptic, times[0]) {
        FiredAppend(times[0], times[1..], t);
        var rest := Fired(times[0], times[1..]);
        assert LastPulse(lastHaptic, [times[0]] + rest) == LastPulse(times[0], rest);
      } else {
        FiredAppend(lastHaptic, times[1..], t);
      }
    }
  }

  lemma SpacedPrepend(start: int, first: int, rest: seq<int>)
    requires first - start > MinPulseGap
    requires Spaced(first, rest)
    ensures Spaced(start, [first] + rest)
  {
    var ps := [first] + rest;
    forall i | 0 < i < |ps|
      ensures ps[i] - ps[i - 1] > MinPulseGap
    {
      assert ps[i] == rest[i - 1];
      if i > 1 { assert ps[i - 1] == rest[i - 2]; }
    }
  }

  /** Consecutive spacing gives spacing between any two pulses. */
  lemma {:induction false} SpacedApart(start: int, pulses: seq<int>, i: nat, j: nat)
    requires Spaced(start, pulses)
    requires i < j < |pulses|
    ensures pulses[j] - pulses[i] > (j - i) * MinPulseGap
    decreases j - i
  {
    assert pulses[j] - pulses[j - 1] > MinPulseGap;
    if i < j - 1 {
      SpacedApart(start, pulses, i, j - 1);
    }
  }

  /** However fast the requests come, no two fired pulses share a 300 ms window. */
  lemma AtMostOnePulsePerWindow(start: int, pulses: seq<int>, from: int, i: nat, j: nat)
    requires Spaced(start, pulses)
    requires i < j < |pulses|
    requires from <= pulses[i]
    ensures pulses[j] > from + MinPulseGap
  {
    SpacedApart(start, pulses, i, j);
  }

  lemma SpacedExtend(start: int, pulses: seq<int>, now: int)
    requires Spaced(start, pulses)
    requires now - LastPulse(start, pulses) > MinPulseGap
    ensures Spaced(start, pulses + [now])
  {
    var ps := pulses + [now];
    forall i | 0 < i < |ps|
      ensures ps[i] - ps[i - 1] > MinPulseGap
    {
      if i < |pulses| {
        assert ps[i] == pulses[i] && ps[i - 1] == pulses[i - 1];
      } else {
        assert ps[i] == now && ps[i - 1] == pulses[|pulses| - 1];
      }
    }
  }

  /**
   * One mounted glass: the fill level, the drinking edge flag, the time of
   * the last light pulse and the spring targets of the three tilt values.
   * `pulses` records the light impacts handed to the device.
   */
  class BeerGlass {
    var level: real
    var isDrinking: bool
    var lastHaptic: int
    var tiltX: real
    var tiltY: real
    var surfaceTilt: real
    var pulses: seq<int>

    ghost predicate Valid()
      reads this
    {
      && 0.0 <= level <= FullLevel
      && Spaced(0, pulses)
      && lastHaptic == LastPulse(0, pulses)
    }

    function State(): DrinkState
      reads this
    {
      DrinkState(level, isDrinking)
    }

    /** A glass as it mounts: full, idle, level tilt, no pulse yet. */
    constructor ()
      ensures Valid()
      ensures level == FullLevel && !isDrinking && lastHaptic == 0
      ensures tiltX == 0.0 && tiltY == 0.0 && surfaceTilt == 0.0
      ensures pulses == []
    {
      level := FullLevel;
      isDrinking := false;
      lastHaptic := 0;
      tiltX, tiltY, surfaceTilt := 0.0, 0.0, 0.0;
      pulses := [];
    }

    /** `triggerHaptic`: fire a light pulse at `now` unless one fired within 300 ms. */
    method TriggerHaptic(now: int) returns (fired: bool)
      requires Valid()
      modifies this
      ensures Valid()
      ensures fired == ShouldFire(old(lastHaptic), now)
      ensures lastHaptic == (if fired then now else old(lastHaptic))
      ensures pulses == old(pulses) + (if fired then [now] else [])
      ensures level == old(level) && isDrinking == old(isDrinking)
      ensures tiltX == old(tiltX) && tiltY == old(tiltY) && surfaceTilt == old(surfaceTilt)
    {
      fired := false;
      if now - lastHaptic > MinPulseGap {
        SpacedExtend(0, pulses, now);
        lastHaptic := now;
        pulses := pulses + [now];
        fired := true;
      }
    }

    /**
     * The accelerometer listener, for one sample `(x, y)` arriving when the
     * clock reads `now`. Returns what `onDrink` is called with.
     */
    method OnSample(x: real, y: real, now: int) returns (report: Report)
      requires Valid()
      modifies this
      ensures Valid()
      ensures State() == Step(old(State()), y).next
      ensures report == Step(old(State()), y).report
      ensures tiltX == x * TiltXPerX && surfaceTilt == x * SurfaceTiltPerX && tiltY == y * TiltYPerY
      ensures pulses == old(pulses) +
        (if Step(old(State()), y).hapticRequest && ShouldFire(old(lastHaptic), now) then [now] else [])
    {
      tiltX := x * TiltXPerX;
      surfaceTilt := x * SurfaceTiltPerX;

      if y > DrinkThreshold && level > 0.0 {
        if !isDrinking {
          isDrinking := true;
          var _ := TriggerHaptic(now);
        }
        var drinkRate := DrinkRate(y);
        level := Max(0.0, level - drinkRate);
        report := Drank(level);
      } else {
        isDrinking := false;
        report := NoDrink;
      }

      tiltY := y * TiltYPerY;
    }
  }
}
