/**
 * The screen with its glass: drinking samples reach the glass, the glass
 * reports levels to the screen's empty latch, and a tap refills by
 * mounting a fresh glass under the next key.
 */
module Session {
  import Glass
  import Screen

  /** The drink reports of a glass, as inputs to the screen. */
  function DrinkInputs(levels: seq<real>): (ins: seq<Screen.Input>)
    ensures |ins| == |levels|
    ensures forall i :: 0 <= i < |ins| ==> ins[i] == Screen.Drink(levels[i])
  {
    if levels == [] then [] else [Screen.Drink(levels[0])] + DrinkInputs(levels[1..])
  }

  /**
   * However one glass is drunk, the screen (reading its current latch)
   * sends at most one success pulse before the next refill.
   */
  lemma SuccessOncePerGlass(d: Glass.DrinkState, ys: seq<real>, s: Screen.ScreenState, isWeb: bool)
    ensures Screen.Count(Screen.Replay(s, DrinkInputs(Glass.Run(d, ys).reports), isWeb).haptics,
                         Screen.SuccessNotification) <= 1
  {
    Screen.SuccessAtMostOnceWithoutRefill(s, DrinkInputs(Glass.Run(d, ys).reports), isWeb);
  }

  /**
   * The drink handler as the mounted glass actually calls it: the listener
   * is registered once, when the glass mounts, and keeps the handler of that
   * render, so every report is judged against the `mounted` screen state
   * while the setters it calls change the `live` one.
   */
  function ReplayMounted(mounted: Screen.ScreenState, live: Screen.ScreenState, levels: seq<real>, isWeb: bool)
    : (r: Screen.Reaction)
    ensures !mounted.isEmpty && !isWeb ==>
      Screen.Count(r.haptics, Screen.SuccessNotification) == CountAtMost(levels, Screen.EmptyLevel)
    decreases |levels|
  {
    if levels == [] then Screen.Reaction(live, [])
    else
      var decision := Screen.OnDrink(mounted, levels[0], isWeb);
      var latched := decision.next.isEmpty && !mounted.isEmpty;
      var live' := if latched then live.(isEmpty := true, showHint := false) else live;
      var rest := ReplayMounted(mounted, live', levels[1..], isWeb);
      Screen.CountAppend(decision.haptics, rest.haptics, Screen.SuccessNotification);
      Screen.Reaction(rest.next, decision.haptics + rest.haptics)
  }

  /** How many of `levels` are at or below `bound`. */
  function CountAtMost(levels: seq<real>, bound: real): nat
  {
    if levels == [] then 0 else (if levels[0] <= bound then 1 else 0) + CountAtMost(levels[1..], bound)
  }

  /** A full glass drunk steadily at y = 0.6 holds 1.18 after 549 samples, none reported empty. */
  lemma SteadyDrinkingToLowLevel()
    ensures Glass.Run(Glass.DrinkState(Glass.FullLevel, false), Glass.Repeat(0.6, 549)).final
            == Glass.DrinkState(1.18, true)
    ensures forall i :: 0 <= i < |Glass.Run(Glass.DrinkState(Glass.FullLevel, false), Glass.Repeat(0.6, 549)).reports| ==>
              Glass.Run(Glass.DrinkState(Glass.FullLevel, false), Glass.Repeat(0.6, 549)).reports[i] > Screen.EmptyLevel
  {
    Glass.SteadyDrinking(Glass.DrinkState(Glass.FullLevel, false), 0.6, 549, 98.82);
  }

  /** The levels the last seven samples at y = 0.6 report, from 1.18 down to empty. */
  const LastLevels: seq<real> := [1.0, 0.82, 0.64, 0.46, 0.28, 0.1, 0.0]

  /** One sample at y = 0.6 from a drinking glass holding `level`, in front of `n - 1` more. */
  lemma SipAtSteadyTilt(level: real, n: nat)
    requires level > 0.0 && n > 0
    ensures Glass.Run(Glass.DrinkState(level, true), Glass.Repeat(0.6, n)).reports ==
      [Glass.Max(0.0, level - 0.18)] + Glass.Run(Glass.DrinkState(Glass.Max(0.0, level - 0.18), true), Glass.Repeat(0.6, n - 1)).reports
  {
    assert Glass.Repeat(0.6, n)[1..] == Glass.Repeat(0.6, n - 1);
  }

  /** From 1.18, seven more samples at y = 0.6 report every level of `LastLevels`. */
  lemma LastSevenSips()
    ensures Glass.Run(Glass.DrinkState(1.18, true), Glass.Repeat(0.6, 7)).reports == LastLevels
  {
    SipAtSteadyTilt(1.18, 7);
    SipAtSteadyTilt(1.0, 6);
    SipAtSteadyTilt(0.82, 5);
    SipAtSteadyTilt(0.64, 4);
    SipAtSteadyTilt(0.46, 3);
    SipAtSteadyTilt(0.28, 2);
    SipAtSteadyTilt(0.1, 1);
    assert Glass.Run(Glass.DrinkState(0.0, true), Glass.Repeat(0.6, 0)).reports == [];
  }

  /** When every level is at or below `bound`, all of them are counted. */
  lemma {:induction false} CountAllAtMost(levels: seq<real>, bound: real)
    requires forall i :: 0 <= i < |levels| ==> levels[i] <= bound
    ensures CountAtMost(levels, bound) == |levels|
  {
    if levels != [] {
      CountAllAtMost(levels[1..], bound);
    }
  }

  /** Each level the glass held just before one of the last seven samples. */
  const LevelsBefore: seq<real> := [1.18, 1.0, 0.82, 0.64, 0.46, 0.28, 0.1]

  /**
   * The handler as mounted sends a success pulse for each of the seven
   * reports `LastSevenSips` shows at or below the empty mark: seven pulses
   * for one glass. Judging each sample by the level before it instead still
   * gives six.
   */
  lemma MountedCallbackRepeatsSuccess()
    ensures Screen.Count(ReplayMounted(Screen.Initial, Screen.Initial, LastLevels, false).haptics,
                         Screen.SuccessNotification) == 7
    ensures Screen.Count(ReplayMounted(Screen.Initial, Screen.Initial, LevelsBefore, false).haptics,
                         Screen.SuccessNotification) == 6
  {
    CountAllAtMost(LastLevels, Screen.EmptyLevel);
    CountAllAtMost(LevelsBefore[1..], Screen.EmptyLevel);
  }

  /** Judged against the live latch, the same reports send one pulse: the first closes the latch. */
  lemma LiveLatchSucceedsOnce()
    ensures Screen.Count(Screen.Replay(Screen.Initial, DrinkInputs(LastLevels), false).haptics,
                         Screen.SuccessNotification) == 1
  {
    var ins := DrinkInputs(LastLevels);
    var first := Screen.OnDrink(Screen.Initial, 1.0, false);
    assert first.haptics == [Screen.SuccessNotification] && first.next.isEmpty;
    Screen.SuccessAtMostOnceWithoutRefill(first.next, ins[1..], false);
    Screen.CountAppend(first.haptics, Screen.Replay(first.next, ins[1..], false).haptics, Screen.SuccessNotification);
    assert [Screen.SuccessNotification][1..] == [];
  }

  /**
   * The screen and the glass currently mounted under its key. `glassKey`
   * is the key the glass was mounted under.
   */
  class BeerSession {
    var screen: Screen.BeerScreen
    var glass: Glass.BeerGlass
    ghost var glassKey: int

    ghost predicate Valid()
      reads this, screen, glass
    {
      glass.Valid() && glassKey == screen.beerKey
    }

    constructor (isWeb: bool)
      ensures Valid() && fresh(screen) && fresh(glass)
      ensures screen.isWeb == isWeb && screen.State() == Screen.Initial && screen.haptics == []
      ensures glass.State() == Glass.DrinkState(Glass.FullLevel, false) && glass.pulses == []
    {
      screen := new Screen.BeerScreen(isWeb);
      glass := new Glass.BeerGlass();
      glassKey := 0;
    }

    /** One accelerometer sample: the glass steps and reports to the live latch. */
    method Sample(x: real, y: real, now: int)
      requires Valid()
      modifies glass, screen
      ensures Valid()
      ensures glass.State() == Glass.Step(old(glass.State()), y).next
      ensures screen.State() ==
        match Glass.Step(old(glass.State()), y).report
        case NoDrink => old(screen.State())
        case Drank(level) => Screen.OnDrink(old(screen.State()), level, screen.isWeb).next
      ensures screen.haptics == old(screen.haptics) +
        match Glass.Step(old(glass.State()), y).report
        case NoDrink => []
        case Drank(level) => Screen.OnDrink(old(screen.State()), level, screen.isWeb).haptics
      ensures glass.pulses == old(glass.pulses) +
        (if Glass.Step(old(glass.State()), y).hapticRequest && Glass.ShouldFire(old(glass.lastHaptic), now)
         then [now] else [])
      ensures glass.tiltX == x * Glass.TiltXPerX && glass.surfaceTilt == x * Glass.SurfaceTiltPerX
      ensures glass.tiltY == y * Glass.TiltYPerY
    {
      var report := glass.OnSample(x, y, now);
      if report.Drank? {
        screen.HandleDrink(report.level);
      }
    }

    /** A tap: refill, which mounts a fresh, full, idle glass under the next key. */
    method Tap()
      requires Valid()
      modifies this, screen
      ensures Valid() && fresh(glass) && screen == old(screen)
      ensures glass.State() == Glass.DrinkState(Glass.FullLevel, false)
      ensures glass.lastHaptic == 0 && glass.pulses == []
      ensures glass.tiltX == 0.0 && glass.tiltY == 0.0 && glass.surfaceTilt == 0.0
      ensures screen.State() == Screen.OnRefill(old(screen.State()), screen.isWeb).next
      ensures screen.haptics == old(screen.haptics) + Screen.OnRefill(old(screen.State()), screen.isWeb).haptics
      ensures glassKey == old(glassKey) + 1
    {
      screen.HandleRefill();
      glass := new Glass.BeerGlass();
      glassKey := screen.beerKey;
    }
  }
}
