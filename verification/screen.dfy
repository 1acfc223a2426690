/**
 * The beer screen around the glass: it latches "empty" once the glass
 * reports a level of 1 or less, and a tap refills by bumping the key the
 * glass is mounted under, which replaces the glass with a fresh one. Haptic
 * calls are recorded as events; on the web build none are made.
 */
module Screen {

  /** A reported level at or below this counts as an empty glass. */
  const EmptyLevel: real := 1.0

  /** The screen's three state cells. */
  datatype ScreenState = ScreenState(beerKey: int, isEmpty: bool, showHint: bool)

  /** The haptic calls the screen makes. */
  datatype Haptic = SuccessNotification | MediumImpact

  /** A new state and the haptic calls made on the way there. */
  datatype Reaction = Reaction(next: ScreenState, haptics: seq<Haptic>)

  /** The screen as it first renders: first glass, not empty, hint shown. */
  const Initial := ScreenState(0, false, true)

  /** `handleDrink`: the glass reported `level` after a drinking sample. */
  function OnDrink(s: ScreenState, level: real, isWeb: bool): (r: Reaction)
    // above the empty mark, or already latched: nothing happens
    ensures level > EmptyLevel || s.isEmpty ==> r == Reaction(s, [])
    // the latch closes, the hint goes, one success pulse off the web
    ensures level <= EmptyLevel && !s.isEmpty ==>
      && r.next == ScreenState(s.beerKey, true, false)
      && r.haptics == (if isWeb then [] else [SuccessNotification])
    // the glass is never swapped by drinking
    ensures r.next.beerKey == s.beerKey
  {
    if level <= EmptyLevel && !s.isEmpty then
      Reaction(s.(isEmpty := true, showHint := false), if isWeb then [] else [SuccessNotification])
    else
      Reaction(s, [])
  }

  /** `handleRefill`: a tap mounts the next glass and clears the latch and hint. */
  function OnRefill(s: ScreenState, isWeb: bool): (r: Reaction)
    ensures r.next.beerKey == s.beerKey + 1
    ensures !r.next.isEmpty && !r.next.showHint
    ensures r.haptics == if isWeb then [] else [MediumImpact]
  {
    Reaction(ScreenState(s.beerKey + 1, false, false), if isWeb then [] else [MediumImpact])
  }

  /** Once latched, any further report leaves the screen as it is. */
  lemma LatchIsIdempotent(s: ScreenState, level: real, level': real, isWeb: bool)
    requires level <= EmptyLevel
    ensures OnDrink(s, level, isWeb).next.isEmpty
    ensures OnDrink(OnDrink(s, level, isWeb).next, level', isWeb) == Reaction(OnDrink(s, level, isWeb).next, [])
  {
  }

  /** Apart from the key, two refills in a row leave the same state as one. */
  lemma RefillResetsState(s: ScreenState, isWeb: bool)
    ensures OnRefill(OnRefill(s, isWeb).next, isWeb).next == OnRefill(s, isWeb).next.(beerKey := s.beerKey + 2)
  {
  }

  /** What reaches the screen: a drink report from the glass, or a tap. */
  datatype Input = Drink(level: real) | Refill

  function Refills(ins: seq<Input>): nat
  {
    if ins == [] then 0 else (if ins[0].Refill? then 1 else 0) + Refills(ins[1..])
  }

  function Count(hs: seq<Haptic>, h: Haptic): nat
  {
    if hs == [] then 0 else (if hs[0] == h then 1 else 0) + Count(hs[1..], h)
  }

  lemma {:induction false} CountAppend(a: seq<Haptic>, b: seq<Haptic>, h: Haptic)
    ensures Count(a + b, h) == Count(a, h) + Count(b, h)
  {
    if a == [] {
      assert a + b == b;
    } else {
      assert (a + b)[1..] == a[1..] + b;
      CountAppend(a[1..], b, h);
    }
  }

  /** The screen handling its inputs in order. */
  function Replay(s: ScreenState, ins: seq<Input>, isWeb: bool): (r: Reaction)
    ensures r.next.beerKey == s.beerKey + Refills(ins)
    ensures isWeb ==> r.haptics == []
    decreases |ins|
  {
    if ins == [] then Reaction(s, [])
    else
      var first := match ins[0]
        case Drink(level) => OnDrink(s, level, isWeb)
        case Refill => OnRefill(s, isWeb);
      var rest := Replay(first.next, ins[1..], isWeb);
      Reaction(rest.next, first.haptics + rest.haptics)
  }

  /** Every tap off the web buzzes once, and nothing else makes a medium impact. */
  lemma {:induction false} OneImpactPerRefill(s: ScreenState, ins: seq<Input>, isWeb: bool)
    ensures Count(Replay(s, ins, isWeb).haptics, MediumImpact) == if isWeb then 0 else Refills(ins)
    decreases |ins|
  {
    if ins != [] {
      var first := match ins[0]
        case Drink(level) => OnDrink(s, level, isWeb)
        case Refill => OnRefill(s, isWeb);
      OneImpactPerRefill(first.next, ins[1..], isWeb);
      CountAppend(first.haptics, Replay(first.next, ins[1..], isWeb).haptics, MediumImpact);
    }
  }

  /**
   * Between two refills the success pulse comes at most once, and not at
   * all if the latch was already closed; the latch is closed afterwards
   * whenever it came.
   */
  lemma {:induction false} SuccessAtMostOnceWithoutRefill(s: ScreenState, ins: seq<Input>, isWeb: bool)
    requires forall i :: 0 <= i < |ins| ==> ins[i].Drink?
    ensures Count(Replay(s, ins, isWeb).haptics, SuccessNotification) <= if s.isEmpty then 0 else 1
    ensures Count(Replay(s, ins, isWeb).haptics, SuccessNotification) == 1 ==> Replay(s, ins, isWeb).next.isEmpty
    ensures s.isEmpty ==> Replay(s, ins, isWeb).next.isEmpty
    decreases |ins|
  {
    if ins != [] {
      var first := OnDrink(s, ins[0].level, isWeb);
      SuccessAtMostOnceWithoutRefill(first.next, ins[1..], isWeb);
      CountAppend(first.haptics, Replay(first.next, ins[1..], isWeb).haptics, SuccessNotification);
    }
  }

  /** Over any history, success pulses number at most one more than the refills. */
  lemma {:induction false} SuccessesBoundedByRefills(s: ScreenState, ins: seq<Input>, isWeb: bool)
    ensures Count(Replay(s, ins, isWeb).haptics, SuccessNotification) <= Refills(ins) + (if s.isEmpty then 0 else 1)
    decreases |ins|
  {
    if ins != [] {
      var first := match ins[0]
        case Drink(level) => OnDrink(s, level, isWeb)
        case Refill => OnRefill(s, isWeb);
      SuccessesBoundedByRefills(first.next, ins[1..], isWeb);
      CountAppend(first.haptics, Replay(first.next, ins[1..], isWeb).haptics, SuccessNotification);
    }
  }

  /** The screen's state cells and the haptic calls it has made. */
  class BeerScreen {
    const isWeb: bool
    var beerKey: int
    var isEmpty: bool
    var showHint: bool
    var haptics: seq<Haptic>

    function State(): ScreenState
      reads this
    {
      ScreenState(beerKey, isEmpty, showHint)
    }

    constructor (isWeb: bool)
      ensures this.isWeb == isWeb
      ensures State() == Initial && haptics == []
    {
      this.isWeb := isWeb;
      beerKey, isEmpty, showHint := 0, false, true;
      haptics := [];
    }

    method HandleDrink(level: real)
      modifies this
      ensures State() == OnDrink(old(State()), level, isWeb).next
      ensures haptics == old(haptics) + OnDrink(old(State()), level, isWeb).haptics
    {
      if level <= EmptyLevel && !isEmpty {
        isEmpty := true;
        showHint := false;
        if !isWeb {
          haptics := haptics + [SuccessNotification];
        }
      }
    }

    method HandleRefill()
      modifies this
      ensures State() == OnRefill(old(State()), isWeb).next
      ensures haptics == old(haptics) + OnRefill(old(State()), isWeb).haptics
    {
      if !isWeb {
        haptics := haptics + [MediumImpact];
      }
      beerKey := beerKey + 1;
      isEmpty := false;
      showHint := false;
    }
  }
}
