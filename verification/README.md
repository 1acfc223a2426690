# Beer glass: drinking by tilt, haptic rate limit, empty latch and refill

This project models the stateful core of a tilt-to-drink beer glass, written
in React Native. Each accelerometer sample `(x, y)` sets the spring targets
of the glass's tilt (`15x`, `12x`, `5y`). A sample whose `y` exceeds 0.45
while beer is left counts as drinking. It lowers the fill level by
`(y − 0.45) × 1.2`, never below 0, and reports the new level to the screen.
The first sample of each drinking episode asks for a light haptic pulse. A
pulse fires only if more than 300 ms have passed since the last one.

The level also drives some pure visual rules:
- the foam blobs' scale and the foam band's height, both piecewise linear;
- the bubbles' opacity factor, `min(level/30, 1)`;
- the bubbles' fade envelope.

The sizes and positions of the bubbles and foam blobs are drawn from
`Math.random()`. Around the glass, the screen latches "empty" once a report
says the level is 1 or less. A tap refills: it bumps the key the glass is
mounted under, so a fresh, full, idle glass replaces the old one.

The project has four modules:
- `Glass`: the sample step as the function `Step`, runs of samples as `Run`,
  the pulse limiter, and the class `BeerGlass`. The class's `OnSample` and
  `TriggerHaptic` update the level, the drinking flag, the last-pulse time
  and the tilt targets in place.
- `Visuals`: the pure, level-derived rules and the random descriptors.
- `Screen`: the `isEmpty`/`showHint`/`beerKey` cells as the transition
  functions `OnDrink`/`OnRefill`, and the class `BeerScreen`.
- `Session`: the screen with its mounted glass.

A few modelling choices:
- **Numbers.** Levels and tilts are exact reals. Clock readings are whole
  milliseconds, passed in as `now`. Each random draw is a parameter `r` with
  `0 <= r < 1`.
- **Haptics.** Haptic calls are recorded as events in sequence fields.
- **Animations.** A `withTiming` call is taken to commit its target as the
  new level. A `withSpring` call is taken to set its target.

Where the code's behaviour is easy to misread, the model follows the code:
- The empty signal is the screen's latch at a reported level of 1 or less.
  It is not an event at level 0.
- A refill remounts the glass under a new key. It does not reset a level in
  place.
- Bubble sizes and positions are half-open ranges, `[3, 9)` and not `[3, 9]`.
- `interpolate` is called without a clamp option.
- After a drinking sample, `isDrinking` can be true while the level has
  just reached 0.

## Model

| member | source | states |
|---|---|---|
| `Glass.DrinkRate` | src/components/beer-glass.tsx:165 | Above the 0.45 threshold, every sample drinks a positive amount. |
| `Glass.Step` | src/components/beer-glass.tsx:159-175 | After a sample, `isDrinking` holds iff `y > 0.45` and the level before was `> 0`. A pulse is requested exactly on the false→true edge. The level drops by exactly `min(level, rate)` when drinking and is unchanged otherwise, so it never rises. It stays in [0,100] if it started there. `onDrink` hears of exactly the drinking samples. |
| `Glass.Run` | src/components/beer-glass.tsx:153-178 | Over any sequence of samples, the level never rises and never becomes negative. There are no more requests or reports than samples. Every reported level lies between the final and the starting level. |
| `Glass.EmptyGlassIsInert` | src/components/beer-glass.tsx:160-175 | From level 0, every sample leaves `isDrinking` false, the level 0, nothing reported and no pulse requested. |
| `Glass.OnePulsePerEpisode` | src/components/beer-glass.tsx:160-164 | A run of consecutive drinking samples requests exactly one pulse if it starts idle and none if an episode is under way. It ends drinking. |
| `Glass.SteadyDrinking` | src/components/beer-glass.tsx:159-169 | `n` samples at a fixed `y` above the threshold, with enough beer, drink exactly `n × (y − 0.45) × 1.2`. They request one pulse if the glass started idle. |
| `Glass.TenSipsFromFull` | src/components/beer-glass.tsx:135-169 | A full, idle glass given ten samples at y = 0.6 ends at exactly 98.2, drinking, with one pulse requested. |
| `Glass.Fired` | src/components/beer-glass.tsx:142-148 | Of any stream of pulse requests, the pulses that fire are drawn from the requests. Each fires more than 300 ms after the one before. |
| `Glass.FiredAppend` | src/components/beer-glass.tsx:142-148 | A later request adds a pulse exactly when it comes more than 300 ms after the last pulse fired so far (or after the starting `lastHaptic` if none fired); otherwise the fired pulses are unchanged. |
| `Glass.SpacedApart` | src/components/beer-glass.tsx:142-148 | Any two fired pulses `i < j` are more than `300 × (j − i)` ms apart. |
| `Glass.AtMostOnePulsePerWindow` | src/components/beer-glass.tsx:142-148 | No two fired pulses fall within one 300 ms window, however fast requests arrive. |
| `Glass.BeerGlass.constructor` | src/components/beer-glass.tsx:135-140 | A mounted glass starts full (100), idle, with `lastHaptic = 0`, level tilt and no pulse. |
| `Glass.BeerGlass.TriggerHaptic` | src/components/beer-glass.tsx:142-148 | The method fires and sets `lastHaptic := now` only when `now − lastHaptic > 300`; otherwise nothing changes. It keeps the invariant that recorded pulses are spaced. |
| `Glass.BeerGlass.OnSample` | src/components/beer-glass.tsx:153-178 | The new level and flag are those of `Step`. On every sample, the tilt targets become `15x`, `12x` and `5y`. A pulse is recorded iff the edge was requested and the limiter let it through. The level stays in [0,100]. |
| `Visuals.Interpolate` | src/components/beer-glass.tsx:109 | Piecewise-linear interpolation passes exactly through its three breakpoints. |
| `Visuals.InterpolateMonotone` | src/components/beer-glass.tsx:109 | With non-decreasing outputs, interpolation is non-decreasing across both segments of the input range. |
| `Visuals.InterpolateBounded` | src/components/beer-glass.tsx:199 | On the input range, interpolation stays between the first and last outputs. |
| `Visuals.FoamScale` | src/components/beer-glass.tsx:109 | The foam scale is 0 when empty, 0.5 at level 20 and 1 when full, and lies in [0,1] for levels in [0,100]. |
| `Visuals.FoamScaleGrowsWithLevel` | src/components/beer-glass.tsx:109 | The foam scale is non-decreasing in the level on [0,100]. |
| `Visuals.FoamHeight` | src/components/beer-glass.tsx:199 | The foam band height is 0 when empty, 15 at level 10 and 40 when full, and lies in [0,40] for levels in [0,100]. |
| `Visuals.FoamHeightGrowsWithLevel` | src/components/beer-glass.tsx:199 | The foam band height is non-decreasing in the level on [0,100]. |
| `Visuals.FoamLeft` | src/components/beer-glass.tsx:116 | Foam slides in the direction of tilt: right iff `tiltX > 0`, left iff `tiltX < 0`, and not at all when level. |
| `Visuals.BubbleOpacityFactor` | src/components/beer-glass.tsx:89 | The factor is 0 at level 0 and 1 for levels of 30 or more. It lies in [0,1] for non-negative levels and is below 1 under 30. |
| `Visuals.BubbleFactorMonotone` | src/components/beer-glass.tsx:89 | Bubbles never get more visible as the glass empties. |
| `Visuals.BubbleOpacity` | src/components/beer-glass.tsx:89 | A rendered bubble is invisible at level 0. It is never above 0.7 when its envelope is within [0, 0.7]. From level 30 up, it shows the envelope unchanged. |
| `Visuals.OpacityCycle` | src/components/beer-glass.tsx:63-74 | Every target of the fade envelope lies in [0, 0.7]. It rises to the 0.7 peak first and ends at 0. |
| `Visuals.RiseCycle` | src/components/beer-glass.tsx:48-61 | The rise loop ends back at offset 0. |
| `Visuals.CyclesInStep` | src/components/beer-glass.tsx:48-74 | The fade phases (0.1, 0.7 and 0.2 of the duration) add up to the whole rise duration, so both loops share one period. |
| `Visuals.MakeBubble` | src/components/beer-glass.tsx:39-42 | For draws in [0,1): size is in [3,9), left in [10,90), delay in [0,4000) and duration in [2000,5000). |
| `Visuals.MakeFoamBlob` | src/components/beer-glass.tsx:104-106 | For draws in [0,1): base size is in [25,65), y offset in [0,15) and blob `i`'s base left in [12.5i − 10, 12.5i + 10). |
| `Visuals.Bubbles` | src/components/beer-glass.tsx:337-344 | A glass has exactly 20 bubbles, each within the ranges above. |
| `Visuals.FoamBlobs` | src/components/beer-glass.tsx:324-331 | A glass has exactly 8 foam blobs, blob `i` spread around `12.5i` percent within the ranges above. |
| `Screen.OnDrink` | src/app/index.tsx:36-47 | A report above 1 changes nothing and requests nothing. So does any report once the latch is closed. A report of 1 or less on an open latch sets `isEmpty`, clears `showHint` and requests one success notification, except on the web. |
| `Screen.OnRefill` | src/app/index.tsx:49-56 | A refill increments `beerKey` by exactly 1, clears `isEmpty` and `showHint`, and requests one medium impact except on the web. |
| `Screen.LatchIsIdempotent` | src/app/index.tsx:38 | Once a low report has latched, any further report is a no-op. |
| `Screen.RefillResetsState` | src/app/index.tsx:53-55 | Two refills in a row leave the same state as one, apart from the key. |
| `Screen.Replay` | src/app/index.tsx:36-56 | Over any history, the key advances by the number of refills. On the web, no haptic is ever requested. |
| `Screen.OneImpactPerRefill` | src/app/index.tsx:50-52 | Medium impacts number exactly the refills, or none on the web. |
| `Screen.SuccessAtMostOnceWithoutRefill` | src/app/index.tsx:38-43 | Between two refills the success notification comes at most once, and never once latched. The latch stays closed until a refill. |
| `Screen.SuccessesBoundedByRefills` | src/app/index.tsx:36-56 | Over any history, success notifications number at most the refills plus one. |
| `Screen.BeerScreen.constructor` | src/app/index.tsx:26-28 | The screen starts with key 0, not empty and the hint shown. |
| `Screen.BeerScreen.HandleDrink` | src/app/index.tsx:36-47 | The method applies `OnDrink` to the state cells and appends its haptic requests. |
| `Screen.BeerScreen.HandleRefill` | src/app/index.tsx:49-56 | The method applies `OnRefill` to the state cells and appends its haptic request. |
| `Session.SuccessOncePerGlass` | src/app/index.tsx:36-47 | However one glass is drunk, a handler that reads the live latch sends at most one success notification. |
| `Session.ReplayMounted` | src/components/beer-glass.tsx:150-181 | Behaviour as written: the listener keeps the handler from the glass's mount. Off the web it sends one success notification for every report of 1 or less. |
| `Session.SteadyDrinkingToLowLevel` | src/components/beer-glass.tsx:159-172 | A full glass drunk at y = 0.6 reaches exactly 1.18 after 549 samples. Every report so far is above 1. |
| `Session.LastSevenSips` | src/components/beer-glass.tsx:165-172 | From 1.18, seven more samples at y = 0.6 report 1.0, 0.82, 0.64, 0.46, 0.28, 0.1 and 0. |
| `Session.MountedCallbackRepeatsSuccess` | src/app/index.tsx:36-47 | As written, those seven reports produce seven success notifications for one glass. If each report were the level before its sample, there would still be six. |
| `Session.LiveLatchSucceedsOnce` | src/app/index.tsx:38-43 | With the live latch, the same seven reports produce one success notification. |
| `Session.BeerSession.constructor` | src/app/index.tsx:26-78 | A session starts with the initial screen and a fresh, full, idle glass. |
| `Session.BeerSession.Sample` | src/components/beer-glass.tsx:153-178 | The glass takes the `Step` transition, records a pulse iff the edge was requested and the limiter let it through, and sets its tilt targets to `15x`, `12x` and `5y`. The screen applies `OnDrink` to the reported level and appends its haptic requests, or stays unchanged when nothing was reported. |
| `Session.BeerSession.Tap` | src/app/index.tsx:49-78 | A tap applies `OnRefill` to the screen's cells, appends its haptic request, and mounts a fresh glass under the new key. The new glass has level 100, `isDrinking` false, `lastHaptic` 0, level tilt and no pulses. |

## Findings

| source | as written | input that shows it | evidently intended | confidence | as-written member | corrected member |
|---|---|---|---|---|---|---|
| src/app/index.tsx:36-47 | The glass's accelerometer listener is registered once, at mount, with an empty dependency list (src/components/beer-glass.tsx:150-181). It keeps the `onDrink` of that render. That `handleDrink` closed over `isEmpty = false`, so it never sees the latch close, and every report of 1 or less requests another success notification. | A full glass drunk at y = 0.6 (0.18 per sample): after 549 samples it holds 1.18, then reports 1.0, 0.82, 0.64, 0.46, 0.28, 0.1 and 0. As written that makes seven success notifications; if each report were the level before its sample, six. Rounding of double arithmetic could move only the report near 1.0 across the mark, so at least five remain. | One success notification per glass, as the `isEmpty` guard intends. | medium, not executed | `Session.MountedCallbackRepeatsSuccess` | `Session.SuccessOncePerGlass` |

The rest of the model (`Session.BeerSession.Sample`) uses the live latch.

## Left out

- Layout, colours, style objects and window-size-dependent sizing are presentation only. This includes the glass rotation by `−0.5 × tiltX`, the fill height in percent, the foam band's rotation by `0.5 × surfaceTilt` and the foam blob's `top` and size styles.
- The animation dynamics are left out: `withSpring` integration, `withTiming` easing and duration, and `withRepeat`/`withSequence`/`withDelay` looping. Only the targets these calls receive are modelled. A fade envelope appears as its list of target legs, not as a value over time.
- `Session.BeerSession.Sample`: judges each report against the screen's current latch, the evidently intended behaviour. As written, the glass keeps the drink handler of the render in which it mounted; `Session.ReplayMounted` models that behaviour (see Findings).
- `Glass.Step`: the level is committed to the `withTiming` target at once. In the source, the level changes over 50 ms, so reads of `beerLevel.value` on a following sample may see an in-between value. The level handed to `onDrink` is likewise taken to be the committed target.
- Arithmetic is exact real arithmetic, not IEEE double. For example, ten sips from full end at exactly 98.2.
- Sensor subscription, `setUpdateInterval(50)`, teardown and the unused `z` axis are left out: they are device I/O. `Date.now()` is the parameter `now`. `Math.random()` draws are parameters.
- The glass is always modelled as having an `onDrink` handler, as the screen always passes one. The `if (onDrink)` guard is not modelled separately.
- `Haptics.*` and `runOnJS` are recorded as events, applied in order. The thread hop and the device call are not modelled.
- The horizontal jitter `Math.sin(index) * 3` is left out: it is transcendental and purely visual.
- `Visuals.Interpolate`: outside [0,100] it extends the end segments linearly. No property is claimed there.
- `Visuals.Bubbles`, `Visuals.FoamBlobs`: descriptors are drawn once per mounted glass. The source calls `Math.random()` in each component's render body, so it redraws size and position whenever the screen re-renders, for example when `showHint` or `isEmpty` changes. The delay and duration already handed to the running animations stay as they were.
- The hint timer (src/app/index.tsx:31-34), the message list and the `useResetBeer` stub are left out: they are a timer and presentation.
