# Marquee loop and burger button — a Dafny model

This project models the two pieces of decision logic in a portfolio site's
front end.

1. **The infinite horizontal marquee** (`horizontalLoop` in
   `src/app/components/Marquee.tsx`). It takes each item's measured layout
   (offset, width, box width, scale, current transform). It captures every
   item's offset as a percentage of the item's width (`xPercents`), measures
   the strip (`totalWidth`), and schedules two tweens per item on one shared
   timeline: slide out to the wrap point, then re-enter from the far end. It
   also records a seek time per item (`times`). On top of the loop sit an
   index navigator (`toIndex`, `next`, `previous`, `current`) and the scroll
   handler that kicks and then settles the playback rate.
2. **The navbar's burger button** (`src/app/sections/Navbar.tsx`). Its state is
   (`isMenuOpen`, `showBurger`, `lastScrollY`). A scroll handler hides the
   button on scroll-down and shows it otherwise. The toggle flips the menu
   and plays or reverses the menu timelines. The button's style and aria
   label are derived from the state.

Modules, one per component:

- `Options`: optional configuration values (`??` defaults).
- `Snapping`: the `snap` configuration. It is a custom function, a grid
  increment, or the default grid of 1. A grid is `Math.round(v / inc) * inc`,
  with `Math.round` rounding halves up.
- `LoopGeometry`: item measurements, the offset capture, the strip width, and
  one item's track (`TrackOf`).
- `LoopBuilder`: the configuration, the loop-building method, and the
  timeline duration.
- `IndexSeek`: `gsap.utils.wrap` (with JavaScript's truncating `%`), the
  shorter-way-round rule, `toIndex`, `next`, `previous` and `current`. The
  timeline clock `tl.time()` is a parameter `now`. The navigator carries the
  timeline duration.
- `Velocity`: the scroll-delta rule for the time-scale kick and settle.
- `Marquee`: mounting the component (the empty-list guard and the
  configuration it passes), plus two worked scenarios.
- `Navbar`: the burger state machine, its derived style, and an invariant over
  all event sequences.

Measurements, the clock and the scroll position are inputs. Geometry is over
`real`. Item indices are over `int`. JavaScript numbers are doubles, and `/`
does not truncate, so `length / 2` in the shortest-way test is a real half.
Only `%` implies a truncated quotient, and `IndexSeek.JsRem` models it.

Points of the code that the model keeps as written:

- The strip width `totalWidth` runs from the first item's left edge to the
  last item's transformed, scaled right edge, plus the padding
  (Marquee.tsx:100-106). `TotalWidthOfAbuttingItems` proves this equals the
  sum of the item boxes plus the padding when the items abut.
- The code never checks for a zero width. It divides by the width at
  Marquee.tsx:91, 118 and 127, so the model requires positive widths.
- The empty-list guard is in the component (Marquee.tsx:179), not in
  `horizontalLoop`. The model puts it in `Marquee.Mount`.

`LoopGeometry.CurX`, `DistanceToStart` and `DistanceToLoop` are the
per-item quantities `curX`, `distanceToStart` and `distanceToLoop` of
Marquee.tsx:111-113. They are helpers of `TotalWidth` and `TrackOf` and
have no rows of their own; `LabelAtStripStart` and `UniformSpeed` state
what they mean.

## Model

| member | source | states |
|---|---|---|
| Snapping.GridSnap | src/app/components/Marquee.tsx:78-83 | a grid snap returns a whole multiple of the increment that lies within half an increment of the input |
| Snapping.SnapFunction | src/app/components/Marquee.tsx:78-83 | a function config is used as given; a numeric config snaps to that grid; anything else snaps to a grid of 1 |
| Snapping.GridSnapIdempotent | src/app/components/Marquee.tsx:78-83 | snapping an already snapped value leaves it unchanged |
| Snapping.BuiltInSnapIdempotent | src/app/components/Marquee.tsx:78-83 | every snap a config selects without a custom function is idempotent |
| LoopGeometry.Capture | src/app/components/Marquee.tsx:87-98 | one item's capture: its pixel x becomes 0 and its xPercent becomes snap(x / w * 100 + xPercent), with offset, width and scale unchanged; `CaptureKeepsPosition` shows that without snapping the item stays where it was |
| LoopGeometry.CaptureAll | src/app/components/Marquee.tsx:86-98 | one captured item per item; each has pixel x = 0, its width, offset and scale unchanged, and xPercent = snap(x / w * 100 + xPercent) |
| LoopGeometry.CaptureIdempotent | src/app/components/Marquee.tsx:86-98 | with an idempotent snap, capturing already captured items gives the same items: re-running the capture does not drift |
| LoopGeometry.CaptureKeepsPosition | src/app/components/Marquee.tsx:86-98 | without snapping, the captured percentage stands for the same pixel offset as the old pixel offset plus the old percentage |
| LoopGeometry.TotalWidth | src/app/components/Marquee.tsx:100-106 | the strip-width formula as written: from the first item's left edge to the last item's transformed, scaled right edge, plus the padding; its partner `TotalWidthOfAbuttingItems` (next row) shows it is the sum of the item boxes plus padding for abutting items |
| LoopGeometry.TotalWidthOfAbuttingItems | src/app/components/Marquee.tsx:100-106 | for items laid edge to edge, with the last untransformed and unscaled, the strip width is the sum of the item boxes plus the padding |
| LoopGeometry.TrackOf | src/app/components/Marquee.tsx:115-137 | the exit tween starts at time 0 from the item's current value; the re-entry tween has an explicit start value, starts exactly when the exit ends, and returns the item to its rest xPercent |
| LoopGeometry.CycleClosure | src/app/components/Marquee.tsx:115-137 | an item's two durations add up to totalWidth / pps, so its re-entry ends at totalWidth / pps, the same time for every item |
| LoopGeometry.UniformSpeed | src/app/components/Marquee.tsx:110-137 | without snapping, both tweens move the item left at exactly pps pixels per second, and between them the item jumps right by exactly totalWidth (a seamless wrap) |
| LoopGeometry.LabelAtStripStart | src/app/components/Marquee.tsx:111-140 | the label sits at distanceToStart / pps, which is when the item's left edge, moving at pps, reaches the strip start |
| LoopGeometry.DoubleSpeed | src/app/components/Marquee.tsx:115-140 | doubling the rate halves every start, duration and label time and leaves every xPercent target unchanged |
| LoopBuilder.PixelsPerSecond | src/app/components/Marquee.tsx:76 | the rate is positive; it is 100 pixels per second when speed is absent and 100 * speed otherwise |
| LoopBuilder.TimelineDuration | src/app/components/Marquee.tsx:115-137 | the timeline duration is non-negative, at least every tween's end, and equal to some tween's end (or 0) |
| LoopBuilder.ScheduleItems | src/app/components/Marquee.tsx:108-141 | the loop over the items produces exactly one track and one time per item, in item order; each time equals that item's label time |
| LoopBuilder.HorizontalLoop | src/app/components/Marquee.tsx:54-141 | the loop has one captured item, one track and one time per item; startX is the first item's offsetLeft; every item's x is 0; totalWidth uses the padding with default 0; each track is that item's TrackOf; each time equals its label |
| LoopBuilder.CycleDuration | src/app/components/Marquee.tsx:115-140 | when every item lies within one cycle, the timeline lasts exactly totalWidth / pps and every seek time lies in [0, duration] |
| IndexSeek.JsRem | src/app/components/Marquee.tsx:149 | JavaScript's remainder: dividend = truncated quotient * divisor + remainder, with the remainder taking the dividend's sign and smaller than the divisor |
| IndexSeek.Wrap | src/app/components/Marquee.tsx:149 | wrap(min, max, v) lies in [min, max) and equals min plus the Euclidean residue of v - min |
| IndexSeek.Start | src/app/components/Marquee.tsx:74 | a new navigator is at index 0, which is in range |
| IndexSeek.ShortestIndex | src/app/components/Marquee.tsx:145-147 | the adjusted index is congruent to the request; it is unchanged when the request is at most half a loop away; for requests up to 1.5 loops away it ends at most half a loop away |
| IndexSeek.ToIndex | src/app/components/Marquee.tsx:143-160 | the new index is in range and is the request mod length; the target is times[new] unless time order and index order disagree; then it is moved by +duration (forward) or -duration (backward), and a time-wrap modifier is installed exactly then |
| IndexSeek.SeekDirection | src/app/components/Marquee.tsx:150-155 | with the clock and all seek times inside one cycle, a forward seek targets a later time, a backward one a time not later, and never more than one duration away |
| IndexSeek.Next | src/app/components/Marquee.tsx:162 | next moves to (cur + 1) mod length |
| IndexSeek.Previous | src/app/components/Marquee.tsx:163 | previous moves to (cur - 1) mod length |
| IndexSeek.Current | src/app/components/Marquee.tsx:164 | current returns an index in [0, length) |
| IndexSeek.PreviousUndoesNext | src/app/components/Marquee.tsx:162-163 | previous after next returns to the starting index |
| IndexSeek.NextUndoesPrevious | src/app/components/Marquee.tsx:162-163 | next after previous returns to the starting index |
| IndexSeek.AdvanceWraps | src/app/components/Marquee.tsx:162 | k calls of next from cur land on (cur + k) mod length |
| Velocity.Factor | src/app/components/Marquee.tsx:189-192 | the factor is -2.5 exactly when scrolling up on a forward marquee or down on a reversed one, else +2.5 |
| Velocity.OnChangeY | src/app/components/Marquee.tsx:188-196 | the kick is ±6.25 over 0.2 s from time 0; the settle is ±1 with the same sign, starts 0.3 s after the kick ends and lasts 1 s; it is negative exactly in the factor's negative case |
| Velocity.DirectionSymmetry | src/app/components/Marquee.tsx:189-192 | flipping both the marquee direction and the scroll direction gives the same push |
| Marquee.Mount | src/app/components/Marquee.tsx:178-185 | on the first mount, nothing is built when the array of rendered item elements is empty; otherwise the loop is built over exactly those elements (captured with the default snap, starting at the first element's left edge) at 100 px/s with 30 px padding, and the navigator starts at 0 over the loop's times and duration |
| Marquee.FiveItemWidth | src/app/components/Marquee.tsx:100-106 | five abutting 200 px items with 30 px padding make a 1030 px strip |
| Marquee.FiveItemFirstExit | src/app/components/Marquee.tsx:112-119 | in that strip the first item's exit tween lasts 2 s at the default speed |
| Marquee.FiveItemsCaptured | src/app/components/Marquee.tsx:86-98 | with the default snap, capturing untransformed items changes nothing |
| Marquee.ScrollUpScenario | src/app/components/Marquee.tsx:188-196 | an upward scroll on a forward marquee kicks to -6.25 and then settles to -1 from 0.5 s |
| Navbar.Initial | src/app/sections/Navbar.tsx:20-94 | the menu starts closed with the burger shown (lines 20-21), and the scroll handler starts out remembering the scroll position at install (line 94); the timeline setup in between is left out |
| Navbar.HandleScroll | src/app/sections/Navbar.tsx:96-104 | with the menu open, nothing changes; with it closed, the burger is shown iff the new Y is not greater than the last Y, and the last Y becomes the new Y |
| Navbar.ToggleMenu | src/app/sections/Navbar.tsx:110-121 | the menu flag flips and showBurger is kept; the re-installed handler's last Y is reset to the current position; the timelines play when opening and reverse when closing |
| Navbar.ToggleTwice | src/app/sections/Navbar.tsx:110-121 | two toggles restore the state apart from the last Y, and the two timeline actions are opposite |
| Navbar.Style | src/app/sections/Navbar.tsx:195-199 | when the menu is open or showBurger is set, the style is opacity 1, pointer events auto and scale 1; otherwise opacity 0, pointer events none and scale 0.8 |
| Navbar.AriaLabel | src/app/sections/Navbar.tsx:200 | the label is "Close menu" iff the menu is open, else "Open menu" |
| Navbar.Step | src/app/sections/Navbar.tsx:192-199 | a pointer click does nothing while pointer events are none, and otherwise flips the menu |
| Navbar.RunKeepsInvariant | src/app/sections/Navbar.tsx:96-121 | over any sequence of scrolls and pointer clicks, "menu open implies showBurger" is preserved |
| Navbar.ClosingLeavesBurgerShown | src/app/sections/Navbar.tsx:110-121 | from the first render, closing an open menu with a click always leaves the burger fully visible and clickable |

## Left out

- GSAP's tween machinery is not modelled: interpolation, easing, `tweenTo`,
  the `modifiers` time wrap, `overwrite`, and the timeline clock. A seek is
  modelled as its target time plus whether the time-wrap modifier is
  installed. The clock reading `tl.time()` is a parameter.
- The `onReverseComplete` clock jump, the `repeat`, `paused` and `reversed`
  options, and the silent progress pass are not modelled
  (Marquee.tsx:58-67, 168-173). Their behaviour is inside the animation
  library.
- DOM measurement is not modelled; measurements are inputs. Widths must be
  positive and speed must be positive, because the source divides by both.
- Floating point is not modelled: geometry is over `real`. GSAP's
  decimal-precision clean-up inside a grid snap is floating point too.
- Marquee.Mount: only the first mount is modelled. The item ref callback
  (Marquee.tsx:212-214) ignores `null` and never shortens the element
  array. After the `items` prop shrinks on a later render, detached elements
  stay in the array, the guard does not fire, and the loop is rebuilt over
  them. The model takes the element array as its input and does not track
  it across renders.
- Snapping.ValidSnap: a negative grid increment, which the library's snap
  accepts, is not modelled. The component never passes a `snap` option, so
  only the default grid of 1 is used.
- Indices are integers; `toIndex` is not modelled with a fractional index.
- Observer registration, the cleanup functions (`tl.kill`,
  `removeEventListener`), and the hover and mouse listeners are event
  plumbing and are not modelled. The same goes for the navbar's initial
  `gsap.set` calls and timeline contents (Navbar.tsx:25-90).
- Navbar.ToggleMenu: the flip and the handler re-install are modelled as one
  step. Scroll events that the old handler receives before React re-runs
  the effect are not modelled.
- Navbar.Step: only pointer clicks are events. Keyboard activation of the
  hidden button (pointer-events none does not block it) is not modelled, so
  the invariant is stated for pointer input only.
- LoopBuilder.CycleDuration: the duration equals totalWidth / pps only for
  geometry where every item lies within one cycle. GSAP's treatment of
  negative tween durations is not modelled.
- IndexSeek.ShortestIndex: the shorter-way guarantee is stated for requests
  at most 1.5 loop lengths away. The source shifts by a single length, so
  farther requests are not brought within half a loop, and the model does
  the same.
- The other sections and components (hero, planet and silk scenes, about,
  contact, services, the animated header), the static content data, and
  the framework configuration are not modelled. They are layout, assets
  and wiring.
