# "No"-button avoidance, modelled in Dafny

The greeting page shows a yes/no question. Its "No" button runs away from
the pointer. When the pointer comes within 80 pixels of the button's
centre, the button jumps towards the half of the viewport opposite the
pointer, as far as a 25-pixel margin from every edge allows. A randomised
offset decides where it lands there. A debounce flag (`isAvoiding`) allows one relocation at a time, and
a cool-down clears it. When the pointer is within 130 pixels, a hover cue
appears.

This project models that logic from `ValentineApp` in `script.js` and
proves properties of it:

- `geometry.dfy` (module `Geometry`): points, rectangles, `Math.max`/`Math.min`,
  the clamp idiom `Math.max(lo, Math.min(hi, v))`, and squared distances.
  `Math.sqrt` is never modelled. Every comparison of a distance with a
  radius is a comparison of squares, and `BelowIffSquaredBelow` proves that
  the two give the same answer.
- `avoidance.dfy` (module `Avoidance`): the position arithmetic of
  `avoidNoButton` as a pure function, `Relocate`. Its inputs are the viewport
  size, the button size, the last pointer position and the two
  `Math.random()` draws `r1` and `r2`. It returns `Abort` or the new top-left
  corner. The lemmas prove that the result stays within the margins, lies towards
  the side opposite the pointer as far as the margins allow, nudges at most once in a fixed direction, and
  keeps the random offset within bounds. They also prove that the final clamp
  is redundant.
- `controller.dfy` (module `Controller`): the class `ValentineApp`. Its fields
  are `isAvoiding`, `lastMouseX` and `lastMouseY`, plus `hoverShown` (the hover
  text's `show` class) and `placement` (the position written into the
  button's style). `HandleMouseMove` and `AvoidNoButton` update these fields
  step by step, as the source does, and are proved against `Relocate`.
  `CoolDownElapsed` stands for the two cool-down timers.

The code's comments say the extra check should make sure the button ends up
far enough from the pointer (script.js:199, 202). It does not guarantee
this: it nudges only once and clamps again. The model follows the code, and
`Avoidance.NudgeMayLeaveButtonWithinRadius` gives a viewport where the
centre stays about 49.5 pixels from the pointer.

## Model

| member | source | states |
|---|---|---|
| Geometry.Max | script.js:181 | `Math.max`: the result is at least both arguments and is one of them |
| Geometry.Min | script.js:184 | `Math.min`: the result is at most both arguments and is one of them |
| Geometry.Clamp | script.js:196-197 | `Math.max(lo, Math.min(hi, v))` is at least `lo`, at most `hi` when `lo <= hi`, leaves a value in `[lo, hi]` unchanged, maps a value below `lo` to `lo` and one above `hi` to `hi`, and is `lo` whenever the interval is empty |
| Geometry.ClampIdempotent | script.js:212-213 | clamping an already clamped value changes nothing |
| Geometry.ClampMonotone | script.js:207-208 | clamping preserves order, so a larger coordinate is never clamped below a smaller one |
| Geometry.Centre | script.js:113-114 | the centre is inside the rectangle and halfway between its edges on each axis |
| Geometry.DistanceSquared | script.js:116-118 | the squared pointer distance is never negative |
| Geometry.CentreDistanceSquared | script.js:247-253 | the squared distance from the pointer to a rectangle's centre is never negative |
| Geometry.BelowIffSquaredBelow | script.js:116-131 | for the true Euclidean distance `d`, `d < bound` holds exactly when the squared distance is below `bound * bound`, so comparing squares decides what `Math.sqrt` would |
| Avoidance.Candidate | script.js:179-193 | before clamping, the candidate is at least `mid + gap` when the pointer is in the near half, and its far edge is at least `gap` short of the midline otherwise |
| Avoidance.NudgeOffset | script.js:204-205 | the extra step has the fixed size of the axis's nudge, and it is positive exactly when the pointer is in the left (top) half |
| Avoidance.Place | script.js:178-197 | on one axis, the clamped opposite-side candidate lies between the margin and `view - len - margin` |
| Avoidance.Nudge | script.js:204-208 | the nudged and re-clamped coordinate lies between the margin and `view - len - margin` |
| Avoidance.FirstPlacement | script.js:178-197 | the clamped candidate position keeps the whole button inside the margins |
| Avoidance.Settled | script.js:199-209 | the position after the optional nudge keeps the whole button inside the margins |
| Avoidance.Relocate | script.js:160-169 | relocation aborts exactly when `viewportWidth - btnWidth - margin <= margin` or `viewportHeight - btnHeight - margin <= margin` |
| Avoidance.FinalClampIsRedundant | script.js:211-213 | the final boundary check never changes the position computed before it |
| Avoidance.RelocateInBounds | script.js:195-213 | for every pointer position and every pair of draws, a relocation that does not abort gives `margin <= newX <= viewportWidth - btnWidth - margin` and the same vertically |
| Avoidance.PlaceOppositeSide | script.js:178-197 | on one axis, the clamped candidate is at least `min(max, mid + gap)` when the pointer is in the near half, and at most `max(margin, mid - len - gap)` otherwise |
| Avoidance.NudgeMovesAway | script.js:202-208 | the nudge never moves the button back towards the pointer's half |
| Avoidance.RelocateOppositeSide | script.js:178-209 | pointer in the left half gives `newX >= min(maxX, viewportWidth/2 + 50)`, otherwise `newX <= max(margin, viewportWidth/2 - btnWidth - 50)`, and the same vertically with 30 |
| Avoidance.NudgeAtMostOnce | script.js:199-209 | the result is the first placement, or, exactly when that placement's centre is within the radius, that placement moved once by +50/-50 and +30/-30 and clamped, the sign depending only on the pointer's half |
| Avoidance.RelocateSpreadBounded | script.js:179-193 | with draws in `[0, 1)`, the button lands less than 100 (80 vertically) from the far limit when the pointer is in the near half, and less than 100 (80) from the margin otherwise |
| Avoidance.NudgeMayLeaveButtonWithinRadius | script.js:199-209 | one nudge does not always escape: a 100 x 100 button in a 200 x 200 viewport fleeing a pointer at (90, 90) ends at (75, 75), its centre still within the radius |
| Controller.DecisionsMatchDistance | script.js:116-131 | with `d` the Euclidean distance, the hover cue shows exactly when `d < avoidanceRadius + 50`, and relocation starts exactly when `d < avoidanceRadius` and none is in flight |
| Controller.TriggerShowsHover | script.js:121-131 | every pointer move that starts a relocation also shows the hover cue |
| Controller.ValentineApp.constructor | script.js:17-20 | the application starts idle, with the pointer at (0, 0), no hover cue and the button where the layout put it |
| Controller.ValentineApp.HandleMouseMove | script.js:107-132 | a move always records its coordinates and sets the hover cue by distance; it relocates as `Relocate` says exactly when the pointer is within the radius and no relocation is in flight, and otherwise leaves the flag and the button alone; while the flag is up the button has a fixed position |
| Controller.ValentineApp.AvoidNoButton | script.js:146-221 | no effect while a relocation is in flight; otherwise it aborts with the flag lowered and the button unmoved, or raises the flag and places the button where `Relocate` says, inside the margins |
| Controller.ValentineApp.CoolDownElapsed | script.js:228-234 | after the cool-down the flag is lowered, so relocations are allowed again |

## Left out

- DOM access (`getElementById`, `getBoundingClientRect`, `window.innerWidth/innerHeight`, `style.*`, `classList`): the button's rectangle and the viewport size are parameters, and the written position is the field `placement`.
- `Math.random()`: the two draws are parameters `r1` and `r2` in `[0, 1)`.
- Floating point: every coordinate operation of the source (`viewportWidth / 2`, `maxX - Math.random() * 100`, `x + width / 2`, `Math.pow`, `Math.sqrt`) is double arithmetic; the model uses exact reals throughout and compares distances through their squares, so rounding, infinities and NaN are not modelled.
- Timers: the 500 ms and 800 ms cool-downs are the explicit method `CoolDownElapsed`, which may be called at any time. Each relocation schedules two clears, so the 800 ms clear of one relocation can lower the flag of a later relocation that started after its 500 ms clear; the model allows this but does not track which relocation a clear belongs to. The 300 ms reset of the `scale(1.05)` transform, the transform itself, `zIndex` and the `avoiding` class are dropped. They are presentation only.
- Audio (`playHoverSound`, `playYesSound`, `setupSoundEffects`): the hover cue is modelled as the `show` class only.
- Particle effects (`createFloatingHearts`, `createHeartExplosion`, `createCelebrationHearts`) and the `handleYesClick` section swap: element creation, timers and trigonometry, with no state the avoidance logic reads.
- `startTracking` and `updateNoButtonPosition`: dead code. `isTracking` and `minDistanceFromMouse` are never assigned, and `startTracking` is never called. The zero-distance guard lives there, so it is not modelled either.
- `isTooCloseToMouse` and `calculateDistanceFromElement`: never called.
- `setupNoButtonAvoidance` (tab index and `aria-hidden` attributes), the injected CSS and the `visibilitychange` handler: presentation only.
- Event wiring: touch moves use the first touch point and call the same handler as mouse moves, so `HandleMouseMove` covers both.
