# Scroll between scenes: the scene-transition state machine

The sketch shows one of a pool of particle scenes and cross-fades to the next
one when the user scrolls. Apart from calls into the 3D rendering, tweening,
GUI and gesture libraries, the program's own logic is a small state machine
held in three fields of the `Sketch` object:

- `current`, the index of the scene shown (initially 0);
- `transitioning`, the re-entry guard (initially false);
- `config.progress`, the blend value the compositor receives (initially 0).

A wheel gesture that the intent filter classifies as intentional (a truthy
direction), arriving while no transition is running, sets the guard and
starts a tween of the blend value towards 1. Gestures without intent, and all
gestures while the guard is set, change nothing; the sign of the direction
never affects the state. When the tween completes, the guard is cleared, `current` becomes
`Math.abs(current + 1) % scenes.length` and the blend is reset to 0. Every
frame renders `scenes[current]` into `renderTargets[current]` and
`scenes[next]` into `renderTargets[next]`, with `next = (current + 1) %
scenes.length`, and hands both textures and the blend value to the compositor.

The model has three modules:

- `SceneIndex` (SceneIndex.dfy): the scene descriptions (three matcaps), the
  JavaScript `Math.abs` and remainder operator written out over `int`, the
  completion's index advance and the frame's next index.
- `Transition` (Transition.dfy): the state machine as values. `State`,
  the event kinds (`Wheel(dir)`, a blend write `Tween(value)` by the running
  tween, and `Done`, the completion callback), the step functions, runs over
  event sequences, and lemmas about single steps and whole runs.
- `Sketch` (Sketch.dfy): the `Sketch` class whose fields are updated in
  place by `Wheel`, `Tween` and `Complete`; each method is proved against the
  step functions of `Transition` and keeps the invariant `Valid()`. `Render`
  reads the fields and returns the frame's index plan. Two client methods run
  two scenarios on a fresh object: two gestures in one transition window
  followed by one completion, and three full transitions from the first
  scene.

The intent filter's verdict is a parameter `dir: int` of the wheel handler,
with 0 standing for its falsy "no intent" result. The tween is foreign: it is
represented by the guard being set, by blend writes of arbitrary values in
[0, 1] while it runs, and by its completion callback, which can arrive only
while it runs. The number of render targets is a ghost constant equal to the
scene count, as the pool builds one render target per scene
(src/main.ts:85-92), not a fixed pair.

## Model

| member | source | states |
|---|---|---|
| SceneIndex.Abs | src/main.ts:187 | `Math.abs` returns a non-negative value equal to its argument or its negation |
| SceneIndex.Rem | src/main.ts:198 | JavaScript's `%` with a positive divisor: the remainder has the dividend's sign and lies strictly within the divisor; for non-negative dividends it agrees with the Euclidean remainder; with `RemDifferenceIsMultiple`, the value is pinned for negative dividends too |
| SceneIndex.RemDifferenceIsMultiple | src/main.ts:198 | for every dividend, negative ones included, the dividend minus JavaScript's remainder is a multiple of the divisor |
| SceneIndex.AdvanceIndex | src/main.ts:187 | the completion's new index is always in [0, n) whatever `current` is, is `current + 1` below the last scene and wraps to 0 from the last scene |
| SceneIndex.NextIndex | src/main.ts:198 | the frame's next index is in [0, n) for every index the program can hold, equals the index `current` takes at the next completion, and differs from `current` when there are at least two scenes |
| SceneIndex.AdvanceStep | src/main.ts:187 | advancing an index reduced modulo n gives the successor modulo n |
| SceneIndex.ThreeScenesCycle | src/main.ts:16-26 | with the three scene descriptions, three advances return every index to itself |
| Transition.Valid | src/main.ts:44-50 | the invariant of the machine: the index is a scene, the blend lies in [0, 1] and is 0 while idle; it implies the frame's next index is a scene too, different from the current one when there are two or more scenes |
| Transition.OnWheel | src/main.ts:176-184 | the wheel handler never changes the index or the blend, and the guard is set afterwards exactly when it was set before or the direction is truthy (`Intentional`, the truthiness test of `dir`) |
| Transition.OnTween | src/main.ts:181-184 | a write of `config.progress` by the tween changes the blend to the value written and nothing else |
| Transition.OnDone | src/main.ts:185-189 | the completion callback clears the guard, sets the blend to exactly 0, and moves the index to the next scene, wrapping from the last scene to the first |
| Transition.Enabled | src/main.ts:181-189 | an assumption about the foreign tween, not a property of the program: gestures arrive at any time, while blend writes (of values in [0, 1]) and the completion arrive only while the guard is set |
| Transition.GestureIgnored | src/main.ts:177-178 | a gesture without intent, or one arriving while the guard is set, leaves index, guard and blend unchanged |
| Transition.GestureAccepted | src/main.ts:178-184 | an accepted gesture sets the guard and leaves the index and the blend unchanged |
| Transition.DirectionIgnored | src/main.ts:177-180 | any two intentional directions, whatever their signs, have the same effect |
| Transition.CompletionAdvances | src/main.ts:185-189 | completion clears the guard, sets the blend to exactly 0 and sets the index to `(current + 1) mod n`, the index the frame was blending towards |
| Transition.StepPreservesValid | src/main.ts:176-189 | every event that can arrive keeps the index in [0, n), the blend in [0, 1], and the blend at 0 whenever the guard is clear |
| Transition.RunPreservesValid | src/main.ts:176-189 | the same invariant holds after any feasible sequence of gestures, blend writes and completions |
| Transition.RunAdvancesByCompletions | src/main.ts:185-189 | after any sequence of events the index is the start index plus the number of completions, modulo n |
| Transition.OneTweenInFlight | src/main.ts:178-190 | along any feasible run, gestures start tweens only one at a time: tweens started plus one in flight at the start equals completions plus one in flight at the end |
| Transition.IndexCountsCompletions | src/main.ts:44-50 | from the initial state, the index after any sequence of events is the number of completions modulo n |
| Transition.DoubleGestureAdvancesOnce | src/main.ts:176-192 | two gestures in one transition window and one completion are feasible, start exactly one tween, advance the index by exactly one and leave the machine idle |
| Transition.ThreeTransitionsReturnToFirst | src/main.ts:16-26 | with three scenes, three gesture-and-completion rounds from the initial state return to the initial state |
| Sketch.Sketch.constructor | src/main.ts:44-50 | a new sketch is in the state `Transition.Initial`: it shows scene 0, is idle with blend 0, has one scene per description and one render target per scene |
| Sketch.Sketch.Valid | src/main.ts:81-92 | the object invariant: one render target per scene and a valid transition state, so `renderTargets[current]` and `renderTargets[next]` are in bounds |
| Sketch.Sketch.Wheel | src/main.ts:176-184 | the handler starts a tween exactly when the direction is truthy and the guard was clear; it never changes the index or the blend, and the new state is the wheel step of the old one |
| Sketch.Sketch.Tween | src/main.ts:181-184 | a blend write by the running tween changes only the blend and keeps the invariant |
| Sketch.Sketch.Complete | src/main.ts:185-189 | the completion callback clears the guard, resets the blend to 0 and moves the index to the frame's next index, keeping the invariant |
| Sketch.Sketch.Render | src/main.ts:198-212 | each frame renders two scenes, each into the render target of its own index, both in bounds; the compositor samples the current scene first and the next completion's scene second, receives the blend value, and receives exactly 0 while idle |
| Sketch.TwoGesturesOneTransition | src/main.ts:176-192 | on a fresh sketch, two gestures and one completion start exactly one tween and show the second scene |
| Sketch.ThreeTransitionsCycle | src/main.ts:16-26 | on a fresh sketch of the three scenes, three transitions return it to the first scene, idle |

## Left out

- Scene construction (fifty clones of a sphere at random directions on a shell), materials, texture loading, shader compilation and render-target allocation: calls into the rendering library with random and floating-point inputs; only the counts of scenes and render targets are kept.
- Window resizing, camera aspect ratio and pixel ratio: DOM sizes and floating-point camera parameters.
- The per-frame scene rotation and the `uTime` uniform: floating-point clock values; `Render` models only the indices and the blend value of a frame.
- The tween's easing curve and duration: `Tween` accepts any blend value in [0, 1] while a transition runs, so the model does not capture that the written values rise monotonically from 0 to 1.
- The intent filter's classification of wheel events: its verdict is an input `dir`, 0 for no intent.
- The GUI's inert "Animate" toggle, event-listener registration, the self-rescheduling of the frame loop and the console logging: host wiring and I/O.
- JavaScript numbers are modelled as unbounded integers for the index and as reals for the blend value; the index never exceeds the scene count, so no rounding arises for it.
