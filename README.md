# Hook simulation of miner-cat

A Dafny model of the hook at the heart of the miner-cat arcade game
(`src/components/GameCanvas.tsx`). A pivoted arm swings over a field of
buried objects. The player's trigger sends it outward along its angle.
When the tip touches an object, that object leaves the field and rides the
arm back, and its value is banked when the arm is fully retracted.

The model has six modules:

- `GameTypes` (`game_types.dfy`): the `GameObject` record, its kinds and the game state.
- `Capture` (`capture.dfy`): the point-in-box test and the first-hit search.
  It also has the removal of exactly one index from the live list, with the
  multiset and total-value facts about that removal.
- `HookLogic` (`hook_logic.dfy`): the state machine as values. The hook state
  is angle, swing direction, phase, length and carried object. One animation
  tick (`Step`, built from `Swing`, `Extend` and `Retrieve`), the trigger
  (`Press`) and the round reset (`ResetRound`) are functions of it.
  `Tuning` holds the constants `HOOK_SPEED_EXTEND`, `HOOK_SPEED_RETRIEVE_BASE`,
  `ROTATION_SPEED`, `MIN_ANGLE`, `MAX_ANGLE`, the canvas size and the
  hard-coded rest length 30. `Shipped` holds the values from `constants.ts`.
- `HookSim` (`hook.dfy`): the component's mutable refs as a class `Hook` with
  `Reset`, `Trigger` and `Tick`. `Tick` runs the capture loop with `break`.
  Each method is proved equal to the function it implements.
- `Replay` (`replay.dfy`): runs of frames and presses. This module proves the
  properties that span many ticks: the invariant, the phase cycle,
  termination of the retrieval and conservation of value.
- `LevelEnd` (`level_end.dfy`): the rule "Playing with an empty field ends the
  level", and the finding below.

The tip position is an input to each tick, because the source computes it
with sine and cosine of the angle. Angles, lengths, speeds, coordinates,
sizes and weights are `real`: the source's doubles are modelled without
rounding. Object values, the score and the swing direction are `int`.

The model follows the code, including these behaviours a reader might not expect:

- At a swing bound the direction only flips; the angle is not clamped.
- The out-of-field test leaves out the top edge.
- A catch can happen on the same tick the tip leaves the field.
- The retrieval speed is `max(1, base / w)` with a zero weight read as 1.
  It is not `base / max(w, 1)`, so a weight in (0, 1) reels in faster than
  the base speed.

With the shipped constants, a round starts at angle 0, which is below
`MIN_ANGLE` = 0.2. The reset keeps the swing direction, so a round can start
with direction +1 or -1. Either way, each frame flips the direction back, so
the angle alternates between 0 and 0.03 or between 0 and -0.03, and the arm
never swings (`Replay.ShippedSwingStaysAtRest`). This follows from modelling
the unclamped flip faithfully.

The phase cycle covers frames and presses only. The round reset is outside
it: ending a round while EXTENDING or RETRIEVING and starting the next one
puts the hook straight back to IDLE.

## Model

| member | source | states |
|---|---|---|
| `Capture.FirstHit` | src/components/GameCanvas.tsx:203-216 | the capture scan's result: the first index in list order whose inclusive box (x ± width/2, y ± height/2) holds the tip, with no earlier box holding it; None exactly when no box holds it |
| `Capture.FirstHitIsUnique` | src/components/GameCanvas.tsx:203-214 | a box that holds the tip with no earlier box holding it is the one the scan stops at |
| `Capture.RemoveAt` | src/components/GameCanvas.tsx:213 | filtering out index i leaves one element fewer: every element before i stays in place and every element after i moves down one, in order |
| `Capture.RemoveAtMultiset` | src/components/GameCanvas.tsx:213 | the removal loses exactly the caught element and nothing else (as multisets) |
| `Capture.RemoveAtTotalValue` | src/components/GameCanvas.tsx:211-213 | the removal takes exactly the caught object's value out of the field's total |
| `HookLogic.Initial` | src/components/GameCanvas.tsx:59-63 | the hook starts at angle 0, direction +1, IDLE, at the rest length, carrying nothing, and satisfies the hook invariant |
| `HookLogic.RetrieveSpeed` | src/components/GameCanvas.tsx:218-222 | with an object on the hook the reeling speed is never below 1 |
| `HookLogic.RetrieveSpeedAtLeastOne` | src/components/GameCanvas.tsx:218-222 | with valid constants every retrieval tick shortens the arm by at least 1 |
| `HookLogic.RetrieveSpeedByWeight` | src/components/GameCanvas.tsx:218-222 | an empty hook reels at the base speed; a zero weight counts as 1; weight ≥ 1 gives a speed in [1, base]; weight in (0, 1) gives at least base; a negative weight gives 1 |
| `HookLogic.RetrieveSpeedMonotone` | src/components/GameCanvas.tsx:218-222 | for positive weights, a lighter object comes back at least as fast as a heavier one |
| `HookLogic.IdleTick` | src/components/GameCanvas.tsx:190-194 | an IDLE tick changes the angle by exactly rotation speed × direction and keeps the length. The direction flips iff the new angle is above MAX_ANGLE or below MIN_ANGLE, and the angle stays past the bound. The list and the score do not change |
| `HookLogic.ExtendTick` | src/components/GameCanvas.tsx:195-216 | an EXTENDING tick adds exactly the extend speed to the length. With no hit, the phase becomes RETRIEVING iff the tip is past the left, right or bottom edge; a tip above the top edge keeps EXTENDING. With a hit, the first hit object is carried and the phase is RETRIEVING, even past an edge. The list loses exactly that index, the rest in order |
| `HookLogic.RetrieveTick` | src/components/GameCanvas.tsx:217-232 | a RETRIEVING tick runs no collision test and leaves the list alone. It subtracts the retrieval speed from the length. At or below the rest length, the length is set to the rest length, the phase becomes IDLE, and a carried object's value is reported and the object dropped |
| `HookLogic.PausedTick` | src/components/GameCanvas.tsx:182 | outside Playing a frame changes nothing |
| `HookLogic.StepPreservesInv` | src/components/GameCanvas.tsx:190-233 | every tick keeps the invariant: length ≥ rest length, direction ±1, object carried only while RETRIEVING |
| `HookLogic.StepAdvances` | src/components/GameCanvas.tsx:190-233 | a tick keeps the phase or moves it to its successor in IDLE → EXTENDING → RETRIEVING → IDLE |
| `HookLogic.DeltaOnlyOnCompletion` | src/components/GameCanvas.tsx:224-231 | a tick reports a score delta iff it completes the retrieval of a carried object. The delta is that object's value, and the hook is empty afterwards |
| `HookLogic.StepConservesValue` | src/components/GameCanvas.tsx:203-231 | carried value + field value + reported delta is the same before and after every tick |
| `HookLogic.PressSpec` | src/components/GameCanvas.tsx:346-350 | the trigger moves IDLE to EXTENDING only while Playing and changes nothing otherwise. It keeps the invariant, and a second press changes nothing |
| `HookLogic.ResetSpec` | src/components/GameCanvas.tsx:81-88 | entering Playing sets length 30, angle 0, IDLE, nothing carried, keeps the swing direction and re-establishes the invariant |
| `HookSim.Hook.constructor` | src/components/GameCanvas.tsx:59-63 | the refs' initial values |
| `HookSim.Hook.Reset` | src/components/GameCanvas.tsx:81-88 | the fields afterwards are exactly the reset function of the old fields; the invariant is kept |
| `HookSim.Hook.Trigger` | src/components/GameCanvas.tsx:346-350 | the fields afterwards are exactly the trigger function of the old fields; the invariant is kept |
| `HookSim.Hook.Tick` | src/components/GameCanvas.tsx:182-233 | the new fields, the remaining list and the delta are exactly those of one tick of the old state, with the capture loop proved to find the first hit; the invariant is kept |
| `Replay.RunPreservesInv` | src/components/GameCanvas.tsx:182-233 | any run of frames and presses keeps the hook invariant |
| `Replay.PhasesFollowCycle` | src/components/GameCanvas.tsx:190-233 | over any run of frames and presses, consecutive phases follow IDLE → EXTENDING → RETRIEVING → IDLE, never skipping one |
| `Replay.RunConservesValue` | src/components/GameCanvas.tsx:203-231 | over any run, score + carried value + field value is constant: no value is created or lost |
| `Replay.IdleFramesOnlySwing` | src/components/GameCanvas.tsx:190-194 | without a press an IDLE hook stays IDLE at the same length; the list and score do not change |
| `Replay.RetrievalCompletes` | src/components/GameCanvas.tsx:217-232 | retrieval terminates: from RETRIEVING, any n ≥ 1 frames with n ≥ length − 30 end IDLE at the rest length, empty. The score has risen by exactly the carried value and the list is unchanged |
| `Replay.ShippedSwingStaysAtRest` | src/components/GameCanvas.tsx:190-194 | with the shipped constants, from the reset angle 0 with either direction, IDLE frames keep the angle within [-0.03, 0.03]: it alternates between 0 and 0.03 or between 0 and -0.03 |
| `Replay.ShippedCatchScenario` | src/components/GameCanvas.tsx:195-232 | shipped constants: a 40×40 object at (400, 500) worth 100 with weight 2 is caught with the tip at (400, 480) and comes back at speed 4. Once reeled in, the score is up by exactly 100 and the field is empty |
| `LevelEnd.RulesDifferOnlyWhileCarrying` | src/components/GameCanvas.tsx:91-95 | the rule as written and the corrected rule give different game states exactly when the game is Playing, the list is empty and the hook still carries an object; then the rule as written ends the level and the corrected one keeps Playing |
| `LevelEnd.LastCatchForfeited` | src/components/GameCanvas.tsx:91-95 | as written: catching the last object ends the level on that tick while the object is still carried. The score lacks its value, and later frames do not change it |
| `LevelEnd.PausedRun` | src/components/GameCanvas.tsx:182 | outside Playing no run of frames or presses changes anything |
| `LevelEnd.BankedBeforeLevelEnd` | src/components/GameCanvas.tsx:91-95 | under the corrected rule, when the level ends the score equals the starting score plus every value that was carried or in the field |
| `LevelEnd.CorrectedLevelEndReached` | src/components/GameCanvas.tsx:91-95 | under the corrected rule the level still ends after the last catch: enough frames bank its value and then end it |

## Findings

| source | as written | input that shows it | evidently intended | confidence | as-written member | corrected member |
|---|---|---|---|---|---|---|
| src/components/GameCanvas.tsx:91-95 | the level ends as soon as the object list is empty, which the capture at line 213 makes happen on the tick the last object is caught | one object left, the tip inside its box: the list becomes empty while the hook is RETRIEVING with the object, the level ends, and its value is never added to the score that is compared with the target | end the level only once nothing is carried, so the last value is banked first | medium (assumes the level-end effect commits before the retrieval finishes, which holds unless the arm is within a frame or two of rest); not executed | `LevelEnd.LastCatchForfeited` | `LevelEnd.BankedBeforeLevelEnd` |

## Left out

- Canvas drawing of the background, soil, tripod, miner, rope, pulley, claw and objects. It is presentation only.
- Image loading and the remote-asset fallback. These are browser I/O callbacks.
- Animation scheduling (`requestAnimationFrame`, `performance.now`) and the unused frame delta. This is host timing; a tick is one call of `Tick`.
- The tip geometry: sine and cosine of the angle, and the degree-to-radian conversion. This is floating-point trigonometry, so the tip is an input of `Tick`. The angle is also used as degrees there, while the angle bounds look like radians.
- Floating-point rounding: lengths, angles and coordinates are exact reals.
- Object values and the score are modelled as integers. The source's `number` could also hold fractional values, but every value it banks is added unchanged.
- `HookLogic.EffectiveWeight` reads only a zero weight as 1. The source's `weight || 1` also maps NaN and a missing weight to 1. Reals have no NaN, and the record always has a weight.
- React state-setter mechanics. The deferred list filter and the score setter are modelled as direct list and score updates. A stale object list between a capture and the next re-render is not modelled.
- The menu, level-end and game-over overlays and the GIF overlay. These are UI.
- Level generation. Its code is not part of this model (`src/App.tsx` only passes `generateLevel` through), and neither is the round timer.
- `src/constants.ts`, which the component imports, does not define the speed or angle constants. `Shipped` takes them from `constants.ts`.
- Replay fixes the game state for a whole run; changes of game state (start, next level, game over) are modelled only through `ResetRound` and the level-end rules.
