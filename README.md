# Vector Frontier: the game session engine

Vector Frontier is a browser game that teaches vectors. A level gives a target
and the player places vectors; on submit the game checks whether their sum, under
the rules of the active module, hits the target within a tolerance. There are
four modules, played in career order:

- the abstract sandbox;
- drone delivery, where thrust plus wind must reach the first delivery target on
  limited battery;
- bridge statics, where support reactions plus loads must balance to zero within
  a budget;
- the robot arm, where forward kinematics must bring the end effector to a
  pick-up or placement target within joint limits.

This project models the engine behind that game:

- **The game store** (`src/store/gameStore.ts`): loading and advancing levels,
  switching modules behind the unlock gate, editing vectors and joint angles, the
  four submit evaluators with their near-miss rule, the attempt counter, the
  running best error, and the award of stars into the career progress.
- **The level registry** and its module-unlock rule (`src/lib/levels/index.ts`).
- **Tab / Shift-Tab cycling** of the selected vector (`src/hooks/useKeyboardControls.ts`).
- **The module filter bar** of the career dashboard: its selection toggle and its
  roving keyboard focus (`src/components/ui/ModuleFilterBar.tsx`).

The store keeps its whole state as one record. Every action replaces the record
with a copy in which some fields are overwritten, a `set({...})` merge. The class
`Session.GameSession` therefore has a single field `state` of the datatype
`SessionModel.SessionState`, and each action is a datatype update of it. Each
method is proved to produce exactly the state that a function of `SessionModel`
describes. The lemmas of `SessionModel` then prove what those state functions
promise. The invariant `ValidState` holds that:

- the legacy fields mirror the abstract module's progress;
- the career total is the sum over the four modules;
- each module's totals agree with its per-level stars;
- the module sub-state matches the loaded level;
- stored joint angles are within their limits;
- vector ids are below the id counter and distinct.

Modules:

| module | contents |
|---|---|
| `VectorMath` | vectors, sum, difference, magnitude through a square-root parameter |
| `Levels` | level data types, the catalogue, `getLevel`, the unlock rule |
| `Kinematics` | clamping, planar forward kinematics, joint-limit scan, wind noise |
| `Evaluation` | the success and near-miss rule, the best-error update |
| `Progress` | module and career progress, the star award of `unlockNextLevel` |
| `SessionModel` | the session record, its invariant, one state function per action, and their lemmas |
| `Session` | the store as a class with one method per action |
| `Selection` | `cycleSelection` |
| `ModuleFilter` | the filter toggle and focus navigation of the filter bar |
| `Remainders` | remainder facts for the wrap-around rules |
| `Wrappers` | `Option` |

## Model

| member | source | states |
|---|---|---|
| VectorMath.Accumulate | src/store/gameStore.ts:452-455 | the `forEach` sum of the vectors equals the recursive sum `SumVectors` |
| VectorMath.SumVectorsAppend | src/store/gameStore.ts:109-113 | summing a concatenation is adding the two partial sums, so the fold order does not matter |
| VectorMath.AddSubInverse | src/store/gameStore.ts:109-119 | `vectorSub` undoes `vectorAdd` and the zero vector is neutral |
| VectorMath.RootWithin | src/store/gameStore.ts:121 | for a true square root, a magnitude is within a bound exactly when the squared length is within the bound squared |
| Levels.GetLevel | src/lib/levels/index.ts:21-23 | a level is returned exactly for indices 0 ≤ i < count, and it is the i-th level of the module's list; any other index gives none |
| Levels.AbstractAlwaysUnlocked | src/lib/levels/index.ts:31-41 | the abstract module needs index 0, so it is unlocked for every non-negative progress |
| Levels.UnlockMonotone | src/lib/levels/index.ts:39-41 | more abstract progress never locks a module |
| Levels.UnlockChain | src/lib/levels/index.ts:31-36 | requirements 5, 10 and 15 are ordered, so robotics open implies bridge open, which implies drone open |
| Kinematics.Clamp | src/store/gameStore.ts:405 | the result lies within the limits, equals the angle when it already does, and is the nearer limit otherwise |
| Kinematics.ClampIdempotent | src/store/gameStore.ts:405 | clamping twice is clamping once |
| Kinematics.ForwardKinematics | src/store/gameStore.ts:410-417 | the cumulative-angle loop ends at the recursive end-effector position `EndEffector`, and z is 0 |
| Kinematics.ReachHeading | src/store/gameStore.ts:411-417 | after k segments the heading is the sum of the first k angles |
| Kinematics.ReachPrefixUnchanged | src/store/gameStore.ts:411-417 | the pose after k segments depends only on the first k angles |
| Kinematics.ScanJointLimits | src/store/gameStore.ts:638-646 | the scan with early exit reports a violation exactly when some joint's angle is outside its limits |
| Kinematics.ClampedWriteWithinLimits | src/store/gameStore.ts:404-408 | writing a clamped angle keeps every stored angle within its joint's limits |
| Kinematics.WithinLimitsNoViolation | src/store/gameStore.ts:638-646 | angles within limits never trip the joint-limit scan |
| Kinematics.CalmWindIsBase | src/store/gameStore.ts:362-378 | without variance the simulated wind is the base wind |
| Kinematics.TwoSegmentsStraight | src/store/gameStore.ts:410-417 | a straight two-segment arm of lengths 3 and 3 reaches (6, 0, 0) |
| Kinematics.TwoSegmentsQuarterTurn | src/store/gameStore.ts:410-417 | turning the first joint a quarter turn moves the reach to (0, 6, 0) |
| Evaluation.Classify | src/store/gameStore.ts:459-471 | success iff error ≤ tolerance with no module violation; a near miss is only a failure without violation, and then exactly when within 1.5 tolerances or at least 35% better than the best so far |
| Evaluation.ClassifyBySquares | src/store/gameStore.ts:457-471 | with true square roots the verdict equals one computed from squared lengths alone |
| Evaluation.ImprovementByRatio | src/store/gameStore.ts:463-465 | the 35% improvement ratio is the same as error ≤ 0.65 × best |
| Evaluation.BestAfter | src/store/gameStore.ts:473-475 | the new best is at most this error and at most the old best, and is one of the two |
| Evaluation.FirstAttemptNearMiss | src/store/gameStore.ts:463-466 | with no best yet, only the 1.5-tolerance margin can make a near miss |
| Evaluation.NearMissBoundaryExample | src/store/gameStore.ts:466 | with tolerance 0.5, error 0.74 is a near miss and 0.76 is not |
| Evaluation.ViolationIsPlainFailure | src/store/gameStore.ts:520-532 | a battery, budget or joint violation is a failure and never a near miss |
| Progress.InitialCareer | src/store/gameStore.ts:26-44 | the initial career has an empty record for each of the four modules and zero total stars |
| Progress.SumStars | src/store/gameStore.ts:315 | the reduce loop over the per-level stars computes their sum |
| Progress.SumValuesUpdate | src/store/gameStore.ts:309-315 | overwriting one level's stars changes the sum by exactly the difference |
| Progress.Award | src/store/gameStore.ts:307-321 | the module-progress update of `unlockNextLevel` computes `Awarded` |
| Progress.AwardedMonotone | src/store/gameStore.ts:307-321 | the unlock index never falls and passes the played level; the played level keeps the larger of its old and new stars; other levels are unchanged |
| Progress.AwardedTotals | src/store/gameStore.ts:307-321 | the recomputed star total grows by exactly the played level's improvement, and the level count grows by one only for a first completion |
| Progress.AwardedPerfect | src/store/gameStore.ts:318-321 | awards of at most three stars keep the perfect-level count equal to the number of 3-star levels |
| Progress.AwardedPerfectStale | src/store/gameStore.ts:318-321 | an award of 4 stars to a perfect level leaves the perfect count at 1 though no level has 3 stars |
| Progress.ReplaceEntryTotals | src/store/gameStore.ts:324-328 | the career total moves by the changed module's difference; other modules are untouched |
| SessionModel.UnlocksFor | src/store/gameStore.ts:183-195 | abstract is always open, and each other module is open exactly when the unlock rule says so |
| SessionModel.InitialValid | src/store/gameStore.ts:126-158 | the initial state satisfies the session invariant and its unlocks are current |
| SessionModel.InitialDrone | src/store/gameStore.ts:217-225 | a drone state exists exactly on a drone level in the drone module, with the base wind and a full battery |
| SessionModel.InitialBridge | src/store/gameStore.ts:226-237 | a bridge state exists exactly on a bridge level in the bridge module, with the level's loads, zero cost and no error yet |
| SessionModel.InitialRobotics | src/store/gameStore.ts:238-247 | a robotics state exists exactly on a robot level in the robotics module, with one zero angle per joint at sequence step 0 |
| SessionModel.InitialVectors | src/store/gameStore.ts:205-210 | one fresh vector per allowed vector, with consecutive new ids and the rest components |
| SessionModel.LoadedValid | src/store/gameStore.ts:198-262 | loading keeps the invariant; a missing level changes nothing; otherwise it installs the level with fresh vectors, full attempts, no best error and play on |
| SessionModel.AdvancedSteps | src/store/gameStore.ts:264-270 | `nextLevel` loads exactly the following level when there is one and does nothing on the last |
| SessionModel.ResetRepeatable | src/store/gameStore.ts:272-275 | resetting twice equals resetting once except for the new vector ids |
| SessionModel.SwitchedGate | src/store/gameStore.ts:163-180 | with current unlocks, a switch is accepted iff the target is abstract or unlocked by the rule; the result keeps the invariant with current unlocks; an accepted switch selects the module at level 0; a refused one changes nothing |
| SessionModel.SwitchedStaleGate | src/store/gameStore.ts:164-169 | the gate reads the unlocks from before the refresh: a first attempt on a module that should be open is refused, and a second attempt succeeds. Every modelled action either refreshes the unlocks or leaves both the unlocks and the career unchanged, so such stale unlocks arise only in a state restored from storage, which is not modelled |
| SessionModel.Patched | src/store/gameStore.ts:280-284 | patching keeps the length and every id |
| SessionModel.PatchedEffect | src/store/gameStore.ts:280-284 | only the vector with the id changes; id freshness is kept; the last patch wins; patching with its own components changes nothing |
| SessionModel.JointMovedEffect | src/store/gameStore.ts:396-426 | keeps the invariant; on a valid joint it stores the clamped angle and the end effector of the new angles; otherwise nothing changes |
| SessionModel.CreditedTable | src/store/gameStore.ts:307-321 | only the active module's record changes, to the awarded record, and every unlock index and per-level star count is non-decreasing |
| SessionModel.CreditedValid | src/store/gameStore.ts:302-348 | `unlockNextLevel` keeps the invariant and current unlocks; the career total is the module sum and does not fall; legacy fields change only in the abstract module |
| SessionModel.OutcomeVerdict | src/store/gameStore.ts:287-300 | every evaluator's result follows the success and near-miss rule, and its error is the magnitude of its error vector |
| SessionModel.RecordedFrame | src/store/gameStore.ts:473-483 | recording a result leaves the level, the vectors and the module states unchanged |
| SessionModel.RecordedEffect | src/store/gameStore.ts:473-483 | keeps the invariant and takes the minimum best error; a failure only spends an attempt, never below zero; a success credits 3 stars, wins and stops play |
| SessionModel.MeasuredValid | src/store/gameStore.ts:534-540 | writing the battery or the equilibrium error keeps the invariant and changes only the module state |
| SessionModel.AfterSubmitBookkeeping | src/store/gameStore.ts:287-300 | after any submit: the best error becomes the smaller of the old best and this error; a failure spends one attempt and leaves the career; a success wins and credits 3 stars; the level and vectors are kept |
| SessionModel.DroneSubmit | src/store/gameStore.ts:488-551 | the error is the first delivery target minus thrust plus wind; the battery flag compares the drain with the capacity; the remaining battery is stored |
| SessionModel.BridgeSubmit | src/store/gameStore.ts:553-616 | the error vector is supports plus loads; the budget flag compares cost with budget; the equilibrium error is stored |
| SessionModel.RoboticsSubmit | src/store/gameStore.ts:618-675 | the target is the pick-up point at step 0 and the placement point otherwise; in a valid session no joint violation is reported |
| SessionModel.OutcomeBySquares | src/store/gameStore.ts:457-471 | with true square roots, every evaluator's verdict is the squared-length verdict |
| SessionModel.AbstractSubmitExample | src/store/gameStore.ts:445-486 | target (5, 0, 0), tolerance 0.5 and one vector (5.2, 0, 0): the error vector is (-0.2, 0, 0), the error 0.2, and the submit succeeds without a near miss |
| SessionModel.DroneSubmitExample | src/store/gameStore.ts:515-540 | capacity 40, drain 6 and a thrust of length 8: the battery is depleted, the submit fails without a near miss, and -8 is stored as the remaining battery |
| SessionModel.BridgeSubmitExample | src/store/gameStore.ts:572-605 | one load (0, -10, 0) within budget and one support (0, 10, 0): the net force is zero, the equilibrium error 0 is stored, and the submit succeeds |
| SessionModel.WindBlownEffect | src/store/gameStore.ts:357-380 | keeps the invariant; without variance the wind is the base wind; without a drone state nothing changes |
| Session.GameSession.constructor | src/store/gameStore.ts:126-158 | the session starts in the initial state, valid and with current unlocks |
| Session.GameSession.CheckModuleUnlocks | src/store/gameStore.ts:183-195 | only the unlocks change, and they become current |
| Session.GameSession.SetActiveModule | src/store/gameStore.ts:163-180 | the new state is `Switched`; the invariant holds and the unlocks are current |
| Session.GameSession.LoadLevel | src/store/gameStore.ts:198-262 | the new state is `Loaded` and the invariant holds |
| Session.GameSession.NextLevel | src/store/gameStore.ts:264-270 | the new state is `Advanced` and the invariant holds |
| Session.GameSession.ResetLevel | src/store/gameStore.ts:272-275 | reloads the current level index |
| Session.GameSession.SelectVector | src/store/gameStore.ts:278 | only the selection changes |
| Session.GameSession.UpdateVector | src/store/gameStore.ts:280-284 | only the vectors change, to `Patched` |
| Session.GameSession.UpdateJointAngle | src/store/gameStore.ts:396-426 | the new state is `JointMoved`, computed with the forward-kinematics loop |
| Session.GameSession.UnlockNextLevel | src/store/gameStore.ts:302-348 | the new state is `Credited`; the invariant holds and the unlocks are current |
| Session.GameSession.RecordOutcome | src/store/gameStore.ts:473-483 | the new state is `Recorded` |
| Session.GameSession.SubmitAbstract | src/store/gameStore.ts:445-486 | returns the abstract result and records it |
| Session.GameSession.SubmitDrone | src/store/gameStore.ts:488-551 | returns `Outcome`, falling back to the abstract evaluator without a drone state, and leaves `AfterSubmit` |
| Session.GameSession.SubmitBridge | src/store/gameStore.ts:553-616 | returns `Outcome`, falling back to the abstract evaluator without a bridge state, and leaves `AfterSubmit` |
| Session.GameSession.SubmitRobotics | src/store/gameStore.ts:618-675 | returns `Outcome`, falling back to the abstract evaluator without a robotics state, and leaves `AfterSubmit` |
| Session.GameSession.Submit | src/store/gameStore.ts:287-300 | dispatches on the active module; returns `Outcome` and leaves `AfterSubmit` |
| Session.GameSession.SimulateWind | src/store/gameStore.ts:357-380 | the new state is `WindBlown` |
| Selection.IndexOf | src/hooks/useKeyboardControls.ts:50 | the first position holding the id, and -1 exactly when the id is absent |
| Selection.Cycle | src/hooks/useKeyboardControls.ts:45-59 | with no vectors the selection is kept; otherwise some vector's id is selected |
| Selection.CycleForward | src/hooks/useKeyboardControls.ts:56 | forward moves to the next vector and wraps from the last to the first; with no or an unknown selection it picks the first |
| Selection.CycleReverse | src/hooks/useKeyboardControls.ts:52-54 | reverse moves to the previous vector and wraps from the first to the last; with no or an unknown selection it picks the last |
| Selection.CycleRoundTrip | src/hooks/useKeyboardControls.ts:45-59 | with distinct ids, Tab then Shift-Tab, and Shift-Tab then Tab, return to the selected vector |
| Selection.CycleExample | src/hooks/useKeyboardControls.ts:45-59 | ids 4, 7, 9: from 7 Tab gives 9 and Shift-Tab gives 4; from 9 Tab wraps to 4; with nothing selected Shift-Tab gives 9 |
| ModuleFilter.Without | src/components/ui/ModuleFilterBar.tsx:28 | the filter keeps exactly the other modules, shortens a list holding the module, and keeps a list free of duplicates |
| ModuleFilter.ClickAll | src/components/ui/ModuleFilterBar.tsx:18-20 | every module is shown afterwards |
| ModuleFilter.ClickModule | src/components/ui/ModuleFilterBar.tsx:22-34 | a list result is never empty, and from "all" exactly the clicked module is selected |
| ModuleFilter.ClickModuleShown | src/components/ui/ModuleFilterBar.tsx:22-34 | a click toggles the module in the shown set, falls back to all when the last one is removed, and keeps the list duplicate-free and non-empty |
| ModuleFilter.ClickTwiceRestores | src/components/ui/ModuleFilterBar.tsx:22-34 | clicking the same module twice shows the same modules as before |
| ModuleFilter.AllThenModule | src/components/ui/ModuleFilterBar.tsx:18-34 | "all" then a module selects just that module |
| ModuleFilter.JsRem | src/components/ui/ModuleFilterBar.tsx:46-50 | JavaScript's truncating remainder: Euclidean for non-negative operands, bounded by the divisor, never positive for negative operands |
| ModuleFilter.FocusTarget | src/components/ui/ModuleFilterBar.tsx:36-59 | other keys focus nothing; the navigation keys always give an index inside the button list |
| ModuleFilter.FocusSteps | src/components/ui/ModuleFilterBar.tsx:44-58 | right/down goes to the next button and wraps; left/up goes to the previous and wraps; Home and End go to the ends |
| ModuleFilter.FocusRoundTrip | src/components/ui/ModuleFilterBar.tsx:44-51 | a step right then left, or left then right, returns to the same button |
| ModuleFilter.FocusFromOutside | src/components/ui/ModuleFilterBar.tsx:40-51 | with no button focused (index -1), right focuses the first button but left focuses the second-to-last, which is the fourth of the bar's five buttons |

## Left out

- Rendering, the 3D scenes, the UI components and the landing, menu and dashboard screens are presentation.
- `setScreen` only sets the current screen, which nothing in the model reads.
- Persistence to local storage (`src/store/gameStore.ts:428-439`) is I/O. A restored state can carry unlocks that lag behind the career progress; the effect on the module gate is shown by `SessionModel.SwitchedStaleGate`, but the restore itself is not modelled.
- `updateDroneState`, `updateBridgeState` and `updateRoboticsState` are generic setters that nothing in the source calls. So in the model the robotics sequence step and the bridge cost change only when a level loads, but the evaluators are stated for any module state.
- The per-frame callback in `src/hooks/useKeyboardControls.ts` and the key bindings that call `submitResult` are event wiring. Only `cycleSelection` is modelled.
- Vector ids come from a random generator and are strings. The model numbers them with a counter `nextId`, so ids are distinct naturals, and the edge where an empty-string id counts as no selection cannot occur.
- The colour, label, origin and lock flag of a vector are presentation. `VectorData` keeps the id and the components.
- Session.GameSession.UpdateVector: only the components patch is modelled. The source accepts any partial vector, so a patch could also overwrite the id and break id uniqueness; the only caller (`src/hooks/useKeyboardControls.ts:120`) patches the components alone.
- Numbers are exact reals rather than IEEE doubles. NaN, infinities other than the initial best error, rounding, and `toFixed` formatting are not modelled. An initial best error of `Infinity` is `None`. The improvement ratio with a best of 0 is treated as "not improved", which agrees with IEEE for non-negative errors.
- `Math.sqrt`, `Math.cos` and `Math.sin` are platform functions. They are function-valued parameters of the session. Results about verdicts by squared lengths assume a true square root.
- `Date.now()` in `simulateWind` becomes the `nowMs` parameter. The ignored frame delta is dropped.
- The literal level tables, the badge definitions and the theme data are data, not logic. The catalogue is a parameter of the session, required to be well formed: a non-empty abstract list, every level with a non-negative attempt limit and a non-negative tolerance, drone levels with at least one delivery target, and joint limits around 0.
- Bridge member placement and the robot's programmed sequence are never written by the store, so they are not modelled.
- `earnedBadges` is never written by the store. It is carried as an unchanged value inside `careerProgress`.
- ModuleFilter.FocusTarget: the focused DOM button is a parameter (its index, or -1 when none has focus), and moving DOM focus is left to the caller.
- Progress.AwardedPerfect: stated only for awards of at most three stars, because the store recounts perfect levels only on exactly three stars (see `Progress.AwardedPerfectStale`).
