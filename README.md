# Animation component system — a verified Dafny model

This project models the per-frame update of the legacy animation component
system of a WebGL engine: `AnimationComponentSystem.onUpdate` and its
`cloneComponent`. The source is `src/framework/components/animation/system.js`.

On every tick, each animation component whose own `enabled` flag and whose
entity's `enabled` flag are both set goes through the following steps, in order:

1. While a cross-fade is running (`blending`), the component advances its
   blend progress `blend` by `dt * blendSpeed`, capped at 1.
2. While `playing`, and with a skeleton and a model, the skeleton is driven:
   - while blending, it shows the pose interpolated between `fromSkel` and
     `toSkel`;
   - otherwise its time cursor moves by `dt * speed`, and a component that
     does not loop stops once the cursor sits on the bound it travels to.
   A blend that has just reached 1 hands the skeleton the target animation.
   The skeleton graph is then refreshed.
3. With a clip controller, every clip is forced to the component's speed.
   Each clip is paused exactly when the component is not playing. While
   blending, the second clip's weight takes the blend progress. The
   controller is then updated.
4. A blend that has reached 1 ends.

`cloneComponent` gives a clone the source component's settings:
- a copy of the assets list;
- speed, loop, activate and enabled;
- shallow copies of its two lookup tables.

The project has three modules:

- `AnimState` (anim_state.dfy) is the value model. It holds datatypes for a
  component, its skeleton, its clips and its controller. The function `Step`
  is one tick on one component. `Step` is built from one function per block
  of the update. Its contract states, clause by clause, what a tick does.
- `AnimationSystem` (anim_system.dfy) is the imperative model. It has the
  classes `Skeleton`, `Clip`, `AnimController` and `AnimationComponent`, whose
  fields are updated in place, plus the tick loop `Tick` over the component
  store and `CloneComponent`. Each component's update is proved to leave the
  component's `Snapshot()` equal to `Step` applied to its old snapshot. Each
  block of the update is a method proved against the matching phase function.
- `AnimProperties` (anim_properties.dfy) holds properties over many ticks
  (`Run` folds `Step` over a sequence of deltas) and the outcome of single
  ticks in concrete situations.

The skeleton's own `addTime`, `blend` and `updateGraph` belong to other files.
So does the controller's `update`. The model records each call in order. How
`addTime` moves the cursor is a parameter of type `AdvanceFn`: a function from
(cursor, duration, delta, the component's `loop` flag) to the new cursor, so a
looping skeleton can wrap around where a non-looping one stops at the end.

Two behaviours of the code are worth spelling out:

- A tick with `dt = 0` is not a no-op. It can still clear `playing`: the stop
  rule tests where the cursor is, not whether it moved, so a non-looping
  component whose cursor already sits on the end stops. A blending component
  whose blend progress is above 1 also has it capped down to 1; a component
  that is not blending keeps it. `ZeroDeltaTick` states both.
- A cross-fade that completes while the component is not playing ends
  (`blending` is cleared), but the hand-off to the target animation does not
  happen. `PausedBlendSkipsHandOff` states this.

## Model

| member | source | states |
|---|---|---|
| AnimState.AdvanceBlend | src/framework/components/animation/system.js:99-104 | the new blend progress is the minimum of the advanced progress and 1; it never exceeds 1, and it never decreases for a non-negative advance from a progress of at most 1 |
| AnimState.ShouldStop | src/framework/components/animation/system.js:117-121 | a stop happens only for a non-looping component with non-zero speed; moving forward it happens exactly when the cursor equals the duration, and moving backward exactly when the cursor is 0 |
| AnimState.SkeletonPhase | src/framework/components/animation/system.js:107-130 | the skeleton block touches only the skeleton and `playing`, and does nothing unless playing with a skeleton and a model. While blending, the cursor stays and the skeleton receives blend(from, to, blend) then updateGraph. Otherwise the cursor becomes addTime(dt * speed), the skeleton receives addTime then updateGraph, and `playing` is the negation of the stop rule. A blend at 1 hands over the target animation, and it does so before the refresh: the refresh records the skeleton's final pose, target animation included |
| AnimState.ForcedClips | src/framework/components/animation/system.js:137-145 | every clip takes the component's speed and is paused exactly when the component is not playing; each clip's weight is kept |
| AnimState.DriveController | src/framework/components/animation/system.js:137-152 | the controller follows the component: every clip has its speed, paused exactly when not playing, the second clip's weight equals the blend while blending and no other weight changes, and one update with `dt` is recorded |
| AnimState.ControllerPhase | src/framework/components/animation/system.js:133-153 | only the controller changes; a present controller follows the component with `playing` as the stop rule left it; a missing one stays missing |
| AnimState.BlendPhase | src/framework/components/animation/system.js:99-104 | only the blend progress changes; while blending it becomes the advanced progress capped at 1, otherwise the component is unchanged, even with a progress above 1 |
| AnimState.BlendEndPhase | src/framework/components/animation/system.js:156-158 | only `blending` changes; afterwards it holds exactly when it held before and the progress is not 1 |
| AnimState.Step | src/framework/components/animation/system.js:96-158 | an inactive component is unchanged. Otherwise only blend, playing, blending, the skeleton and the controller change. The blend is advanced and capped while blending, and the cursor moves exactly on the playing, non-blending skeleton path; every skeleton refresh records the final pose, so a hand-off precedes it. `playing` is never set, and it is cleared exactly when the stop rule fires after the cursor moved; a looping component never stops. The controller follows the new playing flag and blend. `blending` ends exactly when the blend reached 1 in an active tick and never starts. The two-clip demand of the blend-weight write is preserved |
| AnimationSystem.Skeleton.AddTime | src/framework/components/animation/system.js:115-116 | the cursor becomes what addTime gives for the delta and the component's loop flag, and the call is recorded; nothing else changes |
| AnimationSystem.Skeleton.Blend | src/framework/components/animation/system.js:111 | the blend call is recorded with the poses of the two source skeletons and the blend progress; the cursor and the animation do not change |
| AnimationSystem.Skeleton.UpdateGraph | src/framework/components/animation/system.js:128 | the refresh is recorded with the pose the skeleton shows at that moment; nothing else changes |
| AnimationSystem.Clip.Pause | src/framework/components/animation/system.js:141 | the clip is paused; its speed and weight do not change |
| AnimationSystem.Clip.Resume | src/framework/components/animation/system.js:143 | the clip is not paused; its speed and weight do not change |
| AnimationSystem.AnimController.Update | src/framework/components/animation/system.js:152 | one update with `dt` is appended to the controller's log |
| AnimationSystem.AnimController.Drive | src/framework/components/animation/system.js:137-152 | the controller's state afterwards is DriveController of its state before; the clip list keeps each clip once |
| AnimationSystem.ForceClipStates | src/framework/components/animation/system.js:137-145 | after the loop over the clips, the controller's clip states are ForcedClips of the old ones, and its update log is unchanged |
| AnimationSystem.AnimationComponent.UpdateBlend | src/framework/components/animation/system.js:99-104 | the record afterwards is the blend phase of the record before |
| AnimationSystem.AnimationComponent.UpdateSkeleton | src/framework/components/animation/system.js:107-130 | the record afterwards, with its skeleton, is SkeletonPhase of the record before |
| AnimationSystem.AnimationComponent.UpdateController | src/framework/components/animation/system.js:133-153 | the record afterwards, with its controller and clips, is ControllerPhase of the record before |
| AnimationSystem.AnimationComponent.ShowBlend | src/framework/components/animation/system.js:110-111 | while playing and blending, the record afterwards, with its skeleton, is SkeletonPhase of the record before: blended pose, hand-off at 1 (lines 124-126), refresh (line 128) |
| AnimationSystem.AnimationComponent.AdvanceSkeleton | src/framework/components/animation/system.js:112-122 | while playing and not blending, the record afterwards, with its skeleton, is SkeletonPhase of the record before: cursor moved by addTime, stop rule applied, refresh (line 128) |
| AnimationSystem.AnimationComponent.EndBlend | src/framework/components/animation/system.js:156-158 | the record afterwards is the blend-end phase of the record before |
| AnimationSystem.AnimationComponent.Update | src/framework/components/animation/system.js:94-159 | one component's update leaves its snapshot equal to Step of its old snapshot, and keeps its ownership invariant |
| AnimationSystem.UpdateAt | src/framework/components/animation/system.js:93-159 | updating one component of the store steps it and leaves every other component's snapshot unchanged; no component's owned objects, skeleton and controller references, assets array or lookup tables change |
| AnimationSystem.Tick | src/framework/components/animation/system.js:88-162 | after the loop over the store, every component is Step of its own old state, so its result depends on nothing but its own record; no component's owned objects, skeleton and controller references, assets array or lookup tables change, so the store can be ticked again |
| AnimationSystem.StoreReprCovers | src/framework/components/animation/system.js:89-93 | every component's objects lie in the set the tick over the store may change |
| AnimationSystem.CopyMap | src/framework/components/animation/system.js:65-71 | the copy has exactly the keys of the table and the same value under each key |
| AnimationSystem.CloneComponent | src/framework/components/animation/system.js:55-82 | the clone gets a fresh assets array with the same ids, the source's speed, loop, activate and enabled, and both lookup tables with the same keys and values |
| AnimProperties.Run | src/framework/components/animation/system.js:88-162 | over any number of ticks, the settings (enabled flags, speed, loop, blend speed) and the presence of skeleton and controller never change, and the two-clip demand keeps holding |
| AnimProperties.RunSplit | src/framework/components/animation/system.js:88-162 | ticking through a sequence of deltas equals ticking through a prefix and then the rest |
| AnimProperties.DisabledStaysUnchanged | src/framework/components/animation/system.js:96 | a component that is disabled, or on a disabled entity, stays exactly as it is over any number of ticks |
| AnimProperties.StopIsPermanent | src/framework/components/animation/system.js:117-121 | a stopped component stays stopped over any number of ticks |
| AnimProperties.LoopKeepsPlaying | src/framework/components/animation/system.js:117-121 | a looping component keeps its playing flag over any number of ticks |
| AnimProperties.BlendNeverRestarts | src/framework/components/animation/system.js:156-158 | once `blending` is false, it stays false and the blend progress stays put over any number of ticks |
| AnimProperties.BlendBounded | src/framework/components/animation/system.js:99-104 | with non-negative deltas and blend speed, the blend progress never falls below its start and never exceeds 1 over any number of ticks |
| AnimProperties.BlendMonotone | src/framework/components/animation/system.js:99-104 | along a run with non-negative deltas, the blend progress after any prefix is at most the final one |
| AnimProperties.PlayingPastEndStops | src/framework/components/animation/system.js:115-121 | on a skeleton that clamps its cursor when not looping and wraps it when looping, a tick moving forward past the end leaves the component playing exactly when it loops |
| AnimProperties.LoopDecidesCursor | src/framework/components/animation/system.js:115-121 | two components that differ only in `loop`, moving forward past the end, end on different cursors: the non-looping one on the end and stopped, the looping one wrapped around and still playing |
| AnimProperties.BlendHandOff | src/framework/components/animation/system.js:99-126 | blend 0.9 plus a 0.2 advance ends at exactly 1, ends the blend, and hands the skeleton the target animation; the last call on the skeleton is a refresh of the target animation at the unchanged cursor |
| AnimProperties.PausedBlendSkipsHandOff | src/framework/components/animation/system.js:107-158 | a blend that completes while not playing ends at 1, but the skeleton keeps its animation and receives no call |
| AnimProperties.ZeroDeltaTick | src/framework/components/animation/system.js:99-121 | a zero-length tick keeps the blend progress, except that an active blending component above 1 is capped to 1; it keeps a cursor that does not move for zero, but it still clears `playing` exactly when the stop rule already holds |
| AnimProperties.DriveIdempotent | src/framework/components/animation/system.js:137-152 | driving a controller a second time with the same inputs changes no clip, and only appends the update |

## Left out

- The skeleton's `addTime`, `blend` and `updateGraph`, and the controller's `update`, live in other files. They are recorded as calls. `addTime`'s effect on the cursor is the parameter `AdvanceFn`.
- The clip's `pause` and `resume` live in other files. They set the clip's `paused` flag and are assumed to change nothing else.
- AnimState.SkeletonPhase: the hand-off sets `skeleton.animation` through a setter defined elsewhere, modelled as a plain write of the reference. Any effect that setter has on the cursor or the graph is not captured, so the cursor is stated unchanged across a hand-off.
- `fromSkel` and `toSkel` are modelled as always present. The component creates them together with the skeleton.
- The skeleton's animation is modelled as never null. An animation's duration is read directly.
- AnimationSystem.AnimationComponent.Update: requires two clips on a blending component's controller. The source would throw on `clips[1]` otherwise, so the model states that demand as a precondition.
- AnimationSystem.Tick: one addTime function serves every skeleton in the store. It sees the cursor, the duration, the delta and the component's loop flag, so skeletons that advance differently for any other reason cannot share a tick in the model.
- AnimationSystem.AnimationComponent.Valid: the component's skeleton is a separate object from `fromSkel` and `toSkel`. The source does not forbid them being the same object; that aliasing is not modelled.
- AnimationSystem.Tick: requires components to own disjoint objects. Two components sharing a skeleton or a clip are not modelled.
- AnimationSystem.Tick: visits the store in sequence order. The order of `for (id in components)` is not modelled; the proof shows that no component's result depends on another's.
- AnimationSystem.AnimController.Drive: requires the controller to list each clip once. A controller listing the same clip twice, which the loop in the source accepts, is not modelled.
- Numbers are reals, not floating point. Rounding in `dt * speed`, `dt * blendSpeed` and the `===` tests is not modelled.
- AnimationSystem.CloneComponent: does not model `addComponent(clone, {})`, which creates the clone's component with default data. The clone is passed in already created.
- AnimationSystem.CloneComponent: does not model the change events the accessor-based writes fire.
- AnimationSystem.CloneComponent: does not model the JavaScript identity of the fresh table objects. The tables are values, and inherited keys do not exist in a Dafny map, so `hasOwnProperty` always holds.
- AnimationSystem.CloneComponent: copies the assets as an array of asset ids. Asset loading, which the assets setter triggers, is not modelled.
- Registration, the schema, `initializeComponentData` and `onBeforeRemove` set up and tear down the system and do not take part in the tick.
- The model is tracked as a flag `hasModel`, standing for `model !== null`.
- Negative `dt` is not excluded. The monotone-blend lemmas require non-negative deltas and blend speed.
