/**
 * Value model of one animation component and of one tick of
 * AnimationComponentSystem.onUpdate applied to it.
 *
 * The component's data record, its skeleton and its clip controller are
 * captured here as plain values. The function Step is the specification that
 * the imperative update in module AnimationSystem is proved against; its
 * contract states, one clause per rule, what a single tick does.
 */
module AnimState {

  datatype Option<T> = None | Some(value: T)

  /**
   * A shared, read-only animation clip. The tick only reads its duration and
   * compares references to it.
   */
  class Animation {
    const duration: real

    constructor (duration: real)
      ensures this.duration == duration
    {
      this.duration := duration;
    }
  }

  /**
   * The skeleton's own `addTime` is not part of this model. A value of this
   * type gives the time cursor a skeleton reports after `addTime(delta)`,
   * from its cursor `time`, on an animation of length `duration`, when it
   * follows a component whose `loop` flag is `looping` (a looping skeleton
   * wraps around where a non-looping one stops at the end).
   */
  type AdvanceFn = (real, real, real, bool) -> real

  /** The time cursor of skeleton `s` after `addTime(delta)`, for a component looping or not. */
  function AdvancedTime(addTime: AdvanceFn, s: SkeletonState, delta: real, looping: bool): real
  {
    addTime(s.time, s.animation.duration, delta, looping)
  }

  /** How far a quantity moving at `rate` per unit of time goes in `dt`. */
  function Scaled(dt: real, rate: real): real
  {
    dt * rate
  }

  /** What a skeleton displays: an animation at a time cursor. */
  datatype Pose = Pose(animation: Animation, time: real)

  /**
   * The calls the tick makes on a skeleton, in order. A graph refresh
   * records the pose the skeleton showed when it was refreshed.
   */
  datatype SkeletonCall =
    | AddTimeCall(delta: real)
    | BlendCall(from: Pose, to: Pose, alpha: real)
    | UpdateGraphCall(pose: Pose)

  /** A skeleton: its animation reference, its time cursor and the calls it received. */
  datatype SkeletonState = SkeletonState(animation: Animation, time: real, calls: seq<SkeletonCall>)
  {
    function AsPose(): Pose { Pose(animation, time) }
  }

  /** One clip of an animation controller. */
  datatype ClipState = ClipState(speed: real, paused: bool, blendWeight: real)

  /** A clip controller: its ordered clips and the deltas it was updated with. */
  datatype ControllerState = ControllerState(clips: seq<ClipState>, updates: seq<real>)

  /**
   * One animation component: the fields of its data record that the tick
   * reads or writes, and the owning entity's enabled flag, which the tick's
   * guard reads. `activate` is carried only because cloning copies it; the
   * tick neither reads nor writes it.
   * `hasModel` stands for `model !== null`.
   */
  datatype ComponentState = ComponentState(
    enabled: bool,
    entityEnabled: bool,
    speed: real,
    loop: bool,
    activate: bool,
    playing: bool,
    blending: bool,
    blend: real,
    blendSpeed: real,
    skeleton: Option<SkeletonState>,
    hasModel: bool,
    fromSkel: SkeletonState,
    toSkel: SkeletonState,
    controller: Option<ControllerState>)

  function Min(a: real, b: real): real
  {
    if a <= b then a else b
  }

  /** The component takes part in the tick: its own flag and its entity's are both set. */
  predicate Active(c: ComponentState)
  {
    c.enabled && c.entityEnabled
  }

  /** The skeleton block runs: playing, with a skeleton and a model. */
  predicate DrivesSkeleton(c: ComponentState)
  {
    c.playing && c.skeleton.Some? && c.hasModel
  }

  /** The skeleton block runs and, not blending, advances the time cursor. */
  predicate AdvancesTime(c: ComponentState)
  {
    DrivesSkeleton(c) && !c.blending
  }

  /**
   * While blending, the tick writes the blend weight of the controller's
   * second clip, so a blending component with a controller needs two clips.
   */
  predicate ControllerReady(c: ComponentState)
  {
    Active(c) && c.blending && c.controller.Some? ==> |c.controller.value.clips| >= 2
  }

  /** The blend progress after one tick of a blending component. */
  function AdvanceBlend(blend: real, dt: real, blendSpeed: real): (r: real)
    ensures r == Min(blend + Scaled(dt, blendSpeed), 1.0)
    ensures r <= 1.0
    ensures blend <= 1.0 && Scaled(dt, blendSpeed) >= 0.0 ==> blend <= r
  {
    var b := blend + Scaled(dt, blendSpeed);
    if b >= 1.0 then 1.0 else b
  }

  /**
   * The stop rule, read after the time cursor has moved: a component that
   * does not loop stops when the cursor sits on the bound it travels to.
   */
  function ShouldStop(speed: real, loop: bool, time: real, duration: real): (stop: bool)
    ensures stop ==> !loop
    ensures stop ==> speed != 0.0
    ensures speed > 0.0 ==> (stop <==> !loop && time == duration)
    ensures speed < 0.0 ==> (stop <==> !loop && time == 0.0)
  {
    if speed > 0.0 && time == duration && !loop then true
    else if speed < 0.0 && time == 0.0 && !loop then true
    else false
  }

  /**
   * A blending component advances its blend progress, capped at 1; a
   * component that is not blending keeps it, even above 1.
   */
  function BlendPhase(c: ComponentState, dt: real): (r: ComponentState)
    ensures r.(blend := c.blend) == c
    ensures c.blending ==> r.blend == Min(c.blend + Scaled(dt, c.blendSpeed), 1.0) && r.blend <= 1.0
    ensures !c.blending ==> r == c
  {
    if c.blending then c.(blend := AdvanceBlend(c.blend, dt, c.blendSpeed)) else c
  }

  /**
   * The skeleton block, run after the blend progress has advanced: while
   * blending the skeleton shows the interpolated pose, otherwise its cursor
   * moves and the stop rule may clear `playing`; a blend that has reached 1
   * hands the skeleton the target animation; the graph is refreshed.
   */
  function SkeletonPhase(c: ComponentState, dt: real, addTime: AdvanceFn): (r: ComponentState)
    ensures r.(skeleton := c.skeleton, playing := c.playing) == c
    ensures !DrivesSkeleton(c) ==> r == c
    ensures DrivesSkeleton(c) ==> var s := c.skeleton.value;
      && r.skeleton.Some?
      && (c.blending ==>
            && r.skeleton.value.time == s.time
            && r.skeleton.value.calls == s.calls + [BlendCall(c.fromSkel.AsPose(), c.toSkel.AsPose(), c.blend), UpdateGraphCall(r.skeleton.value.AsPose())]
            && r.playing)
      && (!c.blending ==>
            && r.skeleton.value.time == AdvancedTime(addTime, s, Scaled(dt, c.speed), c.loop)
            && r.skeleton.value.calls == s.calls + [AddTimeCall(Scaled(dt, c.speed)), UpdateGraphCall(r.skeleton.value.AsPose())]
            && r.playing == !ShouldStop(c.speed, c.loop, r.skeleton.value.time, s.animation.duration))
      && r.skeleton.value.animation == (if c.blending && c.blend == 1.0 then c.toSkel.animation else s.animation)
  {
    if !DrivesSkeleton(c) then c
    else
      var s := c.skeleton.value;
      var moved :=
        if c.blending then s.(calls := s.calls + [BlendCall(c.fromSkel.AsPose(), c.toSkel.AsPose(), c.blend)])
        else
          var delta := Scaled(dt, c.speed);
          s.(time := AdvancedTime(addTime, s, delta, c.loop), calls := s.calls + [AddTimeCall(delta)]);
      var playing := c.blending || !ShouldStop(c.speed, c.loop, moved.time, s.animation.duration);
      var handed := if c.blending && c.blend == 1.0 then moved.(animation := c.toSkel.animation) else moved;
      c.(skeleton := Some(handed.(calls := handed.calls + [UpdateGraphCall(handed.AsPose())])), playing := playing)
  }

  /** Every clip made to follow the component's speed and playing state. */
  function ForcedClips(clips: seq<ClipState>, speed: real, playing: bool): (r: seq<ClipState>)
    ensures |r| == |clips|
    ensures forall k :: 0 <= k < |r| ==>
      r[k] == ClipState(speed, !playing, clips[k].blendWeight)
  {
    seq(|clips|, k requires 0 <= k < |clips| => clips[k].(speed := speed, paused := !playing))
  }

  /**
   * What the tick guarantees of a controller, from `before` to `after`:
   * every clip runs at `speed`, is paused exactly when not `playing`, the
   * second clip carries the blend weight while blending and no other weight
   * moves, and the controller was updated once with `dt`.
   */
  predicate Follows(before: ControllerState, after: ControllerState,
                    speed: real, playing: bool, blending: bool, blend: real, dt: real)
  {
    && |after.clips| == |before.clips|
    && (forall k :: 0 <= k < |after.clips| ==>
          && after.clips[k].speed == speed
          && (after.clips[k].paused <==> !playing)
          && after.clips[k].blendWeight == (if blending && k == 1 then blend else before.clips[k].blendWeight))
    && after.updates == before.updates + [dt]
  }

  /** The controller block's effect on the controller. */
  function DriveController(ctrl: ControllerState, speed: real, playing: bool,
                           blending: bool, blend: real, dt: real): (r: ControllerState)
    requires blending ==> |ctrl.clips| >= 2
    ensures Follows(ctrl, r, speed, playing, blending, blend, dt)
  {
    var forced := ForcedClips(ctrl.clips, speed, playing);
    var weighted := if blending then forced[1 := forced[1].(blendWeight := blend)] else forced;
    ControllerState(weighted, ctrl.updates + [dt])
  }

  /**
   * The controller block, run whether or not the component is playing,
   * with `playing` as the stop rule left it.
   */
  function ControllerPhase(c: ComponentState, dt: real): (r: ComponentState)
    requires c.blending && c.controller.Some? ==> |c.controller.value.clips| >= 2
    ensures r.(controller := c.controller) == c
    ensures r.controller.Some? == c.controller.Some?
    ensures c.controller.Some? ==>
      Follows(c.controller.value, r.controller.value, c.speed, c.playing, c.blending, c.blend, dt)
  {
    if c.controller.None? then c
    else c.(controller := Some(DriveController(c.controller.value, c.speed, c.playing, c.blending, c.blend, dt)))
  }

  /** A blend that has reached 1 ends; nothing else changes and no blend starts. */
  function BlendEndPhase(c: ComponentState): (r: ComponentState)
    ensures r.(blending := c.blending) == c
    ensures r.blending <==> c.blending && c.blend != 1.0
  {
    if c.blending && c.blend == 1.0 then c.(blending := false) else c
  }

  /** One tick of AnimationComponentSystem.onUpdate on one component. */
  function Step(c: ComponentState, dt: real, addTime: AdvanceFn): (r: ComponentState)
    requires ControllerReady(c)
    // a disabled component, or one on a disabled entity, is left as it is
    ensures !Active(c) ==> r == c
    // only blend, playing, blending, the skeleton and the controller can change
    ensures r.(blend := c.blend, playing := c.playing, blending := c.blending,
               skeleton := c.skeleton, controller := c.controller) == c
    ensures ControllerReady(r)
    // blend: advanced and capped at 1 while blending, otherwise kept
    ensures Active(c) ==> r.blend == (if c.blending then Min(c.blend + Scaled(dt, c.blendSpeed), 1.0) else c.blend)
    ensures c.blend <= 1.0 ==> r.blend <= 1.0
    ensures c.blend <= 1.0 && Scaled(dt, c.blendSpeed) >= 0.0 ==> c.blend <= r.blend
    // skeleton: time moves by addTime(dt * speed) exactly when playing, not blending, with skeleton and model
    ensures r.skeleton.Some? == c.skeleton.Some?
    ensures Active(c) && AdvancesTime(c) ==>
      && r.skeleton.value.time == AdvancedTime(addTime, c.skeleton.value, Scaled(dt, c.speed), c.loop)
      && r.skeleton.value.calls == c.skeleton.value.calls + [AddTimeCall(Scaled(dt, c.speed)), UpdateGraphCall(r.skeleton.value.AsPose())]
    ensures Active(c) && DrivesSkeleton(c) && c.blending ==>
      && r.skeleton.value.time == c.skeleton.value.time
      && r.skeleton.value.calls == c.skeleton.value.calls + [BlendCall(c.fromSkel.AsPose(), c.toSkel.AsPose(), r.blend), UpdateGraphCall(r.skeleton.value.AsPose())]
    ensures !(Active(c) && DrivesSkeleton(c)) ==> r.skeleton == c.skeleton
    // handoff: a blend completed on the skeleton path hands the skeleton the target animation
    ensures r.skeleton.Some? ==>
      r.skeleton.value.animation ==
        (if Active(c) && DrivesSkeleton(c) && c.blending && r.blend == 1.0 then c.toSkel.animation
         else c.skeleton.value.animation)
    // playing: never switched on; switched off only by the stop rule after time advanced
    ensures r.playing ==> c.playing
    ensures c.playing && !r.playing <==>
      && Active(c) && AdvancesTime(c)
      && ShouldStop(c.speed, c.loop, r.skeleton.value.time, c.skeleton.value.animation.duration)
    ensures c.loop ==> r.playing == c.playing
    // controller: follows the component whether or not it is playing
    ensures r.controller.Some? == c.controller.Some?
    ensures Active(c) && c.controller.Some? ==>
      Follows(c.controller.value, r.controller.value, c.speed, r.playing, c.blending, r.blend, dt)
    ensures !Active(c) ==> r.controller == c.controller
    // blending: ends exactly when blend reached 1 in this tick, never starts
    ensures r.blending <==> c.blending && !(Active(c) && r.blend == 1.0)
  {
    if !Active(c) then c
    else BlendEndPhase(ControllerPhase(SkeletonPhase(BlendPhase(c, dt), dt, addTime), dt))
  }
}
