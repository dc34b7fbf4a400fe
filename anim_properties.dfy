/**
 * Properties of the tick over many frames, and the behaviour of one tick in
 * a few concrete situations: reaching the end of a clip, completing a blend,
 * a blend completing while paused, and a tick of length zero.
 */
module AnimProperties {
  import opened AnimState

  /** The component after one tick per delta in `dts`, in order. */
  function Run(c: ComponentState, dts: seq<real>, addTime: AdvanceFn): (r: ComponentState)
    requires ControllerReady(c)
    ensures ControllerReady(r)
    // ticks never touch the component's settings or its flags' owners
    ensures r.enabled == c.enabled && r.entityEnabled == c.entityEnabled
    ensures r.speed == c.speed && r.loop == c.loop && r.blendSpeed == c.blendSpeed
    ensures r.skeleton.Some? == c.skeleton.Some? && r.controller.Some? == c.controller.Some?
    decreases |dts|
  {
    if dts == [] then c else Run(Step(c, dts[0], addTime), dts[1..], addTime)
  }

  /** Running `dts` is running a prefix of it and then the rest. */
  lemma {:induction false} RunSplit(c: ComponentState, dts: seq<real>, k: nat, addTime: AdvanceFn)
    requires ControllerReady(c) && k <= |dts|
    ensures Run(c, dts, addTime) == Run(Run(c, dts[..k], addTime), dts[k..], addTime)
    decreases k
  {
    if k > 0 {
      var next := Step(c, dts[0], addTime);
      RunSplit(next, dts[1..], k - 1, addTime);
      assert dts[1..][..k - 1] == dts[..k][1..];
      assert dts[1..][k - 1..] == dts[k..];
    }
  }

  /** A disabled component, or one on a disabled entity, never changes, however many ticks pass. */
  lemma {:induction false} DisabledStaysUnchanged(c: ComponentState, dts: seq<real>, addTime: AdvanceFn)
    requires ControllerReady(c) && !Active(c)
    ensures Run(c, dts, addTime) == c
    decreases |dts|
  {
    if dts != [] {
      DisabledStaysUnchanged(Step(c, dts[0], addTime), dts[1..], addTime);
    }
  }

  /** Once stopped, a component stays stopped: no tick sets `playing`. */
  lemma {:induction false} StopIsPermanent(c: ComponentState, dts: seq<real>, addTime: AdvanceFn)
    requires ControllerReady(c) && !c.playing
    ensures !Run(c, dts, addTime).playing
    decreases |dts|
  {
    if dts != [] {
      StopIsPermanent(Step(c, dts[0], addTime), dts[1..], addTime);
    }
  }

  /** A looping component keeps its `playing` flag over any number of ticks. */
  lemma {:induction false} LoopKeepsPlaying(c: ComponentState, dts: seq<real>, addTime: AdvanceFn)
    requires ControllerReady(c) && c.loop
    ensures Run(c, dts, addTime).playing == c.playing
    decreases |dts|
  {
    if dts != [] {
      LoopKeepsPlaying(Step(c, dts[0], addTime), dts[1..], addTime);
    }
  }

  /** A blend, once ended, never restarts: no tick sets `blending`. */
  lemma {:induction false} BlendNeverRestarts(c: ComponentState, dts: seq<real>, addTime: AdvanceFn)
    requires ControllerReady(c) && !c.blending
    ensures !Run(c, dts, addTime).blending && Run(c, dts, addTime).blend == c.blend
    decreases |dts|
  {
    if dts != [] {
      BlendNeverRestarts(Step(c, dts[0], addTime), dts[1..], addTime);
    }
  }

  /**
   * With non-negative deltas and blend speed, the blend progress never
   * decreases and, starting at most 1, never exceeds 1.
   */
  lemma {:induction false} BlendBounded(c: ComponentState, dts: seq<real>, addTime: AdvanceFn)
    requires ControllerReady(c) && c.blend <= 1.0 && c.blendSpeed >= 0.0
    requires forall i :: 0 <= i < |dts| ==> dts[i] >= 0.0
    ensures c.blend <= Run(c, dts, addTime).blend <= 1.0
    decreases |dts|
  {
    if dts != [] {
      assert Scaled(dts[0], c.blendSpeed) >= 0.0;
      BlendBounded(Step(c, dts[0], addTime), dts[1..], addTime);
    }
  }

  /** Along a run, the blend progress after `k` ticks is at most the final one. */
  lemma BlendMonotone(c: ComponentState, dts: seq<real>, k: nat, addTime: AdvanceFn)
    requires ControllerReady(c) && c.blend <= 1.0 && c.blendSpeed >= 0.0
    requires forall i :: 0 <= i < |dts| ==> dts[i] >= 0.0
    requires k <= |dts|
    ensures Run(c, dts[..k], addTime).blend <= Run(c, dts, addTime).blend
  {
    RunSplit(c, dts, k, addTime);
    var mid := Run(c, dts[..k], addTime);
    BlendBounded(c, dts[..k], addTime);
    BlendBounded(mid, dts[k..], addTime);
  }

  /**
   * A sample cursor rule for a non-looping skeleton, used by the scenarios
   * below: the cursor stays within [0, duration], the behaviour the stop
   * rule relies on.
   */
  function ClampedAddTime(time: real, duration: real, delta: real): (t: real)
    requires 0.0 <= duration
    ensures 0.0 <= t <= duration
    ensures 0.0 <= time + delta <= duration ==> t == time + delta
    ensures duration <= time + delta ==> t == duration
  {
    var moved := time + delta;
    if moved >= duration then duration else if moved <= 0.0 then 0.0 else moved
  }

  /**
   * A sample cursor rule for a looping skeleton, used by the scenarios
   * below: the cursor wraps around the ends of the animation, for a move of
   * at most one duration.
   */
  function WrappedAddTime(time: real, duration: real, delta: real): (t: real)
    requires 0.0 <= time <= duration && -duration <= delta <= duration
    ensures 0.0 <= t <= duration
    ensures duration < time + delta ==> t == time + delta - duration
  {
    var moved := time + delta;
    if moved > duration then moved - duration else if moved < 0.0 then moved + duration else moved
  }

  /** A sample AdvanceFn for the scenarios: wraps around when looping, clamps otherwise. */
  function ClampOrWrap(time: real, duration: real, delta: real, looping: bool): real
  {
    if duration < 0.0 then time + delta
    else if looping && 0.0 <= time <= duration && -duration <= delta <= duration then WrappedAddTime(time, duration, delta)
    else ClampedAddTime(time, duration, delta)
  }

  /**
   * Playing forward past the end of the animation: a component that does
   * not loop stops, a looping one keeps playing.
   */
  lemma PlayingPastEndStops(c: ComponentState, dt: real)
    requires ControllerReady(c) && Active(c) && AdvancesTime(c)
    requires c.speed > 0.0 && 0.0 <= c.skeleton.value.animation.duration
    requires c.skeleton.value.time + Scaled(dt, c.speed) >= c.skeleton.value.animation.duration
    ensures Step(c, dt, ClampOrWrap).playing == c.loop
  {
    if !c.loop {
      var s := c.skeleton.value;
      assert AdvancedTime(ClampOrWrap, s, Scaled(dt, c.speed), false) == s.animation.duration;
    }
  }

  /**
   * The loop flag reaches the skeleton: two components that differ only in
   * `loop`, moving forward past the end within one duration, end on
   * different cursors, the non-looping one on the end, the looping one
   * wrapped around past the start.
   */
  lemma LoopDecidesCursor(c: ComponentState, dt: real)
    requires ControllerReady(c) && Active(c) && AdvancesTime(c) && !c.loop && c.speed > 0.0
    requires var s := c.skeleton.value;
      && 0.0 <= s.time <= s.animation.duration
      && 0.0 <= Scaled(dt, c.speed) <= s.animation.duration
      && s.animation.duration < s.time + Scaled(dt, c.speed)
    ensures var s := c.skeleton.value;
      && Step(c, dt, ClampOrWrap).skeleton.value.time == s.animation.duration
      && Step(c.(loop := true), dt, ClampOrWrap).skeleton.value.time == s.time + Scaled(dt, c.speed) - s.animation.duration
      && !Step(c, dt, ClampOrWrap).playing && Step(c.(loop := true), dt, ClampOrWrap).playing
  {
    var s := c.skeleton.value;
    var delta := Scaled(dt, c.speed);
    assert AdvancedTime(ClampOrWrap, s, delta, false) == s.animation.duration;
    assert AdvancedTime(ClampOrWrap, s, delta, true) == s.time + delta - s.animation.duration;
    var looping := c.(loop := true);
    assert ControllerReady(looping) && Active(looping) && AdvancesTime(looping);
  }

  /**
   * The hand-off from blend 0.9: a tick worth 0.2 of blend ends at 1 (not
   * 1.1), ends the blend and hands the skeleton the target animation before
   * its graph is refreshed, so the refresh sees the target animation.
   */
  lemma BlendHandOff(c: ComponentState, dt: real, addTime: AdvanceFn)
    requires ControllerReady(c) && Active(c) && DrivesSkeleton(c) && c.blending
    requires c.blend == 0.9 && Scaled(dt, c.blendSpeed) == 0.2
    ensures var r := Step(c, dt, addTime);
      && r.blend == 1.0 && !r.blending && r.skeleton.value.animation == c.toSkel.animation
      && r.skeleton.value.calls[|r.skeleton.value.calls| - 1] ==
           UpdateGraphCall(Pose(c.toSkel.animation, c.skeleton.value.time))
  {
  }

  /**
   * A blend that completes while the component is not playing ends without
   * the hand-off: the skeleton keeps its animation and receives no call.
   */
  lemma PausedBlendSkipsHandOff(c: ComponentState, dt: real, addTime: AdvanceFn)
    requires ControllerReady(c) && Active(c) && !c.playing && c.blending
    requires c.blend + Scaled(dt, c.blendSpeed) >= 1.0
    ensures var r := Step(c, dt, addTime);
      r.blend == 1.0 && !r.blending && r.skeleton == c.skeleton
  {
  }

  /**
   * A tick of length zero keeps the blend progress, except that an active,
   * blending component with a progress above 1 has it capped to 1; on a
   * skeleton that does not move for a zero delta it keeps the time cursor.
   * It can still clear `playing`: the stop rule reads the cursor, not the
   * delta.
   */
  lemma ZeroDeltaTick(c: ComponentState, addTime: AdvanceFn)
    requires ControllerReady(c)
    requires c.skeleton.Some? ==> AdvancedTime(addTime, c.skeleton.value, 0.0, c.loop) == c.skeleton.value.time
    ensures var r := Step(c, 0.0, addTime);
      && r.blend == (if Active(c) && c.blending && c.blend > 1.0 then 1.0 else c.blend)
      && (r.skeleton.Some? ==> r.skeleton.value.time == c.skeleton.value.time)
      && (c.playing && !r.playing <==>
            Active(c) && AdvancesTime(c) &&
            ShouldStop(c.speed, c.loop, c.skeleton.value.time, c.skeleton.value.animation.duration))
  {
  }

  /**
   * Forcing the clips is idempotent: driving an already driven controller
   * again with the same inputs leaves every clip as it was; only the update
   * log grows.
   */
  lemma DriveIdempotent(ctrl: ControllerState, speed: real, playing: bool,
                        blending: bool, blend: real, dt: real)
    requires blending ==> |ctrl.clips| >= 2
    ensures var once := DriveController(ctrl, speed, playing, blending, blend, dt);
      var twice := DriveController(once, speed, playing, blending, blend, dt);
      twice.clips == once.clips && twice.updates == once.updates + [dt]
  {
  }
}
