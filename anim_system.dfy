/**
 * The animation component system as the engine runs it: component records,
 * skeletons and clips are objects updated in place, the tick is a loop over
 * the component store, and cloning copies a component's settings and lookup
 * maps key by key.
 *
 * Each component's update is proved against AnimState.Step: the record's
 * Snapshot after the update is Step applied to its Snapshot before.
 */
module AnimationSystem {
  import opened AnimState

  /**
   * A skeleton (pose evaluator). Its own addTime, blend and updateGraph are
   * not part of this model: each records its call, and addTime moves the
   * cursor as the given AdvanceFn says.
   */
  class Skeleton {
    var animation: Animation
    var time: real
    var calls: seq<SkeletonCall>

    constructor (animation: Animation)
      ensures this.animation == animation && time == 0.0 && calls == []
    {
      this.animation := animation;
      time := 0.0;
      calls := [];
    }

    function State(): SkeletonState
      reads this
    {
      SkeletonState(animation, time, calls)
    }

    method AddTime(delta: real, looping: bool, addTime: AdvanceFn)
      modifies this`time, this`calls
      ensures State() == old(State()).(time := AdvancedTime(addTime, old(State()), delta, looping),
                                       calls := old(calls) + [AddTimeCall(delta)])
    {
      time := AdvancedTime(addTime, State(), delta, looping);
      calls := calls + [AddTimeCall(delta)];
    }

    /** Shows the pose interpolated from `from` to `to` at `alpha`; the cursor does not move. */
    method Blend(from: Skeleton, to: Skeleton, alpha: real)
      modifies this`calls
      ensures State() == old(State()).(calls := old(calls) + [BlendCall(old(from.State().AsPose()), old(to.State().AsPose()), alpha)])
    {
      calls := calls + [BlendCall(from.State().AsPose(), to.State().AsPose(), alpha)];
    }

    /** Refreshes the graph from the pose the skeleton shows now. */
    method UpdateGraph()
      modifies this`calls
      ensures State() == old(State()).(calls := old(calls) + [UpdateGraphCall(old(State().AsPose()))])
    {
      calls := calls + [UpdateGraphCall(State().AsPose())];
    }
  }

  /** One clip of a clip controller. */
  class Clip {
    var speed: real
    var paused: bool
    var blendWeight: real

    constructor ()
      ensures speed == 1.0 && !paused && blendWeight == 1.0
    {
      speed := 1.0;
      paused := false;
      blendWeight := 1.0;
    }

    function State(): ClipState
      reads this
    {
      ClipState(speed, paused, blendWeight)
    }

    method Pause()
      modifies this`paused
      ensures State() == old(State()).(paused := true)
    {
      paused := true;
    }

    method Resume()
      modifies this`paused
      ensures State() == old(State()).(paused := false)
    {
      paused := false;
    }
  }

  /**
   * A clip controller. Its own update is not part of this model: it records
   * the delta it was given.
   */
  class AnimController {
    var clips: seq<Clip>
    var updates: seq<real>

    constructor (clips: seq<Clip>)
      ensures this.clips == clips && updates == []
    {
      this.clips := clips;
      updates := [];
    }

    /** The clip list holds each clip once. */
    ghost predicate Valid()
      reads this
    {
      forall i, j :: 0 <= i < j < |clips| ==> clips[i] != clips[j]
    }

    ghost function State(): ControllerState
      reads this, clips
    {
      ControllerState(ClipStates(clips), updates)
    }

    method Update(dt: real)
      modifies this`updates
      ensures updates == old(updates) + [dt]
    {
      updates := updates + [dt];
    }

    /**
     * Forces every clip to the component's speed and playing state, sets the
     * second clip's weight while blending, and updates the controller.
     */
    method Drive(speed: real, playing: bool, blending: bool, blend: real, dt: real)
      requires Valid()
      requires blending ==> |clips| >= 2
      modifies this`updates, clips
      ensures Valid() && clips == old(clips)
      ensures State() == DriveController(old(State()), speed, playing, blending, blend, dt)
    {
      ForceClipStates(this, speed, playing);
      ghost var forced := State();
      if blending {
        clips[1].blendWeight := blend;
        assert State() == forced.(clips := forced.clips[1 := forced.clips[1].(blendWeight := blend)]);
      }
      Update(dt);
    }
  }

  /** The states of the clips `cs`, in order. */
  ghost function ClipStates(cs: seq<Clip>): (r: seq<ClipState>)
    reads cs
    ensures |r| == |cs|
    ensures forall k :: 0 <= k < |cs| ==> r[k] == cs[k].State()
  {
    if cs == [] then [] else ClipStates(cs[..|cs| - 1]) + [cs[|cs| - 1].State()]
  }

  /**
   * The loop over the controller's clips: each clip takes the component's
   * speed, and is paused when the component is not playing, resumed when it is.
   */
  method ForceClipStates(ctrl: AnimController, speed: real, playing: bool)
    requires ctrl.Valid()
    modifies ctrl.clips
    ensures ctrl.State() == old(ctrl.State()).(clips := ForcedClips(old(ctrl.State()).clips, speed, playing))
  {
    var i := 0;
    while i < |ctrl.clips|
      invariant 0 <= i <= |ctrl.clips|
      invariant forall k :: 0 <= k < i ==>
        ctrl.clips[k].State() == ClipState(speed, !playing, old(ctrl.clips[k].blendWeight))
      invariant forall k :: i <= k < |ctrl.clips| ==> ctrl.clips[k].State() == old(ctrl.clips[k].State())
    {
      var clip := ctrl.clips[i];
      clip.speed := speed;
      if !playing {
        clip.Pause();
      } else {
        clip.Resume();
      }
      i := i + 1;
    }
  }

  /**
   * An animation component: its data record, merged with the component
   * fields that cloning copies and with the owning entity's enabled flag.
   * `hasModel` stands for `model !== null`.
   */
  class AnimationComponent {
    var enabled: bool
    var entityEnabled: bool
    var speed: real
    var loop: bool
    var activate: bool
    var playing: bool
    var blending: bool
    var blend: real
    var blendSpeed: real
    var skeleton: Skeleton?
    var hasModel: bool
    var fromSkel: Skeleton
    var toSkel: Skeleton
    var animController: AnimController?
    var assets: array<nat>
    var animations: map<string, Animation>
    var animationsIndex: map<string, string>
    /** The objects the tick may touch on behalf of this component. */
    ghost var Repr: set<object>

    /** A record that is neither playing nor blending, with no skeleton or controller. */
    constructor (fromSkel: Skeleton, toSkel: Skeleton)
      ensures Valid() && fresh(assets) && Repr == {this, fromSkel, toSkel}
      ensures this.fromSkel == fromSkel && this.toSkel == toSkel
      ensures skeleton == null && animController == null && !playing && !blending
    {
      enabled, entityEnabled := true, true;
      speed, loop, activate := 1.0, true, true;
      playing, blending, blend, blendSpeed := false, false, 0.0, 0.0;
      skeleton, hasModel := null, false;
      this.fromSkel, this.toSkel := fromSkel, toSkel;
      animController := null;
      assets := new nat[0];
      animations, animationsIndex := map[], map[];
      Repr := {this, fromSkel, toSkel};
    }

    ghost predicate Valid()
      reads this, Repr
    {
      && this in Repr && fromSkel in Repr && toSkel in Repr && assets !in Repr
      && (skeleton != null ==> skeleton in Repr && skeleton != fromSkel && skeleton != toSkel)
      && (animController != null ==>
            && animController in Repr
            && animController.Valid()
            && forall c :: c in animController.clips ==> c in Repr)
    }

    /** The record as a value. */
    ghost function Snapshot(): ComponentState
      requires Valid()
      reads this, Repr
    {
      ComponentState(
        enabled, entityEnabled, speed, loop, activate, playing, blending, blend, blendSpeed,
        if skeleton == null then None else Some(skeleton.State()),
        hasModel, fromSkel.State(), toSkel.State(),
        if animController == null then None else Some(animController.State()))
    }

    /** This component's share of one tick of the animation system. */
    method Update(dt: real, addTime: AdvanceFn)
      requires Valid() && ControllerReady(Snapshot())
      modifies this`blend, this`playing, this`blending, Repr - {this}
      ensures Valid()
      ensures Snapshot() == Step(old(Snapshot()), dt, addTime)
    {
      if enabled && entityEnabled {
        UpdateBlend(dt);
        UpdateSkeleton(dt, addTime);
        UpdateController(dt);
        EndBlend();
      }
    }

    /** A blending component advances its blend progress, capped at 1. */
    method UpdateBlend(dt: real)
      requires Valid()
      modifies this`blend
      ensures Valid()
      ensures Snapshot() == BlendPhase(old(Snapshot()), dt)
    {
      if blending {
        blend := blend + Scaled(dt, blendSpeed);
        if blend >= 1.0 {
          blend := 1.0;
        }
      }
    }

    /** The skeleton block of the tick. */
    method UpdateSkeleton(dt: real, addTime: AdvanceFn)
      requires Valid()
      modifies this`playing, skeleton
      ensures Valid()
      ensures Snapshot() == SkeletonPhase(old(Snapshot()), dt, addTime)
    {
      if playing {
        var skel := skeleton;
        if skel != null && hasModel {
          if blending {
            ShowBlend(skel, dt, addTime);
          } else {
            AdvanceSkeleton(skel, dt, addTime);
          }
        }
      }
    }

    /**
     * The skeleton block while blending: the skeleton shows the blended pose,
     * takes the target animation once the blend is at 1, and is refreshed.
     * The cursor does not move, so neither `dt` nor `addTime` is used.
     */
    method ShowBlend(skel: Skeleton, dt: real, addTime: AdvanceFn)
      requires Valid() && playing && blending && hasModel && skel == skeleton
      modifies skel
      ensures Valid()
      ensures Snapshot() == SkeletonPhase(old(Snapshot()), dt, addTime)
    {
      skel.Blend(fromSkel, toSkel, blend);
      if blend == 1.0 {
        skel.animation := toSkel.animation;
      }
      skel.UpdateGraph();
    }

    /**
     * The skeleton block while not blending: the cursor moves, the stop rule
     * may clear `playing`, and the skeleton is refreshed. The hand-off test
     * needs `blending`, so it cannot fire here.
     */
    method AdvanceSkeleton(skel: Skeleton, dt: real, addTime: AdvanceFn)
      requires Valid() && playing && !blending && hasModel && skel == skeleton
      modifies this`playing, skel
      ensures Valid()
      ensures Snapshot() == SkeletonPhase(old(Snapshot()), dt, addTime)
    {
      var delta := Scaled(dt, speed);
      skel.AddTime(delta, loop, addTime);
      if speed > 0.0 && skel.time == skel.animation.duration && !loop {
        playing := false;
      } else if speed < 0.0 && skel.time == 0.0 && !loop {
        playing := false;
      }
      skel.UpdateGraph();
    }

    /** A blend that has reached 1 ends. */
    method EndBlend()
      requires Valid()
      modifies this`blending
      ensures Valid()
      ensures Snapshot() == BlendEndPhase(old(Snapshot()))
    {
      if blending && blend == 1.0 {
        blending := false;
      }
    }

    /** The controller block of the tick. */
    method UpdateController(dt: real)
      requires Valid()
      requires var c := Snapshot(); c.blending && c.controller.Some? ==> |c.controller.value.clips| >= 2
      modifies animController, if animController != null then animController.clips else []
      ensures Valid()
      ensures Snapshot() == ControllerPhase(old(Snapshot()), dt)
    {
      var ctrl := animController;
      if ctrl != null {
        ctrl.Drive(speed, playing, blending, blend, dt);
      }
    }
  }

  /** All objects the components of `store` own. */
  ghost function StoreRepr(store: seq<AnimationComponent>): set<object>
    reads store
  {
    set i, o | 0 <= i < |store| && o in store[i].Repr :: o
  }

  /** Every component's objects are among the store's: what a caller of Tick needs for its frame. */
  lemma StoreReprCovers(store: seq<AnimationComponent>)
    ensures forall i :: 0 <= i < |store| ==> store[i].Repr <= StoreRepr(store)
  {
  }

  /**
   * One tick over the component store. Components own disjoint objects, and
   * each ends in the state Step gives from its own state alone.
   */
  method Tick(store: seq<AnimationComponent>, dt: real, addTime: AdvanceFn)
    requires forall i :: 0 <= i < |store| ==> store[i].Valid() && ControllerReady(store[i].Snapshot())
    requires forall i, j :: 0 <= i < |store| && 0 <= j < |store| && i != j ==> store[i].Repr !! store[j].Repr
    modifies StoreRepr(store)
    ensures forall i :: 0 <= i < |store| ==>
      store[i].Valid() && store[i].Snapshot() == Step(old(store[i].Snapshot()), dt, addTime)
    // the tick changes no ownership, no object reference and no lookup table
    ensures forall i :: 0 <= i < |store| ==>
      && store[i].Repr == old(store[i].Repr) && store[i].Valid()
      && store[i].skeleton == old(store[i].skeleton) && store[i].animController == old(store[i].animController)
      && store[i].assets == old(store[i].assets) && store[i].animations == old(store[i].animations)
      && store[i].animationsIndex == old(store[i].animationsIndex)
  {
    var n := 0;
    while n < |store|
      invariant 0 <= n <= |store|
      invariant forall i :: 0 <= i < |store| ==>
        && store[i].Repr == old(store[i].Repr) && store[i].Valid()
        && store[i].skeleton == old(store[i].skeleton) && store[i].animController == old(store[i].animController)
        && store[i].assets == old(store[i].assets) && store[i].animations == old(store[i].animations)
        && store[i].animationsIndex == old(store[i].animationsIndex)
      invariant forall i :: 0 <= i < n ==> store[i].Snapshot() == Step(old(store[i].Snapshot()), dt, addTime)
      invariant forall i :: n <= i < |store| ==> store[i].Snapshot() == old(store[i].Snapshot())
    {
      UpdateAt(store, n, dt, addTime);
      n := n + 1;
    }
  }

  /** Updates the component at index `n`; the other components are untouched. */
  method UpdateAt(store: seq<AnimationComponent>, n: nat, dt: real, addTime: AdvanceFn)
    requires n < |store|
    requires forall i :: 0 <= i < |store| ==> store[i].Valid()
    requires ControllerReady(store[n].Snapshot())
    requires forall i :: 0 <= i < |store| && i != n ==> store[i].Repr !! store[n].Repr
    modifies store[n].Repr
    ensures forall i :: 0 <= i < |store| ==>
      && store[i].Repr == old(store[i].Repr) && store[i].Valid()
      && store[i].skeleton == old(store[i].skeleton) && store[i].animController == old(store[i].animController)
      && store[i].assets == old(store[i].assets) && store[i].animations == old(store[i].animations)
      && store[i].animationsIndex == old(store[i].animationsIndex)
    ensures store[n].Snapshot() == Step(old(store[n].Snapshot()), dt, addTime)
    ensures forall i :: 0 <= i < |store| && i != n ==> store[i].Snapshot() == old(store[i].Snapshot())
  {
    store[n].Update(dt, addTime);
  }

  /** Copies a lookup table key by key: the copy holds exactly the same entries. */
  method CopyMap<V>(m: map<string, V>) returns (r: map<string, V>)
    ensures r.Keys == m.Keys
    ensures forall k :: k in r ==> r[k] == m[k]
  {
    r := map[];
    var todo := m.Keys;
    while todo != {}
      invariant todo <= m.Keys
      invariant r.Keys == m.Keys - todo
      invariant forall k :: k in r ==> r[k] == m[k]
      decreases |todo|
    {
      var k :| k in todo;
      r := r[k := m[k]];
      todo := todo - {k};
    }
  }

  /**
   * Gives `clone` the settings of `source`: a new assets array with the same
   * ids, the same speed, loop, activate and enabled flags, and shallow copies
   * of both lookup tables (same keys, same shared animations and names).
   */
  method CloneComponent(source: AnimationComponent, clone: AnimationComponent)
    modifies clone`assets, clone`speed, clone`loop, clone`activate, clone`enabled,
             clone`animations, clone`animationsIndex
    ensures fresh(clone.assets) && clone.assets[..] == old(source.assets[..])
    ensures clone.speed == old(source.speed) && clone.loop == old(source.loop)
    ensures clone.activate == old(source.activate) && clone.enabled == old(source.enabled)
    ensures clone.animations.Keys == old(source.animations.Keys)
    ensures forall k :: k in clone.animations ==> clone.animations[k] == old(source.animations[k])
    ensures clone.animationsIndex.Keys == old(source.animationsIndex.Keys)
    ensures forall k :: k in clone.animationsIndex ==> clone.animationsIndex[k] == old(source.animationsIndex[k])
  {
    var src := source.assets;
    clone.assets := new nat[src.Length](i requires 0 <= i < src.Length reads src => src[i]);
    clone.speed := source.speed;
    clone.loop := source.loop;
    clone.activate := source.activate;
    clone.enabled := source.enabled;

    var animations := source.animations;
    var animationsIndex := source.animationsIndex;
    clone.animations := CopyMap(animations);
    clone.animationsIndex := CopyMap(animationsIndex);
  }
}
