/**
  The sketch object: the fields the wheel handler, the tween's completion
  callback and the frame loop share, updated in place.

  `current`, `transitioning` and `progress` are the object's fields; the
  scene count is `scenes.length`, fixed when the scene pool is built, and
  the number of render targets is kept as a ghost constant so that every
  index the frame uses can be shown to be in bounds. Each method is proved
  against the value-level machine of Transition.dfy.
 */
module Sketch {
  import opened SceneIndex
  import opened Transition

  /** One off-screen pass of a frame: render `scenes[scene]` into `renderTargets[target]`. */
  datatype Pass = Pass(scene: nat, target: nat)

  /**
    What a frame does with the transition state: the off-screen passes in
    order, the render targets whose textures the compositor samples as
    its first and second texture, and the blend value it is given.
   */
  datatype Frame = Frame(passes: seq<Pass>, texture1: nat, texture2: nat, blend: real)

  class Sketch {
    /** `scenes.length`: one scene per entry of the scene descriptions. */
    const sceneCount: nat
    /** `renderTargets.length`: one render target per scene. */
    ghost const renderTargetCount: nat

    var current: nat
    var transitioning: bool
    /** `config.progress`, the blend value the tween animates. */
    var progress: real

    /** The transition state held in the fields. */
    ghost function State(): Transition.State
      reads this
    {
      Transition.State(current, transitioning, progress)
    }

    /**
      The object invariant: one render target per scene and a valid
      transition state, so both indices a frame uses are in bounds.
     */
    ghost predicate Valid(): (b: bool)
      reads this
      ensures b ==> sceneCount > 0 && current < renderTargetCount && NextIndex(current, sceneCount) < renderTargetCount
    {
      && sceneCount > 0
      && renderTargetCount == sceneCount
      && Transition.Valid(State(), sceneCount)
    }

    /** Builds one scene and one render target per scene description; shows scene 0, idle. */
    constructor ()
      ensures Valid()
      ensures sceneCount == |ScenesData|
      ensures State() == Initial
    {
      sceneCount := |ScenesData|;
      renderTargetCount := |ScenesData|;
      current := 0;
      transitioning := false;
      progress := 0.0;
    }

    /**
      The wheel handler, given the intent filter's verdict `dir` (0 when it
      reports no intent). It starts a tween exactly when the verdict is
      truthy and no transition is running; otherwise nothing changes.
     */
    method Wheel(dir: int) returns (startsTween: bool)
      requires Valid()
      modifies this
      ensures Valid()
      ensures startsTween <==> Intentional(dir) && !old(transitioning)
      ensures State() == OnWheel(old(State()), dir)
      ensures current == old(current) && progress == old(progress)
      ensures transitioning == (old(transitioning) || startsTween)
    {
      startsTween := dir != 0 && !transitioning;
      if startsTween {
        transitioning := true;
      }
    }

    /** A blend value written by the running tween. */
    method Tween(value: real)
      requires Valid()
      requires transitioning && 0.0 <= value <= 1.0
      modifies this
      ensures Valid()
      ensures State() == OnTween(old(State()), value)
    {
      progress := value;
    }

    /**
      The tween's completion callback: the guard is cleared, the index moves
      to the scene the frame was blending towards, and the blend is reset
      to exactly 0.
     */
    method Complete()
      requires Valid()
      requires transitioning
      modifies this
      ensures Valid()
      ensures State() == OnDone(old(State()), sceneCount)
      ensures !transitioning && progress == 0.0
      ensures current == NextIndex(old(current), sceneCount)
    {
      transitioning := false;
      current := Rem(Abs(current + 1), sceneCount);
      progress := 0.0;
    }

    /**
      The index arithmetic of one frame. Each scene is rendered into the
      render target of the same index, both indices are in bounds, the
      compositor samples the current scene first and the scene of the next
      completion second, and while idle it is given a blend of exactly 0.
     */
    method Render() returns (f: Frame)
      requires Valid()
      ensures |f.passes| == 2
      ensures forall i :: 0 <= i < |f.passes| ==>
        f.passes[i].scene == f.passes[i].target && f.passes[i].target < renderTargetCount
      ensures f.passes[0].scene == current
      ensures f.passes[1].scene == AdvanceIndex(current, sceneCount)
      ensures sceneCount >= 2 ==> f.passes[0].scene != f.passes[1].scene
      ensures f.texture1 == f.passes[0].target && f.texture2 == f.passes[1].target
      ensures f.blend == progress
      ensures !transitioning ==> f.blend == 0.0
    {
      var next := Rem(current + 1, sceneCount);
      f := Frame([Pass(current, current), Pass(next, next)], current, next, progress);
    }
  }

  /**
    Two wheel gestures in one transition window and one completion, on a
    fresh sketch: only the first starts a tween, and the sketch ends idle
    on the second scene.
   */
  method TwoGesturesOneTransition() returns (started: nat, shown: nat)
    ensures started == 1
    ensures shown == 1
  {
    var sketch := new Sketch();
    var first := sketch.Wheel(1);
    var second := sketch.Wheel(-1);
    sketch.Complete();
    started := (if first then 1 else 0) + (if second then 1 else 0);
    shown := sketch.current;
  }

  /** Three full transitions on a fresh sketch of the three scenes return it to the first scene. */
  method ThreeTransitionsCycle() returns (shown: nat, idle: bool)
    ensures shown == 0 && idle
  {
    var sketch := new Sketch();
    var started := sketch.Wheel(1);
    sketch.Complete();
    started := sketch.Wheel(-1);
    sketch.Complete();
    started := sketch.Wheel(1);
    sketch.Complete();
    shown := sketch.current;
    idle := !sketch.transitioning;
  }
}
