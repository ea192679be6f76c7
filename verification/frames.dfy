/**
  The frame loop: the engine runs the movement system once per frame, each
  time with that frame's elapsed seconds and key snapshot. These members
  show that the paddle bounds hold in every frame reachable from spawn.
 */
module Frames {
  import opened Transforms
  import opened Paddle

  /** What the engine hands the movement system in one frame. */
  datatype Frame = Frame(dt: real, left: bool, right: bool)

  /** The paddle after running the movement system on each frame in order. */
  function Run(paddle: Option<Transform>, frames: seq<Frame>): (r: Option<Transform>)
    ensures paddle.None? <==> r.None?
    ensures paddle.Some? && InBounds(paddle.value.translation.x) ==> InBounds(r.value.translation.x)
    ensures paddle.Some? && |frames| > 0 ==> InBounds(r.value.translation.x)
    ensures paddle.Some? ==>
      && r.value.translation.y == paddle.value.translation.y
      && r.value.translation.z == paddle.value.translation.z
      && r.value.scale == paddle.value.scale
    decreases |frames|
  {
    if |frames| == 0 then paddle
    else
      var last := frames[|frames| - 1];
      PlayerMovement(Run(paddle, frames[..|frames| - 1]), last.dt, last.left, last.right)
  }

  /** The paddle's state in every frame reachable from spawn. */
  function Reachable(frames: seq<Frame>): Option<Transform> {
    Run(Some(SetupPlayer()), frames)
  }

  /** Every reachable frame has a paddle inside the bounds, at the spawn
      height and size: the spawn is in bounds and Run keeps the bounds. */
  lemma ReachableInBounds(frames: seq<Frame>)
    ensures Reachable(frames).Some?
    ensures InBounds(Reachable(frames).value.translation.x)
    ensures Reachable(frames).value.translation.y == -295.0
    ensures Reachable(frames).value.scale == SetupPlayer().scale
  {
  }

  /** Frames without net input keep an in-bounds paddle exactly where it is,
      and a missing paddle missing. */
  lemma {:induction false} IdleFramesKeepPosition(paddle: Option<Transform>, frames: seq<Frame>)
    requires paddle.Some? ==> InBounds(paddle.value.translation.x)
    requires forall i :: 0 <= i < |frames| ==> frames[i].left == frames[i].right
    ensures Run(paddle, frames) == paddle
    decreases |frames|
  {
    if |frames| > 0 {
      IdleFramesKeepPosition(paddle, frames[..|frames| - 1]);
    }
  }

  /** Running a sequence of frames in two parts is running it at once. */
  lemma {:induction false} RunAppend(paddle: Option<Transform>, a: seq<Frame>, b: seq<Frame>)
    ensures Run(paddle, a + b) == Run(Run(paddle, a), b)
    decreases |b|
  {
    if |b| == 0 {
      assert a + b == a;
    } else {
      var n := |b| - 1;
      assert (a + b)[..|a + b| - 1] == a + b[..n];
      RunAppend(paddle, a, b[..n]);
    }
  }

  /** Runs the movement system over the frames one at a time, as the engine's
      loop does, and returns the final paddle. */
  method Simulate(paddle: Option<Transform>, frames: seq<Frame>) returns (r: Option<Transform>)
    ensures r == Run(paddle, frames)
    ensures paddle.Some? ==> r.Some? && r.value.translation.y == paddle.value.translation.y
    ensures paddle.Some? && |frames| > 0 ==> InBounds(r.value.translation.x)
  {
    r := paddle;
    var i := 0;
    while i < |frames|
      invariant 0 <= i <= |frames|
      invariant r == Run(paddle, frames[..i])
    {
      assert frames[..i + 1][..i] == frames[..i];
      r := PlayerMovement(r, frames[i].dt, frames[i].left, frames[i].right);
      i := i + 1;
    }
    assert frames[..|frames|] == frames;
  }
}
