/**
  The paddle of the breakout game: its spawn transform and the per-frame
  movement rule. Left and Right move the paddle at a fixed speed when exactly
  one of them is held, and the paddle's centre is then clamped so that the
  whole paddle stays inside the window.
 */
module Paddle {
  import opened Transforms

  const WindowHeight: real := 640.0
  const WindowWidth: real := 380.0
  const PaddleSpeed: real := 190.0
  const PaddleWidth: real := 38.0

  /** Furthest the paddle's centre may be from the middle of the window:
      half the window minus half the paddle. */
  const Bounds: real := WindowWidth / 2.0 - PaddleWidth / 2.0

  /** The limits handed to the clamp are ordered, so the clamp never faults. */
  lemma BoundsWellFormed()
    ensures Bounds == 171.0
    ensures 0.0 <= Bounds && -Bounds <= Bounds
  {
  }

  /** The paddle's x lies inside the band the clamp enforces. */
  predicate InBounds(x: real) {
    -Bounds <= x <= Bounds
  }

  /** Clamping a float into [lo, hi]; f32::clamp panics when lo > hi. */
  function Clamp(v: real, lo: real, hi: real): (r: real)
    requires lo <= hi
    ensures lo <= r <= hi
    ensures lo <= v <= hi ==> r == v
    ensures v < lo ==> r == lo
    ensures hi < v ==> r == hi
  {
    if v < lo then lo else if v > hi then hi else v
  }

  /** The clamp returns the point of [lo, hi] closest to v: no point of the
      interval is nearer. */
  lemma ClampIsNearest(v: real, lo: real, hi: real, w: real)
    requires lo <= hi
    requires lo <= w <= hi
    ensures Dist(Clamp(v, lo, hi), v) <= Dist(w, v)
  {
  }

  /** Conversely, a point of [lo, hi] that is at least as close to v as the
      clamp is the clamp itself, so the nearest point is unique. */
  lemma NearestIsClamp(v: real, lo: real, hi: real, w: real)
    requires lo <= hi
    requires lo <= w <= hi
    requires Dist(w, v) <= Dist(Clamp(v, lo, hi), v)
    ensures w == Clamp(v, lo, hi)
  {
  }

  function Dist(a: real, b: real): real {
    if a < b then b - a else a - b
  }

  /** Clamping twice is clamping once. */
  lemma ClampIdempotent(v: real, lo: real, hi: real)
    requires lo <= hi
    ensures Clamp(Clamp(v, lo, hi), lo, hi) == Clamp(v, lo, hi)
  {
  }

  /** The new x of the paddle after one frame of `dt` seconds with the given
      keys held, following the branches of the movement system. */
  function MoveX(x: real, dt: real, left: bool, right: bool): (r: real)
    ensures InBounds(r)
    ensures InBounds(x) && left == right ==> r == x
  {
    var moved :=
      if left && !right then x - dt * PaddleSpeed
      else if right && !left then x + dt * PaddleSpeed
      else x;
    Clamp(moved, -Bounds, Bounds)
  }

  /** Net key direction, counting each held key on its own: Right is +1,
      Left is -1, so holding both sums to zero. */
  function Direction(left: bool, right: bool): (d: int)
    ensures -1 <= d <= 1
    ensures left && !right ==> d == -1
    ensures right && !left ==> d == 1
    ensures d == 0 <==> left == right
  {
    (if right then 1 else 0) - (if left then 1 else 0)
  }

  /** The movement rule is a clamped step along the net direction: an
      independent, branch-free reading of the same update. */
  lemma MoveXIsSignedStep(x: real, dt: real, left: bool, right: bool)
    ensures MoveX(x, dt, left, right)
         == Clamp(x + (Direction(left, right) as real) * PaddleSpeed * dt, -Bounds, Bounds)
  {
  }

  /** Opposite keys cancel and no key does nothing: the x is only clamped. */
  lemma NoNetInputOnlyClamps(x: real, dt: real, left: bool, right: bool)
    requires left == right
    ensures MoveX(x, dt, left, right) == Clamp(x, -Bounds, Bounds)
    ensures InBounds(x) <==> MoveX(x, dt, left, right) == x
  {
  }

  /** Left alone moves the paddle left by dt * speed, then clamps. */
  lemma LeftOnlyStep(x: real, dt: real)
    ensures MoveX(x, dt, true, false) == Clamp(x - dt * PaddleSpeed, -Bounds, Bounds)
  {
  }

  /** Right alone moves the paddle right by dt * speed, then clamps. */
  lemma RightOnlyStep(x: real, dt: real)
    ensures MoveX(x, dt, false, true) == Clamp(x + dt * PaddleSpeed, -Bounds, Bounds)
  {
  }

  /** Two frames without net input (each with both keys or neither held)
      end where the first one alone does. */
  lemma NoInputIdempotent(x: real, dt1: real, l1: bool, r1: bool, dt2: real, l2: bool, r2: bool)
    requires l1 == r1 && l2 == r2
    ensures MoveX(MoveX(x, dt1, l1, r1), dt2, l2, r2) == MoveX(x, dt1, l1, r1)
  {
  }

  /** With time running forward, Left never moves an in-bounds paddle right
      and Right never moves it left; each key moves it at most dt * speed,
      and stops exactly at the edge. */
  lemma Monotone(x: real, dt: real)
    requires 0.0 <= dt
    requires InBounds(x)
    ensures MoveX(x, dt, true, false) <= x
    ensures x <= MoveX(x, dt, false, true)
    ensures x - MoveX(x, dt, true, false) <= dt * PaddleSpeed
    ensures MoveX(x, dt, false, true) - x <= dt * PaddleSpeed
    ensures MoveX(x, dt, true, false) == -Bounds || MoveX(x, dt, true, false) == x - dt * PaddleSpeed
    ensures MoveX(x, dt, false, true) == Bounds || MoveX(x, dt, false, true) == x + dt * PaddleSpeed
  {
  }

  /** The window is symmetric: swapping the keys mirrors the update. */
  lemma MirrorSymmetry(x: real, dt: real, left: bool, right: bool)
    ensures MoveX(-x, dt, right, left) == -MoveX(x, dt, left, right)
  {
  }

  /** The movement system: when a paddle exists only its translation's x is
      rewritten; a missing paddle leaves the world unchanged. */
  function PlayerMovement(paddle: Option<Transform>, dt: real, left: bool, right: bool)
    : (r: Option<Transform>)
    ensures paddle.None? <==> r.None?
    ensures paddle.Some? ==>
      && InBounds(r.value.translation.x)
      && r.value.translation.x == MoveX(paddle.value.translation.x, dt, left, right)
      && r.value.translation.y == paddle.value.translation.y
      && r.value.translation.z == paddle.value.translation.z
      && r.value.scale == paddle.value.scale
  {
    match paddle
    case None => None
    case Some(t) =>
      Some(t.(translation := WithX(t.translation, MoveX(t.translation.x, dt, left, right))))
  }

  /** The transform the paddle is spawned with: centred horizontally, 25
      units above the bottom edge, drawn PaddleWidth wide. */
  function SetupPlayer(): (t: Transform)
    ensures InBounds(t.translation.x)
    ensures t.translation.y == -(WindowHeight / 2.0) + 25.0
    ensures t.scale.x == PaddleWidth
  {
    Transform(Vec3(0.0, -(WindowHeight / 2.0) + 25.0, 1.0), Vec3(PaddleWidth, 10.0, 10.0))
  }

  /** The spawned paddle sits at (0, -295, 1), inside the bounds, and a frame
      without net input leaves it there. */
  lemma SpawnAtRest(dt: real, left: bool, right: bool)
    requires left == right
    ensures SetupPlayer().translation == Vec3(0.0, -295.0, 1.0)
    ensures PlayerMovement(Some(SetupPlayer()), dt, left, right) == Some(SetupPlayer())
  {
  }
}
