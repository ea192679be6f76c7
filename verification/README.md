# Breakout paddle model

A Dafny model of the playable core of the `breakout` game (a Bevy app in
Rust). In src/main.rs, the game spawns one paddle sprite and moves it
every frame from the Left and Right arrow keys. The model covers:

- the window and paddle constants (`WINDOW_HEIGHT` 640, `WINDOW_WIDTH` 380,
  `PADDLE_SPEED` 190 units/s, `PADDLE_WIDTH` 38);
- the spawn transform from `setup_player`: translation (0, -295, 1) and
  scale (38, 10, 10);
- the per-frame rule from `player_movement`. Left alone subtracts
  `dt * PADDLE_SPEED` from x. Right alone adds it. Both keys or neither
  change nothing. The x is then clamped to `[-bounds, bounds]`, where
  `bounds = 380/2 - 38/2 = 171`. A missing paddle makes the system do nothing;
- the engine's frame loop, as a fold of that rule over a sequence of frames.
  From it we prove that the bounds invariant holds in every frame reachable
  from spawn.

Modules:

- `Transforms` (transforms.dfy): `Vec3`, `Transform` and `Option`.
- `Paddle` (paddle.dfy): the constants, `Clamp`, the x update `MoveX`, the
  system `PlayerMovement`, the spawn `SetupPlayer`, and lemmas about them.
- `Frames` (frames.dfy): `Run` over a frame sequence, the reachability
  lemmas, and `Simulate`, a loop that does the same run one frame at a time.

`player_movement` is registered with `add_system` (src/main.rs:66), so it
runs on every frame; the model runs it on every frame too.

## Model

| member | source | states |
|---|---|---|
| Paddle.BoundsWellFormed | src/main.rs:47-48 | the clamp limit is 171, so the lower limit -171 is at most the upper one and the clamp never faults |
| Paddle.Clamp | src/main.rs:48 | the result lies in [lo, hi]; it is v when v is already inside, lo when v is below, hi when v is above; callers must give lo <= hi, as the float clamp asserts |
| Paddle.ClampIsNearest | src/main.rs:48 | the clamped value is at least as close to v as every point of [lo, hi] |
| Paddle.NearestIsClamp | src/main.rs:48 | any point of [lo, hi] at least as close to v as the clamp is the clamp itself, so the nearest point is unique |
| Paddle.ClampIdempotent | src/main.rs:48 | clamping an already clamped value changes nothing |
| Paddle.MoveX | src/main.rs:42-48 | after one frame the paddle x is within [-171, 171] whatever the input; an in-bounds paddle with both keys or neither held does not move |
| Paddle.Direction | src/main.rs:42-46 | the net direction is -1, 0 or 1: -1 with Left only, +1 with Right only, and 0 exactly when both keys or neither are held |
| Paddle.MoveXIsSignedStep | src/main.rs:42-48 | the branchy update equals clamp(x + direction * speed * dt), where Right counts +1 and Left -1 |
| Paddle.NoNetInputOnlyClamps | src/main.rs:42-48 | with both keys or neither held the new x is clamp(x), and it equals x exactly when x was in bounds |
| Paddle.LeftOnlyStep | src/main.rs:42-48 | with Left only the new x is clamp(x - dt * 190) |
| Paddle.RightOnlyStep | src/main.rs:44-48 | with Right only the new x is clamp(x + dt * 190) |
| Paddle.NoInputIdempotent | src/main.rs:42-48 | two frames without net input, each with both keys or neither held (not necessarily the same way), give the same x as the first alone |
| Paddle.Monotone | src/main.rs:42-48 | for dt >= 0 and an in-bounds paddle, Left never increases x and Right never decreases it; each moves it at most dt * 190; it travels the full step or stops exactly at the edge |
| Paddle.MirrorSymmetry | src/main.rs:42-48 | negating x and swapping Left and Right negates the result |
| Paddle.PlayerMovement | src/main.rs:34-49 | a missing paddle stays missing; otherwise only translation.x is rewritten (to the in-bounds x of MoveX), and y, z and the scale are kept |
| Paddle.SetupPlayer | src/main.rs:16-32 | the spawned paddle is inside the bounds, at y = -WINDOW_HEIGHT/2 + 25, and PADDLE_WIDTH wide |
| Paddle.SpawnAtRest | src/main.rs:23-26 | the spawn translation is (0, -295, 1), and a frame without net input leaves the spawned paddle unchanged |
| Frames.Run | src/main.rs:64-67 | running the system over frames keeps the paddle present or absent, keeps y, z and the scale, keeps an in-bounds paddle in bounds, and brings any paddle in bounds after one frame; the bounds invariant is proved by induction over the frames |
| Frames.ReachableInBounds | src/main.rs:64-66 | `Reachable` is spawn followed by the frame loop; in every frame reachable from spawn a paddle exists, lies within [-171, 171], sits at y = -295 and keeps its spawn scale |
| Frames.IdleFramesKeepPosition | src/main.rs:42-48 | any number of frames without net input leave an in-bounds paddle exactly where it is, and a missing paddle missing |
| Frames.RunAppend | src/main.rs:66-67 | running frames a then b equals running a followed by b |
| Frames.Simulate | src/main.rs:64-67 | the frame-by-frame loop computes the same paddle as Run, keeps its y, and ends in bounds when at least one frame ran |

## Left out

- Floating point: `f32` is modelled as exact `real`. Rounding, NaN and
  infinities are not modelled. When exactly one key is held, a NaN `dt`
  would make the float clamp return NaN; with both keys or neither, `dt` is
  not read and x stays as it was.
- Several paddles: the query takes the first paddle the iterator yields and
  moves only that one. The model holds at most one paddle (an `Option`), as
  `setup_player` spawns exactly one.
- The `Time` resource and keyboard polling become parameters: `dt` and two
  booleans per frame. The update accepts any `dt`. Only the monotonicity
  lemma assumes `dt >= 0`, which the engine's clock provides.
- Engine setup: the app and window construction, the clear colour, the
  camera, the sprite colour, rendering and `close_on_esc`
  (src/main.rs:12-14, 51-68). These are calls into the engine, not game logic.
- Rotation: the engine's transform also has a rotation, which the spawn
  leaves at its default (src/main.rs:27) and nothing changes; the model's
  `Transform` omits it.
- The ball, blocks, score and game states: this version of the game has
  none of them.
