# Flappy Bird game logic in Dafny

A model of the human-playable Flappy Bird game in `main.py`, without pygame's
window, images, events and clock. The model covers four parts of the game:

- **Geometry** (`Rects`): pygame's integer `Rect`. This includes its derived
  edges and centre, the anchor setters the game uses (`get_rect(midtop=…)`,
  `midbottom`, `center`, and assigning `centerx` / `centery`), and the
  assumed meaning of `colliderect`.
- **Pipes** (`Pipes`):
  - `create_pipe` builds a pair from a chosen height index.
  - `move_pipes` scrolls every pipe left by 5 pixels, using a `while` loop over
    the list.
  - The spawn rule appends a pair when the list is empty or its newest pipe's
    centre is left of `WIDTH - 350`.
  - `check_collision` scans the list for a pipe the bird overlaps.
  - The shape the list keeps from frame to frame:
    - its length is even;
    - each pair (indices 2k, 2k+1) shares a centre x and has the 200-pixel gap;
    - pairs are exactly 455 pixels apart, and the newest pair is between x = 930
      and x = 1380.
  - That shape implies the list is ordered by x, older pairs further left.
- **Bird physics** (`Bird`):
  - A flap sets the velocity to −10.
  - Gravity then adds 0.5 per frame, with no upper limit.
  - The new velocity is added to the bird's vertical centre.
  - Velocities are in half-pixels per frame, so gravity is 1 and a flap is −20.
    Velocities are then integers, with no rounding. Rect coordinates are
    unbounded integers: pygame's 32-bit limit is not modelled (see "Left out").
- **The main loop** (`Game`): a `World` class holds `bird_rect`,
  `bird_movement`, `pipe_list` and `running`.
  - `Step` is one pass of the loop body: flap, gravity, fall, scroll, spawn,
    collision test.
  - `Play` runs `while running` over a finite script of frame inputs. It is
    proved against `Loop`, the same loop on values, whose lemmas hold for
    any frame function.
  - `Valid()` holds the pipe-list invariant, and every frame keeps it.

Assumptions about pygame, which is not part of this model:

- `a.colliderect(b)` holds on rectangles of positive size iff they overlap
  strictly on both axes:
  `a.left < b.right && b.left < a.right && a.top < b.bottom && b.top < a.bottom`.
- `centerx` is `left + width // 2`, and assigning it sets
  `left = value - width // 2`. The same holds for `centery` with `top` and
  `height`.
- Assigning a float to a `Rect` coordinate stores it truncated toward zero. So
  `bird_rect.centery += bird_movement` stores the exact new centre truncated
  toward zero (`Bird.TruncHalf`, `Bird.Fall`).
- The sprite sizes (`BIRD_WIDTH`, `BIRD_HEIGHT`, and the scaled pipe image's width
  and height) come from image files. They are positive parameters of the
  `World` constructor.

Inputs from outside the game:

- The space-key decision of each frame is a `flap: bool`.
- The value `random.choice` would pick is passed as an index into
  `[350, 400, 450, 500, 550]`. Its type `Game.HeightIndex` keeps it in range.

The behaviour follows the code in `main.py`. That code has only one bird and no
terminal velocity. It also has no pipe pruning, no ground or ceiling
termination, and no scoring. None of these is modelled.

## Model

| member | source | states |
|---|---|---|
| Rects.WithCenterX | main.py:43 | assigning `centerx` puts the rectangle's centre at exactly that x and keeps its top, width and height |
| Rects.WithCenterY | main.py:69 | assigning `centery` puts the rectangle's centre at exactly that y and keeps its left, width and height |
| Rects.AtMidTop | main.py:37 | `get_rect(midtop=(x, y))` gives a rectangle of the image's size centred on x whose top edge is y |
| Rects.AtMidBottom | main.py:38 | `get_rect(midbottom=(x, y))` gives a rectangle of the image's size centred on x whose bottom edge is y |
| Rects.AtCenter | main.py:18 | `get_rect(center=(x, y))` gives a rectangle of the image's size whose centre is (x, y) |
| Rects.Overlaps | main.py:56 | definition of the assumed `colliderect`: strict overlap on both axes; `OverlapsIffSharedPixel` and `CollidesIffOverlap` state its properties |
| Rects.OverlapsIffSharedPixel | main.py:56 | the assumed `colliderect` (strict overlap on both axes) holds iff the two rectangles share at least one pixel; both directions |
| Pipes.CreatePipe | main.py:35-39 | both pipes have the image's size and centre x = WIDTH + 100; the bottom pipe's top edge is the chosen height, one of 350..550; the top pipe's bottom edge is 200 above it |
| Pipes.MoveLeft | main.py:43 | one pipe after `centerx -= pipe_speed`: its centre x and left edge drop by exactly 5, and its top and size are unchanged |
| Pipes.Moved | main.py:41-44 | scrolling keeps the list's length and order; each pipe's centre x and left edge drop by exactly 5, and its top and size are unchanged |
| Pipes.MovePipes | main.py:41-44 | the loop over the list leaves every pipe shifted as `Moved` says |
| Pipes.Collides | main.py:54-58 | definition of `check_collision`: the early-return scan over the list with the assumed `colliderect`; `CollidesIffOverlap` states its property |
| Pipes.CollidesIffOverlap | main.py:54-58 | the early-return scan `check_collision` is true iff some pipe of the list overlaps the bird; on an empty list it is false |
| Pipes.SpawnDue | main.py:72 | definition of the spawn condition: the list is empty or its last pipe's centre x is below WIDTH - 350; `Spawned`, `SpawnDueAtThreshold` and `FrameKeepsInvariant` state its properties |
| Pipes.Spawned | main.py:72-73 | the spawn step appends exactly two pipes, the pair `create_pipe` builds, iff the list is empty or its last pipe's centre x is below WIDTH - 350; otherwise the list is unchanged; existing pipes are never changed |
| Pipes.PipesAfter | main.py:71-73 | definition of the pipe list after a run of frames, each one scrolling and then spawning with its height choice; `PipesAppend` and `RunKeepsInvariant` state its properties |
| Pipes.PipesAppend | main.py:71-73 | the pipe list after a run of frames plus one more is one more scroll and spawn applied to the list after the run |
| Pipes.MovedKeepsPairs | main.py:41-44 | scrolling keeps every pair well formed (same x, 200 gap, drawable height) and keeps consecutive pairs 455 apart |
| Pipes.AppendKeepsPairs | main.py:73 | appending a well-formed pair 455 right of the last pair keeps the list's pair structure and spacing |
| Pipes.FrameKeepsInvariant | main.py:71-73 | one frame's scroll then spawn keeps the list's shape: even length, well-formed pairs, pairs exactly 455 apart, newest pair between x = 930 and x = 1380 on a multiple of 5 from 1380 |
| Pipes.RunKeepsInvariant | main.py:71-73 | any run of frames, with any in-range height choices, keeps the list's shape |
| Pipes.InvariantPairShape | main.py:72-73 | in a list of that shape, the length is even and each pipe at an even index shares its centre x with the next pipe, sits 200 below it and starts at one of 350..550 |
| Pipes.SpawnDueAtThreshold | main.py:72 | in a non-empty list of that shape, the next frame spawns iff the newest pair is exactly at the threshold x = 930 |
| Pipes.PairSpacing | main.py:71-73 | pair m stands exactly 455 * (m - k) right of pair k |
| Pipes.InvariantOrdersPipes | main.py:71-73 | in a list of that shape, the pipes are in non-decreasing order of centre x, 455 apart per pair between them, and none is right of the spawn x |
| Bird.StartRect | main.py:18 | the bird starts with the sprite's size, centred at (200, HEIGHT // 2) |
| Bird.NextVelocity | main.py:64-68 | one frame's velocity update: after a flap it is -9.5 whatever it was before; without a flap it rises by exactly 0.5 |
| Bird.Velocity | main.py:64-68 | definition of the velocity after a run of frames, each one applying `NextVelocity`; `VelocityAppend`, `VelocityWithoutFlaps`, `VelocitySinceLastFlap` and `NoTerminalVelocity` state its properties |
| Bird.VelocityAppend | main.py:64-68 | the velocity after a run of frames plus one more is one frame's update applied to the velocity after the run |
| Bird.VelocityWithoutFlaps | main.py:68 | without flaps the velocity grows by exactly 0.5 per frame |
| Bird.VelocitySinceLastFlap | main.py:64-68 | after the last flap the velocity is -10 + 0.5 per frame since then, including the flap frame, whatever it was before; so a flap frame ends at -9.5 |
| Bird.NoTerminalVelocity | main.py:68 | with no flaps the velocity exceeds any bound after enough frames: there is no terminal velocity |
| Bird.TruncHalf | main.py:69 | the stored coordinate is the half-pixel value truncated toward zero |
| Bird.Fall | main.py:69 | the bird's new vertical centre is its exact new centre truncated toward zero; its left edge and size do not change |
| Bird.BirdAfter | main.py:64-69 | definition of the bird after a run of frames, each one updating the velocity and then falling by it; `BirdAppend` and `BirdAfterKeepsColumn` state its properties |
| Bird.BirdAppend | main.py:64-69 | the bird after a run of frames plus one more falls once more, by the velocity that frame reaches |
| Bird.BirdAfterKeepsColumn | main.py:69 | over any run of frames the bird keeps its left edge and size; it only moves vertically |
| Game.World.constructor | main.py:16-33 | the world starts with the bird at its start rectangle, velocity 0, no pipes and `running` true |
| Game.World.Step | main.py:60-80 | one frame: the new velocity is the flap-or-old value plus gravity; the bird falls by it; the pipes are scrolled then spawned; `running` becomes false iff it was already false or the moved bird overlaps a pipe; the pipe-list invariant is kept |
| Game.VelocityExtends | main.py:64-68 | the velocity after the first n frames of a script is one frame's update, with frame n's flap, applied to the velocity after n - 1 frames |
| Game.BirdExtends | main.py:64-69 | the bird after the first n frames of a script is the bird after n - 1 frames fallen once more, by the velocity frame n reaches |
| Game.PipesExtend | main.py:71-73 | the pipe list after the first n frames of a script is the list after n - 1 frames scrolled and then spawned with frame n's height choice |
| Game.Advance | main.py:64-73 | definition of one pass of the loop body on values: flap or not, gravity, fall, scroll, spawn; `Step`'s ensures give the same new state, and `VelocityAfterFrames`, `BirdAfterFrames` and `PipesAfterFrames` state its properties over many frames |
| Game.After | main.py:60-73 | definition of the state after the first n frames of a script; the three `...AfterFrames` lemmas state it in terms of the velocity, bird and pipe runs |
| Game.Hit | main.py:79 | definition of `check_collision` on a frame's state; `CollidesIffOverlap` states its meaning |
| Game.VelocityAfterFrames | main.py:64-68 | running n frames one at a time leaves the velocity that the first n flaps give |
| Game.BirdAfterFrames | main.py:64-69 | running n frames one at a time leaves the bird that the first n flaps give |
| Game.PipesAfterFrames | main.py:71-73 | running n frames one at a time leaves the pipe list that the first n height choices give |
| Game.ClearThroughMeans | main.py:79-80 | no hit in frames 1..n, checked one frame at a time, is the same as no hit after any of frames 1..n; both directions |
| Game.Loop | main.py:60-80 | `while running` on values: it plays no frame when `running` is already false, never plays past the script, and is still running only after playing the whole script |
| Game.LoopOutcome | main.py:60-80 | a running loop with no hit so far stops exactly after the first frame that ends in a hit, with no hit in the frames before it, or else plays the whole script with no hit; its state is the one its frames give |
| Game.LoopResult | main.py:60-80 | from any start state the loop keeps `running` only if it started running, plays nothing otherwise, stops early only after a frame that ends in a hit, and no earlier frame ends in one; still running after a non-empty script means the last frame ended without a hit |
| Game.PlayOutcome | main.py:60-80 | the same run in the game's own terms: the bird that the flaps give overlaps no pipe of the list that the height choices give after any frame before the last one played; when the loop stops early the final bird overlaps a pipe, and when it is still running after at least one frame it does not; the final velocity, bird and pipes are the ones the played frames give |
| Game.World.Play | main.py:60-80 | the `while running` loop over a script ends in the state `Loop` gives: `running` stays true only if it was true and the whole script was played; nothing is played if it was false; it stops early only on a collision, after the first frame whose bird hits a pipe, and no earlier frame collided; still running after at least one frame means the last frame had no collision; the final velocity, bird and pipes are those the played frames' flaps and height choices give, frame by frame; the pipe-list invariant is kept |

## Left out

- Window, image loading and scaling, `draw_pipes`, blitting, display update and `clock.tick` (main.py:4-21, 46-52, 75-77, 82-85): these do rendering and I/O. The sprite sizes they produce are parameters.
- Event polling and `pygame.QUIT` (main.py:61-63). The decoded space-key decision is the `flap` input. A quit request, which sets `running` to false in the source, is not modelled.
- `random.choice` (main.py:36): the picked index is an input, of a type that holds only 0..4.
- pygame's `Rect` internals, including `colliderect`. Only the behaviour stated above is assumed.
- `PIPE_HEIGHT = pipe_img.get_height() // 1.5` is a float (main.py:20). The model takes the scaled image's integer height as the pipe height.
- Rect objects are values in the model. `move_pipes` mutates each rectangle of the list in place, and the model returns the updated list instead, which the caller assigns back, as main.py:71 does. No rectangle is shared, so no other reference could observe the difference.
- Game.World.Play: runs over a finite script of frames, whereas the source loop runs until a collision or quit, with no bound.
- Bird.Fall, Pipes.MoveLeft and Pipes.Moved: Rect coordinates are unbounded integers here. pygame stores them as 32-bit C ints and stores a float through a C `(int)` cast. A bird that never flaps is about 14,000 pixels down (360 + 236 · 237 / 4) by the time the first pair reaches x = 200, far below any pipe. It then never collides, and since there is no ground the loop runs on without bound. After roughly 92,700 frames its `centery` passes 2^31 - 1. After roughly 4.3 * 10^8 frames the pipes' `left` does too. The model does not capture what pygame stores past those points, so these contracts hold only while the coordinates stay in the 32-bit range.
