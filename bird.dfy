/** The bird's vertical physics. Velocities are kept in half-pixels per frame,
    so the game's gravity of 0.5 and flap strength of -10 are the integers 1
    and -20 and every velocity the game can reach is exact. */
module Bird {
  import opened Rects

  /** 0.5 pixels per frame, added to the velocity every frame. */
  const GRAVITY := 1
  /** -10 pixels per frame: a flap sets the velocity to this. */
  const FLAP_STRENGTH := -20
  /** The bird starts centred at (200, HEIGHT // 2) with HEIGHT = 720. */
  const START_X := 200
  const START_Y := 360

  /** The bird's rectangle at the start, for a sprite of the given size. */
  function StartRect(birdWidth: int, birdHeight: int): (r: Rect)
    ensures r.width == birdWidth && r.height == birdHeight
    ensures CenterX(r) == START_X && CenterY(r) == START_Y
  {
    AtCenter(birdWidth, birdHeight, START_X, START_Y)
  }

  /** One frame's velocity update: a flap replaces the velocity, then gravity is added. */
  function NextVelocity(v: int, flap: bool): (w: int)
    ensures flap ==> w == FLAP_STRENGTH + GRAVITY
    ensures !flap ==> w - v == GRAVITY
  {
    (if flap then FLAP_STRENGTH else v) + GRAVITY
  }

  /** The velocity after a run of frames, given whether each one flapped. */
  function Velocity(v: int, flaps: seq<bool>): int
    decreases |flaps|
  {
    if flaps == [] then v else Velocity(NextVelocity(v, flaps[0]), flaps[1..])
  }

  /** A run of n frames without a flap. */
  function NoFlaps(n: nat): (flaps: seq<bool>)
    ensures |flaps| == n && forall i :: 0 <= i < n ==> !flaps[i]
  {
    seq(n, _ => false)
  }

  /** Running one more frame after a run extends the run. */
  lemma {:induction false} VelocityAppend(v: int, flaps: seq<bool>, flap: bool)
    ensures Velocity(v, flaps + [flap]) == NextVelocity(Velocity(v, flaps), flap)
    decreases |flaps|
  {
    if flaps != [] {
      assert (flaps + [flap])[1..] == flaps[1..] + [flap];
      VelocityAppend(NextVelocity(v, flaps[0]), flaps[1..], flap);
    }
  }

  /** Without a flap the velocity grows by exactly GRAVITY every frame. */
  lemma {:induction false} VelocityWithoutFlaps(v: int, flaps: seq<bool>)
    requires forall i :: 0 <= i < |flaps| ==> !flaps[i]
    ensures Velocity(v, flaps) == v + GRAVITY * |flaps|
    decreases |flaps|
  {
    if flaps != [] {
      VelocityWithoutFlaps(v + GRAVITY, flaps[1..]);
    }
  }

  /** The velocity depends only on the frames since the last flap, whatever it
      was before: the flap frame itself ends at FLAP_STRENGTH + GRAVITY (-9.5). */
  lemma {:induction false} VelocitySinceLastFlap(v: int, flaps: seq<bool>, k: nat)
    requires k < |flaps| && flaps[k]
    requires forall i :: k < i < |flaps| ==> !flaps[i]
    ensures Velocity(v, flaps) == FLAP_STRENGTH + GRAVITY * (|flaps| - k)
    decreases |flaps|
  {
    if k == 0 {
      VelocityWithoutFlaps(FLAP_STRENGTH + GRAVITY, flaps[1..]);
    } else {
      VelocitySinceLastFlap(NextVelocity(v, flaps[0]), flaps[1..], k - 1);
    }
  }

  /** There is no terminal velocity: without flaps every bound is exceeded. */
  lemma NoTerminalVelocity(v: int, bound: int)
    ensures exists n: nat :: Velocity(v, NoFlaps(n)) > bound
  {
    var n: nat := if bound < v then 0 else bound - v + 1;
    VelocityWithoutFlaps(v, NoFlaps(n));
    assert Velocity(v, NoFlaps(n)) > bound;
  }

  /** pygame stores a float assigned to a `Rect` coordinate as an int,
      truncated toward zero; this is h / 2 stored that way. */
  function TruncHalf(h: int): (r: int)
    ensures 0 <= h ==> 0 <= h - 2 * r <= 1
    ensures h < 0 ==> 0 <= 2 * r - h <= 1
  {
    if h >= 0 then h / 2 else -((-h) / 2)
  }

  /** `bird_rect.centery += bird_movement` with the velocity v in half-pixels:
      the new centre is the exact new centre truncated toward zero, and the
      rectangle only moves vertically. */
  function Fall(bird: Rect, v: int): (moved: Rect)
    ensures moved.left == bird.left && moved.width == bird.width && moved.height == bird.height
    ensures var exact := 2 * CenterY(bird) + v;
      && (exact >= 0 ==> 0 <= exact - 2 * CenterY(moved) <= 1)
      && (exact < 0 ==> 0 <= 2 * CenterY(moved) - exact <= 1)
  {
    WithCenterY(bird, TruncHalf(2 * CenterY(bird) + v))
  }

  /** The bird's rectangle after a run of frames from velocity v: each frame
      updates the velocity and then falls by the new velocity. */
  function BirdAfter(bird: Rect, v: int, flaps: seq<bool>): Rect
    decreases |flaps|
  {
    if flaps == [] then bird
    else
      var w := NextVelocity(v, flaps[0]);
      BirdAfter(Fall(bird, w), w, flaps[1..])
  }

  /** Running one more frame after a run falls once more, by the velocity
      that frame reaches. */
  lemma {:induction false} BirdAppend(bird: Rect, v: int, flaps: seq<bool>, flap: bool)
    ensures BirdAfter(bird, v, flaps + [flap])
         == Fall(BirdAfter(bird, v, flaps), NextVelocity(Velocity(v, flaps), flap))
    decreases |flaps|
  {
    if flaps != [] {
      var w := NextVelocity(v, flaps[0]);
      assert (flaps + [flap])[1..] == flaps[1..] + [flap];
      BirdAppend(Fall(bird, w), w, flaps[1..], flap);
    }
  }

  /** However many frames run, the bird only moves vertically. */
  lemma {:induction false} BirdAfterKeepsColumn(bird: Rect, v: int, flaps: seq<bool>)
    ensures BirdAfter(bird, v, flaps).left == bird.left
    ensures BirdAfter(bird, v, flaps).width == bird.width
    ensures BirdAfter(bird, v, flaps).height == bird.height
    decreases |flaps|
  {
    if flaps != [] {
      var w := NextVelocity(v, flaps[0]);
      BirdAfterKeepsColumn(Fall(bird, w), w, flaps[1..]);
    }
  }
}
