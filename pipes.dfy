/** The pipe obstacles: building a pair, scrolling the list, the spawn rule
    and the collision scan. The list is flat, as in the game: a pair is the
    bottom pipe at an even index followed by its top pipe. */
module Pipes {
  import opened Rects

  const WIDTH := 1280
  /** The heights the bottom pipe's top edge is drawn from. */
  const PIPE_HEIGHTS: seq<int> := [350, 400, 450, 500, 550]
  /** Vertical gap between the top pipe's bottom edge and the bottom pipe's top edge. */
  const PIPE_SPACING := 200
  /** Pixels every pipe moves left per frame. */
  const PIPE_SPEED := 5
  /** Horizontal centre of a freshly created pair. */
  const SPAWN_X := WIDTH + 100
  /** A new pair is due once the newest pipe's centre is left of this. */
  const SPAWN_THRESHOLD := WIDTH - 350
  /** Horizontal distance between consecutive pairs: the first multiple of
      PIPE_SPEED that takes a pair from SPAWN_X to below SPAWN_THRESHOLD. */
  const PAIR_DISTANCE := 455

  /** A bottom pipe and its top pipe as `create_pipe` builds them: both of the
      pipe image's size, centred on one x, the bottom pipe's top edge at one of
      the drawable heights and the top pipe ending PIPE_SPACING above it. */
  predicate IsPair(bottom: Rect, top: Rect, pipeWidth: int, pipeHeight: int)
  {
    && bottom.width == pipeWidth && bottom.height == pipeHeight
    && top.width == pipeWidth && top.height == pipeHeight
    && CenterX(bottom) == CenterX(top)
    && bottom.top in PIPE_HEIGHTS
    && bottom.top - Bottom(top) == PIPE_SPACING
  }

  /** `create_pipe`, with the index that `random.choice` picks as a parameter. */
  function CreatePipe(choice: nat, pipeWidth: int, pipeHeight: int): (pair: (Rect, Rect))
    requires choice < |PIPE_HEIGHTS|
    ensures IsPair(pair.0, pair.1, pipeWidth, pipeHeight)
    ensures CenterX(pair.0) == SPAWN_X && CenterX(pair.1) == SPAWN_X
    ensures pair.0.top == PIPE_HEIGHTS[choice]
    ensures Bottom(pair.1) == PIPE_HEIGHTS[choice] - PIPE_SPACING
  {
    var height := PIPE_HEIGHTS[choice];
    var bottom := AtMidTop(pipeWidth, pipeHeight, SPAWN_X, height);
    var top := AtMidBottom(pipeWidth, pipeHeight, SPAWN_X, height - PIPE_SPACING);
    (bottom, top)
  }

  /** One pipe after `pipe.centerx -= pipe_speed`. */
  function MoveLeft(r: Rect): (moved: Rect)
    ensures CenterX(moved) == CenterX(r) - PIPE_SPEED && moved.left == r.left - PIPE_SPEED
    ensures moved.top == r.top && moved.width == r.width && moved.height == r.height
  {
    WithCenterX(r, CenterX(r) - PIPE_SPEED)
  }

  /** The whole list after one scroll step. */
  function Moved(pipes: seq<Rect>): (moved: seq<Rect>)
    ensures |moved| == |pipes|
    ensures forall i :: 0 <= i < |pipes| ==>
      && CenterX(moved[i]) == CenterX(pipes[i]) - PIPE_SPEED
      && moved[i].left == pipes[i].left - PIPE_SPEED
      && moved[i].top == pipes[i].top
      && moved[i].width == pipes[i].width && moved[i].height == pipes[i].height
  {
    seq(|pipes|, i requires 0 <= i < |pipes| => MoveLeft(pipes[i]))
  }

  /** `move_pipes`: shifts every pipe left by PIPE_SPEED, one pipe at a time. */
  method MovePipes(pipes: seq<Rect>) returns (moved: seq<Rect>)
    ensures moved == Moved(pipes)
  {
    moved := pipes;
    var i := 0;
    while i < |moved|
      invariant 0 <= i <= |moved| == |pipes|
      invariant forall j :: 0 <= j < i ==> moved[j] == MoveLeft(pipes[j])
      invariant forall j :: i <= j < |moved| ==> moved[j] == pipes[j]
    {
      moved := moved[i := WithCenterX(moved[i], CenterX(moved[i]) - PIPE_SPEED)];
      i := i + 1;
    }
  }

  /** `check_collision`: scans the list and stops at the first pipe the bird overlaps. */
  function Collides(bird: Rect, pipes: seq<Rect>): bool
  {
    if pipes == [] then false
    else if Overlaps(bird, pipes[0]) then true
    else Collides(bird, pipes[1..])
  }

  /** The scan reports a collision exactly when some pipe of the list
      overlaps the bird; on an empty list it reports none. */
  lemma {:induction false} CollidesIffOverlap(bird: Rect, pipes: seq<Rect>)
    ensures Collides(bird, pipes) <==> exists i :: 0 <= i < |pipes| && Overlaps(bird, pipes[i])
    decreases |pipes|
  {
    if pipes != [] {
      CollidesIffOverlap(bird, pipes[1..]);
      assert forall i :: 1 <= i < |pipes| ==> pipes[i] == pipes[1..][i - 1];
    }
  }

  /** The spawn condition: the list is empty or its newest pipe has passed the threshold. */
  predicate SpawnDue(pipes: seq<Rect>)
  {
    |pipes| == 0 || CenterX(pipes[|pipes| - 1]) < SPAWN_THRESHOLD
  }

  /** The list after the spawn step, given the height index drawn for a new pair. */
  function Spawned(pipes: seq<Rect>, choice: nat, pipeWidth: int, pipeHeight: int): (after: seq<Rect>)
    requires choice < |PIPE_HEIGHTS|
    ensures |after| == if SpawnDue(pipes) then |pipes| + 2 else |pipes|
    ensures after[..|pipes|] == pipes
    ensures SpawnDue(pipes) ==>
      after[|pipes|] == CreatePipe(choice, pipeWidth, pipeHeight).0 &&
      after[|pipes| + 1] == CreatePipe(choice, pipeWidth, pipeHeight).1
  {
    if SpawnDue(pipes) then
      var (bottom, top) := CreatePipe(choice, pipeWidth, pipeHeight);
      pipes + [bottom, top]
    else
      pipes
  }

  /** The list after a run of frames, each scrolling and then spawning with
      the height index drawn for it. */
  function PipesAfter(pipes: seq<Rect>, choices: seq<nat>, pipeWidth: int, pipeHeight: int): seq<Rect>
    requires forall i :: 0 <= i < |choices| ==> choices[i] < |PIPE_HEIGHTS|
    decreases |choices|
  {
    if choices == [] then pipes
    else PipesAfter(Spawned(Moved(pipes), choices[0], pipeWidth, pipeHeight), choices[1..], pipeWidth, pipeHeight)
  }

  /** Running one more frame after a run scrolls and spawns once more. */
  lemma {:induction false} PipesAppend(pipes: seq<Rect>, choices: seq<nat>, choice: nat, pipeWidth: int, pipeHeight: int)
    requires forall i :: 0 <= i < |choices| ==> choices[i] < |PIPE_HEIGHTS|
    requires choice < |PIPE_HEIGHTS|
    ensures PipesAfter(pipes, choices + [choice], pipeWidth, pipeHeight)
         == Spawned(Moved(PipesAfter(pipes, choices, pipeWidth, pipeHeight)), choice, pipeWidth, pipeHeight)
    decreases |choices|
  {
    if choices != [] {
      assert (choices + [choice])[1..] == choices[1..] + [choice];
      PipesAppend(Spawned(Moved(pipes), choices[0], pipeWidth, pipeHeight), choices[1..], choice, pipeWidth, pipeHeight);
    }
  }

  // ---------------------------------------------------------------------------
  // The shape the pipe list keeps from frame to frame.

  /** Pair k of the list is complete and well formed. */
  predicate PairAt(pipes: seq<Rect>, k: nat, pipeWidth: int, pipeHeight: int)
  {
    2 * k + 1 < |pipes| && IsPair(pipes[2 * k], pipes[2 * k + 1], pipeWidth, pipeHeight)
  }

  /** Pair k stands exactly PAIR_DISTANCE to the right of pair k - 1. */
  predicate SpacedAt(pipes: seq<Rect>, k: nat)
  {
    0 < k && 2 * k < |pipes| && CenterX(pipes[2 * k]) == CenterX(pipes[2 * k - 2]) + PAIR_DISTANCE
  }

  ghost predicate PairsOk(pipes: seq<Rect>, pipeWidth: int, pipeHeight: int)
  {
    && |pipes| % 2 == 0
    && forall k: nat :: 2 * k < |pipes| ==> PairAt(pipes, k, pipeWidth, pipeHeight)
  }

  ghost predicate SpacingOk(pipes: seq<Rect>)
  {
    forall k: nat :: 0 < k && 2 * k < |pipes| ==> SpacedAt(pipes, k)
  }

  /** Where the newest pair can be at the end of a frame: no further left than
      the threshold, and a whole number of scroll steps from SPAWN_X. */
  ghost predicate NewestOk(pipes: seq<Rect>)
  {
    |pipes| > 0 ==>
      var c := CenterX(pipes[|pipes| - 1]);
      SPAWN_THRESHOLD <= c <= SPAWN_X && (SPAWN_X - c) % PIPE_SPEED == 0
  }

  ghost predicate PipesInvariant(pipes: seq<Rect>, pipeWidth: int, pipeHeight: int)
  {
    PairsOk(pipes, pipeWidth, pipeHeight) && SpacingOk(pipes) && NewestOk(pipes)
  }

  lemma MovedKeepsPairs(pipes: seq<Rect>, pipeWidth: int, pipeHeight: int)
    requires PairsOk(pipes, pipeWidth, pipeHeight) && SpacingOk(pipes)
    ensures PairsOk(Moved(pipes), pipeWidth, pipeHeight) && SpacingOk(Moved(pipes))
  {
    var m := Moved(pipes);
    forall k: nat | 2 * k < |m| ensures PairAt(m, k, pipeWidth, pipeHeight) {
      assert PairAt(pipes, k, pipeWidth, pipeHeight);
    }
    forall k: nat | 0 < k && 2 * k < |m| ensures SpacedAt(m, k) {
      assert SpacedAt(pipes, k);
    }
  }

  lemma AppendKeepsPairs(pipes: seq<Rect>, bottom: Rect, top: Rect, pipeWidth: int, pipeHeight: int)
    requires PairsOk(pipes, pipeWidth, pipeHeight) && SpacingOk(pipes)
    requires IsPair(bottom, top, pipeWidth, pipeHeight)
    requires |pipes| > 0 ==> CenterX(bottom) == CenterX(pipes[|pipes| - 2]) + PAIR_DISTANCE
    ensures PairsOk(pipes + [bottom, top], pipeWidth, pipeHeight) && SpacingOk(pipes + [bottom, top])
  {
    var r := pipes + [bottom, top];
    forall k: nat | 2 * k < |r| ensures PairAt(r, k, pipeWidth, pipeHeight) {
      if 2 * k < |pipes| {
        assert PairAt(pipes, k, pipeWidth, pipeHeight);
      }
    }
    forall k: nat | 0 < k && 2 * k < |r| ensures SpacedAt(r, k) {
      if 2 * k < |pipes| {
        assert SpacedAt(pipes, k);
      }
    }
  }

  /** One frame's pipe update, scroll then spawn, keeps the list's shape. */
  lemma FrameKeepsInvariant(pipes: seq<Rect>, choice: nat, pipeWidth: int, pipeHeight: int)
    requires choice < |PIPE_HEIGHTS|
    requires PipesInvariant(pipes, pipeWidth, pipeHeight)
    ensures PipesInvariant(Spawned(Moved(pipes), choice, pipeWidth, pipeHeight), pipeWidth, pipeHeight)
  {
    var m := Moved(pipes);
    MovedKeepsPairs(pipes, pipeWidth, pipeHeight);
    var n := |m|;
    if n > 0 {
      assert PairAt(m, n / 2 - 1, pipeWidth, pipeHeight);
      assert CenterX(m[n - 2]) == CenterX(m[n - 1]);
    }
    if SpawnDue(m) {
      var (bottom, top) := CreatePipe(choice, pipeWidth, pipeHeight);
      if n > 0 {
        var c := CenterX(pipes[n - 1]);
        assert CenterX(m[n - 1]) == c - PIPE_SPEED;
        assert c - PIPE_SPEED == SPAWN_THRESHOLD - PIPE_SPEED;
      }
      AppendKeepsPairs(m, bottom, top, pipeWidth, pipeHeight);
      assert Spawned(m, choice, pipeWidth, pipeHeight) == m + [bottom, top];
    } else {
      var c := CenterX(pipes[n - 1]);
      assert CenterX(m[n - 1]) == c - PIPE_SPEED;
      assert (SPAWN_X - (c - PIPE_SPEED)) % PIPE_SPEED == 0;
    }
  }

  /** Any run of frames keeps the list's shape. */
  lemma {:induction false} RunKeepsInvariant(pipes: seq<Rect>, choices: seq<nat>, pipeWidth: int, pipeHeight: int)
    requires forall i :: 0 <= i < |choices| ==> choices[i] < |PIPE_HEIGHTS|
    requires PipesInvariant(pipes, pipeWidth, pipeHeight)
    ensures PipesInvariant(PipesAfter(pipes, choices, pipeWidth, pipeHeight), pipeWidth, pipeHeight)
    decreases |choices|
  {
    if choices != [] {
      FrameKeepsInvariant(pipes, choices[0], pipeWidth, pipeHeight);
      RunKeepsInvariant(Spawned(Moved(pipes), choices[0], pipeWidth, pipeHeight), choices[1..], pipeWidth, pipeHeight);
    }
  }

  /** What the invariant says about the flat list: it has even length, and the
      pipe at each even index and the next one share a centre x, are the gap
      apart vertically and start at a drawable height. */
  lemma InvariantPairShape(pipes: seq<Rect>, pipeWidth: int, pipeHeight: int)
    requires PipesInvariant(pipes, pipeWidth, pipeHeight)
    ensures |pipes| % 2 == 0
    ensures forall i :: 0 <= i < |pipes| && i % 2 == 0 ==>
      && i + 1 < |pipes|
      && CenterX(pipes[i]) == CenterX(pipes[i + 1])
      && pipes[i].top - Bottom(pipes[i + 1]) == PIPE_SPACING
      && pipes[i].top in PIPE_HEIGHTS
  {
    forall i | 0 <= i < |pipes| && i % 2 == 0
      ensures i + 1 < |pipes| && CenterX(pipes[i]) == CenterX(pipes[i + 1])
      ensures pipes[i].top - Bottom(pipes[i + 1]) == PIPE_SPACING && pipes[i].top in PIPE_HEIGHTS
    {
      assert PairAt(pipes, i / 2, pipeWidth, pipeHeight);
    }
  }

  /** With the list in shape, the next frame spawns exactly when the newest
      pair stands at the threshold. */
  lemma SpawnDueAtThreshold(pipes: seq<Rect>, pipeWidth: int, pipeHeight: int)
    requires PipesInvariant(pipes, pipeWidth, pipeHeight) && |pipes| > 0
    ensures SpawnDue(Moved(pipes)) <==> CenterX(pipes[|pipes| - 1]) == SPAWN_THRESHOLD
  {
  }

  /** Pairs further along the list stand further right, PAIR_DISTANCE per pair. */
  lemma {:induction false} PairSpacing(pipes: seq<Rect>, k: nat, m: nat)
    requires SpacingOk(pipes)
    requires k <= m && 2 * m < |pipes|
    ensures CenterX(pipes[2 * m]) == CenterX(pipes[2 * k]) + PAIR_DISTANCE * (m - k)
    decreases m - k
  {
    if k < m {
      PairSpacing(pipes, k, m - 1);
      assert SpacedAt(pipes, m);
    }
  }

  /** The list is ordered by horizontal position: two pipes are exactly
      PAIR_DISTANCE apart per pair between them, so older pairs are further
      left; and no pipe is right of the spawn position. */
  lemma InvariantOrdersPipes(pipes: seq<Rect>, pipeWidth: int, pipeHeight: int)
    requires PipesInvariant(pipes, pipeWidth, pipeHeight)
    ensures forall i, j :: 0 <= i <= j < |pipes| ==>
      CenterX(pipes[j]) - CenterX(pipes[i]) == PAIR_DISTANCE * (j / 2 - i / 2)
    ensures forall i, j :: 0 <= i <= j < |pipes| ==> CenterX(pipes[i]) <= CenterX(pipes[j])
    ensures forall i :: 0 <= i < |pipes| ==> CenterX(pipes[i]) <= SPAWN_X
  {
    forall i, j | 0 <= i <= j < |pipes|
      ensures CenterX(pipes[j]) - CenterX(pipes[i]) == PAIR_DISTANCE * (j / 2 - i / 2)
    {
      assert PairAt(pipes, i / 2, pipeWidth, pipeHeight);
      assert PairAt(pipes, j / 2, pipeWidth, pipeHeight);
      PairSpacing(pipes, i / 2, j / 2);
    }
    var n := |pipes|;
    forall i | 0 <= i < n ensures CenterX(pipes[i]) <= SPAWN_X {
      assert CenterX(pipes[n - 1]) - CenterX(pipes[i]) == PAIR_DISTANCE * ((n - 1) / 2 - i / 2);
    }
  }
}
