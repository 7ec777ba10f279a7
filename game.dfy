/** The game's main loop: the world state that one frame updates, the frame
    itself and the loop that runs frames while the game is running. */
module Game {
  import opened Rects
  import opened Pipes
  import opened Bird

  /** An index into PIPE_HEIGHTS: the pick `random.choice` can make. */
  type HeightIndex = i: nat | i < |PIPE_HEIGHTS|

  /** What one frame needs from outside: whether the space key was pressed,
      and the index `random.choice` would pick if a pair is spawned. */
  datatype FrameInput = FrameInput(flap: bool, choice: HeightIndex)

  /** The flap decisions of a run of frames. */
  function Flaps(script: seq<FrameInput>): (flaps: seq<bool>)
    ensures |flaps| == |script|
    ensures forall i :: 0 <= i < |script| ==> flaps[i] == script[i].flap
  {
    seq(|script|, i requires 0 <= i < |script| => script[i].flap)
  }

  /** The height indices of a run of frames. */
  function Choices(script: seq<FrameInput>): (choices: seq<nat>)
    ensures |choices| == |script|
    ensures forall i :: 0 <= i < |script| ==> choices[i] == script[i].choice
  {
    seq(|script|, i requires 0 <= i < |script| => script[i].choice)
  }

  /** Running one more frame of a script updates the velocity once more. */
  lemma VelocityExtends(v: int, script: seq<FrameInput>, n: nat)
    requires 0 < n <= |script|
    ensures Velocity(v, Flaps(script[..n])) == NextVelocity(Velocity(v, Flaps(script[..n - 1])), script[n - 1].flap)
  {
    assert Flaps(script[..n]) == Flaps(script[..n - 1]) + [script[n - 1].flap];
    VelocityAppend(v, Flaps(script[..n - 1]), script[n - 1].flap);
  }

  /** Running one more frame of a script lets the bird fall once more, by the
      velocity that frame reaches. */
  lemma BirdExtends(bird: Rect, v: int, script: seq<FrameInput>, n: nat)
    requires 0 < n <= |script|
    ensures BirdAfter(bird, v, Flaps(script[..n]))
         == Fall(BirdAfter(bird, v, Flaps(script[..n - 1])), Velocity(v, Flaps(script[..n])))
  {
    assert Flaps(script[..n]) == Flaps(script[..n - 1]) + [script[n - 1].flap];
    VelocityAppend(v, Flaps(script[..n - 1]), script[n - 1].flap);
    BirdAppend(bird, v, Flaps(script[..n - 1]), script[n - 1].flap);
  }

  /** Running one more frame of a script scrolls and spawns the pipes once more. */
  lemma PipesExtend(pipes: seq<Rect>, script: seq<FrameInput>, n: nat, pw: int, ph: int)
    requires 0 < n <= |script|
    ensures PipesAfter(pipes, Choices(script[..n]), pw, ph)
         == Spawned(Moved(PipesAfter(pipes, Choices(script[..n - 1]), pw, ph)), script[n - 1].choice, pw, ph)
  {
    assert Choices(script[..n]) == Choices(script[..n - 1]) + [script[n - 1].choice];
    PipesAppend(pipes, Choices(script[..n - 1]), script[n - 1].choice, pw, ph);
  }

  /** What the main loop carries from one frame to the next. */
  datatype FrameState = FrameState(vel: int, bird: Rect, pipes: seq<Rect>)

  /** One frame on values: flap or not, gravity, fall, scroll, spawn. */
  function Advance(s: FrameState, input: FrameInput, pw: int, ph: int): FrameState
  {
    var w := NextVelocity(s.vel, input.flap);
    FrameState(w, Fall(s.bird, w), Spawned(Moved(s.pipes), input.choice, pw, ph))
  }

  /** What one frame does to the state, given that frame's input. The loop
      below and its lemmas hold for any such function; `Frame` is the game's. */
  type FrameFn = (FrameState, FrameInput) -> FrameState

  /** The frame of a game whose pipe image has the given size. */
  function Frame(pw: int, ph: int): FrameFn
  {
    (s: FrameState, input: FrameInput) => Advance(s, input, pw, ph)
  }

  /** The state after the first n frames of the script. */
  function After(frame: FrameFn, start: FrameState, script: seq<FrameInput>, n: nat): FrameState
    requires n <= |script|
    decreases n
  {
    if n == 0 then start else frame(After(frame, start, script, n - 1), script[n - 1])
  }

  /** Frame by frame, the velocity after n frames is the one the first n
      flaps give. */
  lemma {:induction false} VelocityAfterFrames(start: FrameState, script: seq<FrameInput>, n: nat, pw: int, ph: int)
    requires n <= |script|
    ensures After(Frame(pw, ph), start, script, n).vel == Velocity(start.vel, Flaps(script[..n]))
    decreases n
  {
    if n > 0 {
      VelocityAfterFrames(start, script, n - 1, pw, ph);
      VelocityExtends(start.vel, script, n);
    }
  }

  /** Frame by frame, the bird after n frames is the one the first n flaps give. */
  lemma {:induction false} BirdAfterFrames(start: FrameState, script: seq<FrameInput>, n: nat, pw: int, ph: int)
    requires n <= |script|
    ensures After(Frame(pw, ph), start, script, n).bird == BirdAfter(start.bird, start.vel, Flaps(script[..n]))
    decreases n
  {
    if n > 0 {
      BirdAfterFrames(start, script, n - 1, pw, ph);
      VelocityAfterFrames(start, script, n, pw, ph);
      BirdExtends(start.bird, start.vel, script, n);
    }
  }

  /** Frame by frame, the pipe list after n frames is the one the first n
      height choices give. */
  lemma {:induction false} PipesAfterFrames(start: FrameState, script: seq<FrameInput>, n: nat, pw: int, ph: int)
    requires n <= |script|
    ensures After(Frame(pw, ph), start, script, n).pipes == PipesAfter(start.pipes, Choices(script[..n]), pw, ph)
    decreases n
  {
    if n > 0 {
      PipesAfterFrames(start, script, n - 1, pw, ph);
      PipesExtend(start.pipes, script, n, pw, ph);
    }
  }

  /** The bird overlaps a pipe: `check_collision` on the state. */
  predicate Hit(s: FrameState)
  {
    Collides(s.bird, s.pipes)
  }

  /** Frame n of the script ends with the bird overlapping a pipe. */
  predicate HitAfter(frame: FrameFn, start: FrameState, script: seq<FrameInput>, n: nat)
    requires n <= |script|
  {
    Hit(After(frame, start, script, n))
  }

  /** None of the first n frames of the script ends in a hit. */
  predicate ClearThrough(frame: FrameFn, start: FrameState, script: seq<FrameInput>, n: nat)
    requires n <= |script|
    decreases n
  {
    n == 0 || (!HitAfter(frame, start, script, n) && ClearThrough(frame, start, script, n - 1))
  }

  /** Clear through n frames means no hit after any of them. */
  lemma {:induction false} ClearThroughMeans(frame: FrameFn, start: FrameState, script: seq<FrameInput>, n: nat)
    requires n <= |script|
    ensures ClearThrough(frame, start, script, n) <==> forall m: nat :: 0 < m <= n ==> !HitAfter(frame, start, script, m)
    decreases n
  {
    if n > 0 {
      ClearThroughMeans(frame, start, script, n - 1);
    }
  }

  /** How a run of the main loop ends: the state, `running`, and the number
      of frames played. */
  datatype Outcome = Outcome(state: FrameState, running: bool, played: nat)

  /** `while running:` on values: from state s with `running` equal to r and
      k frames of the script played, frames run while `running` holds and the
      script lasts; each frame clears `running` when the moved bird hits a pipe. */
  function Loop(frame: FrameFn, s: FrameState, r: bool, script: seq<FrameInput>, k: nat): (o: Outcome)
    requires k <= |script|
    ensures k <= o.played <= |script|
    ensures !r ==> o == Outcome(s, r, k)
    ensures o.running ==> o.played == |script|
    decreases |script| - k
  {
    if !r || k == |script| then Outcome(s, r, k)
    else
      var t := frame(s, script[k]);
      Loop(frame, t, !Hit(t), script, k + 1)
  }

  /** A running loop that has played k frames without a hit stops at the
      first frame that ends in a hit, or at the end of the script, and its
      state is the one those frames give. */
  lemma {:induction false} LoopOutcome(frame: FrameFn, start: FrameState, script: seq<FrameInput>, k: nat)
      returns (o: Outcome)
    requires k <= |script|
    requires ClearThrough(frame, start, script, k)
    ensures o == Loop(frame, After(frame, start, script, k), true, script, k)
    ensures o.state == After(frame, start, script, o.played)
    ensures o.running ==> ClearThrough(frame, start, script, o.played)
    ensures !o.running ==> k < o.played && HitAfter(frame, start, script, o.played)
    ensures !o.running ==> ClearThrough(frame, start, script, o.played - 1)
    decreases |script| - k
  {
    o := Loop(frame, After(frame, start, script, k), true, script, k);
    if k < |script| && !HitAfter(frame, start, script, k + 1) {
      var rest := LoopOutcome(frame, start, script, k + 1);
    }
  }

  /** The main loop run from `start`, with `running` equal to r, over a whole
      script: it runs only if r holds, it stops early only after a frame that
      ends in a hit, no earlier frame ends in one, and its state is the one
      its frames give. */
  lemma LoopResult(frame: FrameFn, start: FrameState, r: bool, script: seq<FrameInput>)
      returns (o: Outcome)
    ensures o == Loop(frame, start, r, script, 0)
    ensures o.state == After(frame, start, script, o.played)
    ensures o.running ==> r
    ensures !r ==> o.played == 0
    ensures r && !o.running ==> 0 < o.played && Hit(o.state)
    ensures o.running && 0 < o.played ==> !Hit(o.state)
    ensures forall m: nat :: 0 < m < o.played ==> !HitAfter(frame, start, script, m)
  {
    if r {
      o := LoopOutcome(frame, start, script, 0);
      if o.running {
        ClearThroughMeans(frame, start, script, o.played);
      } else {
        ClearThroughMeans(frame, start, script, o.played - 1);
      }
    } else {
      o := Loop(frame, start, r, script, 0);
    }
  }

  /** The same run in the game's own terms: no frame before the last one
      played ends with the bird that the flaps give overlapping a pipe of
      the list that the height choices give, and the final velocity, bird
      and pipes are the ones the played frames give. */
  lemma PlayOutcome(start: FrameState, r: bool, script: seq<FrameInput>, pw: int, ph: int)
      returns (o: Outcome)
    ensures o == Loop(Frame(pw, ph), start, r, script, 0)
    ensures o.played <= |script|
    ensures o.running ==> r && o.played == |script|
    ensures !r ==> o.played == 0
    ensures r && !o.running ==> 0 < o.played && Collides(o.state.bird, o.state.pipes)
    ensures o.running && 0 < o.played ==> !Collides(o.state.bird, o.state.pipes)
    ensures forall n: nat :: 0 < n < o.played ==>
      !Collides(BirdAfter(start.bird, start.vel, Flaps(script[..n])), PipesAfter(start.pipes, Choices(script[..n]), pw, ph))
    ensures o.state.vel == Velocity(start.vel, Flaps(script[..o.played]))
    ensures o.state.bird == BirdAfter(start.bird, start.vel, Flaps(script[..o.played]))
    ensures o.state.pipes == PipesAfter(start.pipes, Choices(script[..o.played]), pw, ph)
  {
    o := LoopResult(Frame(pw, ph), start, r, script);
    forall n: nat | 0 < n < o.played
      ensures !Collides(BirdAfter(start.bird, start.vel, Flaps(script[..n])), PipesAfter(start.pipes, Choices(script[..n]), pw, ph))
    {
      assert !HitAfter(Frame(pw, ph), start, script, n);
      BirdAfterFrames(start, script, n, pw, ph);
      PipesAfterFrames(start, script, n, pw, ph);
    }
    VelocityAfterFrames(start, script, o.played, pw, ph);
    BirdAfterFrames(start, script, o.played, pw, ph);
    PipesAfterFrames(start, script, o.played, pw, ph);
  }

  class World {
    /** Size of the scaled pipe image. */
    const pipeWidth: int
    const pipeHeight: int
    /** `bird_rect` */
    var bird: Rect
    /** `bird_movement`, in half-pixels per frame */
    var birdVel: int
    /** `pipe_list` */
    var pipes: seq<Rect>
    var running: bool

    ghost predicate Valid()
      reads this
    {
      && pipeWidth > 0 && pipeHeight > 0
      && bird.width > 0 && bird.height > 0
      && PipesInvariant(pipes, pipeWidth, pipeHeight)
    }

    /** The state before the first frame, for sprites of the given sizes. */
    constructor (birdWidth: int, birdHeight: int, pipeWidth: int, pipeHeight: int)
      requires birdWidth > 0 && birdHeight > 0 && pipeWidth > 0 && pipeHeight > 0
      ensures Valid()
      ensures this.pipeWidth == pipeWidth && this.pipeHeight == pipeHeight
      ensures bird == StartRect(birdWidth, birdHeight)
      ensures birdVel == 0 && pipes == [] && running
    {
      this.pipeWidth := pipeWidth;
      this.pipeHeight := pipeHeight;
      bird := StartRect(birdWidth, birdHeight);
      birdVel := 0;
      pipes := [];
      running := true;
    }

    /** One pass of the main loop's body, without drawing. */
    method Step(flap: bool, choice: nat)
      requires Valid() && choice < |PIPE_HEIGHTS|
      modifies this
      ensures Valid()
      ensures birdVel == NextVelocity(old(birdVel), flap)
      ensures bird == Fall(old(bird), birdVel)
      ensures pipes == Spawned(Moved(old(pipes)), choice, pipeWidth, pipeHeight)
      ensures running == (old(running) && !Collides(bird, pipes))
    {
      FrameKeepsInvariant(pipes, choice, pipeWidth, pipeHeight);
      if flap {
        birdVel := FLAP_STRENGTH;
      }
      birdVel := birdVel + GRAVITY;
      bird := Fall(bird, birdVel);
      pipes := MovePipes(pipes);
      if SpawnDue(pipes) {
        var (bottom, top) := CreatePipe(choice, pipeWidth, pipeHeight);
        pipes := pipes + [bottom, top];
      }
      if Collides(bird, pipes) {
        running := false;
      }
    }

    /** `while running:` over a script of frame inputs: frames run until the
        bird hits a pipe or the script ends. */
    method Play(script: seq<FrameInput>) returns (played: nat)
      requires Valid()
      modifies this
      ensures Valid()
      ensures Outcome(FrameState(birdVel, bird, pipes), running, played)
           == Loop(Frame(pipeWidth, pipeHeight), FrameState(old(birdVel), old(bird), old(pipes)), old(running), script, 0)
      ensures played <= |script|
      ensures running ==> old(running) && played == |script|
      ensures !old(running) ==> played == 0
      ensures old(running) && !running ==> 0 < played && Collides(bird, pipes)
      ensures running && 0 < played ==> !Collides(bird, pipes)
      ensures forall n: nat :: 0 < n < played ==>
        !Collides(BirdAfter(old(bird), old(birdVel), Flaps(script[..n])),
                  PipesAfter(old(pipes), Choices(script[..n]), pipeWidth, pipeHeight))
      ensures birdVel == Velocity(old(birdVel), Flaps(script[..played]))
      ensures bird == BirdAfter(old(bird), old(birdVel), Flaps(script[..played]))
      ensures pipes == PipesAfter(old(pipes), Choices(script[..played]), pipeWidth, pipeHeight)
    {
      ghost var start := FrameState(birdVel, bird, pipes);
      ghost var frame := Frame(pipeWidth, pipeHeight);
      played := 0;
      while running && played < |script|
        invariant Valid()
        invariant played <= |script|
        invariant Loop(frame, FrameState(birdVel, bird, pipes), running, script, played)
               == Loop(frame, start, old(running), script, 0)
        decreases |script| - played
      {
        var input := script[played];
        Step(input.flap, input.choice);
        played := played + 1;
      }
      ghost var o := PlayOutcome(start, old(running), script, pipeWidth, pipeHeight);
    }
  }
}
