/** The bird: a fixed horizontal position, a vertical position and the
    milliseconds of climb it still has left. While climb time remains it
    rises along an eased curve; otherwise it sinks at a constant rate. */
module Birds {
  import opened Timing

  const WIDTH: int := 32
  const HEIGHT: int := 32

  /** Sinking speed, in pixels per millisecond. */
  const SINK_SPEED: real := 0.15
  /** Peak climbing speed scale, in pixels per millisecond. */
  const CLIMB_SPEED: real := 0.3
  /** Length of the climb a single jump gives, in milliseconds. */
  const CLIMB_DURATION: real := 333.3

  /** The double nearest to pi, which is what the easing multiplies by. */
  const PI: real := 3.141592653589793

  /** Number of one-frame updates a fresh jump climbs for before sinking. */
  const CLIMB_FRAMES: nat := 20

  datatype Bird = Bird(x: real, y: real, msecToClimb: real)

  /** What the model needs of the cosine the easing is computed with: its
      range, and its value at zero. */
  ghost predicate IsCosine(cos: real -> real)
  {
    && (forall t :: -1.0 <= cos(t) <= 1.0)
    && cos(0.0) == 1.0
  }

  predicate Climbing(b: Bird)
  {
    b.msecToClimb > 0.0
  }

  /** Fraction of the current climb already done: 0 right after a jump. */
  function ClimbProgress(b: Bird): real
  {
    1.0 - b.msecToClimb / CLIMB_DURATION
  }

  /** Advances the bird by `frames` frames. A climbing bird never moves
      down and rises by at most 10 px per frame (twice CLIMB_SPEED per
      elapsed millisecond),
      spending the elapsed time from its climb budget; a sinking bird never
      moves up and keeps its (exhausted) climb budget. */
  function Update(b: Bird, cos: real -> real, frames: real): (r: Bird)
    requires IsCosine(cos)
    ensures r.x == b.x
    ensures Climbing(b) ==> r.msecToClimb == b.msecToClimb - FramesToMsec(frames, FPS)
    ensures !Climbing(b) ==> r.msecToClimb == b.msecToClimb
    ensures frames >= 0.0 && Climbing(b) ==>
              b.y - 10.0 * frames <= r.y <= b.y
    ensures frames >= 0.0 && !Climbing(b) ==> r.y >= b.y
    ensures frames == 1.0 && !Climbing(b) ==> r.y == b.y + 2.5
  {
    var elapsed := FramesToMsec(frames, FPS);
    if Climbing(b) then
      var ease := 1.0 - cos(ClimbProgress(b) * PI);
      assert 0.0 <= ease <= 2.0;
      var eased := elapsed * ease;
      assert frames >= 0.0 ==> elapsed >= 0.0;
      ProductBounds(elapsed, ease);
      assert CLIMB_SPEED * (2.0 * elapsed) == 10.0 * frames;
      b.(y := b.y - CLIMB_SPEED * eased, msecToClimb := b.msecToClimb - elapsed)
    else
      b.(y := b.y + SINK_SPEED * elapsed)
  }

  /** For a non-negative `a` and `e` in [0, 2], `a * e` lies in [0, 2a]. */
  lemma ProductBounds(a: real, e: real)
    requires 0.0 <= e <= 2.0
    ensures a >= 0.0 ==> 0.0 <= a * e <= 2.0 * a
  {
  }

  /** A jump restarts the climb with the full duration, whatever was left. */
  function Jump(b: Bird): (r: Bird)
    ensures r.x == b.x && r.y == b.y
    ensures Climbing(r) && ClimbProgress(r) == 0.0
  {
    b.(msecToClimb := CLIMB_DURATION)
  }

  /** Jumping is not additive: a jump overrides any climb in progress, so
      two birds at the same place jump into the same state. */
  lemma JumpOverridesClimb(b: Bird, c: Bird)
    requires b.x == c.x && b.y == c.y
    ensures Jump(b) == Jump(c)
    ensures Jump(Jump(b)) == Jump(b)
  {
  }

  /** `n` successive one-frame updates. */
  function UpdateN(b: Bird, cos: real -> real, n: nat): Bird
    requires IsCosine(cos)
  {
    if n == 0 then b else Update(UpdateN(b, cos, n - 1), cos, 1.0)
  }

  /** The easing starts from rest: the first frame after a jump leaves the
      bird where it was. */
  lemma FirstClimbFrameStill(b: Bird, cos: real -> real)
    requires IsCosine(cos)
    ensures Update(Jump(b), cos, 1.0).y == b.y
  {
    assert ClimbProgress(Jump(b)) * PI == 0.0;
  }

  /** During the first CLIMB_FRAMES frames after a jump the bird spends
      50/3 ms of climb per frame and never goes lower than where it jumped. */
  lemma {:induction false} ClimbAfterJump(b: Bird, cos: real -> real, k: nat)
    requires IsCosine(cos)
    requires k <= CLIMB_FRAMES
    ensures UpdateN(Jump(b), cos, k).msecToClimb == CLIMB_DURATION - (k as real) * (50.0 / 3.0)
    ensures UpdateN(Jump(b), cos, k).y <= b.y
    ensures UpdateN(Jump(b), cos, k).x == b.x
  {
    if k > 0 {
      ClimbAfterJump(b, cos, k - 1);
      var prev := UpdateN(Jump(b), cos, k - 1);
      assert Climbing(prev);
      OneFrameAtFps();
    }
  }

  /** A jump gives exactly CLIMB_FRAMES climbing frames: the bird is still
      climbing before each of the first CLIMB_FRAMES updates and sinks from
      then on. */
  lemma JumpClimbsTwentyFrames(b: Bird, cos: real -> real, k: nat)
    requires IsCosine(cos)
    ensures k < CLIMB_FRAMES ==> Climbing(UpdateN(Jump(b), cos, k))
    ensures k == CLIMB_FRAMES ==> !Climbing(UpdateN(Jump(b), cos, k))
  {
    if k <= CLIMB_FRAMES {
      ClimbAfterJump(b, cos, k);
    }
  }

  /** Without a jump, a sinking bird falls exactly 2.5 px per frame. */
  lemma {:induction false} SinkingFallsSteadily(b: Bird, cos: real -> real, n: nat)
    requires IsCosine(cos)
    requires !Climbing(b)
    ensures UpdateN(b, cos, n) == b.(y := b.y + 2.5 * (n as real))
  {
    if n > 0 {
      SinkingFallsSteadily(b, cos, n - 1);
    }
  }
}
