/** A pipe pair: a top stack hanging from the ceiling and a bottom stack
    standing on the floor, built from 32 px pieces, with a gap between
    them that the bird must fly through. The pair scrolls leftwards and
    remembers whether it has already been scored. */
module Pipes {
  import opened Timing
  import Birds

  const WIDTH: int := 80
  const PIECE_HEIGHT: int := 32

  /** Milliseconds between two new pipe pairs. */
  const ADD_INTERVAL: real := 3000.0

  /** Body pieces shared between the two stacks, end caps not counted:
      whatever is left of the window once three bird heights and three
      piece heights are set aside. */
  const TOTAL_BODY_PIECES: int :=
    (WIN_HEIGHT - 3 * Birds.HEIGHT - 3 * PIECE_HEIGHT) / PIECE_HEIGHT

  /** Where every new pipe pair starts: one pixel inside the right edge. */
  const SPAWN_X: real := (WIN_WIDTH - 1) as real

  /** Height in pixels of the opening between the two stacks. */
  const GAP_PX: int := 128

  /** `topPieces` and `bottomPieces` include each stack's end cap. */
  datatype PipePair = PipePair(x: real, topPieces: int, bottomPieces: int, scoreCounted: bool)

  /** The range the random bottom-stack size is drawn from. */
  predicate ValidDraw(d: int)
  {
    1 <= d <= TOTAL_BODY_PIECES
  }

  /** The piece counts every constructed pair has: the counts with their
      end caps add up to two more than the body pieces, the bottom stack
      always has at least one body piece, and the top stack may be only
      its end cap. */
  predicate WellFormed(p: PipePair)
  {
    && p.topPieces + p.bottomPieces == TOTAL_BODY_PIECES + 2
    && 1 <= p.topPieces
    && 2 <= p.bottomPieces
  }

  /** A fresh pipe pair whose bottom stack has `bottomDraw` body pieces. */
  function New(bottomDraw: int): (p: PipePair)
    requires ValidDraw(bottomDraw)
    ensures WellFormed(p)
    ensures p.bottomPieces == bottomDraw + 1
    ensures p.topPieces == TOTAL_BODY_PIECES - bottomDraw + 1
    ensures p.x == SPAWN_X && !p.scoreCounted
  {
    var bottom := bottomDraw;
    var top := TOTAL_BODY_PIECES - bottom;
    // each stack gets an end cap at its mouth
    PipePair(SPAWN_X, top + 1, bottom + 1, false)
  }

  /** The random draw a pair was built from. */
  function DrawOf(p: PipePair): int
  {
    p.bottomPieces - 1
  }

  /** The total number of body pieces is ten, so a draw is one of 1..10. */
  lemma TotalBodyPiecesIsTen()
    ensures TOTAL_BODY_PIECES == 10
    ensures ValidDraw(1) && ValidDraw(10) && !ValidDraw(0) && !ValidDraw(11)
  {
  }

  /** Construction and DrawOf are inverse: every draw gives a different
      pair, and every well-formed pair at the spawn point, not yet scored,
      comes from exactly one draw. */
  lemma DrawRoundTrip(d: int, p: PipePair)
    requires ValidDraw(d)
    ensures DrawOf(New(d)) == d
    ensures WellFormed(p) && p.x == SPAWN_X && !p.scoreCounted ==>
              ValidDraw(DrawOf(p)) && New(DrawOf(p)) == p
  {
  }

  function TopHeightPx(p: PipePair): int
  {
    p.topPieces * PIECE_HEIGHT
  }

  function BottomHeightPx(p: PipePair): int
  {
    p.bottomPieces * PIECE_HEIGHT
  }

  /** Row `y` is covered by the top stack. */
  predicate InTopStack(p: PipePair, y: int)
  {
    0 <= y < TopHeightPx(p)
  }

  /** Row `y` is covered by the bottom stack. */
  predicate InBottomStack(p: PipePair, y: int)
  {
    WIN_HEIGHT - BottomHeightPx(p) <= y < WIN_HEIGHT
  }

  /** The gap is the same for every pair: the rows of the window covered
      by neither stack are exactly GAP_PX = 128 consecutive rows starting
      under the top stack, the stacks do not overlap, and the gap is at
      least as tall as the bird. */
  lemma GapIsConstant(p: PipePair, y: int)
    requires WellFormed(p)
    ensures 0 < TopHeightPx(p) < WIN_HEIGHT - BottomHeightPx(p) < WIN_HEIGHT
    ensures WIN_HEIGHT - BottomHeightPx(p) - TopHeightPx(p) == GAP_PX
    ensures GAP_PX >= Birds.HEIGHT
    ensures 0 <= y < WIN_HEIGHT ==>
              (!InTopStack(p, y) && !InBottomStack(p, y) <==> TopHeightPx(p) <= y < TopHeightPx(p) + GAP_PX)
    ensures !(InTopStack(p, y) && InBottomStack(p, y))
  {
  }

  /** Any part of the pair overlaps the window horizontally. */
  predicate Visible(p: PipePair)
  {
    -(WIDTH as real) < p.x < WIN_WIDTH as real
  }

  /** Scrolls the pair left by `frames` frames: 3 px per frame. */
  function Move(p: PipePair, frames: real): (r: PipePair)
    ensures r == p.(x := p.x - 3.0 * frames)
  {
    p.(x := p.x - ANIMATION_SPEED * FramesToMsec(frames, FPS))
  }

  /** `n` successive one-frame moves. */
  function MoveN(p: PipePair, n: nat): PipePair
  {
    if n == 0 then p else Move(MoveN(p, n - 1), 1.0)
  }

  lemma {:induction false} MoveNPosition(p: PipePair, n: nat)
    ensures MoveN(p, n) == p.(x := p.x - 3.0 * (n as real))
  {
    if n > 0 {
      MoveNPosition(p, n - 1);
    }
  }

  /** A pair that has scrolled off the left edge stays invisible for ever. */
  lemma GoneForGood(p: PipePair, n: nat)
    requires p.x <= -(WIDTH as real)
    ensures !Visible(MoveN(p, n))
  {
    MoveNPosition(p, n);
  }

  /** A fresh pair is visible, and stays visible for exactly its first 216
      frames: it turns invisible once, and for good. */
  lemma VisibleLifetime(d: int, n: nat)
    requires ValidDraw(d)
    ensures Visible(New(d))
    ensures Visible(MoveN(New(d), n)) <==> n < 216
  {
    MoveNPosition(New(d), n);
  }

  /** The pair's right edge is left of `birdX`: the bird has flown past it. */
  predicate Passed(p: PipePair, birdX: real)
  {
    p.x + WIDTH as real < birdX
  }

  /** The pair earns a point now: passed, and not scored before. */
  predicate Scores(p: PipePair, birdX: real)
  {
    Passed(p, birdX) && !p.scoreCounted
  }

  /** The pair after the score check: flagged once passed. */
  function Credit(p: PipePair, birdX: real): (r: PipePair)
    ensures r.x == p.x && r.topPieces == p.topPieces && r.bottomPieces == p.bottomPieces
    ensures r.scoreCounted <==> p.scoreCounted || Passed(p, birdX)
    ensures Passed(r, birdX) ==> !Scores(r, birdX)
  {
    if Scores(p, birdX) then p.(scoreCounted := true) else p
  }
}
