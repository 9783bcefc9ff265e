/** Properties of the playing loop: the spawn interval, what pausing
    freezes, when the game ends, how the score grows, and an invariant of
    the obstacle queue that every tick keeps. */
module PlayProofs {
  import opened Timing
  import Birds
  import opened Pipes
  import opened Obstacles
  import opened Play

  /** 3000 ms at 60 frames per second is exactly 180 frames, so the
      spawn check's divisor is the whole number 180. */
  lemma SpawnEvery180Frames()
    ensures MsecToFrames(ADD_INTERVAL, FPS) == SPAWN_FRAMES as real
    ensures SPAWN_FRAMES == 180
  {
  }

  /** Every pair is well formed and no further right than the spawn point. */
  ghost predicate InPlay(ps: seq<PipePair>)
  {
    forall i :: 0 <= i < |ps| ==> WellFormed(ps[i]) && ps[i].x <= SPAWN_X
  }

  /** Every pair flagged as scored has been passed. */
  ghost predicate FlagsPassed(ps: seq<PipePair>, birdX: real)
  {
    forall i :: 0 <= i < |ps| ==> ps[i].scoreCounted ==> Passed(ps[i], birdX)
  }

  /** A pair is flagged as scored exactly when it has been passed. */
  ghost predicate FlagsMatch(ps: seq<PipePair>, birdX: real)
  {
    forall i :: 0 <= i < |ps| ==> (ps[i].scoreCounted <==> Passed(ps[i], birdX))
  }

  /** The state invariant of the playing loop: the bird keeps its column;
      every queued pair is well formed and no further right than the spawn
      point; the queue is in screen order; and a pair is flagged as scored
      exactly when the bird has passed it. */
  ghost predicate Inv(s: State)
  {
    && s.bird.x == BIRD_X
    && InPlay(s.pipes)
    && Ordered(s.pipes)
    && FlagsMatch(s.pipes, s.bird.x)
  }

  lemma InitialInv()
    ensures Inv(Initial())
    ensures Initial().bird.y == 240.0 && Birds.Climbing(Initial().bird)
  {
  }

  /** The spawn check keeps the invariant. */
  lemma SpawnKeepsInv(s: State, draw: int)
    requires Inv(s)
    requires SpawnDue(s) ==> ValidDraw(draw)
    ensures Inv(Spawn(s, draw))
  {
    if SpawnDue(s) {
      AppendKeepsOrder(s.pipes, New(draw));
    }
  }

  /** Eviction keeps the queue part of the invariant: it leaves a suffix. */
  lemma EvictKeepsInv(ps: seq<PipePair>, birdX: real)
    requires InPlay(ps) && Ordered(ps) && FlagsMatch(ps, birdX)
    ensures InPlay(Evict(ps)) && Ordered(Evict(ps)) && FlagsMatch(Evict(ps), birdX)
  {
    var k := |ps| - |Evict(ps)|;
    SuffixKeepsInv(ps, k, birdX);
    EvictKeepsOrder(ps);
  }

  lemma SuffixKeepsInv(ps: seq<PipePair>, k: nat, birdX: real)
    requires k <= |ps|
    requires InPlay(ps) && FlagsMatch(ps, birdX)
    ensures InPlay(ps[k..]) && FlagsMatch(ps[k..], birdX)
  {
    forall i | 0 <= i < |ps| - k
      ensures ps[k..][i] == ps[k + i]
    {
    }
  }

  /** Scrolling keeps pairs in play and in order, and a passed pair stays
      passed. */
  lemma MoveAllKeepsInv(ps: seq<PipePair>, birdX: real)
    requires InPlay(ps) && Ordered(ps) && FlagsMatch(ps, birdX)
    ensures InPlay(MoveAll(ps)) && Ordered(MoveAll(ps)) && FlagsPassed(MoveAll(ps), birdX)
  {
    MoveAllKeepsOrder(ps);
  }

  /** The score check turns "flagged implies passed" into "flagged iff
      passed". */
  lemma ScoreKeepsInv(ps: seq<PipePair>, birdX: real)
    requires InPlay(ps) && Ordered(ps) && FlagsPassed(ps, birdX)
    ensures InPlay(ScorePipes(ps, birdX).0)
    ensures Ordered(ScorePipes(ps, birdX).0)
    ensures FlagsMatch(ScorePipes(ps, birdX).0, birdX)
  {
    ScoreKeepsOrder(ps, birdX);
  }

  /** Eviction, scrolling and scoring keep the invariant's queue part. */
  lemma AdvanceKeepsInv(ps: seq<PipePair>, birdX: real)
    requires InPlay(ps) && Ordered(ps) && FlagsMatch(ps, birdX)
    ensures var r := ScorePipes(MoveAll(Evict(ps)), birdX).0;
            InPlay(r) && Ordered(r) && FlagsMatch(r, birdX)
  {
    EvictKeepsInv(ps, birdX);
    MoveAllKeepsInv(Evict(ps), birdX);
    ScoreKeepsInv(MoveAll(Evict(ps)), birdX);
  }

  /** Every tick keeps the invariant. */
  lemma TickKeepsInv(s: State, input: TickInput, cos: real -> real)
    requires Inv(s) && !s.done
    requires Birds.IsCosine(cos)
    requires SpawnDue(s) ==> ValidDraw(input.draw)
    ensures Inv(Tick(s, input, cos))
  {
    var spawned := Spawn(s, input.draw);
    SpawnKeepsInv(s, input.draw);
    var handled := ApplyEvents(spawned, input.events);
    if !handled.paused {
      AdvanceKeepsInv(handled.pipes, handled.bird.x);
    }
  }

  /** Any run of the loop from the initial state keeps the invariant. */
  lemma {:induction false} RunKeepsInv(s: State, inputs: seq<TickInput>, cos: real -> real)
    requires Inv(s)
    requires Birds.IsCosine(cos)
    requires forall i :: 0 <= i < |inputs| ==> ValidDraw(inputs[i].draw)
    ensures Inv(Run(s, inputs, cos))
    decreases |inputs|
  {
    if !s.done && inputs != [] {
      TickKeepsInv(s, inputs[0], cos);
      RunKeepsInv(Tick(s, inputs[0], cos), inputs[1..], cos);
    }
  }

  /** Under the invariant, eviction leaves no off-screen pair behind: the
      pairs a tick moves are all visible when it moves them. */
  lemma EvictionCullsAllOffscreen(s: State, draw: int)
    requires Inv(s)
    requires SpawnDue(s) ==> ValidDraw(draw)
    ensures forall i :: 0 <= i < |Evict(Spawn(s, draw).pipes)| ==> Visible(Evict(Spawn(s, draw).pipes)[i])
  {
    SpawnKeepsInv(s, draw);
    EvictLeavesVisible(Spawn(s, draw).pipes);
  }

  /** A tick that is paused once its events are handled moves nothing,
      scores nothing and leaves the frame clock alone; only a stopping
      event can end the game in it. */
  lemma PausedTickFreezes(s: State, input: TickInput, cos: real -> real)
    requires !s.done
    requires Birds.IsCosine(cos)
    requires SpawnDue(s) ==> ValidDraw(input.draw)
    requires Tick(s, input, cos).paused
    ensures var r := Tick(s, input, cos);
            && r.pipes == Spawn(s, input.draw).pipes
            && r.bird.x == s.bird.x && r.bird.y == s.bird.y
            && r.score == s.score
            && r.frameClock == s.frameClock
            && (r.done <==> StopAt(input.events) < |input.events|)
  {
  }

  /** A tick that starts paused appends no pair. */
  lemma PausedAtSpawnAppendsNothing(s: State, input: TickInput, cos: real -> real)
    requires !s.done && s.paused
    requires Birds.IsCosine(cos)
    ensures |Tick(s, input, cos).pipes| <= |s.pipes|
  {
  }

  /** An unpaused tick appends a fresh pair at the tail exactly when the
      frame clock is a multiple of 180: when due, the queue's last pair is
      the fresh one (moved one frame unless the tick ended paused);
      otherwise the queue does not grow. */
  lemma SpawnOnSchedule(s: State, input: TickInput, cos: real -> real)
    requires Inv(s) && !s.done && !s.paused
    requires Birds.IsCosine(cos)
    requires SpawnDue(s) ==> ValidDraw(input.draw)
    ensures SpawnDue(s) <==> s.frameClock % 180 == 0
    ensures var r := Tick(s, input, cos);
            if SpawnDue(s) then
              && |r.pipes| <= |s.pipes| + 1
              && r.pipes != []
              && r.pipes[|r.pipes| - 1] == (if r.paused then New(input.draw) else Move(New(input.draw), 1.0))
            else
              |r.pipes| <= |s.pipes|
  {
    SpawnEvery180Frames();
    if SpawnDue(s) {
      var sp := Spawn(s, input.draw).pipes;
      var kept := Evict(sp);
      assert Visible(sp[|sp| - 1]);
      assert kept != [] && kept[|kept| - 1] == sp[|sp| - 1];
    }
  }

  /** The game ends in a tick iff a stopping event is handled, or the tick
      is not paused and, with positions from before this tick's movement,
      some queued pair (the one spawned this tick included) collides with
      the bird or the bird is at or past the ceiling or the floor. */
  lemma TickEndsGame(s: State, input: TickInput, cos: real -> real)
    requires !s.done
    requires Birds.IsCosine(cos)
    requires SpawnDue(s) ==> ValidDraw(input.draw)
    ensures var r := Tick(s, input, cos);
            var b := ApplyEvents(Spawn(s, input.draw), input.events).bird;
            && b.x == s.bird.x && b.y == s.bird.y
            && (r.done <==>
                  || StopAt(input.events) < |input.events|
                  || (!r.paused &&
                      (|| PipeCollision(Spawn(s, input.draw).pipes, b, input.collides)
                       || s.bird.y <= 0.0
                       || s.bird.y >= 480.0)))
  {
  }

  /** Jumping: a handled jump restarts the climb, so an unpaused tick
      leaves the bird at its height (the easing starts from rest) and spends
      one frame of the fresh climb; without a jump, a bird with no climb
      left falls 2.5 px. */
  lemma TickMovesBird(s: State, input: TickInput, cos: real -> real)
    requires !s.done
    requires Birds.IsCosine(cos)
    requires SpawnDue(s) ==> ValidDraw(input.draw)
    requires !Tick(s, input, cos).paused
    ensures var r := Tick(s, input, cos);
            if Flap in Handled(input.events) then
              r.bird.y == s.bird.y && r.bird.msecToClimb == Birds.CLIMB_DURATION - 50.0 / 3.0
            else if !Birds.Climbing(s.bird) then
              r.bird.y == s.bird.y + 2.5 && r.bird.msecToClimb == s.bird.msecToClimb
            else
              r.bird.y <= s.bird.y
  {
    if Flap in Handled(input.events) {
      Birds.FirstClimbFrameStill(s.bird, cos);
      OneFrameAtFps();
    }
  }

  /** The pairs a tick leaves, `after`, are the pairs of `before` from
      position `k` on, in order, each moved left by `step` with its pieces
      unchanged and its scored flag never cleared; the `k` pairs dropped
      were all invisible. */
  ghost predicate Tracks(before: seq<PipePair>, after: seq<PipePair>, k: int, step: real)
  {
    && 0 <= k <= |before| && |after| == |before| - k
    && (forall i :: 0 <= i < k ==> !Visible(before[i]))
    && (forall i :: 0 <= i < |after| ==>
          && after[i].x == before[k + i].x - step
          && after[i].topPieces == before[k + i].topPieces
          && after[i].bottomPieces == before[k + i].bottomPieces
          && (before[k + i].scoreCounted ==> after[i].scoreCounted))
  }

  /** Positions in `after` whose scored flag was set by the tick. */
  ghost function Flipped(before: seq<PipePair>, after: seq<PipePair>, k: int): set<int>
  {
    set i | 0 <= i < |after| && 0 <= k + i < |before| && after[i].scoreCounted && !before[k + i].scoreCounted
  }

  /** Position `i` of the suffix of `ps` from `k` on, after scrolling and
      scoring: pair `k + i` of `ps`, moved 3 px and credited. */
  lemma AdvanceAt(ps: seq<PipePair>, k: nat, birdX: real, i: int)
    requires k <= |ps| && 0 <= i < |ps| - k
    ensures var moved := MoveAll(ps[k..]);
            && moved[i] == ps[k + i].(x := ps[k + i].x - 3.0)
            && ScorePipes(moved, birdX).0[i] == Credit(moved[i], birdX)
  {
    assert ps[k..][i] == ps[k + i];
  }

  /** Scrolling and scoring a suffix of `ps` tracks `ps`. */
  lemma SuffixTracks(ps: seq<PipePair>, k: nat, birdX: real)
    requires k <= |ps|
    requires forall i :: 0 <= i < k ==> !Visible(ps[i])
    ensures Tracks(ps, ScorePipes(MoveAll(ps[k..]), birdX).0, k, 3.0)
  {
    var r := ScorePipes(MoveAll(ps[k..]), birdX).0;
    forall i | 0 <= i < |r|
      ensures r[i].x == ps[k + i].x - 3.0
      ensures r[i].topPieces == ps[k + i].topPieces
      ensures r[i].bottomPieces == ps[k + i].bottomPieces
      ensures ps[k + i].scoreCounted ==> r[i].scoreCounted
    {
      AdvanceAt(ps, k, birdX, i);
    }
  }

  /** The points gained scoring a scrolled suffix are its flipped flags. */
  lemma SuffixGain(ps: seq<PipePair>, k: nat, birdX: real)
    requires k <= |ps|
    ensures var r := ScorePipes(MoveAll(ps[k..]), birdX);
            r.1 == |Flipped(ps, r.0, k)|
  {
    var moved := MoveAll(ps[k..]);
    var flipped := Flipped(ps, ScorePipes(moved, birdX).0, k);
    var scoring := ScoringIndices(moved, birdX);
    forall i | i in flipped
      ensures i in scoring
    {
      AdvanceAt(ps, k, birdX, i);
    }
    forall i | i in scoring
      ensures i in flipped
    {
      AdvanceAt(ps, k, birdX, i);
    }
    assert flipped == scoring;
  }

  /** The unpaused queue step (eviction, scrolling, scoring) tracks the
      queue it starts from, and the points it gains are its flipped flags. */
  lemma AdvanceTracks(ps: seq<PipePair>, birdX: real)
    ensures var k := |ps| - |Evict(ps)|;
            var r := ScorePipes(MoveAll(Evict(ps)), birdX);
            Tracks(ps, r.0, k, 3.0) && r.1 == |Flipped(ps, r.0, k)|
  {
    var k := |ps| - |Evict(ps)|;
    assert Evict(ps) == ps[k..];
    SuffixTracks(ps, k, birdX);
    SuffixGain(ps, k, birdX);
  }

  /** Scoring in a tick: the surviving pairs are a suffix of the queue
      after the spawn check, in order, each moved by the same amount (one
      frame, or none if paused); a scored flag is never cleared; and the
      score grows by exactly the number of flags set in this tick. */
  lemma TickScoresFlippedFlags(s: State, input: TickInput, cos: real -> real)
    requires !s.done
    requires Birds.IsCosine(cos)
    requires SpawnDue(s) ==> ValidDraw(input.draw)
    ensures var r := Tick(s, input, cos);
            var sp := Spawn(s, input.draw).pipes;
            exists k :: Tracks(sp, r.pipes, k, if r.paused then 0.0 else 3.0)
                        && r.score == s.score + |Flipped(sp, r.pipes, k)|
  {
    var r := Tick(s, input, cos);
    var sp := Spawn(s, input.draw).pipes;
    TickQueue(s, input, cos);
    if r.paused {
      UnchangedTracks(sp);
    } else {
      AdvanceTracks(sp, r.bird.x);
    }
  }

  /** What a tick does to the queue and the score, stage by stage. */
  lemma TickQueue(s: State, input: TickInput, cos: real -> real)
    requires !s.done
    requires Birds.IsCosine(cos)
    requires SpawnDue(s) ==> ValidDraw(input.draw)
    ensures var r := Tick(s, input, cos);
            var sp := Spawn(s, input.draw).pipes;
            if r.paused then r.pipes == sp && r.score == s.score
            else
              var scored := ScorePipes(MoveAll(Evict(sp)), r.bird.x);
              r.pipes == scored.0 && r.score == s.score + scored.1
  {
  }

  /** A queue left alone tracks itself with nothing flipped. */
  lemma UnchangedTracks(ps: seq<PipePair>)
    ensures Tracks(ps, ps, 0, 0.0) && |Flipped(ps, ps, 0)| == 0
  {
    assert Flipped(ps, ps, 0) == {};
  }


  /** Over any run the score never decreases, and once the game is over no
      further input changes anything. */
  lemma RunScoreMonotone(s: State, a: seq<TickInput>, b: seq<TickInput>, cos: real -> real)
    requires Birds.IsCosine(cos)
    requires forall i :: 0 <= i < |a| ==> ValidDraw(a[i].draw)
    requires forall i :: 0 <= i < |b| ==> ValidDraw(b[i].draw)
    ensures Run(Run(s, a, cos), b, cos).score >= Run(s, a, cos).score >= s.score
    ensures Run(s, a, cos).done ==> Run(Run(s, a, cos), b, cos) == Run(s, a, cos)
  {
  }

  /** A tick with no events and no pixel collision. */
  ghost predicate Quiet(input: TickInput)
  {
    && input.events == []
    && (forall p, b :: !input.collides(p, b))
  }

  /** One quiet tick from inside the window: the bird sinks 2.5 px and the
      game goes on unpaused. */
  lemma QuietTickFalls(s: State, input: TickInput, cos: real -> real)
    requires Birds.IsCosine(cos)
    requires ValidDraw(input.draw) && Quiet(input)
    requires !s.done && !s.paused && !Birds.Climbing(s.bird)
    requires 0.0 < s.bird.y < 480.0
    ensures var r := Tick(s, input, cos);
            && r.bird.y == s.bird.y + 2.5
            && !r.done && !r.paused && !Birds.Climbing(r.bird)
            && r.frameClock == s.frameClock + 1
  {
    var spawned := Spawn(s, input.draw);
    assert ApplyEvents(spawned, input.events) == spawned;
    assert !PipeCollision(spawned.pipes, s.bird, input.collides);
  }

  /** Without input and without touching a pipe, an unpaused bird with no
      climb left falls 2.5 px per tick and the game goes on for as long as
      every tick starts strictly between the ceiling and the floor; the
      frame clock counts the ticks. */
  lemma {:induction false} QuietRunFalls(s: State, inputs: seq<TickInput>, cos: real -> real)
    requires Birds.IsCosine(cos)
    requires forall i :: 0 <= i < |inputs| ==> ValidDraw(inputs[i].draw) && Quiet(inputs[i])
    requires !s.done && !s.paused && !Birds.Climbing(s.bird)
    requires 0.0 < s.bird.y
    requires s.bird.y + 2.5 * (|inputs| as real) < 482.5
    ensures var r := Run(s, inputs, cos);
            && r.bird.y == s.bird.y + 2.5 * (|inputs| as real)
            && !r.done && !r.paused && !Birds.Climbing(r.bird)
            && r.frameClock == s.frameClock + |inputs|
    decreases |inputs|
  {
    if inputs != [] {
      var n := |inputs|;
      var rest := inputs[1..];
      assert 2.5 * (n as real) == 2.5 + 2.5 * (|rest| as real);
      QuietTickFalls(s, inputs[0], cos);
      var t := Tick(s, inputs[0], cos);
      assert forall i :: 0 <= i < |rest| ==> rest[i] == inputs[i + 1];
      QuietRunFalls(t, rest, cos);
      assert Run(s, inputs, cos) == Run(t, rest, cos);
    }
  }
}
