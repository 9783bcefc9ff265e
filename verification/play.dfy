/** One tick of the playing loop as a pure state transition. The random
    draw, the input events of the tick, the pixel-mask collision test and
    the cosine used by the easing come in as parameters; rendering and
    frame pacing are left out. */
module Play {
  import opened Timing
  import Birds
  import opened Pipes
  import opened Obstacles

  /** The bird's fixed column and its starting row, centred vertically. */
  const BIRD_X: real := 50.0
  const BIRD_START_Y: int := WIN_HEIGHT / 2 - Birds.HEIGHT / 2
  /** Climb budget the bird starts with, so it does not drop from frame 0. */
  const BIRD_START_CLIMB: real := 2.0

  /** Frames between two spawns: ADD_INTERVAL converted to frames. */
  const SPAWN_FRAMES: int := MsecToFrames(ADD_INTERVAL, FPS).Floor

  /** Keys the loop distinguishes. */
  datatype Key = Escape | Pause | KeyP | Up | Return | Space | OtherKey

  /** Input events as the loop sees them. */
  datatype Event = Quit | KeyUp(key: Key) | KeyDown(key: Key) | MouseButtonUp | OtherEvent

  /** What the loop does with one event. */
  datatype Action = Stop | TogglePause | Flap | Ignore

  /** Everything the outside world contributes to one tick: the events
      polled, the random bottom-stack draw (used only if a pair is spawned)
      and the pixel-mask collision test between a pair and the bird. */
  datatype TickInput = TickInput(events: seq<Event>, draw: int, collides: (PipePair, Birds.Bird) -> bool)

  datatype State = State(
    bird: Birds.Bird,
    pipes: seq<PipePair>,
    frameClock: nat,
    score: nat,
    paused: bool,
    done: bool)

  /** The state the playing loop starts in. */
  function Initial(): State
  {
    State(Birds.Bird(BIRD_X, BIRD_START_Y as real, BIRD_START_CLIMB), [], 0, 0, false, false)
  }

  /** Window close and Escape stop; Pause and P toggle pausing; a mouse
      click and Up, Return and Space make the bird jump; anything else,
      key presses included, is ignored. */
  function ActionOf(e: Event): (r: Action)
    ensures r == Stop <==> e == Quit || e == KeyUp(Escape)
    ensures r == TogglePause <==> e == KeyUp(Pause) || e == KeyUp(KeyP)
    ensures r == Flap <==> e == MouseButtonUp || e == KeyUp(Up) || e == KeyUp(Return) || e == KeyUp(Space)
    ensures e.KeyDown? || e.OtherEvent? ==> r == Ignore
  {
    match e
    case Quit => Stop
    case KeyUp(k) =>
      if k == Escape then Stop
      else if k == Pause || k == KeyP then TogglePause
      else if k == Up || k == Return || k == Space then Flap
      else Ignore
    case KeyDown(_) => Ignore
    case MouseButtonUp => Flap
    case OtherEvent => Ignore
  }

  function Actions(events: seq<Event>): seq<Action>
  {
    seq(|events|, i requires 0 <= i < |events| => ActionOf(events[i]))
  }

  /** Position of the first stopping event, or the number of events if
      there is none: the events before it are the ones that take effect. */
  function StopAt(events: seq<Event>): (k: nat)
    ensures k <= |events|
    ensures forall i :: 0 <= i < k ==> ActionOf(events[i]) != Stop
    ensures k < |events| ==> ActionOf(events[k]) == Stop
  {
    if events == [] || ActionOf(events[0]) == Stop then 0 else 1 + StopAt(events[1..])
  }

  /** The actions of the events that are handled before any stop. */
  function Handled(events: seq<Event>): seq<Action>
  {
    Actions(events[..StopAt(events)])
  }

  /** Applies the tick's events in order, abandoning the rest at the first
      stopping event. The game is over iff some event stops it; pausing
      flips once per pause key handled; the bird has jumped iff some jump
      was handled; nothing else changes. */
  function ApplyEvents(s: State, events: seq<Event>): (r: State)
    ensures r.pipes == s.pipes && r.frameClock == s.frameClock && r.score == s.score
    ensures r.done <==> s.done || StopAt(events) < |events|
    ensures r.paused <==> (s.paused != (multiset(Handled(events))[TogglePause] % 2 == 1))
    ensures r.bird == if Flap in Handled(events) then Birds.Jump(s.bird) else s.bird
    decreases |events|
  {
    if events == [] then s
    else
      var rest := events[1..];
      match ActionOf(events[0])
      case Stop => s.(done := true)
      case TogglePause =>
        HandledCons(events);
        FlipParity(multiset(Handled(rest))[TogglePause]);
        ApplyEvents(s.(paused := !s.paused), rest)
      case Flap => HandledCons(events); ApplyEvents(s.(bird := Birds.Jump(s.bird)), rest)
      case Ignore => HandledCons(events); ApplyEvents(s, rest)
  }

  /** One more toggle flips the parity. */
  lemma FlipParity(n: nat)
    ensures (n + 1) % 2 == 1 <==> n % 2 != 1
  {
  }

  /** Before the first stop, the handled actions are the head's action
      followed by those handled in the rest, and the pause count grows by
      one exactly when the head toggles pausing. */
  lemma HandledCons(events: seq<Event>)
    requires events != [] && ActionOf(events[0]) != Stop
    ensures Handled(events) == [ActionOf(events[0])] + Handled(events[1..])
    ensures multiset(Handled(events))[TogglePause] ==
            multiset(Handled(events[1..]))[TogglePause] + (if ActionOf(events[0]) == TogglePause then 1 else 0)
    ensures Flap in Handled(events) <==> ActionOf(events[0]) == Flap || Flap in Handled(events[1..])
  {
    var k := StopAt(events);
    assert k == 1 + StopAt(events[1..]);
    assert events[..k][1..] == events[1..][..k - 1];
  }

  /** A pair is spawned at this tick's spawn check: not paused, and the
      frame clock is a multiple of the spawn interval. */
  predicate SpawnDue(s: State)
  {
    !s.paused && s.frameClock % SPAWN_FRAMES == 0
  }

  /** The spawn check: the queue grows by one exactly when the game is not
      paused and the frame clock is a multiple of 180; the queued pairs are
      kept, and the newcomer at the tail is built from the draw. */
  function Spawn(s: State, draw: int): (r: State)
    requires SpawnDue(s) ==> ValidDraw(draw)
    ensures |r.pipes| == |s.pipes| + (if !s.paused && s.frameClock % 180 == 0 then 1 else 0)
    ensures r.pipes[..|s.pipes|] == s.pipes
    ensures |r.pipes| > |s.pipes| ==> r.pipes[|s.pipes|] == New(draw)
    ensures SpawnDue(s) ==> r.pipes == s.pipes + [New(draw)]
    ensures !SpawnDue(s) ==> r.pipes == s.pipes
    ensures r.bird == s.bird && r.frameClock == s.frameClock && r.score == s.score
    ensures r.paused == s.paused && r.done == s.done
  {
    if SpawnDue(s) then s.(pipes := s.pipes + [New(draw)]) else s
  }

  /** The bird touches the ceiling or the floor. */
  predicate OutOfBounds(b: Birds.Bird)
  {
    0.0 >= b.y || b.y >= (WIN_HEIGHT - Birds.HEIGHT) as real
  }

  /** Some queued pair collides with the bird. */
  predicate PipeCollision(ps: seq<PipePair>, b: Birds.Bird, collides: (PipePair, Birds.Bird) -> bool)
  {
    exists i :: 0 <= i < |ps| && collides(ps[i], b)
  }

  /** One tick: spawn check, events, and, unless paused, the termination
      test (on positions from before this tick's movement), eviction,
      movement of pairs and bird, scoring and the frame clock. A tick never
      moves the bird sideways, never lowers the score and advances the
      frame clock by at most one. */
  function Tick(s: State, input: TickInput, cos: real -> real): (r: State)
    requires !s.done
    requires Birds.IsCosine(cos)
    requires SpawnDue(s) ==> ValidDraw(input.draw)
    ensures r.bird.x == s.bird.x
    ensures r.score >= s.score
    ensures r.frameClock == s.frameClock + (if r.paused then 0 else 1)
  {
    var spawned := Spawn(s, input.draw);
    var handled := ApplyEvents(spawned, input.events);
    if handled.paused then handled
    else
      var hit := PipeCollision(handled.pipes, handled.bird, input.collides) || OutOfBounds(handled.bird);
      var bird := Birds.Update(handled.bird, cos, 1.0);
      var scored := ScorePipes(MoveAll(Evict(handled.pipes)), bird.x);
      State(bird, scored.0, handled.frameClock + 1, handled.score + scored.1, false, handled.done || hit)
  }

  /** Runs ticks for as long as the game is not over and input remains.
      The score and the frame clock never go down, and a finished game
      stays as it is. */
  function Run(s: State, inputs: seq<TickInput>, cos: real -> real): (r: State)
    requires Birds.IsCosine(cos)
    requires forall i :: 0 <= i < |inputs| ==> ValidDraw(inputs[i].draw)
    ensures r.score >= s.score && r.frameClock >= s.frameClock
    ensures r.bird.x == s.bird.x
    ensures s.done ==> r == s
    decreases |inputs|
  {
    if s.done || inputs == [] then s else Run(Tick(s, inputs[0], cos), inputs[1..], cos)
  }
}
