/** The game's top-level constants and the two unit conversions between
    frames and milliseconds that every motion rate goes through.
    Floating-point values are modelled as exact reals. */
module Timing {

  /** Frames per second the play loop is paced at. */
  const FPS: real := 60.0

  /** Horizontal speed of the pipes, in pixels per millisecond. */
  const ANIMATION_SPEED: real := 0.18

  /** Window size in pixels. */
  const WIN_WIDTH: int := 284 * 2
  const WIN_HEIGHT: int := 512

  /** Length in milliseconds of `frames` frames at `fps` frames per second.
      The conversion keeps the sign of its argument at a positive rate. */
  function FramesToMsec(frames: real, fps: real): (ms: real)
    requires fps != 0.0
    ensures fps > 0.0 ==> (ms >= 0.0 <==> frames >= 0.0)
    ensures fps > 0.0 ==> (ms > 0.0 <==> frames > 0.0)
  {
    1000.0 * frames / fps
  }

  /** Number of frames (possibly fractional) that `ms` milliseconds last at
      `fps` frames per second; converting back gives the same duration. */
  function MsecToFrames(ms: real, fps: real): (frames: real)
    ensures fps != 0.0 ==> FramesToMsec(frames, fps) == ms
  {
    fps * ms / 1000.0
  }

  /** The two conversions are mutually inverse: frames survive a round trip
      through milliseconds. */
  lemma FramesRoundTrip(frames: real, fps: real)
    requires fps != 0.0
    ensures MsecToFrames(FramesToMsec(frames, fps), fps) == frames
  {
  }

  /** At the game's frame rate one frame lasts 50/3 ms (about 16.67 ms). */
  lemma OneFrameAtFps()
    ensures FramesToMsec(1.0, FPS) == 50.0 / 3.0
  {
  }
}
