/** Scroll-reactive playback rate of the marquee: every vertical scroll delta
    starts a short "kick" of the timeline's time scale followed by a slower
    "settle", both signed by the scroll direction. */
module Velocity {

  /** A tween of the loop timeline's `timeScale`. */
  datatype RateTween = RateTween(start: real, duration: real, timeScale: real)

  /** The two chained rate changes one scroll event starts. */
  datatype Push = Push(kick: RateTween, settle: RateTween)

  /** The signed factor: negative when scrolling up on a forward marquee or
      down on a reversed one, positive otherwise (including no movement). */
  function Factor(reverse: bool, deltaY: real): (f: real)
    ensures f == 2.5 || f == -2.5
    ensures f == -2.5 <==> (!reverse && deltaY < 0.0) || (reverse && deltaY > 0.0)
  {
    var factor := 2.5;
    if (!reverse && deltaY < 0.0) || (reverse && deltaY > 0.0) then factor * -1.0 else factor
  }

  /** The rate changes for one scroll event: the kick runs for 0.2 s from
      the start; the settle starts 0.3 s after the kick ends and runs 1 s. */
  function OnChangeY(reverse: bool, deltaY: real): (p: Push)
    ensures p.kick.start == 0.0 && p.kick.duration == 0.2
    ensures p.settle.start == p.kick.start + p.kick.duration + 0.3 && p.settle.duration == 1.0
    ensures p.kick.timeScale == 6.25 || p.kick.timeScale == -6.25
    ensures p.settle.timeScale == 1.0 || p.settle.timeScale == -1.0
    ensures p.kick.timeScale == 6.25 * p.settle.timeScale
    ensures p.settle.timeScale < 0.0 <==> (!reverse && deltaY < 0.0) || (reverse && deltaY > 0.0)
  {
    var factor := Factor(reverse, deltaY);
    var kick := RateTween(0.0, 0.2, factor * 2.5);
    Push(kick, RateTween(kick.start + kick.duration + 0.3, 1.0, factor / 2.5))
  }

  /** Reversing the marquee and the scroll direction together gives the same
      push. */
  lemma DirectionSymmetry(reverse: bool, deltaY: real)
    ensures OnChangeY(!reverse, -deltaY) == OnChangeY(reverse, deltaY)
  {
  }
}
