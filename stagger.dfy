/**
 * Staggered entrances, shared by the word and character reveals: item `i`
 * starts `delay + i * stagger` frames in, and its spring is driven by the
 * frames elapsed since then, never by a negative count.
 */
module Stagger {
  import Js

  /** `wordDelay` and `charDelay`. */
  function StartFrame(delay: real, stagger: real, i: nat): real
  {
    delay + i as real * stagger
  }

  /** `Math.max(0, frame - start)`: the frame handed to the spring. */
  function SpringFrame(frame: real, start: real): (f: real)
    ensures f >= 0.0
    ensures f == 0.0 <==> frame <= start
    ensures frame > start ==> f == frame - start
  {
    Js.RealMax(0.0, frame - start)
  }

  lemma ScaleMonotone(a: real, b: real, s: real)
    requires a <= b && s >= 0.0
    ensures a * s <= b * s
    ensures a < b && s > 0.0 ==> a * s < b * s
  {
    assert b * s - a * s == (b - a) * s;
  }

  /**
   * Later items start later: strictly with a positive stagger, never earlier
   * with a non-negative one, and consecutive starts are exactly one stagger
   * apart.
   */
  lemma StartsInOrder(delay: real, stagger: real, i: nat, j: nat)
    requires i <= j
    ensures stagger >= 0.0 ==> StartFrame(delay, stagger, i) <= StartFrame(delay, stagger, j)
    ensures stagger > 0.0 && i < j ==> StartFrame(delay, stagger, i) < StartFrame(delay, stagger, j)
    ensures StartFrame(delay, stagger, i + 1) - StartFrame(delay, stagger, i) == stagger
  {
    if stagger >= 0.0 {
      ScaleMonotone(i as real, j as real, stagger);
    }
  }

  /** An item whose start has not come yet sits at spring frame 0; from then on its spring frame grows with the frame. */
  lemma SpringFrameMonotone(f1: real, f2: real, start: real)
    requires f1 <= f2
    ensures SpringFrame(f1, start) <= SpringFrame(f2, start)
  {
  }
}
