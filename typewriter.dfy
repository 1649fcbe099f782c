/**
 * The typewriter reveal: how many characters of a text are shown at a frame,
 * with an optional pause after a given number of characters, and when the
 * caret is drawn.
 */
module Typewriter {
  import opened Wrappers
  import Js

  /** `progress`: the frames elapsed since the reveal started, never negative. */
  function Progress(frame: int, delay: real): (p: real)
    ensures p >= 0.0
    ensures p == 0.0 <==> frame as real <= delay
    ensures frame as real > delay ==> p == frame as real - delay
  {
    Js.RealMax(0.0, frame as real - delay)
  }

  /**
   * `progress <= framesForFirstPart`, where `framesForFirstPart` is
   * `charsBeforePause / speed`: dividing by a zero speed gives +Infinity, which
   * every progress is below.
   */
  predicate InFirstPart(progress: real, chars: int, speed: real)
  {
    speed == 0.0 || progress <= chars as real / speed
  }

  /** `charCount`: the number of characters shown after `progress` frames. */
  function CharCount(progress: real, speed: real, pauseAfter: Option<int>, pauseDuration: real): int
  {
    if pauseAfter.Some? && pauseAfter.value > 0 then
      var chars := pauseAfter.value;
      if InFirstPart(progress, chars, speed) then (progress * speed).Floor
      else if progress <= chars as real / speed + pauseDuration then chars
      else
        var remaining := progress - chars as real / speed - pauseDuration;
        chars + (remaining * speed).Floor
    else (progress * speed).Floor
  }

  /** `currentText`: the first `min(charCount, text.length)` characters, through `slice`. */
  function CurrentText(text: string, charCount: int): (r: string)
    ensures r <= text
    ensures charCount >= 0 ==> |r| == Js.Min(charCount, |text|)
  {
    Js.Slice(text, Js.Min(charCount, |text|))
  }

  /** `showCursor`. */
  predicate ShowCursor(cursor: bool, charCount: int, text: string, frame: nat, fps: nat)
    requires fps > 0
  {
    cursor && (charCount < |text| || (frame % fps) as real < fps as real / 2.0)
  }

  /** Before the start frame nothing is typed and nothing is shown. */
  lemma BeforeStart(frame: int, delay: real, speed: real, pauseAfter: Option<int>, pauseDuration: real, text: string)
    requires frame as real <= delay
    requires speed >= 0.0
    ensures Progress(frame, delay) == 0.0
    ensures CharCount(Progress(frame, delay), speed, pauseAfter, pauseDuration) == 0
    ensures CurrentText(text, CharCount(Progress(frame, delay), speed, pauseAfter, pauseDuration)) == []
  {
    if pauseAfter.Some? && pauseAfter.value > 0 && speed > 0.0 {
      assert pauseAfter.value as real / speed > 0.0;
    }
  }

  /** Without a pause, the count is the progress times the speed, rounded down. */
  lemma NoPause(progress: real, speed: real, pauseAfter: Option<int>, pauseDuration: real)
    requires pauseAfter.None? || pauseAfter.value <= 0
    ensures CharCount(progress, speed, pauseAfter, pauseDuration) == (progress * speed).Floor
  {
  }

  /** During the pause the count stays exactly at `pauseAfter`. */
  lemma DuringPause(progress: real, speed: real, n: int, pauseDuration: real)
    requires speed > 0.0 && n > 0
    requires n as real / speed < progress <= n as real / speed + pauseDuration
    ensures CharCount(progress, speed, Some(n), pauseDuration) == n
  {
  }

  /** After the pause, typing resumes from `pauseAfter` at the same speed, the pause subtracted from the progress. */
  lemma AfterPause(progress: real, speed: real, n: int, pauseDuration: real)
    requires speed > 0.0 && n > 0 && pauseDuration >= 0.0
    requires progress > n as real / speed + pauseDuration
    ensures CharCount(progress, speed, Some(n), pauseDuration) ==
              n + ((progress - n as real / speed - pauseDuration) * speed).Floor
  {
  }

  lemma MulMonotone(x: real, y: real, s: real)
    requires x <= y && s >= 0.0
    ensures x * s <= y * s
  {
    assert y * s - x * s == (y - x) * s;
  }

  lemma FloorMonotone(x: real, y: real)
    requires x <= y
    ensures x.Floor <= y.Floor
  {
  }

  /** Through the first part the count is the progress times the speed, rounded down, and reaches at most `pauseAfter`. */
  lemma FirstPartAtMost(p: real, speed: real, n: int, pauseDuration: real)
    requires speed > 0.0 && n > 0
    requires 0.0 <= p <= n as real / speed
    ensures CharCount(p, speed, Some(n), pauseDuration) == (p * speed).Floor
    ensures CharCount(p, speed, Some(n), pauseDuration) <= n
  {
    MulMonotone(p, n as real / speed, speed);
    assert (n as real / speed) * speed == n as real;
    FloorMonotone(p * speed, n as real);
  }

  /** After the pause the count is never below `pauseAfter`. */
  lemma AfterPauseAtLeast(p: real, speed: real, n: int, pauseDuration: real)
    requires speed > 0.0 && n > 0 && pauseDuration >= 0.0
    requires p > n as real / speed + pauseDuration
    ensures CharCount(p, speed, Some(n), pauseDuration) >= n
  {
    AfterPause(p, speed, n, pauseDuration);
    var r := p - n as real / speed - pauseDuration;
    MulMonotone(0.0, r, speed);
    FloorMonotone(0.0, r * speed);
  }

  /**
   * With a positive speed and a pause that does not run backwards, the count
   * never goes down as the progress grows: the first part ends exactly at
   * `pauseAfter` characters, the pause holds it there, and the rest starts
   * from it.
   */
  lemma {:induction false} CharCountMonotone(p1: real, p2: real, speed: real, pauseAfter: Option<int>, pauseDuration: real)
    requires 0.0 <= p1 <= p2
    requires speed > 0.0 && pauseDuration >= 0.0
    ensures CharCount(p1, speed, pauseAfter, pauseDuration) <= CharCount(p2, speed, pauseAfter, pauseDuration)
  {
    MulMonotone(p1, p2, speed);
    FloorMonotone(p1 * speed, p2 * speed);
    if pauseAfter.Some? && pauseAfter.value > 0 {
      var n := pauseAfter.value;
      var first := n as real / speed;
      if p2 <= first {
        FirstPartAtMost(p1, speed, n, pauseDuration);
        FirstPartAtMost(p2, speed, n, pauseDuration);
      } else if p1 > first + pauseDuration {
        AfterPause(p1, speed, n, pauseDuration);
        AfterPause(p2, speed, n, pauseDuration);
        MulMonotone(p1 - first - pauseDuration, p2 - first - pauseDuration, speed);
        FloorMonotone((p1 - first - pauseDuration) * speed, (p2 - first - pauseDuration) * speed);
      } else {
        // `p1` is at most the end of the pause and `p2` is past the first part.
        if p1 <= first {
          FirstPartAtMost(p1, speed, n, pauseDuration);
        } else {
          DuringPause(p1, speed, n, pauseDuration);
        }
        if p2 <= first + pauseDuration {
          DuringPause(p2, speed, n, pauseDuration);
        } else {
          AfterPauseAtLeast(p2, speed, n, pauseDuration);
        }
      }
    } else {
      NoPause(p1, speed, pauseAfter, pauseDuration);
      NoPause(p2, speed, pauseAfter, pauseDuration);
    }
  }

  /** The count never goes down as the frame grows. */
  lemma CharCountMonotoneInFrame(f1: int, f2: int, delay: real, speed: real, pauseAfter: Option<int>, pauseDuration: real)
    requires f1 <= f2
    requires speed > 0.0 && pauseDuration >= 0.0
    ensures CharCount(Progress(f1, delay), speed, pauseAfter, pauseDuration) <=
            CharCount(Progress(f2, delay), speed, pauseAfter, pauseDuration)
  {
    CharCountMonotone(Progress(f1, delay), Progress(f2, delay), speed, pauseAfter, pauseDuration);
  }

  /**
   * While the text is still being typed the caret is always drawn; once it is
   * complete the caret blinks, drawn during the first half of every second.
   */
  lemma CursorBlinks(charCount: int, text: string, frame: nat, fps: nat)
    requires fps > 0
    ensures !ShowCursor(false, charCount, text, frame, fps)
    ensures charCount < |text| ==> ShowCursor(true, charCount, text, frame, fps)
    ensures charCount >= |text| ==> (ShowCursor(true, charCount, text, frame, fps) <==> 2 * (frame % fps) < fps)
  {
  }
}
