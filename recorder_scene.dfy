/**
 * The recorder's elapsed-time readout: the frame number shown as
 * minutes, seconds and hundredths, `MM:SS.CC`.
 */
module RecorderScene {
  import Js

  /** `seconds`: whole seconds elapsed at `frame`. */
  function Seconds(frame: nat, fps: nat): (s: nat)
    requires fps > 0
    ensures s * fps <= frame < s * fps + fps
  {
    frame / fps
  }

  /**
   * `centiseconds`: hundredths of a second elapsed within the current second,
   * taken with exact arithmetic, always a two-digit value.
   */
  function Centiseconds(frame: nat, fps: nat): (cs: nat)
    requires fps > 0
    ensures cs < 100
    ensures cs * fps <= (frame % fps) * 100 < cs * fps + fps
  {
    CentiBound(frame % fps, fps);
    (frame % fps) * 100 / fps
  }

  lemma CentiBound(r: nat, fps: nat)
    requires r < fps
    ensures r * 100 / fps < 100
    ensures (r * 100 / fps) * fps <= r * 100 < (r * 100 / fps) * fps + fps
  {
    var q := r * 100 / fps;
    assert q * fps <= r * 100 < 100 * fps;
    CancelFactor(q, 100, fps);
  }

  /** Cancelling a positive factor from a strict inequality of products. */
  lemma CancelFactor(a: int, b: int, c: int)
    requires c > 0 && a * c < b * c
    ensures a < b
  {
    assert a * c - b * c == (a - b) * c;
  }

  /**
   * `timerStr`: minutes, a colon, seconds within the minute, a point, and
   * hundredths. `TimerLayout` states where each field sits and that each reads
   * back as the value it was written from.
   */
  function TimerString(frame: nat, fps: nat): (r: string)
    requires fps > 0
    ensures |r| >= 8
  {
    var seconds := Seconds(frame, fps);
    Js.PadTwo(seconds / 60) + ":" + Js.PadTwo(seconds % 60) + "." + Js.PadTwo(Centiseconds(frame, fps))
  }

  /**
   * The seconds field is the remainder within the minute, and the minutes and
   * that field together give back the whole seconds.
   */
  lemma MinutesAndSeconds(frame: nat, fps: nat)
    requires fps > 0
    ensures 0 <= Seconds(frame, fps) % 60 <= 59
    ensures (Seconds(frame, fps) / 60) * 60 + Seconds(frame, fps) % 60 == Seconds(frame, fps)
  {
  }

  /**
   * Below 100 minutes the readout is eight characters, `MM:SS.CC`, with the
   * colon at index 2 and the point at index 5, and each field is two decimal
   * digits that read back as the minutes, the seconds within the minute and
   * the hundredths.
   */
  lemma TimerLayout(frame: nat, fps: nat)
    requires fps > 0
    requires Seconds(frame, fps) / 60 < 100
    ensures |TimerString(frame, fps)| == 8
    ensures TimerString(frame, fps)[2] == ':' && TimerString(frame, fps)[5] == '.'
    ensures Js.IsDecimal(TimerString(frame, fps)[..2]) && Js.IsDecimal(TimerString(frame, fps)[3..5]) &&
            Js.IsDecimal(TimerString(frame, fps)[6..])
    ensures Js.ParseInt(TimerString(frame, fps)[..2]) == Seconds(frame, fps) / 60
    ensures Js.ParseInt(TimerString(frame, fps)[3..5]) == Seconds(frame, fps) % 60
    ensures Js.ParseInt(TimerString(frame, fps)[6..]) == Centiseconds(frame, fps)
  {
    var seconds := Seconds(frame, fps);
    Js.PadTwoRoundTrip(seconds / 60);
    Js.PadTwoRoundTrip(seconds % 60);
    Js.PadTwoRoundTrip(Centiseconds(frame, fps));
    Layout(Js.PadTwo(seconds / 60), Js.PadTwo(seconds % 60), Js.PadTwo(Centiseconds(frame, fps)));
  }

  /** Where the pieces of `m:s.c` sit when each is two characters long. */
  lemma Layout(m: string, s: string, c: string)
    requires |m| == 2 && |s| == 2 && |c| == 2
    ensures |m + ":" + s + "." + c| == 8
    ensures (m + ":" + s + "." + c)[2] == ':' && (m + ":" + s + "." + c)[5] == '.'
    ensures (m + ":" + s + "." + c)[..2] == m
    ensures (m + ":" + s + "." + c)[3..5] == s
    ensures (m + ":" + s + "." + c)[6..] == c
  {
    var r := m + ":" + s + "." + c;
    assert r == m + ([':'] + s) + (['.'] + c);
    assert r[..2] == m;
    assert r[3..5] == s;
    assert r[6..] == c;
  }

  /** Within one second the hundredths never go down. */
  lemma CentisecondsWithinSecond(f1: nat, f2: nat, fps: nat)
    requires fps > 0
    requires f1 <= f2 && Seconds(f1, fps) == Seconds(f2, fps)
    ensures Centiseconds(f1, fps) <= Centiseconds(f2, fps)
  {
    var s := Seconds(f1, fps);
    assert f1 % fps == f1 - s * fps && f2 % fps == f2 - s * fps;
    DivMonotone((f1 % fps) * 100, (f2 % fps) * 100, fps);
  }

  lemma DivMonotone(a: nat, b: nat, d: nat)
    requires a <= b && d > 0
    ensures a / d <= b / d
  {
    var qa, qb := a / d, b / d;
    assert qa * d <= a && b < qb * d + d;
    assert qa * d < (qb + 1) * d;
    CancelFactor(qa, qb + 1, d);
  }

  /** At every whole second the hundredths start again from zero. */
  lemma CentisecondsReset(k: nat, fps: nat)
    requires fps > 0
    ensures Seconds(k * fps, fps) == k
    ensures Centiseconds(k * fps, fps) == 0
  {
  }
}
