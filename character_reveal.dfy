/**
 * The character-by-character reveal: one span per character, each rising
 * `offsetY` pixels into place and optionally coming into focus from a blur,
 * one stagger after the previous character.
 *
 * The spring curve is a library computation and is taken as a parameter.
 */
module CharacterReveal {
  import opened Wrappers
  import Js
  import Stagger

  /** One rendered character: its text, start, spring frame, offset, opacity, blur, `filter` and `whiteSpace: "pre"`. */
  datatype CharSpan = CharSpan(ch: string, start: real, springFrame: real, y: real, opacity: real,
                               blurVal: real, filter: Option<real>, pre: bool)

  /** `blurVal`: eight pixels of blur at spring value 0 when blurring is on, none otherwise. */
  function BlurValue(blur: bool, spr: real): real
  {
    if blur then 8.0 * (1.0 - spr) else 0.0
  }

  /** `filter`: a blur of `blurVal` pixels once it exceeds 0.1, no filter below. */
  function Filter(blurVal: real): (f: Option<real>)
    ensures f.Some? <==> blurVal > 0.1
    ensures f.Some? ==> f.value == blurVal
  {
    if blurVal > 0.1 then Some(blurVal) else None
  }

  /** The span of character `i` at `frame`. */
  function Span(ch: string, i: nat, delay: real, stagger: real, offsetY: real, blur: bool, frame: real,
                spring: real -> real): (c: CharSpan)
    ensures c.ch == ch && c.springFrame >= 0.0
    ensures c.start == Stagger.StartFrame(delay, stagger, i)
  {
    var start := Stagger.StartFrame(delay, stagger, i);
    var spr := spring(Stagger.SpringFrame(frame, start));
    var blurVal := BlurValue(blur, spr);
    CharSpan(ch, start, Stagger.SpringFrame(frame, start), offsetY * (1.0 - spr), spr,
             blurVal, Filter(blurVal), ch == " ")
  }

  /** The rendered spans, one per element of `text.split("")`. */
  function Spans(text: string, delay: real, stagger: real, offsetY: real, blur: bool, frame: real,
                 spring: real -> real): (r: seq<CharSpan>)
    ensures |r| == |text|
  {
    var chars := Js.Chars(text);
    seq(|chars|, i requires 0 <= i < |chars| => Span(chars[i], i, delay, stagger, offsetY, blur, frame, spring))
  }

  /** The characters the spans display, in order. */
  function Shown(spans: seq<CharSpan>): (r: seq<string>)
    ensures |r| == |spans|
  {
    seq(|spans|, i requires 0 <= i < |spans| => spans[i].ch)
  }

  /** One span per character, each holding that single character, and together they spell the text. */
  lemma CharsRoundTrip(text: string, delay: real, stagger: real, offsetY: real, blur: bool, frame: real,
                       spring: real -> real)
    ensures |Spans(text, delay, stagger, offsetY, blur, frame, spring)| == |text|
    ensures forall i :: 0 <= i < |text| ==> Spans(text, delay, stagger, offsetY, blur, frame, spring)[i].ch == [text[i]]
    ensures Js.Concat(Shown(Spans(text, delay, stagger, offsetY, blur, frame, spring))) == text
  {
    var spans := Spans(text, delay, stagger, offsetY, blur, frame, spring);
    assert Shown(spans) == Js.Chars(text);
    Js.ConcatChars(text);
  }

  /** With a non-negative stagger no character starts before the one to its left. */
  lemma CharsStartInOrder(text: string, delay: real, stagger: real, offsetY: real, blur: bool, frame: real,
                          spring: real -> real, i: nat, j: nat)
    requires stagger >= 0.0
    requires i <= j < |text|
    ensures Spans(text, delay, stagger, offsetY, blur, frame, spring)[i].start <=
            Spans(text, delay, stagger, offsetY, blur, frame, spring)[j].start
  {
    Stagger.StartsInOrder(delay, stagger, i, j);
  }

  /**
   * A character sits `offsetY` below its place while its spring is at 0 and in
   * place once the spring reaches 1; with blurring off it is never blurred and
   * carries no filter; and exactly the spaces keep their width with `pre`.
   */
  lemma SpanStyle(ch: string, i: nat, delay: real, stagger: real, offsetY: real, blur: bool, frame: real,
                  spring: real -> real)
    ensures spring(Stagger.SpringFrame(frame, Stagger.StartFrame(delay, stagger, i))) == 0.0 ==>
              Span(ch, i, delay, stagger, offsetY, blur, frame, spring).y == offsetY
    ensures spring(Stagger.SpringFrame(frame, Stagger.StartFrame(delay, stagger, i))) == 1.0 ==>
              Span(ch, i, delay, stagger, offsetY, blur, frame, spring).y == 0.0 &&
              Span(ch, i, delay, stagger, offsetY, blur, frame, spring).filter.None?
    ensures !blur ==> Span(ch, i, delay, stagger, offsetY, blur, frame, spring).blurVal == 0.0 &&
                      Span(ch, i, delay, stagger, offsetY, blur, frame, spring).filter.None?
    ensures Span(ch, i, delay, stagger, offsetY, blur, frame, spring).pre <==> ch == " "
  {
  }

  /**
   * With blurring on, a blur filter is emitted exactly while the spring is
   * below 0.9875, where `8 * (1 - spr)` passes 0.1.
   */
  lemma BlurFilterWindow(spr: real)
    ensures Filter(BlurValue(true, spr)).Some? <==> spr < 0.9875
  {
  }
}
