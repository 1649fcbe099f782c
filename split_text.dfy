/**
 * The word-by-word reveal: the text is split at single spaces and each word
 * springs into place from below, from above, or from a side picked per word,
 * one stagger after the previous word.
 *
 * The spring curve and the sign of the sine behind the "random" direction are
 * library and floating-point computations; both are taken as parameters.
 */
module SplitText {
  import Js
  import Stagger

  datatype Direction = Up | Down | Random

  /** One rendered word: its text, its start frame, the frame fed to its spring, and its offset and opacity. */
  datatype WordSpan = WordSpan(word: string, start: real, springFrame: real, offsetY: real, opacity: real)

  /** `seed`: the per-word seed of the "random" direction. */
  function Seed(i: nat): nat
  {
    i * 7 + 3
  }

  /** `randomDir`: up or down according to the sign of `sin(seed * 12.9898 + 78.233)`. */
  function RandomDir(i: nat, sinPositive: real -> bool): (d: int)
    ensures d == 1 || d == -1
  {
    if sinPositive(Seed(i) as real * 12.9898 + 78.233) then 1 else -1
  }

  /** `offsetY` of word `i` with spring value `spr`. */
  function Offset(direction: Direction, i: nat, spr: real, sinPositive: real -> bool): real
  {
    match direction
    case Up => 60.0 * (1.0 - spr)
    case Down => -60.0 * (1.0 - spr)
    case Random => 60.0 * RandomDir(i, sinPositive) as real * (1.0 - spr)
  }

  /** The span of word `i` at `frame`. */
  function Span(word: string, i: nat, delay: real, stagger: real, direction: Direction, frame: real,
                spring: real -> real, sinPositive: real -> bool): (w: WordSpan)
    ensures w.word == word && w.springFrame >= 0.0
    ensures w.start == Stagger.StartFrame(delay, stagger, i)
  {
    var start := Stagger.StartFrame(delay, stagger, i);
    var spr := spring(Stagger.SpringFrame(frame, start));
    WordSpan(word, start, Stagger.SpringFrame(frame, start), Offset(direction, i, spr, sinPositive), spr)
  }

  /** The rendered spans, one per piece of `text.split(" ")`. */
  function Spans(text: string, delay: real, stagger: real, direction: Direction, frame: real,
                 spring: real -> real, sinPositive: real -> bool): (r: seq<WordSpan>)
    ensures |r| == Js.Count(text, ' ') + 1
  {
    var words := Js.Split(text, ' ');
    seq(|words|, i requires 0 <= i < |words| => Span(words[i], i, delay, stagger, direction, frame, spring, sinPositive))
  }

  /** The words the spans display, in order. */
  function Words(spans: seq<WordSpan>): (r: seq<string>)
    ensures |r| == |spans|
  {
    seq(|spans|, i requires 0 <= i < |spans| => spans[i].word)
  }

  /**
   * The spans show the pieces of the split in order, so writing their words
   * out with single spaces between gives the text back, empty words for
   * repeated spaces included; and there are as many spans as spaces plus one.
   */
  lemma WordsRoundTrip(text: string, delay: real, stagger: real, direction: Direction, frame: real,
                       spring: real -> real, sinPositive: real -> bool)
    ensures Words(Spans(text, delay, stagger, direction, frame, spring, sinPositive)) == Js.Split(text, ' ')
    ensures Js.Join(Words(Spans(text, delay, stagger, direction, frame, spring, sinPositive)), ' ') == text
    ensures |Spans(text, delay, stagger, direction, frame, spring, sinPositive)| == Js.Count(text, ' ') + 1
  {
    var spans := Spans(text, delay, stagger, direction, frame, spring, sinPositive);
    var words := Js.Split(text, ' ');
    assert forall i :: 0 <= i < |words| ==> Words(spans)[i] == words[i];
    assert Words(spans) == words;
    Js.JoinSplit(text, ' ');
  }

  /** With a positive stagger each word starts strictly after the one before it. */
  lemma WordsStartInOrder(text: string, delay: real, stagger: real, direction: Direction, frame: real,
                          spring: real -> real, sinPositive: real -> bool, i: nat, j: nat)
    requires stagger > 0.0
    requires i < j < Js.Count(text, ' ') + 1
    ensures Spans(text, delay, stagger, direction, frame, spring, sinPositive)[i].start <
            Spans(text, delay, stagger, direction, frame, spring, sinPositive)[j].start
  {
    Stagger.StartsInOrder(delay, stagger, i, j);
  }

  /**
   * "down" mirrors "up", "up" starts 60 pixels low at spring value 0, and every
   * direction has settled at offset 0 once the spring reaches 1.
   */
  lemma OffsetSettles(i: nat, spr: real, sinPositive: real -> bool)
    ensures Offset(Down, i, spr, sinPositive) == -Offset(Up, i, spr, sinPositive)
    ensures Offset(Up, i, 0.0, sinPositive) == 60.0
    ensures spr == 1.0 ==> forall d :: Offset(d, i, spr, sinPositive) == 0.0
  {
  }

  /**
   * The "random" direction of a word never changes as the frame moves: while
   * its spring is short of 1 the word's offset keeps the side given by its
   * index alone.
   */
  lemma RandomSideFixed(word: string, i: nat, delay: real, stagger: real, f1: real, f2: real,
                        spring: real -> real, sinPositive: real -> bool)
    requires Span(word, i, delay, stagger, Random, f1, spring, sinPositive).opacity < 1.0
    requires Span(word, i, delay, stagger, Random, f2, spring, sinPositive).opacity < 1.0
    ensures (Span(word, i, delay, stagger, Random, f1, spring, sinPositive).offsetY > 0.0) <==> RandomDir(i, sinPositive) == 1
    ensures (Span(word, i, delay, stagger, Random, f1, spring, sinPositive).offsetY > 0.0) <==>
            (Span(word, i, delay, stagger, Random, f2, spring, sinPositive).offsetY > 0.0)
  {
  }
}
