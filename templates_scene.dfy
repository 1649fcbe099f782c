/**
 * The templates scene: six template cards in a grid of two rows and three
 * columns, each tilted by its place in the grid and labelled with its
 * two-digit number, over eight decorative shapes outlined in the brand colour
 * or a template's colour.
 *
 * The cards' spring values, the shapes' random positions and the noise are
 * library computations and are not part of this model.
 */
module TemplatesScene {
  import Js
  import Constants

  datatype Template = Template(title: string, color: string, img: string)

  /** `TEMPLATES`. */
  const TEMPLATES: seq<Template> := [
    Template("Surrealist Concept Art", "#FF5F56", "surrealist-concept_800w.jpg"),
    Template("Launch Film + Ad Suite", "#FFBD2E", "launch-film-suite_800w.jpg"),
    Template("UGC Product Story", "#27C93F", "ugc-product-story_800w.jpg"),
    Template("Director Storyboard", "#3357FF", "director-board_800w.jpg"),
    Template("Character Perf Rig", "#A833FF", "character-performance_800w.jpg"),
    Template("Brand Identity System", "#FF33A8", "brand-identity-system_800w.jpg")
  ]

  const COLUMNS: nat := 3

  /** `col` of card `i`. */
  function Col(i: nat): (c: nat)
    ensures c < COLUMNS
  {
    i % COLUMNS
  }

  /** `row` of card `i`, `Math.floor(i / 3)`. */
  function Row(i: nat): nat
  {
    i / COLUMNS
  }

  /** The card index placed in row `r`, column `c`. */
  function Cell(r: nat, c: nat): nat
  {
    COLUMNS * r + c
  }

  /**
   * The six cards fill the two-by-three grid one to one: every card lands in
   * row 0 or 1, card `i` sits at `3 * row + col`, and every cell holds a card.
   */
  lemma GridIsBijection()
    ensures forall i: nat :: i < |TEMPLATES| ==> Row(i) < 2 && i == COLUMNS * Row(i) + Col(i)
    ensures forall i: nat, j: nat :: i < |TEMPLATES| && j < |TEMPLATES| && Row(i) == Row(j) && Col(i) == Col(j) ==> i == j
    ensures forall r: nat, c: nat :: r < 2 && c < COLUMNS ==> Cell(r, c) < |TEMPLATES| && Row(Cell(r, c)) == r && Col(Cell(r, c)) == c
  {
  }

  /**
   * `interpolate(x, [x0, x1], [y0, y1])` without clamping: the fraction of the
   * way from `x0` to `x1`, carried over to the way from `y0` to `y1`.
   */
  function Interpolate(x: real, x0: real, x1: real, y0: real, y1: real): real
    requires x0 < x1
  {
    var t := (x - x0) / (x1 - x0);
    y0 + t * (y1 - y0)
  }

  lemma ProductNonNegative(a: real, b: real)
    requires a >= 0.0 && b >= 0.0
    ensures a * b >= 0.0
  {
  }

  /** A fraction with a positive denominator lies in [0, 1] when its numerator lies between 0 and the denominator. */
  lemma FractionWithin(a: real, w: real)
    requires w > 0.0 && 0.0 <= a <= w
    ensures 0.0 <= a / w <= 1.0
    ensures a == 0.0 ==> a / w == 0.0
    ensures a == w ==> a / w == 1.0
  {
    var t := a / w;
    assert t * w == a;
    assert (1.0 - t) * w == w - a;
  }

  /** An input inside `[x0, x1]` gives an output between `y0` and `y1`: nothing is extrapolated. */
  lemma InterpolateWithin(x: real, x0: real, x1: real, y0: real, y1: real)
    requires x0 < x1 && x0 <= x <= x1
    ensures y0 <= y1 ==> y0 <= Interpolate(x, x0, x1, y0, y1) <= y1
    ensures y1 < y0 ==> y1 <= Interpolate(x, x0, x1, y0, y1) <= y0
    ensures x == x0 ==> Interpolate(x, x0, x1, y0, y1) == y0
    ensures x == x1 ==> Interpolate(x, x0, x1, y0, y1) == y1
  {
    var t := (x - x0) / (x1 - x0);
    FractionWithin(x - x0, x1 - x0);
    var d := y1 - y0;
    assert d - t * d == (1.0 - t) * d;
    if d >= 0.0 {
      ProductNonNegative(t, d);
      ProductNonNegative(1.0 - t, d);
    } else {
      ProductNonNegative(t, -d);
      ProductNonNegative(1.0 - t, -d);
      assert t * d == -(t * -d) && (1.0 - t) * d == -((1.0 - t) * -d);
    }
  }

  /** `tiltX`, from the row: 4 degrees on the top row to -4 on the bottom row. */
  function TiltX(i: nat): real
  {
    Interpolate(Row(i) as real, 0.0, 1.0, 4.0, -4.0)
  }

  /** `tiltY`, from the column: -5 degrees on the left to 5 on the right. */
  function TiltY(i: nat): real
  {
    Interpolate(Col(i) as real, 0.0, 2.0, -5.0, 5.0)
  }

  /**
   * Every card's row and column lie inside the tilt interpolations' input
   * ranges, so the tilts stay within their stated ranges, and the top row and
   * the outer columns take the end values exactly.
   */
  lemma TiltsInRange(i: nat)
    requires i < |TEMPLATES|
    ensures 0 <= Row(i) <= 1 && 0 <= Col(i) <= 2
    ensures -4.0 <= TiltX(i) <= 4.0 && -5.0 <= TiltY(i) <= 5.0
    ensures Row(i) == 0 ==> TiltX(i) == 4.0
    ensures Row(i) == 1 ==> TiltX(i) == -4.0
    ensures Col(i) == 0 ==> TiltY(i) == -5.0
    ensures Col(i) == 2 ==> TiltY(i) == 5.0
  {
    InterpolateWithin(Row(i) as real, 0.0, 1.0, 4.0, -4.0);
    InterpolateWithin(Col(i) as real, 0.0, 2.0, -5.0, 5.0);
  }

  /** The number shown on card `i`, `String(i + 1).padStart(2, "0")`. */
  function CardLabel(i: nat): (s: string)
    ensures |s| >= 2
  {
    Js.PadTwo(i + 1)
  }

  /** The cards are labelled "01" to "06": two characters, a leading zero, and the card's number when read back. */
  lemma CardLabels(i: nat)
    requires i < |TEMPLATES|
    ensures |CardLabel(i)| == 2 && CardLabel(i)[0] == '0' && Js.IsDecimal(CardLabel(i))
    ensures Js.ParseInt(CardLabel(i)) == i + 1
  {
    Js.PadTwoRoundTrip(i + 1);
    Js.DecimalLength(i + 1);
  }

  /** `delay` of card `i`: five frames per card. */
  function CardDelay(i: nat): nat
  {
    i * 5
  }

  /** The frame at which card `i`'s spring starts, eight frames into the scene plus its delay. */
  function CardStart(i: nat): nat
  {
    8 + CardDelay(i)
  }

  /** The cards enter strictly one after another, the last at frame 33. */
  lemma CardsInOrder(i: nat, j: nat)
    requires i < j
    ensures CardDelay(i) < CardDelay(j) && CardStart(i) < CardStart(j)
    ensures CardStart(j) - CardStart(i) == 5 * (j - i)
    ensures CardStart(|TEMPLATES| - 1) == 33
  {
  }

  /** The number of decorative shapes, `DECO_SHAPES`. */
  const DECO_COUNT: nat := 8

  datatype Shape = Triangle | Circle

  /** A shape's `type`, `i % 3`, drawn as a triangle when it is 0 and as a circle otherwise. */
  function DecoShape(i: nat): Shape
  {
    if i % 3 == 0 then Triangle else Circle
  }

  /** Of the eight shapes, exactly those at 0, 3 and 6 are triangles. */
  lemma Triangles(i: nat)
    requires i < DECO_COUNT
    ensures DecoShape(i) == Triangle <==> i == 0 || i == 3 || i == 6
  {
  }

  /** `strokeColor` of shape `i`: the brand colour on every fourth shape, otherwise a template's colour. */
  function StrokeColor(i: nat): (c: string)
    ensures i % 4 == 0 ==> c == Constants.BRAND_COLOR
    ensures i % 4 != 0 ==> exists k :: 0 <= k < |TEMPLATES| && c == TEMPLATES[k].color
  {
    if i % 4 == 0 then Constants.BRAND_COLOR else TEMPLATES[i % |TEMPLATES|].color
  }

  /** Shapes 0 and 4 take the brand colour; the other six take the colours of templates 1, 2, 3, 5, 0 and 1. */
  lemma StrokeColors()
    ensures StrokeColor(0) == Constants.BRAND_COLOR && StrokeColor(4) == Constants.BRAND_COLOR
    ensures StrokeColor(1) == TEMPLATES[1].color && StrokeColor(2) == TEMPLATES[2].color
    ensures StrokeColor(3) == TEMPLATES[3].color && StrokeColor(5) == TEMPLATES[5].color
    ensures StrokeColor(6) == TEMPLATES[0].color && StrokeColor(7) == TEMPLATES[1].color
  {
  }
}
