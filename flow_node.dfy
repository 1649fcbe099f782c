/**
 * A node card of the flow editor: its typed prompt and result text, the
 * height of its image area, its gallery label, its typing carets, and the
 * colours of its connection handles.
 */
module FlowNode {
  import opened Wrappers
  import Js

  datatype NodeType = Image | Video | Llm | Audio

  /** `TYPE_CONFIG[type].color`: a six-digit hexadecimal colour. */
  function TypeColor(t: NodeType): (c: string)
    ensures |c| == 7 && c[0] == '#'
  {
    match t
    case Image => "#3B82F6"
    case Video => "#8B5CF6"
    case Llm => "#F59E0B"
    case Audio => "#10B981"
  }

  /** JavaScript truthiness of an optional string: present and not empty. */
  predicate Truthy(s: Option<string>)
  {
    s.Some? && s.value != []
  }

  /**
   * `displayPrompt` and `displayResult`: the text cut to the first `chars`
   * characters when both are given (a negative count drops characters from
   * the end, as `slice` does), otherwise the text as it is.
   */
  function Display(text: Option<string>, chars: Option<int>): (r: Option<string>)
    ensures r.Some? <==> text.Some?
    ensures r.Some? ==> r.value <= text.value
    ensures chars.None? ==> r == text
  {
    if Truthy(text) && chars.Some? then Some(Js.Slice(text.value, chars.value)) else text
  }

  /** With a count of characters, the display is the prefix of that length, or the whole text when the count reaches past its end. */
  lemma DisplayPrefix(text: string, chars: nat)
    ensures Display(Some(text), Some(chars)).value == text[..Js.Min(chars, |text|)]
    ensures chars >= |text| ==> Display(Some(text), Some(chars)) == Some(text)
  {
    if chars >= |text| {
      Js.SliceWhole(text, chars);
    }
  }

  /** `imgH`: the height of the image area; a language-model node has none. */
  function ImageHeight(t: NodeType, height: int): (h: int)
    ensures h >= 0
    ensures t == Llm ==> h == 0
    ensures t != Llm && height >= 150 ==> h == height - 150
    ensures t != Llm && height < 150 ==> h == 0
  {
    if t == Llm then 0 else Js.Max(0, height - 150)
  }

  /** `showGalleryLabel`: a label is given, the node is not selected, and its result is shown. */
  predicate ShowGalleryLabel(galleryLabel: Option<string>, selected: bool, showResult: bool)
  {
    Truthy(galleryLabel) && !selected && showResult
  }

  /**
   * The gallery label is hidden on a selected node, while the result is
   * hidden, and when no label or an empty one is given; otherwise it shows.
   */
  lemma GalleryLabelRule(galleryLabel: Option<string>, selected: bool, showResult: bool)
    ensures ShowGalleryLabel(galleryLabel, selected, showResult) <==>
              galleryLabel.Some? && |galleryLabel.value| > 0 && !selected && showResult
    ensures !ShowGalleryLabel(None, selected, showResult) && !ShowGalleryLabel(Some([]), selected, showResult)
  {
  }

  /** The length of an optional text, zero when absent (`text?.length ?? 0`). */
  function LengthOf(text: Option<string>): nat
  {
    if text.Some? then |text.value| else 0
  }

  /** The typing caret after the prompt, and likewise the block cursor after the result text. */
  predicate Caret(text: Option<string>, chars: Option<int>)
  {
    chars.Some? && chars.value < LengthOf(text)
  }

  /**
   * The caret is drawn exactly while typing is under way: with a count of
   * characters, it shows when the displayed text is still shorter than the
   * whole text and is gone once the whole text is displayed.
   */
  lemma CaretWhileTyping(text: string, chars: nat)
    ensures Caret(Some(text), Some(chars)) <==> |Display(Some(text), Some(chars)).value| < |text|
    ensures !Caret(Some(text), Some(chars)) ==> Display(Some(text), Some(chars)) == Some(text)
  {
    DisplayPrefix(text, chars);
  }

  /** `.toString(16).padStart(2, "0")`. */
  function Hex2(n: nat): string
  {
    Js.PadStart(Js.ToRadix(n, 16), 2, '0')
  }

  /** The alpha of a glowing handle's border, `Math.round(base + span * glow)`. */
  function HandleAlpha(base: real, span: real, glow: real): int
  {
    Js.Round(base + span * glow)
  }

  /** Rounding keeps a value that lies strictly above `lo` and at most `hi` (both whole) within `lo..hi`. */
  lemma RoundWithin(x: real, lo: int, hi: int)
    requires lo as real < x <= hi as real
    ensures lo <= Js.Round(x) <= hi
  {
  }

  lemma MulWithin(glow: real, span: real)
    requires 0.0 < glow <= 1.0 && span > 0.0
    ensures 0.0 < span * glow <= span
  {
    assert span - span * glow == span * (1.0 - glow);
  }

  /**
   * For a glow in (0, 1] the left handle's alpha lies in 40..255 and the right
   * handle's in 102..255, so each is written as exactly two hexadecimal digits
   * that read back as the alpha, and the border colour is a full `#RRGGBBAA`.
   */
  lemma AlphaSuffix(t: NodeType, glow: real)
    requires 0.0 < glow <= 1.0
    ensures 40 <= HandleAlpha(40.0, 215.0, glow) <= 255
    ensures 102 <= HandleAlpha(102.0, 153.0, glow) <= 255
    ensures |Hex2(HandleAlpha(40.0, 215.0, glow))| == 2 && |Hex2(HandleAlpha(102.0, 153.0, glow))| == 2
    ensures Js.ParseRadix(Hex2(HandleAlpha(40.0, 215.0, glow)), 16) == HandleAlpha(40.0, 215.0, glow)
    ensures Js.ParseRadix(Hex2(HandleAlpha(102.0, 153.0, glow)), 16) == HandleAlpha(102.0, 153.0, glow)
    ensures |TypeColor(t) + Hex2(HandleAlpha(40.0, 215.0, glow))| == 9
    ensures |TypeColor(t) + Hex2(HandleAlpha(102.0, 153.0, glow))| == 9
  {
    MulWithin(glow, 215.0);
    MulWithin(glow, 153.0);
    RoundWithin(40.0 + 215.0 * glow, 40, 255);
    RoundWithin(102.0 + 153.0 * glow, 102, 255);
    var l, r := HandleAlpha(40.0, 215.0, glow), HandleAlpha(102.0, 153.0, glow);
    Js.HexLength(l);
    Js.HexLength(r);
    Js.ParseToRadix(l, 16);
    Js.ParseToRadix(r, 16);
  }
}
