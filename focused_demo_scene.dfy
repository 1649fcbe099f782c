/**
 * The focused editing demo: a prompt typed into a text box with a running
 * token count, and a filmstrip of six thumbnails with one highlighted.
 *
 * `promptChars` and `activeThumb` come from clamped interpolations of the
 * frame; they are taken here as inputs in the ranges those clamps give.
 */
module FocusedDemoScene {
  import Js

  const PROMPT_TEXT: string := "A serene mountain lake at golden hour, cinematic lighting"

  /** The filmstrip's images, in order. */
  const THUMBS: seq<string> := [
    "surrealist-concept_800w.jpg",
    "brand-identity-system_800w.jpg",
    "character-performance_800w.jpg",
    "launch-film-suite_800w.jpg",
    "director-board_800w.jpg",
    "ugc-product-story_800w.jpg"
  ]

  /** `tokenCount`: one token per five characters begun, at most twelve. */
  function TokenCount(promptChars: nat): (n: nat)
    ensures n <= 12
  {
    Js.Min(12, promptChars / 5 + (if promptChars > 0 then 1 else 0))
  }

  /** No characters typed means no tokens, and any typed character counts at least one. */
  lemma TokensIffTyped(promptChars: nat)
    ensures TokenCount(promptChars) == 0 <==> promptChars == 0
    ensures promptChars > 0 ==> 1 <= TokenCount(promptChars) <= 12
  {
  }

  /** Typing more never lowers the token count. */
  lemma TokensMonotone(a: nat, b: nat)
    requires a <= b
    ensures TokenCount(a) <= TokenCount(b)
  {
    assert a / 5 <= b / 5;
  }

  /** The whole 57-character prompt counts twelve tokens, the cap. */
  lemma FullPromptTokens()
    ensures |PROMPT_TEXT| == 57
    ensures TokenCount(|PROMPT_TEXT|) == 12
  {
  }

  /** What the text box shows: the placeholder, or the typed part of the prompt followed by a caret. */
  datatype PromptBox = Placeholder | Typed(shown: string)

  function PromptDisplay(promptChars: nat): (b: PromptBox)
    ensures b.Placeholder? <==> promptChars == 0
    ensures b.Typed? ==> b.shown <= PROMPT_TEXT && |b.shown| == Js.Min(promptChars, |PROMPT_TEXT|)
  {
    if promptChars > 0 then Typed(Js.Slice(PROMPT_TEXT, promptChars)) else Placeholder
  }

  /** The token counter is drawn only next to typed text. */
  predicate TokenCounterShown(promptChars: nat)
  {
    promptChars > 0
  }

  /** The counter is drawn exactly when the typed text is, and then shows at least one token. */
  lemma CounterWithText(promptChars: nat)
    ensures TokenCounterShown(promptChars) <==> PromptDisplay(promptChars).Typed?
    ensures TokenCounterShown(promptChars) ==> TokenCount(promptChars) >= 1
  {
  }

  /** Thumbnail `i`'s `isActive`. */
  predicate ThumbActive(i: nat, activeThumb: int)
  {
    i == activeThumb
  }

  /** For an `activeThumb` from 0 to 5 exactly one of the six thumbnails is highlighted. */
  lemma ExactlyOneThumb(activeThumb: int)
    requires 0 <= activeThumb < |THUMBS|
    ensures exists i: nat :: i < |THUMBS| && ThumbActive(i, activeThumb)
    ensures forall i: nat, j: nat :: i < |THUMBS| && j < |THUMBS| && ThumbActive(i, activeThumb) && ThumbActive(j, activeThumb) ==> i == j
  {
    assert ThumbActive(activeThumb as nat, activeThumb);
  }
}
