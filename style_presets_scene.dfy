/**
 * The style-preset scene: six style buttons, one highlighted at a time, the
 * highlight moving on to the next style every twenty frames.
 */
module StylePresetsScene {

  /** The names of `STYLES`, in order. */
  const STYLES: seq<string> := ["Cinematic", "Anime", "3D Render", "Claymation", "Line Art", "Photographic"]

  /** Frames each style stays highlighted. */
  const BLOCK: nat := 20

  /** `activeStyleIndex`: the highlighted style at a frame. */
  function ActiveStyleIndex(frame: nat): (i: nat)
    ensures i < |STYLES|
  {
    (frame / BLOCK) % |STYLES|
  }

  /** The highlight does not move within a block of twenty frames. */
  lemma ConstantWithinBlock(frame: nat, other: nat)
    requires frame / BLOCK == other / BLOCK
    ensures ActiveStyleIndex(frame) == ActiveStyleIndex(other)
  {
  }

  /** At the start of each block the highlight moves on to the next style, wrapping after the last. */
  lemma AdvancesAtBlockStart(b: nat)
    ensures ActiveStyleIndex(BLOCK * (b + 1)) == (ActiveStyleIndex(BLOCK * b) + 1) % |STYLES|
  {
    assert BLOCK * (b + 1) / BLOCK == b + 1;
    assert BLOCK * b / BLOCK == b;
  }

  /** The highlight repeats every 120 frames: six styles of twenty frames each. */
  lemma Period(frame: nat)
    ensures ActiveStyleIndex(frame + 120) == ActiveStyleIndex(frame)
  {
    assert (frame + 120) / BLOCK == frame / BLOCK + 6;
  }

  /** `styleTransition`: how far through its block the frame is. */
  function StyleTransition(frame: nat): (t: real)
    ensures 0.0 <= t < 1.0
    ensures t == 0.0 <==> frame % BLOCK == 0
  {
    (frame % BLOCK) as real / BLOCK as real
  }

  /** `nextIndex`: the style the highlight moves to next; always a valid style other than the current one. */
  function NextIndex(frame: nat): (j: nat)
    ensures j < |STYLES|
    ensures j != ActiveStyleIndex(frame)
    ensures j == ActiveStyleIndex(BLOCK * (frame / BLOCK + 1))
  {
    AdvancesAtBlockStart(frame / BLOCK);
    (ActiveStyleIndex(frame) + 1) % |STYLES|
  }

  /** Button `i`'s `isActive`. */
  predicate ButtonActive(i: nat, frame: nat)
  {
    i == ActiveStyleIndex(frame)
  }

  /** At every frame exactly one of the six buttons is active. */
  lemma ExactlyOneActive(frame: nat)
    ensures exists i: nat :: i < |STYLES| && ButtonActive(i, frame)
    ensures forall i: nat, j: nat :: i < |STYLES| && j < |STYLES| && ButtonActive(i, frame) && ButtonActive(j, frame) ==> i == j
  {
    assert ButtonActive(ActiveStyleIndex(frame), frame);
  }

  /** Button `i` starts its entrance `8 + 4i` frames into the scene. */
  function EntranceDelay(i: nat): int
  {
    8 + i * 4
  }

  /** The buttons enter one after another, left to right, four frames apart. */
  lemma EntranceOrder(i: nat, j: nat)
    requires i < j
    ensures EntranceDelay(i) < EntranceDelay(j)
    ensures EntranceDelay(j) - EntranceDelay(i) == 4 * (j - i)
  {
  }
}
