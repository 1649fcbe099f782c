/**
 * The models scene: twenty-four model badges orbit the centre on two rings,
 * the even-numbered models on an inner ring turning one way and the
 * odd-numbered ones on an outer ring turning the other, each evenly spaced
 * around its ring and entering one after another.
 *
 * Angles are kept as fractions of a turn; the cosine and sine that place a
 * badge, the noise perturbations and the springs are not part of this model.
 */
module ModelsScene {
  import Constants

  /** `MODELS`. */
  const MODELS: seq<string> := [
    "GPT-4o", "Claude 3.5", "Midjourney 6", "Runway Gen-3",
    "Pika Art", "Suno v3", "ElevenLabs", "Gemini 1.5",
    "Llama 3", "Mistral Large", "Cohere", "Fal.ai",
    "Stable Video", "HuggingFace", "Flux Pro", "Ideogram",
    "Kling", "Luma Dream", "Sora", "DALL-E 3",
    "Whisper", "ControlNet", "AnimateDiff", "Jukebox"
  ]

  /** The rings' turning directions, `[1, -1]`, indexed by ring. */
  const DIRECTIONS: seq<int> := [1, -1]

  /** Model `i` is drawn on ring `ring` when `i % 2` is that ring's index. */
  predicate OnRing(i: nat, ring: nat)
  {
    i % 2 == ring
  }

  /** Every model is drawn on exactly one of the two rings, namely ring `i % 2`. */
  lemma ExactlyOneRing(i: nat)
    ensures i % 2 < |DIRECTIONS| && OnRing(i, i % 2)
    ensures forall ring: nat :: ring < |DIRECTIONS| && OnRing(i, ring) ==> ring == i % 2
  {
  }

  /** `count`: the number of slots on each ring. */
  function SlotCount(): nat
  {
    |MODELS| / 2
  }

  /** `indexInRing`. */
  function Slot(i: nat): nat
  {
    i / 2
  }

  /**
   * Each ring has twelve slots; every model takes a slot within range, two
   * models on the same ring never share a slot, and every slot of every ring
   * is taken.
   */
  lemma SlotsPartition()
    ensures SlotCount() == 12
    ensures forall i: nat :: i < |MODELS| ==> Slot(i) < SlotCount()
    ensures forall i: nat, j: nat :: OnRing(i, j % 2) && Slot(i) == Slot(j) ==> i == j
    ensures forall ring: nat, k: nat :: ring < 2 && k < SlotCount() ==> Member(ring, k) < |MODELS| && OnRing(Member(ring, k), ring) && Slot(Member(ring, k)) == k
  {
  }

  /** The model in slot `k` of ring `ring`. */
  function Member(ring: nat, k: nat): nat
  {
    2 * k + ring
  }

  /** `angleOffset` as a fraction of a full turn: slot `k` of twelve. */
  function TurnFraction(i: nat): real
  {
    Slot(i) as real / SlotCount() as real
  }

  /**
   * The starting angles of a ring are evenly spread over one turn: each lies
   * in [0, 1) of a turn, and neighbouring slots are a twelfth of a turn apart.
   */
  lemma EvenlySpaced(i: nat)
    requires i < |MODELS|
    ensures 0.0 <= TurnFraction(i) < 1.0
    ensures i + 2 < |MODELS| ==> TurnFraction(i + 2) - TurnFraction(i) == 1.0 / 12.0
  {
    SlotsPartition();
  }

  /** `radius` of a ring. */
  function Radius(ring: nat): int
  {
    600 + ring * 250
  }

  /** `speed` of a ring's turning, in hundredths of a radian per frame. */
  function Speed(ring: nat): real
    requires ring < |DIRECTIONS|
  {
    0.8 * DIRECTIONS[ring] as real
  }

  /** The border colour of a ring's badges. */
  function RingColor(ring: nat): string
  {
    if ring == 0 then Constants.BRAND_COLOR else Constants.SECONDARY_COLOR
  }

  /**
   * The inner ring has radius 600 and turns forwards in the brand colour; the
   * outer ring has radius 850 and turns backwards, at the same speed, in the
   * secondary colour.
   */
  lemma Rings()
    ensures Radius(0) == 600 && DIRECTIONS[0] == 1 && RingColor(0) == Constants.BRAND_COLOR
    ensures Radius(1) == 850 && DIRECTIONS[1] == -1 && RingColor(1) == Constants.SECONDARY_COLOR
    ensures Speed(1) == -Speed(0) && Speed(0) > 0.0
    ensures Radius(0) < Radius(1)
  {
  }

  /** The frame at which model `i`'s entrance spring starts, `5 + i * 1.5`. */
  function EntranceStart(i: nat): real
  {
    5.0 + i as real * 1.5
  }

  /** The badges enter strictly in model order, a frame and a half apart. */
  lemma EntranceOrder(i: nat, j: nat)
    requires i < j
    ensures EntranceStart(i) < EntranceStart(j)
    ensures EntranceStart(j) - EntranceStart(i) == 1.5 * (j - i) as real
  {
  }
}
