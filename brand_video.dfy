/**
 * The video's transition series: seventeen scene sequences in a fixed order,
 * joined by thirteen transitions and three light-leak overlays.
 */
module BrandVideo {
  import opened Constants
  import opened Wrappers
  import Js
  import Timeline

  /** `f`: a length in seconds converted to frames at the video's frame rate. */
  function F(seconds: real): int
  {
    Js.Round(seconds * VIDEO_FPS as real)
  }

  /** A whole number of half-seconds converts to exactly fifteen frames per half-second. */
  lemma FramesOfHalfSeconds(h: nat)
    ensures F(h as real / 2.0) == 15 * h
  {
    assert (h as real / 2.0) * 30.0 == (15 * h) as real;
  }

  /** Every sequence length `f(DURATIONS[key])` is exact: fifteen frames per half-second, 75 frames at the least. */
  lemma SceneFrames(key: SceneKey)
    ensures F(Durations(key)) == 15 * HalfSeconds(key)
    ensures F(Durations(key)) >= 75
  {
    FramesOfHalfSeconds(HalfSeconds(key));
    assert HalfSeconds(key) as real / 2.0 == Durations(key);
  }

  datatype Direction = FromTop | FromBottom | FromLeft | FromRight

  datatype Presentation =
    | Fade
    | Slide(slideFrom: Direction)
    | Wipe(wipeFrom: Direction)
    | ClockWipe(width: int, height: int)
    | Flip(flipFrom: Direction)

  /** `linearTiming({durationInFrames})` or `springTiming({config: {damping}, durationInFrames?})`. */
  datatype Timing =
    | LinearTiming(frames: int)
    | SpringTiming(damping: int, declared: Option<int>)

  /** One child of the transition series. */
  datatype Child =
    | SeriesSequence(scene: SceneKey, durationInFrames: int)
    | SeriesTransition(presentation: Presentation, timing: Timing)
    | SeriesOverlay(overlayFrames: int, seed: int, hueShift: int)

  /** A transition timing that states no duration of its own (the library derives one from the spring). */
  predicate Undeclared(c: Child)
  {
    c.SeriesTransition? && c.timing.SpringTiming? && c.timing.declared.None?
  }

  function SceneSequence(key: SceneKey): Child
  {
    SeriesSequence(key, F(Durations(key)))
  }

  /** The scenes in the order the series plays them. */
  const SCENE_ORDER: seq<SceneKey> := [
    Intro, FlowDemo, Templates, FocusedDemo, Collaboration, Models,
    TextGen, StylePresets, AudioGen, Recorder, Editor, Inpainting,
    Upscaling, BatchGen, Performance, OpenSource, Outro
  ]

  /** One `<TransitionSeries.Sequence durationInFrames={f(DURATIONS[key])}>` per key. */
  function Sequences(keys: seq<SceneKey>): (r: seq<Child>)
    ensures |r| == |keys|
    ensures forall i :: 0 <= i < |keys| ==> r[i] == SceneSequence(keys[i])
  {
    seq(|keys|, i requires 0 <= i < |keys| => SceneSequence(keys[i]))
  }

  const SEQUENCES: seq<Child> := Sequences(SCENE_ORDER)

  /** What stands between each pair of neighbouring sequences, in order: a transition or a light-leak overlay. */
  const JOINS: seq<Child> := [
    SeriesTransition(Fade, LinearTiming(18)),
    SeriesTransition(Slide(FromBottom), SpringTiming(200, None)),
    SeriesOverlay(30, 3, 50),
    SeriesTransition(Wipe(FromRight), LinearTiming(TRANSITION_FRAMES)),
    SeriesTransition(Flip(FromRight), SpringTiming(200, Some(25))),
    SeriesTransition(Slide(FromTop), SpringTiming(200, None)),
    SeriesTransition(Fade, LinearTiming(TRANSITION_FRAMES)),
    SeriesTransition(Wipe(FromLeft), LinearTiming(TRANSITION_FRAMES)),
    SeriesTransition(Slide(FromBottom), SpringTiming(200, None)),
    SeriesOverlay(30, 7, 45),
    SeriesTransition(Flip(FromLeft), SpringTiming(200, Some(25))),
    SeriesTransition(ClockWipe(VIDEO_WIDTH, VIDEO_HEIGHT), LinearTiming(TRANSITION_FRAMES)),
    SeriesTransition(Fade, LinearTiming(TRANSITION_FRAMES)),
    SeriesTransition(Slide(FromRight), SpringTiming(200, None)),
    SeriesTransition(Wipe(FromRight), LinearTiming(TRANSITION_FRAMES)),
    SeriesOverlay(35, 1, 50)
  ]

  /** The children of the transition series, in order. */
  const SERIES: seq<Child> := Timeline.Interleave(SEQUENCES, JOINS)

  // ---------------------------------------------------------------------------
  // Sums over children

  /** The sum of a weight over a list of children. */
  function Tally(children: seq<Child>, w: Child -> int): int
    decreases |children|
  {
    if children == [] then 0 else w(children[0]) + Tally(children[1..], w)
  }

  /** The same sum over the children from index `k` on, read by index. */
  function TallyFrom(children: seq<Child>, w: Child -> int, k: nat): int
    decreases |children| - k
  {
    if k >= |children| then 0 else w(children[k]) + TallyFrom(children, w, k + 1)
  }

  lemma {:induction false} TallySuffix(children: seq<Child>, w: Child -> int, k: nat)
    requires k <= |children|
    ensures Tally(children[k..], w) == TallyFrom(children, w, k)
    decreases |children| - k
  {
    if k < |children| {
      assert children[k..][1..] == children[k + 1..];
      TallySuffix(children, w, k + 1);
    }
  }

  lemma TallyFromZero(children: seq<Child>, w: Child -> int)
    ensures Tally(children, w) == TallyFrom(children, w, 0)
  {
    TallySuffix(children, w, 0);
    assert children[0..] == children;
  }

  lemma {:induction false} TallyAppend(a: seq<Child>, b: seq<Child>, w: Child -> int)
    ensures Tally(a + b, w) == Tally(a, w) + Tally(b, w)
    decreases |a|
  {
    if a == [] {
      assert a + b == b;
    } else {
      assert (a + b)[1..] == a[1..] + b;
      TallyAppend(a[1..], b, w);
    }
  }

  /** A sum over the whole series is the sum over its sequences plus the sum over its joins. */
  lemma {:induction false} TallyInterleave(scenes: seq<Child>, joins: seq<Child>, w: Child -> int)
    requires |scenes| == |joins| + 1
    ensures Tally(Timeline.Interleave(scenes, joins), w) == Tally(scenes, w) + Tally(joins, w)
    decreases |joins|
  {
    var all := Timeline.Interleave(scenes, joins);
    if joins == [] {
      assert all == [scenes[0]];
      assert scenes == [scenes[0]];
    } else {
      var rest := Timeline.Interleave(scenes[1..], joins[1..]);
      assert all == [scenes[0], joins[0]] + rest by {
        forall i | 2 <= i < |all| ensures all[i] == rest[i - 2] {
          assert (i - 2) / 2 == i / 2 - 1;
        }
      }
      TallyInterleave(scenes[1..], joins[1..], w);
      TallyAppend([scenes[0], joins[0]], rest, w);
      assert [scenes[0], joins[0]][1..] == [joins[0]];
    }
  }

  function UndeclaredWeight(c: Child): int { if Undeclared(c) then 1 else 0 }
  function SequenceWeight(c: Child): int { if c.SeriesSequence? then c.durationInFrames else 0 }
  function DeclaredWeight(c: Child): int { if c.SeriesTransition? && !Undeclared(c) then DeclaredFrames(c.timing) else 0 }
  function IsSequence(c: Child): int { if c.SeriesSequence? then 1 else 0 }
  function IsTransition(c: Child): int { if c.SeriesTransition? then 1 else 0 }
  function IsOverlay(c: Child): int { if c.SeriesOverlay? then 1 else 0 }
  function IsStandard(c: Child): int { if c.SeriesTransition? && c.timing == LinearTiming(TRANSITION_FRAMES) then 1 else 0 }
  function IsFlip(c: Child): int { if c.SeriesTransition? && c.presentation.Flip? then 1 else 0 }

  lemma {:induction false} UndeclaredNonNegative(children: seq<Child>)
    ensures Tally(children, UndeclaredWeight) >= 0
    decreases |children|
  {
    if children != [] {
      UndeclaredNonNegative(children[1..]);
    }
  }

  // ---------------------------------------------------------------------------
  // From children to the timeline

  /** The duration a declared timing states. */
  function DeclaredFrames(t: Timing): int
  {
    match t
    case LinearTiming(d) => d
    case SpringTiming(_, declared) => if declared.Some? then declared.value else 0
  }

  /** The piece a child stands for when the child itself states its length. */
  function PieceOf(c: Child): (p: Timeline.Piece)
    ensures c.SeriesSequence? <==> p.Scene?
    ensures c.SeriesTransition? <==> p.Transition?
    ensures c.SeriesOverlay? <==> p.Overlay?
    ensures c.SeriesSequence? ==> p.frames == c.durationInFrames
    ensures c.SeriesOverlay? ==> p.frames == c.overlayFrames
    ensures c.SeriesTransition? ==> p.frames == DeclaredFrames(c.timing)
  {
    match c
    case SeriesSequence(_, d) => Timeline.Scene(d)
    case SeriesTransition(_, t) => Timeline.Transition(DeclaredFrames(t))
    case SeriesOverlay(d, _, _) => Timeline.Overlay(d)
  }

  /**
   * The timeline the children stand for, given the durations that the
   * undeclared spring timings take, in series order.
   */
  function Resolve(children: seq<Child>, springs: seq<int>): (pieces: seq<Timeline.Piece>)
    requires |springs| == Tally(children, UndeclaredWeight)
    ensures |pieces| == |children|
    decreases |children|
  {
    if children == [] then []
    else
      UndeclaredNonNegative(children[1..]);
      if Undeclared(children[0]) then [Timeline.Transition(springs[0])] + Resolve(children[1..], springs[1..])
      else [PieceOf(children[0])] + Resolve(children[1..], springs)
  }

  /**
   * Child `k` becomes piece `k`: a child that states its length keeps it, and
   * an undeclared transition takes the spring duration whose position is the
   * number of undeclared transitions before it, so the springs are used up in
   * series order, each exactly once.
   */
  lemma {:induction false} ResolveAt(children: seq<Child>, springs: seq<int>, k: nat)
    requires |springs| == Tally(children, UndeclaredWeight)
    requires k < |children|
    ensures !Undeclared(children[k]) ==> Resolve(children, springs)[k] == PieceOf(children[k])
    ensures Undeclared(children[k]) ==>
              && 0 <= Tally(children[..k], UndeclaredWeight) < |springs|
              && Resolve(children, springs)[k] == Timeline.Transition(springs[Tally(children[..k], UndeclaredWeight)])
    decreases k
  {
    UndeclaredNonNegative(children[1..]);
    var rest := if Undeclared(children[0]) then springs[1..] else springs;
    if k > 0 {
      ResolveAt(children[1..], rest, k - 1);
      assert children[..k][1..] == children[1..][..k - 1];
      assert Resolve(children, springs)[k] == Resolve(children[1..], rest)[k - 1];
    } else {
      assert children[..0] == [];
    }
  }

  function Sum(s: seq<int>): int
  {
    if s == [] then 0 else s[0] + Sum(s[1..])
  }

  /**
   * Resolving keeps every sequence length and every declared transition
   * length, adds the spring durations to the transitions, and keeps the
   * number of children of each kind.
   */
  lemma {:induction false} ResolveSums(children: seq<Child>, springs: seq<int>)
    requires |springs| == Tally(children, UndeclaredWeight)
    ensures Timeline.SceneSum(Resolve(children, springs)) == Tally(children, SequenceWeight)
    ensures Timeline.TransitionSum(Resolve(children, springs)) == Tally(children, DeclaredWeight) + Sum(springs)
    ensures Timeline.CountScenes(Resolve(children, springs)) == Tally(children, IsSequence)
    ensures Timeline.CountTransitions(Resolve(children, springs)) == Tally(children, IsTransition)
    ensures Timeline.CountOverlays(Resolve(children, springs)) == Tally(children, IsOverlay)
    decreases |children|
  {
    if children != [] {
      UndeclaredNonNegative(children[1..]);
      var rest := if Undeclared(children[0]) then springs[1..] else springs;
      ResolveSums(children[1..], rest);
      assert Resolve(children, springs)[1..] == Resolve(children[1..], rest);
    }
  }

  /**
   * If every join that states its length and every spring duration lies in
   * `[0, bound)`, so does every join of the timeline, and every sequence keeps
   * its own length.
   */
  lemma ResolveBounded(children: seq<Child>, springs: seq<int>, bound: int)
    requires |springs| == Tally(children, UndeclaredWeight)
    requires forall i :: 0 <= i < |children| && !children[i].SeriesSequence? && !Undeclared(children[i]) ==>
               0 <= PieceOf(children[i]).frames < bound
    requires forall i :: 0 <= i < |springs| ==> 0 <= springs[i] < bound
    ensures forall i :: 0 <= i < |children| ==>
              && (Resolve(children, springs)[i].Scene? <==> children[i].SeriesSequence?)
              && (children[i].SeriesSequence? ==> Resolve(children, springs)[i].frames == children[i].durationInFrames)
              && (!children[i].SeriesSequence? ==> 0 <= Resolve(children, springs)[i].frames < bound)
  {
    forall i | 0 <= i < |children|
      ensures && (Resolve(children, springs)[i].Scene? <==> children[i].SeriesSequence?)
              && (children[i].SeriesSequence? ==> Resolve(children, springs)[i].frames == children[i].durationInFrames)
              && (!children[i].SeriesSequence? ==> 0 <= Resolve(children, springs)[i].frames < bound)
    {
      ResolveAt(children, springs, i);
    }
  }

  // ---------------------------------------------------------------------------
  // The series of the brand video

  /** Every sequence length is the exact frame count of its scene's duration. */
  lemma AllSceneFrames()
    ensures forall key :: F(Durations(key)) == 15 * HalfSeconds(key) >= 75
  {
    forall key ensures F(Durations(key)) == 15 * HalfSeconds(key) >= 75 {
      SceneFrames(key);
    }
  }

  /** The series plays the scenes in the order `DURATIONS` declares them. */
  lemma SceneOrderIsDeclared()
    ensures SCENE_ORDER == SCENE_KEYS
  {
  }

  /** No join is a sequence; every join that states its length is shorter than the shortest scene (75 frames). */
  lemma JoinsFit()
    ensures |JOINS| == 16
    ensures forall c | c in JOINS :: !c.SeriesSequence? && (!Undeclared(c) ==> 0 <= PieceOf(c).frames < 75)
  {
  }

  /** The series opens and closes with a sequence and alternates one sequence with one transition or overlay. */
  lemma SeriesAlternates()
    ensures |SERIES| == 33
    ensures forall k :: 0 <= k < |SERIES| ==> (SERIES[k].SeriesSequence? <==> k % 2 == 0)
  {
    JoinsFit();
    forall k | 0 <= k < |SERIES| && k % 2 == 1 ensures !SERIES[k].SeriesSequence? {
      assert JOINS[k / 2] in JOINS;
    }
  }

  /** The sequences of the series are the seventeen scenes in `DURATIONS` order, each lasting `f(DURATIONS[key])`. */
  lemma SeriesScenes()
    ensures forall j :: 0 <= j < |SCENE_KEYS| ==> SERIES[2 * j] == SceneSequence(SCENE_KEYS[j])
  {
    SceneOrderIsDeclared();
  }

  /** Four of the transitions use a spring timing that states no duration. */
  lemma UndeclaredCount()
    ensures Tally(JOINS, UndeclaredWeight) == 4
  {
    TallyFromZero(JOINS, UndeclaredWeight);
    assert TallyFrom(JOINS, UndeclaredWeight, 15) == 0;
    assert TallyFrom(JOINS, UndeclaredWeight, 14) == 0;
    assert TallyFrom(JOINS, UndeclaredWeight, 13) == 1;
    assert TallyFrom(JOINS, UndeclaredWeight, 12) == 1;
    assert TallyFrom(JOINS, UndeclaredWeight, 11) == 1;
    assert TallyFrom(JOINS, UndeclaredWeight, 10) == 1;
    assert TallyFrom(JOINS, UndeclaredWeight, 9) == 1;
    assert TallyFrom(JOINS, UndeclaredWeight, 8) == 2;
    assert TallyFrom(JOINS, UndeclaredWeight, 7) == 2;
    assert TallyFrom(JOINS, UndeclaredWeight, 6) == 2;
    assert TallyFrom(JOINS, UndeclaredWeight, 5) == 3;
    assert TallyFrom(JOINS, UndeclaredWeight, 4) == 3;
    assert TallyFrom(JOINS, UndeclaredWeight, 3) == 3;
    assert TallyFrom(JOINS, UndeclaredWeight, 2) == 3;
    assert TallyFrom(JOINS, UndeclaredWeight, 1) == 4;
  }

  /** The transitions that state a duration add up to 188 frames: the 18-frame fade, six of 20 frames, two flips of 25. */
  lemma DeclaredTotal()
    ensures Tally(JOINS, DeclaredWeight) == 188
  {
    TallyFromZero(JOINS, DeclaredWeight);
    assert TallyFrom(JOINS, DeclaredWeight, 15) == 0;
    assert TallyFrom(JOINS, DeclaredWeight, 14) == 20;
    assert TallyFrom(JOINS, DeclaredWeight, 13) == 20;
    assert TallyFrom(JOINS, DeclaredWeight, 12) == 40;
    assert TallyFrom(JOINS, DeclaredWeight, 11) == 60;
    assert TallyFrom(JOINS, DeclaredWeight, 10) == 85;
    assert TallyFrom(JOINS, DeclaredWeight, 9) == 85;
    assert TallyFrom(JOINS, DeclaredWeight, 8) == 85;
    assert TallyFrom(JOINS, DeclaredWeight, 7) == 105;
    assert TallyFrom(JOINS, DeclaredWeight, 6) == 125;
    assert TallyFrom(JOINS, DeclaredWeight, 5) == 125;
    assert TallyFrom(JOINS, DeclaredWeight, 4) == 150;
    assert TallyFrom(JOINS, DeclaredWeight, 3) == 170;
    assert TallyFrom(JOINS, DeclaredWeight, 2) == 170;
    assert TallyFrom(JOINS, DeclaredWeight, 1) == 170;
  }

  /** Thirteen of the joins are transitions. */
  lemma TransitionCount()
    ensures Tally(JOINS, IsTransition) == 13
  {
    TallyFromZero(JOINS, IsTransition);
    assert TallyFrom(JOINS, IsTransition, 15) == 0;
    assert TallyFrom(JOINS, IsTransition, 14) == 1;
    assert TallyFrom(JOINS, IsTransition, 13) == 2;
    assert TallyFrom(JOINS, IsTransition, 12) == 3;
    assert TallyFrom(JOINS, IsTransition, 11) == 4;
    assert TallyFrom(JOINS, IsTransition, 10) == 5;
    assert TallyFrom(JOINS, IsTransition, 9) == 5;
    assert TallyFrom(JOINS, IsTransition, 8) == 6;
    assert TallyFrom(JOINS, IsTransition, 7) == 7;
    assert TallyFrom(JOINS, IsTransition, 6) == 8;
    assert TallyFrom(JOINS, IsTransition, 5) == 9;
    assert TallyFrom(JOINS, IsTransition, 4) == 10;
    assert TallyFrom(JOINS, IsTransition, 3) == 11;
    assert TallyFrom(JOINS, IsTransition, 2) == 11;
    assert TallyFrom(JOINS, IsTransition, 1) == 12;
  }

  /** Three of the joins are light-leak overlays. */
  lemma OverlayCount()
    ensures Tally(JOINS, IsOverlay) == 3
  {
    TallyFromZero(JOINS, IsOverlay);
    assert TallyFrom(JOINS, IsOverlay, 15) == 1;
    assert TallyFrom(JOINS, IsOverlay, 14) == 1;
    assert TallyFrom(JOINS, IsOverlay, 13) == 1;
    assert TallyFrom(JOINS, IsOverlay, 12) == 1;
    assert TallyFrom(JOINS, IsOverlay, 11) == 1;
    assert TallyFrom(JOINS, IsOverlay, 10) == 1;
    assert TallyFrom(JOINS, IsOverlay, 9) == 2;
    assert TallyFrom(JOINS, IsOverlay, 8) == 2;
    assert TallyFrom(JOINS, IsOverlay, 7) == 2;
    assert TallyFrom(JOINS, IsOverlay, 6) == 2;
    assert TallyFrom(JOINS, IsOverlay, 5) == 2;
    assert TallyFrom(JOINS, IsOverlay, 4) == 2;
    assert TallyFrom(JOINS, IsOverlay, 3) == 2;
    assert TallyFrom(JOINS, IsOverlay, 2) == 3;
    assert TallyFrom(JOINS, IsOverlay, 1) == 3;
  }

  /** Six transitions use the standard `linearTiming({durationInFrames: TRANSITION_FRAMES})`. */
  lemma StandardCount()
    ensures Tally(JOINS, IsStandard) == 6
  {
    TallyFromZero(JOINS, IsStandard);
    assert TallyFrom(JOINS, IsStandard, 15) == 0;
    assert TallyFrom(JOINS, IsStandard, 14) == 1;
    assert TallyFrom(JOINS, IsStandard, 13) == 1;
    assert TallyFrom(JOINS, IsStandard, 12) == 2;
    assert TallyFrom(JOINS, IsStandard, 11) == 3;
    assert TallyFrom(JOINS, IsStandard, 10) == 3;
    assert TallyFrom(JOINS, IsStandard, 9) == 3;
    assert TallyFrom(JOINS, IsStandard, 8) == 3;
    assert TallyFrom(JOINS, IsStandard, 7) == 4;
    assert TallyFrom(JOINS, IsStandard, 6) == 5;
    assert TallyFrom(JOINS, IsStandard, 5) == 5;
    assert TallyFrom(JOINS, IsStandard, 4) == 5;
    assert TallyFrom(JOINS, IsStandard, 3) == 6;
    assert TallyFrom(JOINS, IsStandard, 2) == 6;
    assert TallyFrom(JOINS, IsStandard, 1) == 6;
  }

  /** Two transitions are flips. */
  lemma FlipCount()
    ensures Tally(JOINS, IsFlip) == 2
  {
    TallyFromZero(JOINS, IsFlip);
    assert TallyFrom(JOINS, IsFlip, 15) == 0;
    assert TallyFrom(JOINS, IsFlip, 14) == 0;
    assert TallyFrom(JOINS, IsFlip, 13) == 0;
    assert TallyFrom(JOINS, IsFlip, 12) == 0;
    assert TallyFrom(JOINS, IsFlip, 11) == 0;
    assert TallyFrom(JOINS, IsFlip, 10) == 1;
    assert TallyFrom(JOINS, IsFlip, 9) == 1;
    assert TallyFrom(JOINS, IsFlip, 8) == 1;
    assert TallyFrom(JOINS, IsFlip, 7) == 1;
    assert TallyFrom(JOINS, IsFlip, 6) == 1;
    assert TallyFrom(JOINS, IsFlip, 5) == 1;
    assert TallyFrom(JOINS, IsFlip, 4) == 2;
    assert TallyFrom(JOINS, IsFlip, 3) == 2;
    assert TallyFrom(JOINS, IsFlip, 2) == 2;
    assert TallyFrom(JOINS, IsFlip, 1) == 2;
  }

  lemma LaterSequences()
    ensures TallyFrom(SEQUENCES, SequenceWeight, 8) == 930
  {
    AllSceneFrames();
    assert TallyFrom(SEQUENCES, SequenceWeight, 16) == 120;
    assert TallyFrom(SEQUENCES, SequenceWeight, 15) == 225;
    assert TallyFrom(SEQUENCES, SequenceWeight, 14) == 300;
    assert TallyFrom(SEQUENCES, SequenceWeight, 13) == 405;
    assert TallyFrom(SEQUENCES, SequenceWeight, 12) == 510;
    assert TallyFrom(SEQUENCES, SequenceWeight, 11) == 630;
    assert TallyFrom(SEQUENCES, SequenceWeight, 10) == 735;
    assert TallyFrom(SEQUENCES, SequenceWeight, 9) == 825;
  }

  /** The seventeen sequences last 1830 frames together. */
  lemma SequenceTotal()
    ensures Tally(SEQUENCES, SequenceWeight) == 1830
  {
    AllSceneFrames();
    LaterSequences();
    TallyFromZero(SEQUENCES, SequenceWeight);
    assert TallyFrom(SEQUENCES, SequenceWeight, 7) == 1050;
    assert TallyFrom(SEQUENCES, SequenceWeight, 6) == 1155;
    assert TallyFrom(SEQUENCES, SequenceWeight, 5) == 1260;
    assert TallyFrom(SEQUENCES, SequenceWeight, 4) == 1350;
    assert TallyFrom(SEQUENCES, SequenceWeight, 3) == 1470;
    assert TallyFrom(SEQUENCES, SequenceWeight, 2) == 1560;
    assert TallyFrom(SEQUENCES, SequenceWeight, 1) == 1725;
  }

  lemma {:induction false} AllSequences(children: seq<Child>)
    requires forall i :: 0 <= i < |children| ==> children[i].SeriesSequence?
    ensures Tally(children, IsSequence) == |children|
    ensures Tally(children, UndeclaredWeight) == 0
    ensures Tally(children, DeclaredWeight) == 0
    ensures Tally(children, IsTransition) == 0
    ensures Tally(children, IsOverlay) == 0
    decreases |children|
  {
    if children != [] {
      AllSequences(children[1..]);
    }
  }

  /** Sums over the whole series, from the sums over its sequences and its joins. */
  lemma SeriesTallies()
    ensures Tally(SERIES, UndeclaredWeight) == 4
    ensures Tally(SERIES, SequenceWeight) == 1830
    ensures Tally(SERIES, DeclaredWeight) == 188
    ensures Tally(SERIES, IsSequence) == 17
    ensures Tally(SERIES, IsTransition) == 13
    ensures Tally(SERIES, IsOverlay) == 3
  {
    AllSequences(SEQUENCES);
    UndeclaredCount();
    SequenceTotal();
    DeclaredTotal();
    TransitionCount();
    OverlayCount();
    JoinsFit();
    assert Tally(JOINS, SequenceWeight) == 0 && Tally(JOINS, IsSequence) == 0 by {
      NoSequences(JOINS);
    }
    TallyInterleave(SEQUENCES, JOINS, UndeclaredWeight);
    TallyInterleave(SEQUENCES, JOINS, SequenceWeight);
    TallyInterleave(SEQUENCES, JOINS, DeclaredWeight);
    TallyInterleave(SEQUENCES, JOINS, IsSequence);
    TallyInterleave(SEQUENCES, JOINS, IsTransition);
    TallyInterleave(SEQUENCES, JOINS, IsOverlay);
  }

  lemma {:induction false} NoSequences(children: seq<Child>)
    requires forall c | c in children :: !c.SeriesSequence?
    ensures Tally(children, SequenceWeight) == 0
    ensures Tally(children, IsSequence) == 0
    decreases |children|
  {
    if children != [] {
      assert forall c | c in children[1..] :: c in children;
      NoSequences(children[1..]);
    }
  }

  /** The timeline of the series, given the durations of its four undeclared spring timings. */
  function SeriesTimeline(springs: seq<int>): (pieces: seq<Timeline.Piece>)
    requires |springs| == 4
    ensures |pieces| == 33
  {
    SeriesTallies();
    Resolve(SERIES, springs)
  }

  /** The series lasts 1830 frames of scenes less 188 declared transition frames less the four spring durations. */
  lemma SeriesTotal(springs: seq<int>)
    requires |springs| == 4
    ensures Timeline.Total(SeriesTimeline(springs)) == 1642 - Sum(springs)
  {
    SeriesTallies();
    ResolveSums(SERIES, springs);
    Timeline.TotalIsSums(SeriesTimeline(springs));
  }

  /**
   * When each spring duration is shorter than the shortest scene, the series
   * can be laid out: every join is shorter than both scenes beside it.
   */
  lemma SeriesWellFormed(springs: seq<int>)
    requires |springs| == 4
    requires forall i :: 0 <= i < 4 ==> 0 <= springs[i] < 75
    ensures Timeline.WellFormed(SeriesTimeline(springs))
  {
    SeriesTallies();
    SeriesAlternates();
    JoinsFit();
    AllSceneFrames();
    forall i | 0 <= i < |SERIES| && !SERIES[i].SeriesSequence? && !Undeclared(SERIES[i])
      ensures 0 <= PieceOf(SERIES[i]).frames < 75
    {
      assert SERIES[i] == JOINS[i / 2] && JOINS[i / 2] in JOINS;
    }
    forall i | 0 <= i < |SERIES| && SERIES[i].SeriesSequence? ensures SERIES[i].durationInFrames >= 75 {
      assert SERIES[i] == SEQUENCES[i / 2];
    }
    ResolveBounded(SERIES, springs, 75);
    Timeline.AlternatingWellFormed(SeriesTimeline(springs), 75);
  }

  /**
   * The seventeen scenes start at strictly increasing frames, the first at
   * frame 0, and the outro (120 frames) ends exactly where the video ends.
   */
  lemma SeriesStarts(springs: seq<int>)
    requires |springs| == 4
    requires forall i :: 0 <= i < 4 ==> 0 <= springs[i] < 75
    ensures |Timeline.Starts(SeriesTimeline(springs), 0)| == 17
    ensures Timeline.Starts(SeriesTimeline(springs), 0)[0] == 0
    ensures forall k :: 0 <= k < 16 ==> Timeline.Starts(SeriesTimeline(springs), 0)[k] < Timeline.Starts(SeriesTimeline(springs), 0)[k + 1]
    ensures Timeline.Starts(SeriesTimeline(springs), 0)[16] + 120 == Timeline.Total(SeriesTimeline(springs))
  {
    var pieces := SeriesTimeline(springs);
    SeriesWellFormed(springs);
    SeriesTallies();
    ResolveSums(SERIES, springs);
    Timeline.StartsIncrease(pieces, 0);
    SeriesScenes();
    ResolveAt(SERIES, springs, 32);
    SceneFrames(Outro);
    Timeline.LastSceneFrames(pieces);
  }
}
