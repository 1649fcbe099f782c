/**
 * How a transition series lays its children out on one timeline: each scene
 * starts where the running total stands and adds its length to it; an ordinary
 * transition takes its length off the running total, so that the next scene
 * starts that many frames before the previous one ends and the two overlap;
 * an overlay is drawn on top of the join and moves nothing.
 */
module Timeline {

  datatype Piece = Scene(frames: int) | Transition(frames: int) | Overlay(frames: int)

  /** The running total after one more piece. */
  function Step(at: int, p: Piece): int
  {
    match p
    case Scene(d) => at + d
    case Transition(t) => at - t
    case Overlay(_) => at
  }

  /** The running total after walking `pieces` in order from `at`. */
  function Run(pieces: seq<Piece>, at: int): int
    decreases |pieces|
  {
    if pieces == [] then at else Run(pieces[1..], Step(at, pieces[0]))
  }

  /** The length of the whole timeline in frames. */
  function Total(pieces: seq<Piece>): int
  {
    Run(pieces, 0)
  }

  /** The start frame of every scene, in order, when the first piece starts at `at`. */
  function Starts(pieces: seq<Piece>, at: int): seq<int>
    decreases |pieces|
  {
    if pieces == [] then []
    else if pieces[0].Scene? then [at] + Starts(pieces[1..], Step(at, pieces[0]))
    else Starts(pieces[1..], Step(at, pieces[0]))
  }

  /** The length of every scene, in order. */
  function SceneFrames(pieces: seq<Piece>): seq<int>
  {
    if pieces == [] then []
    else if pieces[0].Scene? then [pieces[0].frames] + SceneFrames(pieces[1..])
    else SceneFrames(pieces[1..])
  }

  function SceneSum(pieces: seq<Piece>): int
  {
    if pieces == [] then 0
    else (if pieces[0].Scene? then pieces[0].frames else 0) + SceneSum(pieces[1..])
  }

  function TransitionSum(pieces: seq<Piece>): int
  {
    if pieces == [] then 0
    else (if pieces[0].Transition? then pieces[0].frames else 0) + TransitionSum(pieces[1..])
  }

  function CountScenes(pieces: seq<Piece>): nat
  {
    if pieces == [] then 0 else (if pieces[0].Scene? then 1 else 0) + CountScenes(pieces[1..])
  }

  function CountTransitions(pieces: seq<Piece>): nat
  {
    if pieces == [] then 0 else (if pieces[0].Transition? then 1 else 0) + CountTransitions(pieces[1..])
  }

  function CountOverlays(pieces: seq<Piece>): nat
  {
    if pieces == [] then 0 else (if pieces[0].Overlay? then 1 else 0) + CountOverlays(pieces[1..])
  }

  /**
   * A series that can be laid out: it starts and ends with a scene, scenes and
   * joins (transitions or overlays) alternate, every scene has a positive
   * length, and every join is shorter than both scenes beside it.
   */
  predicate WellFormed(pieces: seq<Piece>)
    decreases |pieces|
  {
    && |pieces| >= 1
    && pieces[0].Scene?
    && pieces[0].frames > 0
    && (|pieces| == 1 ||
        (&& |pieces| >= 3
         && !pieces[1].Scene?
         && pieces[2].Scene?
         && 0 <= pieces[1].frames < pieces[0].frames
         && pieces[1].frames < pieces[2].frames
         && WellFormed(pieces[2..])))
  }

  /** The running total is the sum of the scene lengths minus the sum of the transition lengths. */
  lemma {:induction false} RunIsSums(pieces: seq<Piece>, at: int)
    ensures Run(pieces, at) == at + SceneSum(pieces) - TransitionSum(pieces)
    decreases |pieces|
  {
    if pieces != [] {
      RunIsSums(pieces[1..], Step(at, pieces[0]));
    }
  }

  /** The length of the timeline: scene lengths summed, transition lengths subtracted once each, overlays ignored. */
  lemma TotalIsSums(pieces: seq<Piece>)
    ensures Total(pieces) == SceneSum(pieces) - TransitionSum(pieces)
  {
    RunIsSums(pieces, 0);
  }

  lemma {:induction false} SumsAppend(a: seq<Piece>, b: seq<Piece>)
    ensures SceneSum(a + b) == SceneSum(a) + SceneSum(b)
    ensures TransitionSum(a + b) == TransitionSum(a) + TransitionSum(b)
    decreases |a|
  {
    if a != [] {
      assert (a + b)[1..] == a[1..] + b;
      SumsAppend(a[1..], b);
    } else {
      assert a + b == b;
    }
  }

  /** Inserting an overlay anywhere leaves the length of the timeline unchanged. */
  lemma OverlayAddsNothing(a: seq<Piece>, b: seq<Piece>, t: int)
    ensures Total(a + [Overlay(t)] + b) == Total(a + b)
  {
    SumsAppend(a, [Overlay(t)]);
    SumsAppend(a + [Overlay(t)], b);
    SumsAppend(a, b);
    TotalIsSums(a + [Overlay(t)] + b);
    TotalIsSums(a + b);
  }

  /** Inserting a transition of `t` frames shortens the timeline by exactly `t`. */
  lemma TransitionShortens(a: seq<Piece>, b: seq<Piece>, t: int)
    ensures Total(a + [Transition(t)] + b) == Total(a + b) - t
  {
    SumsAppend(a, [Transition(t)]);
    SumsAppend(a + [Transition(t)], b);
    SumsAppend(a, b);
    TotalIsSums(a + [Transition(t)] + b);
    TotalIsSums(a + b);
  }

  /** A well-formed series has one more scene than it has joins. */
  lemma {:induction false} JoinCount(pieces: seq<Piece>)
    requires WellFormed(pieces)
    ensures CountScenes(pieces) == CountTransitions(pieces) + CountOverlays(pieces) + 1
    decreases |pieces|
  {
    if |pieces| > 1 {
      JoinCount(pieces[2..]);
      assert pieces[1..][1..] == pieces[2..];
    }
  }

  /**
   * In a well-formed series the first scene starts at `at`, every later scene
   * starts strictly after the one before it (the join before it is shorter than
   * the scene before it), no scene runs past the end of the timeline, and the
   * last scene ends exactly there.
   */
  lemma {:induction false} StartsIncrease(pieces: seq<Piece>, at: int)
    requires WellFormed(pieces)
    ensures |Starts(pieces, at)| == |SceneFrames(pieces)| == CountScenes(pieces)
    ensures Starts(pieces, at)[0] == at
    ensures forall k :: 0 <= k < |Starts(pieces, at)| - 1 ==> Starts(pieces, at)[k] < Starts(pieces, at)[k + 1]
    ensures forall k :: 0 <= k < |Starts(pieces, at)| ==> Starts(pieces, at)[k] + SceneFrames(pieces)[k] <= Run(pieces, at)
    ensures Starts(pieces, at)[|Starts(pieces, at)| - 1] + SceneFrames(pieces)[|SceneFrames(pieces)| - 1] == Run(pieces, at)
    decreases |pieces|
  {
    var d := pieces[0].frames;
    if |pieces| == 1 {
      assert Starts(pieces, at) == [at];
      assert SceneFrames(pieces) == [d];
    } else {
      var j := pieces[1];
      var rest := pieces[2..];
      var next := Step(at + d, j);
      assert pieces[1..][1..] == rest;
      assert Starts(pieces, at) == [at] + Starts(rest, next);
      assert SceneFrames(pieces) == [d] + SceneFrames(rest);
      assert CountScenes(pieces) == 1 + CountScenes(rest);
      assert Run(pieces, at) == Run(rest, next);
      StartsIncrease(rest, next);
      assert next <= at + d && at < next;
      assert next + rest[0].frames > at + d;
    }
  }

  /**
   * There is no gap: every frame of a well-formed timeline lies inside at least
   * one scene, at a local frame between 0 and that scene's length.
   */
  lemma {:induction false} EveryFrameCovered(pieces: seq<Piece>, at: int, g: int)
    requires WellFormed(pieces)
    requires at <= g < Run(pieces, at)
    ensures exists k :: 0 <= k < |Starts(pieces, at)| && k < |SceneFrames(pieces)| &&
              Starts(pieces, at)[k] <= g < Starts(pieces, at)[k] + SceneFrames(pieces)[k]
    decreases |pieces|
  {
    StartsIncrease(pieces, at);
    var d := pieces[0].frames;
    if g < at + d {
      assert Starts(pieces, at)[0] <= g < Starts(pieces, at)[0] + SceneFrames(pieces)[0];
    } else {
      assert |pieces| > 1;
      var rest := pieces[2..];
      var next := Step(at + d, pieces[1]);
      assert pieces[1..][1..] == rest;
      assert Starts(pieces, at) == [at] + Starts(rest, next);
      assert SceneFrames(pieces) == [d] + SceneFrames(rest);
      assert Run(pieces, at) == Run(rest, next);
      EveryFrameCovered(rest, next, g);
      var k :| 0 <= k < |Starts(rest, next)| && k < |SceneFrames(rest)| &&
               Starts(rest, next)[k] <= g < Starts(rest, next)[k] + SceneFrames(rest)[k];
      assert Starts(pieces, at)[k + 1] == Starts(rest, next)[k];
      assert SceneFrames(pieces)[k + 1] == SceneFrames(rest)[k];
    }
  }

  /** `WellFormed` of the pieces from index `k` on, read by index. */
  predicate WellFormedFrom(pieces: seq<Piece>, k: nat)
    decreases |pieces| - k
  {
    && k < |pieces|
    && pieces[k].Scene?
    && pieces[k].frames > 0
    && (k == |pieces| - 1 ||
        (&& k + 2 < |pieces|
         && !pieces[k + 1].Scene?
         && pieces[k + 2].Scene?
         && 0 <= pieces[k + 1].frames < pieces[k].frames
         && pieces[k + 1].frames < pieces[k + 2].frames
         && WellFormedFrom(pieces, k + 2)))
  }

  lemma {:induction false} WellFormedSuffix(pieces: seq<Piece>, k: nat)
    requires k <= |pieces|
    ensures WellFormed(pieces[k..]) <==> WellFormedFrom(pieces, k)
    decreases |pieces| - k
  {
    if k + 2 < |pieces| {
      assert pieces[k..][2..] == pieces[k + 2..];
      WellFormedSuffix(pieces, k + 2);
    }
  }

  lemma WellFormedIndex(pieces: seq<Piece>)
    ensures WellFormed(pieces) <==> WellFormedFrom(pieces, 0)
  {
    WellFormedSuffix(pieces, 0);
    assert pieces[0..] == pieces;
  }

  /** When the last piece is a scene, the last scene length is its length. */
  lemma {:induction false} LastSceneFrames(pieces: seq<Piece>)
    requires |pieces| > 0 && pieces[|pieces| - 1].Scene?
    ensures |SceneFrames(pieces)| > 0
    ensures SceneFrames(pieces)[|SceneFrames(pieces)| - 1] == pieces[|pieces| - 1].frames
    decreases |pieces|
  {
    if |pieces| > 1 {
      assert pieces[1..][|pieces[1..]| - 1] == pieces[|pieces| - 1];
      LastSceneFrames(pieces[1..]);
    }
  }

  /**
   * The pieces of a series written as its scenes with one join between each
   * neighbouring pair: scene, join, scene, ..., join, scene.
   */
  function Interleave<T>(scenes: seq<T>, joins: seq<T>): seq<T>
    requires |scenes| == |joins| + 1
  {
    seq(|scenes| + |joins|, i requires 0 <= i < |scenes| + |joins| => if i % 2 == 0 then scenes[i / 2] else joins[i / 2])
  }

  /**
   * A series that alternates scenes and joins, starting and ending with a
   * scene, is well formed as soon as every scene lasts at least `bound` frames
   * and every join lasts fewer (and not a negative number of) frames.
   */
  lemma {:induction false} AlternatingWellFormed(pieces: seq<Piece>, bound: int)
    requires bound > 0 && |pieces| % 2 == 1
    requires forall i :: 0 <= i < |pieces| ==> (pieces[i].Scene? <==> i % 2 == 0)
    requires forall i :: 0 <= i < |pieces| && pieces[i].Scene? ==> pieces[i].frames >= bound
    requires forall i :: 0 <= i < |pieces| && !pieces[i].Scene? ==> 0 <= pieces[i].frames < bound
    ensures WellFormed(pieces)
    decreases |pieces|
  {
    if |pieces| > 1 {
      var rest := pieces[2..];
      forall i | 0 <= i < |rest| ensures rest[i] == pieces[i + 2] && (i % 2 == 0 <==> (i + 2) % 2 == 0) {
      }
      AlternatingWellFormed(rest, bound);
    }
  }

  /** Conversely, a well-formed series alternates: scenes at the even positions, joins at the odd ones. */
  lemma {:induction false} WellFormedAlternates(pieces: seq<Piece>)
    requires WellFormed(pieces)
    ensures |pieces| % 2 == 1
    ensures forall i :: 0 <= i < |pieces| ==> (pieces[i].Scene? <==> i % 2 == 0)
    decreases |pieces|
  {
    if |pieces| > 1 {
      var rest := pieces[2..];
      WellFormedAlternates(rest);
      forall i | 2 <= i < |pieces| ensures pieces[i].Scene? <==> i % 2 == 0 {
        assert pieces[i] == rest[i - 2];
      }
    }
  }
}
