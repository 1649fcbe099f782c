/**
 * The root of the project: the total length it registers the brand video
 * with, worked out from the scene lengths less a hand count of the
 * transition overlaps.
 */
module Root {
  import opened Constants
  import BrandVideo
  import Timeline

  /** `TOTAL_SCENE_FRAMES`: `f` of every scene duration, summed. */
  const TOTAL_SCENE_FRAMES: int :=
    BrandVideo.F(Durations(Intro)) +
    BrandVideo.F(Durations(FlowDemo)) +
    BrandVideo.F(Durations(Templates)) +
    BrandVideo.F(Durations(FocusedDemo)) +
    BrandVideo.F(Durations(Collaboration)) +
    BrandVideo.F(Durations(Models)) +
    BrandVideo.F(Durations(TextGen)) +
    BrandVideo.F(Durations(StylePresets)) +
    BrandVideo.F(Durations(AudioGen)) +
    BrandVideo.F(Durations(Recorder)) +
    BrandVideo.F(Durations(Editor)) +
    BrandVideo.F(Durations(Inpainting)) +
    BrandVideo.F(Durations(Upscaling)) +
    BrandVideo.F(Durations(BatchGen)) +
    BrandVideo.F(Durations(Performance)) +
    BrandVideo.F(Durations(OpenSource)) +
    BrandVideo.F(Durations(Outro))

  const FADE_INTRO_FLOW: int := 18
  const STANDARD_TRANSITION_COUNT: int := 10
  const FLIP_TRANSITION_COUNT: int := 2
  const FLIP_FRAMES: int := 25

  /** The frames the transitions are counted to take off the timeline: one fade, ten standard transitions, two flips. */
  const TOTAL_OVERLAPS: int :=
    FADE_INTRO_FLOW + STANDARD_TRANSITION_COUNT * TRANSITION_FRAMES + FLIP_TRANSITION_COUNT * FLIP_FRAMES

  const TOTAL_DURATION: int := TOTAL_SCENE_FRAMES - TOTAL_OVERLAPS

  /** A `<Composition>` registration. */
  datatype Composition = Composition(id: string, durationInFrames: int, fps: int, width: int, height: int)

  /** `RemotionRoot`: the one composition of the project, the brand video. */
  function RemotionRoot(): (c: Composition)
    ensures c.id == "CreativlyBrandVideo"
    ensures c.durationInFrames == TOTAL_DURATION
    ensures c.fps == VIDEO_FPS && c.width == VIDEO_WIDTH && c.height == VIDEO_HEIGHT
  {
    Composition("CreativlyBrandVideo", TOTAL_DURATION, VIDEO_FPS, VIDEO_WIDTH, VIDEO_HEIGHT)
  }

  /** The hand-written sum of scene lengths comes to 1830 frames. */
  lemma SceneFramesValue()
    ensures TOTAL_SCENE_FRAMES == 1830
  {
  }

  /** The hand-written sum of scene lengths is the sum of the lengths of the series' sequences. */
  lemma SceneFramesTotal()
    ensures TOTAL_SCENE_FRAMES == BrandVideo.Tally(BrandVideo.SEQUENCES, BrandVideo.SequenceWeight)
  {
    SceneFramesValue();
    BrandVideo.SequenceTotal();
  }

  /** The registered length is 1830 - 268 = 1562 frames, a positive length at 30 frames per second. */
  lemma RegisteredDuration()
    ensures TOTAL_OVERLAPS == 268
    ensures TOTAL_DURATION == 1562 > 0
    ensures RemotionRoot().durationInFrames > 0 && RemotionRoot().fps > 0
  {
    SceneFramesValue();
  }

  /**
   * The hand count of transitions matches the series: 1 fade, 10 standard
   * transitions and 2 flips make the 13 transitions, which is the 17 scenes
   * less one less the 3 overlays that replace a transition and take nothing
   * off the timeline.
   */
  lemma TransitionCountsAgree(springs: seq<int>)
    requires |springs| == 4
    ensures 1 + STANDARD_TRANSITION_COUNT + FLIP_TRANSITION_COUNT == Timeline.CountTransitions(BrandVideo.SeriesTimeline(springs))
    ensures Timeline.CountTransitions(BrandVideo.SeriesTimeline(springs)) ==
              Timeline.CountScenes(BrandVideo.SeriesTimeline(springs)) - 1 - Timeline.CountOverlays(BrandVideo.SeriesTimeline(springs))
    ensures Timeline.CountScenes(BrandVideo.SeriesTimeline(springs)) == 17
    ensures Timeline.CountOverlays(BrandVideo.SeriesTimeline(springs)) == 3
  {
    BrandVideo.SeriesTallies();
    BrandVideo.ResolveSums(BrandVideo.SERIES, springs);
  }

  /**
   * Of the ten transitions counted as standard, six state `TRANSITION_FRAMES`
   * and four are spring timings that state no duration at all; the two flips
   * state `FLIP_FRAMES`. So the hand count equals the declared transition
   * frames plus four times `TRANSITION_FRAMES`.
   */
  lemma StandardCountSplit()
    ensures STANDARD_TRANSITION_COUNT ==
              BrandVideo.Tally(BrandVideo.JOINS, BrandVideo.IsStandard) + BrandVideo.Tally(BrandVideo.JOINS, BrandVideo.UndeclaredWeight)
    ensures FLIP_TRANSITION_COUNT == BrandVideo.Tally(BrandVideo.JOINS, BrandVideo.IsFlip)
    ensures TOTAL_OVERLAPS == BrandVideo.Tally(BrandVideo.JOINS, BrandVideo.DeclaredWeight) + 4 * TRANSITION_FRAMES
  {
    BrandVideo.StandardCount();
    BrandVideo.UndeclaredCount();
    BrandVideo.FlipCount();
    BrandVideo.DeclaredTotal();
  }

  /**
   * The length the project registers is the length of the series' timeline
   * exactly when the four undeclared spring transitions together last four
   * standard transitions (80 frames): the overlays are rightly left out of the
   * subtraction, and every declared transition is counted at its own length.
   */
  lemma RegisteredMatchesTimeline(springs: seq<int>)
    requires |springs| == 4
    ensures (RemotionRoot().durationInFrames == Timeline.Total(BrandVideo.SeriesTimeline(springs)))
              <==> (BrandVideo.Sum(springs) == 4 * TRANSITION_FRAMES)
  {
    RegisteredDuration();
    BrandVideo.SeriesTotal(springs);
  }
}
