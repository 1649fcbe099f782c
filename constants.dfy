/** The video's fixed configuration: frame size, frame rate, scene lengths and the standard transition length. */
module Constants {

  const VIDEO_WIDTH: int := 1920
  const VIDEO_HEIGHT: int := 1080
  const VIDEO_FPS: int := 30

  /** `COLORS.secondary`. */
  const SECONDARY_COLOR: string := "#8b5cf6"

  /** `COLORS.brand`. */
  const BRAND_COLOR: string := "#3B82F6"

  /** The seventeen keys of `DURATIONS`, one per scene. */
  datatype SceneKey =
    | Intro | FlowDemo | Templates | FocusedDemo | Collaboration | Models
    | TextGen | StylePresets | AudioGen | Recorder | Editor | Inpainting
    | Upscaling | BatchGen | Performance | OpenSource | Outro

  /** The keys of `DURATIONS` in the order they are declared. */
  const SCENE_KEYS: seq<SceneKey> := [
    Intro, FlowDemo, Templates, FocusedDemo, Collaboration, Models,
    TextGen, StylePresets, AudioGen, Recorder, Editor, Inpainting,
    Upscaling, BatchGen, Performance, OpenSource, Outro
  ]

  /** `DURATIONS[key]`: the length of a scene in seconds. Every entry is a positive whole number of half-seconds. */
  function Durations(key: SceneKey): (seconds: real)
    ensures seconds > 0.0
    ensures (2.0 * seconds).Floor as real == 2.0 * seconds
  {
    match key
    case Intro => 3.5
    case FlowDemo => 5.5
    case Templates => 3.0
    case FocusedDemo => 4.0
    case Collaboration => 3.0
    case Models => 3.5
    case TextGen => 3.5
    case StylePresets => 4.0
    case AudioGen => 3.5
    case Recorder => 3.0
    case Editor => 3.5
    case Inpainting => 4.0
    case Upscaling => 3.5
    case BatchGen => 3.5
    case Performance => 2.5
    case OpenSource => 3.5
    case Outro => 4.0
  }

  /** The number of half-seconds a scene lasts: `DURATIONS[key]` doubled, always a whole number. */
  function HalfSeconds(key: SceneKey): (h: nat)
    ensures h >= 5
    ensures h as real == 2.0 * Durations(key)
  {
    match key
    case Intro => 7
    case FlowDemo => 11
    case Templates => 6
    case FocusedDemo => 8
    case Collaboration => 6
    case Models => 7
    case TextGen => 7
    case StylePresets => 8
    case AudioGen => 7
    case Recorder => 6
    case Editor => 7
    case Inpainting => 8
    case Upscaling => 7
    case BatchGen => 7
    case Performance => 5
    case OpenSource => 7
    case Outro => 8
  }

  const TRANSITION_FRAMES: int := 20

  /** `DURATIONS` has exactly seventeen entries, each key once. */
  lemma SceneKeysComplete()
    ensures |SCENE_KEYS| == 17
    ensures forall i, j :: 0 <= i < j < |SCENE_KEYS| ==> SCENE_KEYS[i] != SCENE_KEYS[j]
    ensures forall key: SceneKey :: key in SCENE_KEYS
  {
    forall key: SceneKey ensures key in SCENE_KEYS {
      match key
      case Intro => assert SCENE_KEYS[0] == key;
      case FlowDemo => assert SCENE_KEYS[1] == key;
      case Templates => assert SCENE_KEYS[2] == key;
      case FocusedDemo => assert SCENE_KEYS[3] == key;
      case Collaboration => assert SCENE_KEYS[4] == key;
      case Models => assert SCENE_KEYS[5] == key;
      case TextGen => assert SCENE_KEYS[6] == key;
      case StylePresets => assert SCENE_KEYS[7] == key;
      case AudioGen => assert SCENE_KEYS[8] == key;
      case Recorder => assert SCENE_KEYS[9] == key;
      case Editor => assert SCENE_KEYS[10] == key;
      case Inpainting => assert SCENE_KEYS[11] == key;
      case Upscaling => assert SCENE_KEYS[12] == key;
      case BatchGen => assert SCENE_KEYS[13] == key;
      case Performance => assert SCENE_KEYS[14] == key;
      case OpenSource => assert SCENE_KEYS[15] == key;
      case Outro => assert SCENE_KEYS[16] == key;
    }
  }
}
