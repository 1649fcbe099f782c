# Creativly brand video: a Dafny model of its frame arithmetic

The repository renders a promotional video with Remotion. Every visible value is a function of an integer frame counter. Most of that work goes through library primitives: springs, interpolation, noise, path evolution, shapes and the transition series. This project models what the repository itself writes around those primitives:

- **The timeline.** Seventeen scenes of `round(seconds × 30)` frames are chained by thirteen overlapping transitions, which shorten the video, and three light-leak overlays, which do not. `Timeline` gives the series semantics: a left fold for the running total and the scene start frames. `BrandVideo` holds the series exactly as `src/BrandVideo.tsx` declares it. `Root` holds the hand-computed registered length, 1830 − 268 = 1562 frames.
- **Undeclared transition lengths.** Four of the transitions in the series use `springTiming` with no declared duration, yet `Root` counts them as standard 20-frame transitions. Their lengths are therefore parameters (`springs`). The model proves:
  - the series lasts 1642 − Σ`springs` frames;
  - the registered length is right exactly when those four lengths sum to 80.

  No part of the code checks the hand-computed total against the series.
- **Frame-driven schedules inside scenes and components.** These are:
  - the typewriter's character count, with its pause, and its caret;
  - the recorder's `MM:SS.CC` timer;
  - node selection, steps, counters and sparkles in the flow demo;
  - style cycling;
  - token counting and prompt display;
  - flow-node text truncation, carets and two-digit alpha suffixes;
  - the word and character reveals with their stagger delays;
  - the collaboration scene's connection cycle, path strings, ripples and trails;
  - the templates grid, labels, tilts and decorations;
  - the two orbit rings of the models scene.

All core code is pure, so the model consists of datatypes, functions and lemmas. There is one module per source file. The shared modules are:

- `Js`: JavaScript's `slice`, `padStart`, `split`, `join`, `String(n)`, `toString(16)` and `Math.round`.
- `Stagger`: the staggered starts shared by both reveals.
- `Wrappers`: `Option`.

Values that come from library primitives are inputs to the model, constrained only to the range the caller's clamp gives. These are spring values, `promptChars`, `activeThumb` and the sign of a sine.

## Model

| member | source | states |
|---|---|---|
| Constants.Durations | src/constants.ts:34-52 | every scene length is positive and a whole number of half-seconds |
| Constants.HalfSeconds | src/constants.ts:34-52 | the half-second count of a scene is exactly twice its length in seconds, and at least 5 (the 2.5 s performance scene) |
| Constants.SceneKeysComplete | src/constants.ts:34-52 | `DURATIONS` has exactly seventeen entries, all different, and every scene key is among them |
| BrandVideo.FramesOfHalfSeconds | src/BrandVideo.tsx:39 | `f` of a whole number `h` of half-seconds is exactly `15h` frames, so the rounding never changes a duration |
| BrandVideo.SceneFrames | src/BrandVideo.tsx:39 | each scene's `f(DURATIONS[key])` is 15 frames per half-second and at least 75 frames |
| BrandVideo.AllSceneFrames | src/constants.ts:34-52 | the same for all seventeen scenes together, so no scene is shorter than 75 frames |
| BrandVideo.Sequences | src/BrandVideo.tsx:44-220 | sequence `i` of the series is scene `i` of the play order, lasting `f` of that scene's duration |
| BrandVideo.SceneOrderIsDeclared | src/BrandVideo.tsx:44-220 | the series plays the seventeen scenes in the order `DURATIONS` declares them, intro first and outro last |
| BrandVideo.JoinsFit | src/BrandVideo.tsx:50-214 | there are sixteen joins between the scenes, none of them a sequence, and each declared join lasts from 0 to 74 frames |
| BrandVideo.SeriesAlternates | src/BrandVideo.tsx:44-220 | the series has 33 children, and a child is a sequence exactly when its position is even: it starts and ends with a scene and alternates |
| BrandVideo.SeriesScenes | src/BrandVideo.tsx:44-220 | child `2j` of the series is scene `j` |
| BrandVideo.UndeclaredCount | src/BrandVideo.tsx:60-190 | exactly four joins are spring-timed with no declared duration |
| BrandVideo.DeclaredTotal | src/BrandVideo.tsx:50-202 | the declared transition lengths sum to 188 frames: the 18-frame fade, six 20-frame linear transitions and two 25-frame flips |
| BrandVideo.TransitionCount | src/BrandVideo.tsx:44-220 | the series has thirteen transitions |
| BrandVideo.OverlayCount | src/BrandVideo.tsx:71-214 | the series has three overlays |
| BrandVideo.StandardCount | src/BrandVideo.tsx:80-202 | exactly six transitions are linear with `TRANSITION_FRAMES` |
| BrandVideo.FlipCount | src/BrandVideo.tsx:92-157 | exactly two transitions are flips |
| BrandVideo.SequenceTotal | src/BrandVideo.tsx:46-218 | the sequences of the series last 1830 frames in all |
| BrandVideo.SeriesTallies | src/BrandVideo.tsx:44-220 | over the whole series: 17 sequences of 1830 frames, 13 transitions of which 4 are undeclared and the rest sum to 188 frames, and 3 overlays |
| BrandVideo.PieceOf | src/BrandVideo.tsx:44-220 | a declared child becomes a timeline piece of the same kind; a sequence or overlay keeps its length, and a declared transition keeps its declared `durationInFrames` |
| BrandVideo.Resolve | src/BrandVideo.tsx:44-220 | supplying the undeclared lengths turns the children into a timeline of the same length |
| BrandVideo.ResolveAt | src/BrandVideo.tsx:60-63 | the k-th undeclared transition takes the k-th supplied length, in order; every other child keeps its declared length |
| BrandVideo.ResolveSums | src/BrandVideo.tsx:44-220 | after resolving: the scene sum is the sum of the sequences; the transition sum is the declared lengths plus the supplied ones; the counts of scenes, transitions and overlays are kept |
| BrandVideo.ResolveBounded | src/BrandVideo.tsx:46-219 | if every declared join and every supplied length is below a bound, every resolved join is below it |
| BrandVideo.SeriesTimeline | src/BrandVideo.tsx:44-220 | for four spring lengths, the series is a 33-piece timeline |
| BrandVideo.SeriesTotal | src/BrandVideo.tsx:44-220 | the series lasts 1830 − 188 − Σ`springs` = 1642 − Σ`springs` frames |
| BrandVideo.SeriesWellFormed | src/BrandVideo.tsx:46-219 | with spring lengths of 0 to 74 frames, the series alternates scenes and joins, and every join is shorter than the scenes it joins |
| BrandVideo.SeriesStarts | src/BrandVideo.tsx:46-219 | under the same bound: the seventeen scenes start at strictly increasing frames from 0, and the 120-frame outro ends exactly at the last frame |
| Timeline.RunIsSums | src/Root.tsx:32-34 | walking a timeline adds every scene length and subtracts every transition length once; overlays add nothing |
| Timeline.TotalIsSums | src/Root.tsx:32-43 | a timeline lasts the sum of its scene lengths minus the sum of its transition lengths |
| Timeline.OverlayAddsNothing | src/Root.tsx:33 | inserting an overlay anywhere leaves the length of a timeline unchanged |
| Timeline.TransitionShortens | src/Root.tsx:33 | inserting a transition of `t` frames shortens a timeline by exactly `t` |
| Timeline.JoinCount | src/Root.tsx:32 | a well-formed timeline has one more scene than transitions and overlays together |
| Timeline.StartsIncrease | src/BrandVideo.tsx:44-220 | in a well-formed timeline: scene start frames strictly increase from the first start; each scene ends within the timeline; the last scene ends exactly at its end |
| Timeline.EveryFrameCovered | src/BrandVideo.tsx:44-220 | every frame of a well-formed timeline lies inside some scene: the timeline has no gaps |
| Timeline.AlternatingWellFormed | src/BrandVideo.tsx:44-220 | a series that alternates scenes of at least `bound` frames with joins shorter than `bound` is well formed |
| Timeline.WellFormedAlternates | src/BrandVideo.tsx:44-220 | a well-formed series has odd length, with scenes exactly at the even positions |
| Root.RemotionRoot | src/Root.tsx:45-58 | the one composition is `CreativlyBrandVideo`, registered with `TOTAL_DURATION` frames at 30 fps and 1920×1080 |
| Root.SceneFramesValue | src/Root.tsx:13-30 | `TOTAL_SCENE_FRAMES` is 1830 |
| Root.SceneFramesTotal | src/Root.tsx:13-30 | `TOTAL_SCENE_FRAMES` is the total length of the series' sequences: each term of the sum is the duration of the matching sequence |
| Root.RegisteredDuration | src/Root.tsx:35-43 | `TOTAL_OVERLAPS` is 18 + 10·20 + 2·25 = 268 and `TOTAL_DURATION` is 1562, a positive length at a positive frame rate |
| Root.TransitionCountsAgree | src/Root.tsx:32-37 | the 1 + 10 + 2 transitions subtracted are the series' 13 transitions, which equal 17 scenes − 1 − 3 overlays |
| Root.StandardCountSplit | src/Root.tsx:34-42 | the ten "standard" transitions are six linear 20-frame ones plus the four undeclared springs; `TOTAL_OVERLAPS` is the declared total plus four times `TRANSITION_FRAMES` |
| Root.RegisteredMatchesTimeline | src/Root.tsx:34-54 | the registered duration equals the series' real length if and only if the four spring-timed transitions last 80 frames in all |
| Typewriter.Progress | src/components/Typewriter.tsx:27-28 | progress is never negative, is 0 exactly up to the start frame, and counts the frames since then afterwards |
| Typewriter.CurrentText | src/components/Typewriter.tsx:47 | the text shown is a prefix of the text, of length `min(charCount, text.length)` |
| Typewriter.BeforeStart | src/components/Typewriter.tsx:27-47 | up to the start frame no character is counted and the shown text is empty |
| Typewriter.NoPause | src/components/Typewriter.tsx:43-45 | without a positive `pauseAfter` the count is `⌊progress·speed⌋` |
| Typewriter.DuringPause | src/components/Typewriter.tsx:33-38 | during the pause the count holds at exactly `pauseAfter` |
| Typewriter.AfterPause | src/components/Typewriter.tsx:39-42 | after the pause the count is `pauseAfter` plus the characters typed since the pause ended |
| Typewriter.FirstPartAtMost | src/components/Typewriter.tsx:33-36 | before the pause the count is `⌊progress·speed⌋` and does not exceed `pauseAfter` |
| Typewriter.AfterPauseAtLeast | src/components/Typewriter.tsx:39-42 | after the pause the count is never below `pauseAfter` |
| Typewriter.CharCountMonotone | src/components/Typewriter.tsx:30-45 | with a positive speed and a non-negative pause, the count never decreases as progress grows, across all three phases |
| Typewriter.CharCountMonotoneInFrame | src/components/Typewriter.tsx:27-45 | with a positive speed and a non-negative pause, the count never decreases from one frame to a later one |
| Typewriter.CursorBlinks | src/components/Typewriter.tsx:48-49 | with the cursor off nothing is drawn; while typing it always shows; once typing is done it shows exactly in the first half of every second |
| RecorderScene.Seconds | src/scenes/RecorderScene.tsx:35 | `seconds` is the whole number of seconds elapsed: `seconds·fps ≤ frame < (seconds+1)·fps` |
| RecorderScene.Centiseconds | src/scenes/RecorderScene.tsx:36 | the hundredths lie in 0..99 and are the rounded-down share of the current second |
| RecorderScene.TimerString | src/scenes/RecorderScene.tsx:37 | the readout is at least eight characters long; its field layout and round trips are stated by `TimerLayout` |
| Js.PadTwoRoundTrip | src/scenes/RecorderScene.tsx:37 | a field below 100 is padded to exactly two decimal digits, which read back as the number they show |
| RecorderScene.MinutesAndSeconds | src/scenes/RecorderScene.tsx:35-37 | the seconds field lies in 0..59, and minutes·60 plus it gives back the whole seconds |
| RecorderScene.TimerLayout | src/scenes/RecorderScene.tsx:37 | while minutes stay below 100 the readout has length 8, with ':' at index 2 and '.' at index 5; each of its three fields is two decimal digits that read back as minutes, seconds and hundredths |
| RecorderScene.CentisecondsWithinSecond | src/scenes/RecorderScene.tsx:36 | within one second the hundredths never go down |
| RecorderScene.CentisecondsReset | src/scenes/RecorderScene.tsx:35-36 | at each whole second `k` the seconds read `k` and the hundredths restart at 0 |
| FlowDemoScene.Layout | src/scenes/FlowDemoScene.tsx:27-32 | every node box has a positive size and an even height |
| FlowDemoScene.Connect | src/scenes/FlowDemoScene.tsx:35-48 | an edge leaves the middle of its source's right side and enters the middle of its target's left side |
| FlowDemoScene.EdgesJoinHandles | src/scenes/FlowDemoScene.tsx:35-48 | each of the three edges joins those midpoints exactly and runs left to right |
| FlowDemoScene.AtMostOneSelected | src/scenes/FlowDemoScene.tsx:137-140 | the selection windows [8,52), [52,72), [72,92) and [92,130) do not overlap |
| FlowDemoScene.ActiveNode | src/scenes/FlowDemoScene.tsx:497-498 | there is an active node exactly for frames 8 to 129, and it is the node whose window holds the frame |
| FlowDemoScene.ToolbarWindow | src/scenes/FlowDemoScene.tsx:495-498 | the context toolbar is drawn exactly for frames 18 to 129 |
| FlowDemoScene.ActiveTypeOfNode | src/scenes/FlowDemoScene.tsx:771 | the picker shows the type of the selected node, and "image" when no node is selected |
| FlowDemoScene.PastNotActive | src/scenes/FlowDemoScene.tsx:722 | a step shown as past is not the selected one, and stays past at later frames |
| FlowDemoScene.StatusCounts | src/scenes/FlowDemoScene.tsx:951-952 | the node count lies in 1..4 and never decreases, and the edge count is always one less |
| FlowDemoScene.SparkleOpacity | src/scenes/FlowDemoScene.tsx:985-990 | for a local frame of 0 or more the opacity lies in [0, 1]; it is 0 from local frame 10 on |
| FlowDemoScene.SparkleWindow | src/scenes/FlowDemoScene.tsx:173-175 | a burst is drawn with local frames 0..12, so its opacity stays in [0, 1] and is 0 for its last three frames |
| StylePresetsScene.ActiveStyleIndex | src/scenes/StylePresetsScene.tsx:48 | the highlighted style is always one of the six |
| StylePresetsScene.ConstantWithinBlock | src/scenes/StylePresetsScene.tsx:48 | the highlight does not move within a 20-frame block |
| StylePresetsScene.AdvancesAtBlockStart | src/scenes/StylePresetsScene.tsx:48 | each new block highlights the next style, wrapping after the last |
| StylePresetsScene.Period | src/scenes/StylePresetsScene.tsx:48 | the highlight repeats every 120 frames |
| StylePresetsScene.StyleTransition | src/scenes/StylePresetsScene.tsx:52 | the transition fraction lies in [0, 1) and is 0 exactly at block starts |
| StylePresetsScene.NextIndex | src/scenes/StylePresetsScene.tsx:55 | the next style is valid, differs from the current one, and is the one the next block highlights |
| StylePresetsScene.ExactlyOneActive | src/scenes/StylePresetsScene.tsx:236-237 | at every frame exactly one of the six buttons is active |
| StylePresetsScene.EntranceOrder | src/scenes/StylePresetsScene.tsx:238-239 | the buttons start their entrances in order, four frames apart |
| FocusedDemoScene.TokenCount | src/scenes/FocusedDemoScene.tsx:175 | the token count never exceeds twelve |
| FocusedDemoScene.TokensIffTyped | src/scenes/FocusedDemoScene.tsx:175 | the count is 0 exactly when nothing is typed, and otherwise between 1 and 12 |
| FocusedDemoScene.TokensMonotone | src/scenes/FocusedDemoScene.tsx:175 | typing more never lowers the count |
| FocusedDemoScene.FullPromptTokens | src/scenes/FocusedDemoScene.tsx:167-175 | the full prompt has 57 characters and counts the maximum twelve tokens |
| FocusedDemoScene.PromptDisplay | src/scenes/FocusedDemoScene.tsx:614-649 | the placeholder shows exactly when nothing is typed; otherwise the typed prefix of the prompt shows, `min(promptChars, 57)` characters long |
| FocusedDemoScene.CounterWithText | src/scenes/FocusedDemoScene.tsx:651 | the token counter shows exactly when typed text does, and then counts at least one token |
| FocusedDemoScene.ExactlyOneThumb | src/scenes/FocusedDemoScene.tsx:557-563 | for an `activeThumb` from 0 to 5 exactly one thumbnail is highlighted |
| FlowNode.TypeColor | src/components/FlowNode.tsx:9-14 | every node type's colour is a seven-character `#RRGGBB` |
| FlowNode.Display | src/components/FlowNode.tsx:74-81 | the displayed prompt or result is present exactly when the text is, is always a prefix of it, and without a count is the text unchanged |
| FlowNode.DisplayPrefix | src/components/FlowNode.tsx:74-77 | with a count of characters the display is the prefix of that length, or the whole text once the count reaches its length |
| FlowNode.ImageHeight | src/components/FlowNode.tsx:83 | the image area is never negative; it is 0 for a language-model node; for any other node it is the height less 150, or 0 when the height is below 150 |
| FlowNode.GalleryLabelRule | src/components/FlowNode.tsx:85 | the gallery label shows exactly when a non-empty label is given, the node is not selected and its result is shown |
| FlowNode.CaretWhileTyping | src/components/FlowNode.tsx:434-435 | the caret (and the result cursor) shows exactly while the displayed text is shorter than the whole text, and once it is gone the whole text is displayed |
| FlowNode.AlphaSuffix | src/components/FlowNode.tsx:456-477 | for a glow in (0, 1] the left alpha lies in 40..255 and the right alpha in 102..255; each is written as exactly two hex digits that read back as the alpha, completing a nine-character `#RRGGBBAA` |
| Js.Round | src/BrandVideo.tsx:39 | `Math.round` gives the whole number within half a unit of its input, halves rounding up |
| Stagger.SpringFrame | src/components/SplitText.tsx:48 | the frame fed to a word's or character's spring is never negative, is 0 up to its start, and counts the frames since then afterwards |
| Stagger.StartsInOrder | src/components/SplitText.tsx:46 | `delay + i·stagger` strictly increases in `i` for a positive stagger, does not decrease for a non-negative one, and steps by exactly one stagger |
| SplitText.RandomDir | src/components/SplitText.tsx:53-55 | the "random" direction of a word is always +1 or −1 |
| SplitText.Span | src/components/SplitText.tsx:45-62 | each word's span shows the word and starts at its staggered delay |
| SplitText.Spans | src/components/SplitText.tsx:33-45 | there is one span per space plus one |
| SplitText.WordsRoundTrip | src/components/SplitText.tsx:33 | the spans show the pieces of `split(" ")` in order, and joining them with single spaces gives the text back, empty words included |
| SplitText.WordsStartInOrder | src/components/SplitText.tsx:46 | with a positive stagger each word starts strictly after the ones before it |
| SplitText.OffsetSettles | src/components/SplitText.tsx:57-62 | "down" mirrors "up"; "up" starts 60 pixels low; every direction settles at 0 when the spring reaches 1 |
| SplitText.RandomSideFixed | src/components/SplitText.tsx:53-62 | while its spring is below 1, a "random" word stays on the side given by its index alone, whatever the frame |
| CharacterReveal.Filter | src/components/CharacterReveal.tsx:57 | a blur filter is emitted exactly when the blur exceeds 0.1 |
| CharacterReveal.Span | src/components/CharacterReveal.tsx:39-62 | each character's span shows that character and starts at its staggered delay |
| CharacterReveal.Spans | src/components/CharacterReveal.tsx:35-39 | there is one span per character of the text |
| CharacterReveal.CharsRoundTrip | src/components/CharacterReveal.tsx:35 | span `i` holds character `i` alone, and the spans together spell the text |
| CharacterReveal.CharsStartInOrder | src/components/CharacterReveal.tsx:40 | with a non-negative stagger no character starts before the one to its left |
| CharacterReveal.SpanStyle | src/components/CharacterReveal.tsx:47-58 | a character sits `offsetY` low at spring 0 and in place, unblurred, at spring 1; with blur off it carries no blur or filter; exactly the spaces get `pre` |
| CharacterReveal.BlurFilterWindow | src/components/CharacterReveal.tsx:48-57 | with blur on, the filter is emitted exactly while the spring is below 0.9875 |
| CollaborationScene.Next | src/scenes/CollaborationScene.tsx:59 | the next cursor index always exists |
| CollaborationScene.Conn | src/scenes/CollaborationScene.tsx:58-63 | connection `i` runs from cursor `i`'s end to the next cursor's end |
| CollaborationScene.ConnectionsCycle | src/scenes/CollaborationScene.tsx:58-63 | the connections form one closed loop 0→1→2→3→0: each starts where the previous ends, at four different points |
| CollaborationScene.ControlIsMidpoint | src/scenes/CollaborationScene.tsx:60-61 | each control point is exactly the midpoint of its ends raised by 100 pixels (every coordinate sum is even) |
| CollaborationScene.ConnPaths | src/scenes/CollaborationScene.tsx:58-63 | there is one path per cursor |
| CollaborationScene.PathForm | src/scenes/CollaborationScene.tsx:62 | each path starts "M " and splits at its spaces into exactly `M x1 y1 Q mx my x2 y2`, each number reading back as its coordinate |
| CollaborationScene.ConnStart | src/scenes/CollaborationScene.tsx:329-333 | a connection starts drawing ten frames after the later of its two cursors enters, never before either |
| CollaborationScene.ConnStarts | src/scenes/CollaborationScene.tsx:329-333 | the four connections start at frames 25, 30, 35 and 35 |
| CollaborationScene.RingsInOrder | src/scenes/CollaborationScene.tsx:368-384 | no ring is drawn before the ripple sequence starts at frame 20; every cursor's delay is at least 5, and for such a delay ring `r` is drawn exactly once more than `15 + 7r` frames have passed since it, so an outer ring never shows without the inner ones |
| CollaborationScene.TrailWhileInTransit | src/scenes/CollaborationScene.tsx:422-445 | a trail is drawn only while the cursor is in transit, and not for the whole transit |
| TemplatesScene.Col | src/scenes/TemplatesScene.tsx:401 | a card's column is always one of three |
| TemplatesScene.GridIsBijection | src/scenes/TemplatesScene.tsx:401-402 | the six cards fill the 2×3 grid one to one: each card is at `3·row + col` in row 0 or 1, and every cell holds a card |
| TemplatesScene.InterpolateWithin | src/scenes/TemplatesScene.tsx:403-404 | an unclamped interpolation given an input inside its range gives an output between the two end values, hitting them at the ends |
| TemplatesScene.TiltsInRange | src/scenes/TemplatesScene.tsx:403-404 | every card's row and column lie inside the tilt ranges, so the tilts stay within ±4 and ±5 degrees and take the end values on the outer rows and columns |
| TemplatesScene.CardLabels | src/scenes/TemplatesScene.tsx:582 | the card labels are "01" to "06": two decimal digits, a leading zero, reading back as the card's number |
| TemplatesScene.CardsInOrder | src/scenes/TemplatesScene.tsx:389-391 | the cards enter strictly in order, five frames apart, the last at frame 33 |
| TemplatesScene.Triangles | src/scenes/TemplatesScene.tsx:40-45 | of the eight decorative shapes, exactly those at 0, 3 and 6 are triangles |
| TemplatesScene.StrokeColor | src/scenes/TemplatesScene.tsx:200-203 | every fourth shape is outlined in the brand colour; every other one in the colour of an existing template |
| TemplatesScene.StrokeColors | src/scenes/TemplatesScene.tsx:200-203 | shapes 0 and 4 take the brand colour; the rest take the colours of templates 1, 2, 3, 5, 0 and 1 |
| ModelsScene.ExactlyOneRing | src/scenes/ModelsScene.tsx:169-172 | every model is drawn on exactly one ring, ring `i mod 2` |
| ModelsScene.SlotsPartition | src/scenes/ModelsScene.tsx:174-176 | each ring has twelve slots; every model's slot is in range; two models on a ring never share a slot; every slot is filled |
| ModelsScene.EvenlySpaced | src/scenes/ModelsScene.tsx:174-176 | the starting angles of a ring lie in [0, 1) of a turn, a twelfth of a turn apart |
| ModelsScene.Rings | src/scenes/ModelsScene.tsx:169-209 | the inner ring has radius 600 and turns forwards in the brand colour; the outer ring has radius 850 and turns backwards at the same speed in the secondary colour |
| ModelsScene.EntranceOrder | src/scenes/ModelsScene.tsx:194 | the badges enter strictly in model order, a frame and a half apart |

## Left out

- Library primitives are not modelled; where a value depends on one, that value is an input:
  - spring physics, interpolation with easing and colour interpolation;
  - noise, seeded `random`, `evolvePath`;
  - the shape makers and the internals of `TransitionSeries`.
- Rendering and styling are not modelled: JSX, CSS, fonts, images, SVG drawing.
- The `EASING` table of `src/constants.ts` is not modelled; it consists of library easing curves.
- Trigonometry and floating point are left out:
  - the sine behind `randomDir` is the input predicate `sinPositive`;
  - the cosine and sine that place orbiting badges are left out; their angles are kept as fractions of a turn;
  - frame arithmetic is exact. JavaScript's floating-point rounding in `((frame % fps) / fps) * 100` is not modelled; the hundredths are the exact rounded-down share.
- Frames are natural numbers; a composition's current frame is never negative. Strings are sequences of characters, not UTF-16 code units.
- Durations:
  - `DURATIONS` are kept as exact reals, beside an integer table of half-seconds proved equal to twice each entry;
  - the lengths of the four spring-timed transitions are parameters, because their settle time comes from spring physics outside the repository.
- BrandVideo.SeriesWellFormed: requires each spring length to be below 75 frames, the length of the shortest scene. This is a sufficient bound, not the exact bound set by each transition's own neighbours.
- BrandVideo.SeriesStarts: carries the same sufficient bound as `SeriesWellFormed`.
- Typewriter.CharCount: `pauseAfter` is taken as an integer, the only kind of value its callers pass.
- Typewriter.CharCountMonotone: holds for a positive speed and a non-negative pause only. A zero or negative speed, or a negative pause, is outside what the source's callers pass.
- Typewriter.CharCountMonotoneInFrame: carries the same positive-speed and non-negative-pause conditions as `CharCountMonotone`; the defaults (speed 1, pause 15) and the one caller (speed 3, pause 10) meet them.
- Typewriter.BeforeStart: requires a non-negative speed. With a negative speed characters can show before the start: with `pauseAfter` 5 and the default 15-frame pause, speed −1 gives a count of 5 at progress 0.
- Typewriter.AfterPause: requires a non-negative pause duration, like `CharCountMonotone`.
- RecorderScene.TimerLayout: states the eight-character layout only while minutes stay below 100. Beyond that the minutes field grows, as in the source.
- FlowNode.DisplayPrefix: is stated for non-negative counts. `Display` itself follows `slice` for negative counts, dropping characters from the end.
- FocusedDemoScene.ExactlyOneThumb: takes `activeThumb` in 0..5, the range its clamped interpolation gives.
- SplitText.RandomSideFixed: assumes the spring value stays below 1. At 1 the word has settled and has no side.
- The connection lines' drawing progress is not modelled, nor the cursors' motion, label fade, entrance opacity or noise wobble. All of them are library interpolations.
- The models scene's badge scale, opacity, blur and z-order are not modelled; they depend on the sine of the orbit angle.
- The card shimmer, the tilt progress and the templates' shape positions and rotation are not modelled; they are interpolations, noise and random values.
