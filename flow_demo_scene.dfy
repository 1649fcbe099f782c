/**
 * The flow-editor demo: four nodes laid out on a canvas, joined by three
 * edges, selected one after another in fixed frame windows, with a step
 * indicator, a node picker, a status bar counting nodes and edges, and
 * sparkle bursts when a result appears.
 */
module FlowDemoScene {
  import opened Wrappers

  datatype Node = Img1 | Vid1 | Img2 | Llm1

  /** A node's box on the canvas. */
  datatype Box = Box(x: int, y: int, w: int, h: int)

  /** The layout `N`. */
  function Layout(n: Node): (b: Box)
    ensures b.w > 0 && b.h > 0 && b.h % 2 == 0
  {
    match n
    case Img1 => Box(680, 360, 300, 380)
    case Vid1 => Box(1130, 490, 300, 340)
    case Img2 => Box(1130, 110, 300, 340)
    case Llm1 => Box(1580, 400, 320, 280)
  }

  /** The `type` each node is rendered with. */
  function NodeType(n: Node): string
  {
    match n
    case Img1 => "image"
    case Vid1 => "video"
    case Img2 => "image"
    case Llm1 => "llm"
  }

  datatype Edge = Edge(x1: int, y1: int, x2: int, y2: int)

  /** An edge from the right handle of `from` to the left handle of `to`. */
  function Connect(from: Node, to: Node): (e: Edge)
    ensures e.x1 == Layout(from).x + Layout(from).w && 2 * e.y1 == 2 * Layout(from).y + Layout(from).h
    ensures e.x2 == Layout(to).x && 2 * e.y2 == 2 * Layout(to).y + Layout(to).h
  {
    var a, b := Layout(from), Layout(to);
    Edge(a.x + a.w, a.y + a.h / 2, b.x, b.y + b.h / 2)
  }

  /** The edges `E`: image to video, image to the second image, video to the language model. */
  const EDGES: seq<(Node, Node)> := [(Img1, Vid1), (Img1, Img2), (Vid1, Llm1)]

  /**
   * Every edge leaves its source at the exact middle of the source's right
   * side and enters its target at the exact middle of the target's left
   * side, and runs left to right.
   */
  lemma EdgesJoinHandles()
    ensures forall k :: 0 <= k < |EDGES| ==>
              && Connect(EDGES[k].0, EDGES[k].1).x1 == Layout(EDGES[k].0).x + Layout(EDGES[k].0).w
              && Connect(EDGES[k].0, EDGES[k].1).y1 * 2 == Layout(EDGES[k].0).y * 2 + Layout(EDGES[k].0).h
              && Connect(EDGES[k].0, EDGES[k].1).x2 == Layout(EDGES[k].1).x
              && Connect(EDGES[k].0, EDGES[k].1).y2 * 2 == Layout(EDGES[k].1).y * 2 + Layout(EDGES[k].1).h
              && Connect(EDGES[k].0, EDGES[k].1).x1 < Connect(EDGES[k].0, EDGES[k].1).x2
  {
  }

  /** `sel1`, `selV`, `sel2`, `selL`: each node is selected during its own window of frames. */
  predicate Selected(n: Node, frame: int)
  {
    match n
    case Img1 => 8 <= frame < 52
    case Vid1 => 52 <= frame < 72
    case Img2 => 72 <= frame < 92
    case Llm1 => 92 <= frame < 130
  }

  /** The windows do not overlap: no two nodes are selected at the same frame. */
  lemma AtMostOneSelected(frame: int, a: Node, b: Node)
    requires Selected(a, frame) && Selected(b, frame)
    ensures a == b
  {
  }

  /** `activeNode`: the selected node, tested in order, or none. */
  function ActiveNode(frame: int): (r: Option<Node>)
    ensures r.Some? <==> 8 <= frame < 130
    ensures forall n :: r == Some(n) <==> Selected(n, frame)
  {
    if Selected(Img1, frame) then Some(Img1)
    else if Selected(Vid1, frame) then Some(Vid1)
    else if Selected(Img2, frame) then Some(Img2)
    else if Selected(Llm1, frame) then Some(Llm1)
    else None
  }

  /** The context toolbar is drawn from frame 18 on, and only while some node is selected. */
  predicate ToolbarShown(frame: int)
  {
    frame >= 18 && ActiveNode(frame).Some?
  }

  lemma ToolbarWindow(frame: int)
    ensures ToolbarShown(frame) <==> 18 <= frame < 130
  {
  }

  /** `activeType` in the node picker. */
  function ActiveType(frame: int): string
  {
    if Selected(Img1, frame) then "image"
    else if Selected(Vid1, frame) then "video"
    else if Selected(Img2, frame) then "image"
    else if Selected(Llm1, frame) then "llm"
    else "image"
  }

  /** The picker highlights the type of the selected node, and "image" when none is selected. */
  lemma ActiveTypeOfNode(frame: int)
    ensures ActiveNode(frame).Some? ==> ActiveType(frame) == NodeType(ActiveNode(frame).value)
    ensures ActiveNode(frame).None? ==> ActiveType(frame) == "image"
  {
  }

  /** The step indicator's steps: Create, Animate, Branch, Reason, one per node in selection order. */
  function StepNode(i: nat): Node
    requires i < 4
  {
    [Img1, Vid1, Img2, Llm1][i]
  }

  /** `isPast`: a step is past once the next node's window has begun (the last step is never past). */
  predicate IsPast(i: nat, frame: int)
  {
    (i == 0 && frame >= 52) || (i == 1 && frame >= 72) || (i == 2 && frame >= 92)
  }

  /** A step shown as past is never the active step, and once past it stays past. */
  lemma PastNotActive(i: nat, frame: int, later: int)
    requires i < 4 && IsPast(i, frame) && frame <= later
    ensures !Selected(StepNode(i), frame)
    ensures IsPast(i, later)
  {
  }

  /** `nodeCount` in the status bar. */
  function NodeCount(frame: int): int
  {
    if frame >= 92 then 4 else if frame >= 72 then 3 else if frame >= 52 then 2 else 1
  }

  /** `edgeCount` in the status bar. */
  function EdgeCount(frame: int): int
  {
    if frame >= 92 then 3 else if frame >= 72 then 2 else if frame >= 52 then 1 else 0
  }

  /**
   * The status bar counts between one and four nodes, never fewer than
   * before, and always exactly one edge fewer than nodes: the canvas stays a
   * tree.
   */
  lemma StatusCounts(frame: int, later: int)
    requires frame <= later
    ensures 1 <= NodeCount(frame) <= 4
    ensures NodeCount(frame) <= NodeCount(later)
    ensures EdgeCount(frame) == NodeCount(frame) - 1
  {
  }

  /** The three sparkle bursts, starting at frames 50, 70 and 90, each lasting thirteen frames. */
  const SPARKLE_STARTS: seq<int> := [50, 70, 90]

  /** `sparkle1`, `sparkleV`, `sparkle2`. */
  predicate Sparkling(k: nat, frame: int)
    requires k < 3
  {
    SPARKLE_STARTS[k] <= frame <= SPARKLE_STARTS[k] + 12
  }

  /** The `opacity` of a sparkle `localFrame` frames into its burst. */
  function SparkleOpacity(localFrame: int): (o: real)
    ensures localFrame >= 0 ==> 0.0 <= o <= 1.0
    ensures localFrame >= 10 ==> o == 0.0
  {
    if 1.0 - localFrame as real / 10.0 > 0.0 then 1.0 - localFrame as real / 10.0 else 0.0
  }

  /**
   * A burst is drawn with a local frame from 0 to 12, so its opacity stays
   * within [0, 1] and the sparks have faded out for the last three frames.
   */
  lemma SparkleWindow(k: nat, frame: int)
    requires k < 3 && Sparkling(k, frame)
    ensures 0 <= frame - SPARKLE_STARTS[k] <= 12
    ensures 0.0 <= SparkleOpacity(frame - SPARKLE_STARTS[k]) <= 1.0
    ensures frame - SPARKLE_STARTS[k] >= 10 ==> SparkleOpacity(frame - SPARKLE_STARTS[k]) == 0.0
  {
  }
}
