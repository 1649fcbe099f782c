/**
 * The collaboration scene: four named cursors glide to their end points, the
 * end points are joined by four curved connection lines in a closed loop,
 * ripple rings spread from each end point, and a trail follows each cursor
 * while it moves.
 *
 * The cursors' spring values are library computations and are taken as inputs.
 */
module CollaborationScene {
  import Js

  datatype Point = Point(x: int, y: int)

  datatype Cursor = Cursor(name: string, start: Point, end: Point, delay: int)

  /** `CURSORS`. */
  const CURSORS: seq<Cursor> := [
    Cursor("Sarah", Point(80, 850), Point(760, 420), 10),
    Cursor("Mike", Point(1850, 920), Point(1120, 490), 15),
    Cursor("Alex", Point(480, -120), Point(880, 310), 20),
    Cursor("Nina", Point(1920, 80), Point(1220, 620), 25)
  ]

  /** The cursor after `i`, wrapping from the last to the first. */
  function Next(i: nat): (j: nat)
    ensures j < |CURSORS|
  {
    (i + 1) % |CURSORS|
  }

  /** A quadratic connection: from one end point, bending towards `control`, to another. */
  datatype Connection = Connection(from: Point, control: Point, to: Point)

  /** The control point: midway between the ends, raised by 100 pixels. */
  function Control(a: Point, b: Point): Point
  {
    Point((a.x + b.x) / 2, (a.y + b.y) / 2 - 100)
  }

  /** Connection `i` of `CONN_PATHS`: from cursor `i`'s end to the next cursor's end. */
  function Conn(i: nat): (c: Connection)
    requires i < |CURSORS|
    ensures c.from == CURSORS[i].end && c.to == CURSORS[Next(i)].end
  {
    Connection(CURSORS[i].end, Control(CURSORS[i].end, CURSORS[Next(i)].end), CURSORS[Next(i)].end)
  }

  /**
   * The connections form one closed loop through all four end points: each
   * starts where the previous one ends, following them from the first comes
   * back to it after four steps, and no two start at the same end point.
   */
  lemma ConnectionsCycle()
    ensures forall i :: 0 <= i < |CURSORS| ==> Conn(i).to == Conn(Next(i)).from
    ensures Next(0) == 1 && Next(1) == 2 && Next(2) == 3 && Next(3) == 0
    ensures forall i, j :: 0 <= i < j < |CURSORS| ==> Conn(i).from != Conn(j).from
  {
    assert Conn(0).from == Point(760, 420) && Conn(1).from == Point(1120, 490);
    assert Conn(2).from == Point(880, 310) && Conn(3).from == Point(1220, 620);
  }

  /**
   * Every pair of neighbouring end points has even coordinate sums, so the
   * halving is exact: each control point is the true midpoint of its ends,
   * raised by 100.
   */
  lemma ControlIsMidpoint()
    ensures forall i :: 0 <= i < |CURSORS| ==>
              2 * Conn(i).control.x == Conn(i).from.x + Conn(i).to.x &&
              2 * (Conn(i).control.y + 100) == Conn(i).from.y + Conn(i).to.y
  {
  }

  /** `CONN_PATHS`. */
  function ConnPaths(): (r: seq<string>)
    ensures |r| == |CURSORS|
  {
    seq(|CURSORS|, i requires 0 <= i < |CURSORS| => PathData(Conn(i)))
  }

  /** The eight space-separated fields of a path. */
  function Fields(c: Connection): seq<string>
  {
    ["M", Js.IntToString(c.from.x), Js.IntToString(c.from.y), "Q",
     Js.IntToString(c.control.x), Js.IntToString(c.control.y), Js.IntToString(c.to.x), Js.IntToString(c.to.y)]
  }

  /**
   * The SVG path data, the template `M ${x1} ${y1} Q ${mx} ${my} ${x2} ${y2}`:
   * the eight fields written one after another with a single space between
   * neighbours.
   */
  function PathData(c: Connection): string
  {
    Js.Join(Fields(c), ' ')
  }

  /** A number written out holds no space. */
  lemma NumberHasNoSpace(n: int)
    ensures ' ' !in Js.IntToString(n)
  {
    var s := Js.IntToString(n);
    if n < 0 {
      assert s[1..] == Js.ToRadix(-n, 10);
      assert forall i :: 1 <= i < |s| ==> s[i] == s[1..][i - 1];
    }
    assert Js.DigitValue(' ') == -1;
  }

  /**
   * Every path has exactly the form `M x1 y1 Q mx my x2 y2`: split at its
   * spaces it gives the eight fields in that order, and each number field
   * reads back as the coordinate it was written from.
   */
  lemma PathForm(c: Connection)
    ensures PathData(c)[..2] == "M "
    ensures Js.Split(PathData(c), ' ') == Fields(c)
    ensures Js.ParseInt(Fields(c)[1]) == c.from.x && Js.ParseInt(Fields(c)[2]) == c.from.y
    ensures Js.ParseInt(Fields(c)[4]) == c.control.x && Js.ParseInt(Fields(c)[5]) == c.control.y
    ensures Js.ParseInt(Fields(c)[6]) == c.to.x && Js.ParseInt(Fields(c)[7]) == c.to.y
  {
    var f := Fields(c);
    assert f == ["M"] + f[1..];
    NumberHasNoSpace(c.from.x);
    NumberHasNoSpace(c.from.y);
    NumberHasNoSpace(c.control.x);
    NumberHasNoSpace(c.control.y);
    NumberHasNoSpace(c.to.x);
    NumberHasNoSpace(c.to.y);
    Js.SplitJoin(f, ' ');
    Js.ParseIntToString(c.from.x);
    Js.ParseIntToString(c.from.y);
    Js.ParseIntToString(c.control.x);
    Js.ParseIntToString(c.control.y);
    Js.ParseIntToString(c.to.x);
    Js.ParseIntToString(c.to.y);
  }

  /** `startFrame` of connection `i`: ten frames after the later of its two cursors enters. */
  function ConnStart(i: nat): (s: int)
    requires i < |CURSORS|
    ensures s >= CURSORS[i].delay + 10 && s >= CURSORS[Next(i)].delay + 10
    ensures s == CURSORS[i].delay + 10 || s == CURSORS[Next(i)].delay + 10
  {
    Js.Max(CURSORS[i].delay, CURSORS[Next(i)].delay) + 10
  }

  /** The connections start drawing at frames 25, 30, 35 and 35. */
  lemma ConnStarts()
    ensures ConnStart(0) == 25 && ConnStart(1) == 30 && ConnStart(2) == 35 && ConnStart(3) == 35
  {
  }

  /** `ringFrame`: frames since ripple ring `ring` of a cursor began. */
  function RingFrame(frame: int, delay: int, ring: nat): int
  {
    frame - delay - 15 - ring * 7
  }

  /** The ripple rings sit in a sequence that starts at frame 20. */
  const RIPPLE_FROM: int := 20

  /** A ripple ring is drawn once its sequence has started and while its ring frame is positive. */
  predicate RingDrawn(frame: int, delay: int, ring: nat)
  {
    frame >= RIPPLE_FROM && RingFrame(frame, delay, ring) > 0
  }

  /**
   * No ring is drawn before frame 20. For a cursor delay of at least 5, as all
   * four cursors have, that gate never matters: ring `r` appears once more
   * than `15 + 7r` frames have passed since the delay, so the rings appear
   * inside out and an outer ring is never drawn without the inner ones.
   */
  lemma RingsInOrder(frame: int, delay: int, ring: nat)
    ensures RingDrawn(frame, delay, ring) ==> frame >= RIPPLE_FROM
    ensures delay >= 5 ==> (RingDrawn(frame, delay, ring) <==> frame > delay + 15 + 7 * ring)
    ensures RingDrawn(frame, delay, ring + 1) ==> RingDrawn(frame, delay, ring)
    ensures forall i :: 0 <= i < |CURSORS| ==> CURSORS[i].delay >= 5
  {
  }

  /** `inTransit`: the cursor is between its start and end, where its path wobbles. */
  predicate InTransit(spr: real)
  {
    0.02 < spr < 0.98
  }

  /** `showTrail`. */
  predicate ShowTrail(spr: real)
  {
    0.08 < spr < 0.92
  }

  /** A trail is drawn only while the cursor is in transit, and not for the whole transit. */
  lemma TrailWhileInTransit(spr: real)
    ensures ShowTrail(spr) ==> InTransit(spr)
    ensures InTransit(0.05) && !ShowTrail(0.05)
  {
  }
}
