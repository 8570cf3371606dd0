/** Tiles of the P2 tiling: the kite and dart templates, and the turtle walk
    that turns a tile into its corner points and its closed outline. */
module Tiles {
  import opened Vec

  /** One step of a shape template: the corner angle (degrees) at the vertex
      the step leaves from, and the edge length in units of the tile's scale. */
  datatype Edge = Edge(angle: int, length: real)

  /** A shape, walked from its "pointy" 72-degree corner. Every corner turns
      the walk left, so it goes counterclockwise (clockwise as drawn, with y
      pointing down). */
  type Template = seq<Edge>

  /** The golden ratio: the decimal Python prints for the double
      `(1 + sqrt(5)) / 2`. */
  const PHI: real := 1.618033988749895

  const KITE: Template := [Edge(72, PHI), Edge(72, 1.0), Edge(144, 1.0), Edge(72, PHI)]
  const DART: Template := [Edge(72, PHI), Edge(36, 1.0), Edge(216, 1.0), Edge(36, PHI)]

  /** A tile: its template, the location of its pointy corner, the direction it
      faces (degrees, 0 to the right, 90 upward) and the length of its short
      sides. Two tiles are equal exactly when all four fields are. */
  datatype Tile = Tile(shape: Template, location: Vec2, heading: int, scale: real)

  function Kite(p: Vec2, h: int, s: real): Tile
  {
    Tile(KITE, p, h, s)
  }

  function Dart(p: Vec2, h: int, s: real): Tile
  {
    Tile(DART, p, h, s)
  }

  /** The templates the substitution rule knows how to replace. */
  predicate Inflatable(t: Tile)
  {
    t.shape == KITE || t.shape == DART
  }

  /** The same tile, moved by `dxy`. */
  function Translate(t: Tile, dxy: Vec2): Tile
  {
    Tile(t.shape, Add(t.location, dxy), t.heading, t.scale)
  }

  /** The sum of a template's corner angles. */
  function SumAngles(edges: Template): int
  {
    if edges == [] then 0 else edges[0].angle + SumAngles(edges[1..])
  }

  /** One turn of the walk: at a corner of angle `angle` the walk turns by
      `180 - angle` degrees, and the new heading is reduced into [0, 360). */
  function Turn(heading: int, angle: int): (r: int)
    ensures 0 <= r < 360
    ensures (r - (heading + 180 - angle)) % 360 == 0
  {
    (heading + (180 - angle)) % 360
  }

  /** The walk's heading once it has taken every step of `edges`. */
  function HeadingAfter(heading: int, edges: Template): (r: int)
    ensures edges != [] ==> 0 <= r < 360
    decreases |edges|
  {
    if edges == [] then heading else HeadingAfter(Turn(heading, edges[0].angle), edges[1..])
  }

  /** Adding a multiple of 360 before or after reduction makes no difference. */
  lemma ModAdd(a: int, b: int)
    ensures (a % 360 + b) % 360 == (a + b) % 360
  {
  }

  /** The walk's heading after k >= 1 steps, in closed form: every step turns
      by 180 degrees less the corner angle. */
  lemma {:induction false} HeadingAfterFormula(heading: int, edges: Template)
    requires edges != []
    ensures HeadingAfter(heading, edges) == (heading + 180 * |edges| - SumAngles(edges)) % 360
    decreases |edges|
  {
    var a := edges[0].angle;
    var rest := edges[1..];
    if rest == [] {
      assert SumAngles(edges) == a;
    } else {
      HeadingAfterFormula(Turn(heading, a), rest);
      ModAdd(heading + 180 - a, 180 * |rest| - SumAngles(rest));
    }
  }

  /** The sum of the first angle of a template, and of its first three. */
  lemma {:induction false} PrefixAngles(edges: Template)
    requires |edges| == 4
    ensures SumAngles(edges[..1]) == edges[0].angle
    ensures SumAngles(edges[..3]) == edges[0].angle + edges[1].angle + edges[2].angle
    ensures SumAngles(edges) == edges[0].angle + edges[1].angle + edges[2].angle + edges[3].angle
  {
    var e0, e1, e2, e3 := edges[0], edges[1], edges[2], edges[3];
    assert [e3][1..] == [] && [e2][1..] == [] && [e0][1..] == [];
    assert [e2, e3][1..] == [e3] && [e1, e2][1..] == [e2];
    assert [e1, e2, e3][1..] == [e2, e3] && [e0, e1, e2][1..] == [e1, e2];
    assert edges == [e0, e1, e2, e3] && edges[1..] == [e1, e2, e3];
    assert edges[..1] == [e0] && edges[..3] == [e0, e1, e2];
    assert SumAngles([e3]) == e3.angle;
    assert SumAngles([e2]) == e2.angle;
    assert SumAngles([e0]) == e0.angle;
    assert SumAngles([e2, e3]) == e2.angle + e3.angle;
    assert SumAngles([e1, e2]) == e1.angle + e2.angle;
    assert SumAngles([e1, e2, e3]) == e1.angle + e2.angle + e3.angle;
    assert SumAngles([e0, e1, e2]) == e0.angle + e1.angle + e2.angle;
  }

  /** The angle sums the substitution rule relies on. */
  lemma TemplateAngles()
    ensures SumAngles(KITE[..1]) == 72 && SumAngles(KITE[..3]) == 288 && SumAngles(KITE) == 360
    ensures SumAngles(DART[..1]) == 72 && SumAngles(DART[..3]) == 324 && SumAngles(DART) == 360
  {
    PrefixAngles(KITE);
    PrefixAngles(DART);
  }

  /** The corner angles of both shapes add up to 360 degrees, so a walk round
      either one ends facing the way it started (reduced into [0, 360)). */
  lemma WalkCloses(heading: int)
    ensures SumAngles(KITE) == 360 && SumAngles(DART) == 360
    ensures HeadingAfter(heading, KITE) == heading % 360
    ensures HeadingAfter(heading, DART) == heading % 360
  {
    TemplateAngles();
    HeadingAfterFormula(heading, KITE);
    HeadingAfterFormula(heading, DART);
    assert heading + 180 * 4 - 360 == 360 * (heading / 360 + 1) + heading % 360;
  }

  /** How far one step of the walk goes: the edge's length times the tile's scale. */
  function Distance(e: Edge, scale: real): real
  {
    e.length * scale
  }

  /** The turtle walk: starting at `point` facing `heading`, turn at each corner
      and step `length * scale` forward; the sequence of points visited,
      starting point included. */
  function Walk(offset: Offset, point: Vec2, heading: int, edges: Template, scale: real): (ps: seq<Vec2>)
    ensures |ps| == |edges| + 1
    ensures ps[0] == point
    decreases |edges|
  {
    if edges == [] then [point]
    else
      var h := Turn(heading, edges[0].angle);
      [point] + Walk(offset, offset(point, h, Distance(edges[0], scale)), h, edges[1..], scale)
  }

  /** Step k + 1 of the walk leaves point k facing the heading reached after
      k + 1 turns, and goes `length * scale` along it. */
  lemma {:induction false} WalkStep(offset: Offset, point: Vec2, heading: int, edges: Template, scale: real, k: nat)
    requires k < |edges|
    ensures var ps := Walk(offset, point, heading, edges, scale);
      ps[k + 1] == offset(ps[k], HeadingAfter(heading, edges[..k + 1]), Distance(edges[k], scale))
    decreases k
  {
    var h := Turn(heading, edges[0].angle);
    var next := offset(point, h, Distance(edges[0], scale));
    assert Walk(offset, point, heading, edges, scale) == [point] + Walk(offset, next, h, edges[1..], scale);
    if k == 0 {
      assert edges[..1][0] == edges[0] && edges[..1][1..] == [];
      assert HeadingAfter(heading, edges[..1]) == HeadingAfter(h, []) == h;
    } else {
      WalkStep(offset, next, h, edges[1..], scale, k - 1);
      assert edges[..k + 1][1..] == edges[1..][..k];
    }
  }

  /** The corner points of a tile, its location first. */
  function Points(offset: Offset, t: Tile): (ps: seq<Vec2>)
    ensures |ps| == |t.shape| + 1
    ensures ps[0] == t.location
  {
    Walk(offset, t.location, t.heading, t.shape, t.scale)
  }

  /** The generator: the walk written as a loop that reassigns the heading and
      the current point at each step. */
  method PointsOf(offset: Offset, t: Tile) returns (ps: seq<Vec2>)
    ensures ps == Points(offset, t)
    ensures |ps| == |t.shape| + 1 && ps[0] == t.location
  {
    var heading := t.heading;
    var point := t.location;
    ps := [point];
    var i := 0;
    while i < |t.shape|
      invariant 0 <= i <= |t.shape|
      invariant |ps| == i + 1 && ps[i] == point
      invariant ps + Walk(offset, point, heading, t.shape[i..], t.scale)[1..] == Points(offset, t)
    {
      var e := t.shape[i];
      ghost var rest := t.shape[i..];
      assert rest != [] && rest[0] == e && rest[1..] == t.shape[i + 1..];
      ghost var before := Walk(offset, point, heading, rest, t.scale);
      heading := Turn(heading, e.angle);
      point := offset(point, heading, Distance(e, t.scale));
      ghost var after := Walk(offset, point, heading, t.shape[i + 1..], t.scale);
      assert before[1..] == after;
      assert after == [point] + after[1..];
      assert (ps + [point]) + after[1..] == ps + after;
      ps := ps + [point];
      i := i + 1;
    }
  }

  /** A drawn segment, as the tuple (x1, y1, x2, y2). */
  datatype Line = Line(x1: real, y1: real, x2: real, y2: real)

  function Segment(a: Vec2, b: Vec2): Line
  {
    Line(a.x, a.y, b.x, b.y)
  }

  /** The segments between consecutive points. */
  function Chain(ps: seq<Vec2>): (ls: seq<Line>)
    ensures |ls| == if ps == [] then 0 else |ps| - 1
    ensures forall i :: 0 <= i < |ls| ==> ls[i] == Segment(ps[i], ps[i + 1])
    decreases |ps|
  {
    if |ps| < 2 then [] else [Segment(ps[0], ps[1])] + Chain(ps[1..])
  }

  /** The closed outline: the chain, then the segment from the last point back
      to the first. */
  function Outline(ps: seq<Vec2>): (ls: seq<Line>)
    requires ps != []
    ensures |ls| == |ps|
    ensures forall i :: 0 <= i < |ps| - 1 ==> ls[i] == Segment(ps[i], ps[i + 1])
    ensures ls[|ps| - 1] == Segment(ps[|ps| - 1], ps[0])
  {
    Chain(ps) + [Segment(ps[|ps| - 1], ps[0])]
  }

  /** The outline of a tile: one segment per step, the last one returning to
      the tile's location. */
  function Lines(offset: Offset, t: Tile): (ls: seq<Line>)
    ensures |ls| == |t.shape| + 1
    ensures ls[0].x1 == t.location.x && ls[0].y1 == t.location.y
    ensures ls[|t.shape|].x2 == t.location.x && ls[|t.shape|].y2 == t.location.y
  {
    Outline(Points(offset, t))
  }

  /** Each segment of an outline ends where the next one starts, and the last
      one ends where the first one starts. */
  lemma OutlineCloses(ps: seq<Vec2>, i: nat)
    requires i < |ps|
    ensures var ls := Outline(ps);
      var j := if i + 1 < |ps| then i + 1 else 0;
      ls[i].x2 == ls[j].x1 && ls[i].y2 == ls[j].y1
  {
    var ls := Outline(ps);
    var n := |ps|;
    if i + 1 < n {
      assert ls[i] == Segment(ps[i], ps[i + 1]);
      if i + 1 < n - 1 {
        assert ls[i + 1] == Segment(ps[i + 1], ps[i + 2]);
      } else {
        assert ls[i + 1] == Segment(ps[n - 1], ps[0]);
      }
    } else {
      assert ls[i] == Segment(ps[n - 1], ps[0]);
      if n > 1 {
        assert ls[0] == Segment(ps[0], ps[1]);
      }
    }
  }

  /** The generator of segments: it walks the points once, emitting each
      consecutive pair, then closes the loop back to the first point. */
  method LinesOf(offset: Offset, t: Tile) returns (ls: seq<Line>)
    ensures ls == Lines(offset, t)
  {
    var ps := PointsOf(offset, t);
    var start := ps[0];
    var point := start;
    ls := [];
    var i := 1;
    while i < |ps|
      invariant 1 <= i <= |ps|
      invariant point == ps[i - 1]
      invariant |ls| == i - 1
      invariant forall k :: 0 <= k < i - 1 ==> ls[k] == Segment(ps[k], ps[k + 1])
    {
      var other := ps[i];
      ls := ls + [Segment(point, other)];
      point := other;
      i := i + 1;
    }
    ghost var chain := ls;
    ls := ls + [Segment(point, start)];
    forall k | 0 <= k < |ls|
      ensures ls[k] == Outline(ps)[k]
    {
      assert |chain| == |ps| - 1 && point == ps[|ps| - 1] && start == ps[0];
      if k < |chain| {
        assert ls[k] == chain[k] == Segment(ps[k], ps[k + 1]);
      } else {
        assert ls[k] == Segment(ps[|ps| - 1], ps[0]);
      }
    }
  }

  /** Moving a tile moves each of its corners by the same vector. */
  lemma {:induction false} WalkTranslate(offset: Offset, point: Vec2, d: Vec2, heading: int, edges: Template, scale: real)
    requires TranslationInvariant(offset)
    ensures var ps := Walk(offset, point, heading, edges, scale);
      var qs := Walk(offset, Add(point, d), heading, edges, scale);
      |qs| == |ps| && forall i :: 0 <= i < |ps| ==> qs[i] == Add(ps[i], d)
    decreases |edges|
  {
    if edges != [] {
      var h := Turn(heading, edges[0].angle);
      var len := Distance(edges[0], scale);
      assert offset(Add(point, d), h, len) == Add(offset(point, h, len), d);
      WalkTranslate(offset, offset(point, h, len), d, h, edges[1..], scale);
    }
  }

  lemma TranslatePoints(offset: Offset, t: Tile, d: Vec2)
    requires TranslationInvariant(offset)
    ensures var ps := Points(offset, t);
      var qs := Points(offset, Translate(t, d));
      |qs| == |ps| && forall i :: 0 <= i < |ps| ==> qs[i] == Add(ps[i], d)
  {
    WalkTranslate(offset, t.location, d, t.heading, t.shape, t.scale);
  }
}
