/** The Fibonacci flower (prompt3/fibonacci.py): for each generation, a
    pair of segments of that generation's length is laid through the
    origin; each segment is split into its two halves, and on every half a
    petal is drawn, two quadratic Bezier arcs bulging to either side. The
    drawing surface records the plot and fill calls in order. */
module FibonacciFlower {

  import opened RealArith
  import opened Spacing
  import opened Wrappers

  datatype Point = Point(x: real, y: real)

  /** A segment (x0, y0) - (x1, y1), the source's 4-tuple. */
  datatype Segment = Segment(x0: real, y0: real, x1: real, y1: real)

  /** A recorded drawing call: a polyline, or a filled polygon. */
  datatype DrawCall = Plot(line: seq<Point>) | Fill(outline: seq<Point>)

  /** The drawing surface: the calls made on it, in order. */
  class Axes {
    var calls: seq<DrawCall>

    constructor ()
      ensures calls == []
    {
      calls := [];
    }

    method Plot(line: seq<Point>)
      modifies this
      ensures calls == old(calls) + [DrawCall.Plot(line)]
    {
      calls := calls + [DrawCall.Plot(line)];
    }

    method Fill(outline: seq<Point>)
      modifies this
      ensures calls == old(calls) + [DrawCall.Fill(outline)]
    {
      calls := calls + [DrawCall.Fill(outline)];
    }
  }

  // ---------------------------------------------------------------------
  // draw_segment

  /** The segment of the given length centred on (cx, cy) at the given
      angle; cosd and sind are cosine and sine of an angle in degrees. */
  function DrawSegment(cx: real, cy: real, angleDeg: real, length: real, cosd: real -> real, sind: real -> real)
    : Segment
  {
    var dx := Mul(length / 2.0, cosd(angleDeg));
    var dy := Mul(length / 2.0, sind(angleDeg));
    Segment(cx - dx, cy - dy, cx + dx, cy + dy)
  }

  /** The ends are symmetric about the centre, and, when cos^2 + sin^2 = 1,
      they are `length` apart. */
  lemma SegmentCentred(cx: real, cy: real, angleDeg: real, length: real, cosd: real -> real, sind: real -> real)
    ensures var s := DrawSegment(cx, cy, angleDeg, length, cosd, sind);
      s.x0 + s.x1 == 2.0 * cx && s.y0 + s.y1 == 2.0 * cy
    ensures Mul(cosd(angleDeg), cosd(angleDeg)) + Mul(sind(angleDeg), sind(angleDeg)) == 1.0 ==>
      var s := DrawSegment(cx, cy, angleDeg, length, cosd, sind);
      Mul(s.x1 - s.x0, s.x1 - s.x0) + Mul(s.y1 - s.y0, s.y1 - s.y0) == Mul(length, length)
  {
    var c, s := cosd(angleDeg), sind(angleDeg);
    var seg := DrawSegment(cx, cy, angleDeg, length, cosd, sind);
    assert seg.x1 - seg.x0 == Mul(length, c) && seg.y1 - seg.y0 == Mul(length, s);
    SquareOfProduct(length, c);
    SquareOfProduct(length, s);
    MulDistrib(Mul(c, c), Mul(s, s), Mul(length, length));
    assert Mul(Mul(c, c), Mul(length, length)) == Mul(Mul(length, length), Mul(c, c));
    assert Mul(Mul(s, s), Mul(length, length)) == Mul(Mul(length, length), Mul(s, s));
    assert Mul(1.0, Mul(length, length)) == Mul(length, length);
  }

  lemma SquareOfProduct(a: real, b: real)
    ensures Mul(Mul(a, b), Mul(a, b)) == Mul(Mul(a, a), Mul(b, b))
  {
  }

  // ---------------------------------------------------------------------
  // The children of a main segment

  /** A segment's two halves: start to midpoint, midpoint to end. */
  function Halves(s: Segment): (h: seq<Segment>)
    ensures |h| == 2
  {
    var mx, my := (s.x0 + s.x1) / 2.0, (s.y0 + s.y1) / 2.0;
    [Segment(s.x0, s.y0, mx, my), Segment(mx, my, s.x1, s.y1)]
  }

  /** The halves start and end where the segment does, meet at its
      midpoint, and each runs along half the segment's direction. */
  lemma HalvesMeetAtMidpoint(s: Segment)
    ensures var h := Halves(s);
      h[0].x0 == s.x0 && h[0].y0 == s.y0 && h[1].x1 == s.x1 && h[1].y1 == s.y1 &&
      h[0].x1 == h[1].x0 == (s.x0 + s.x1) / 2.0 && h[0].y1 == h[1].y0 == (s.y0 + s.y1) / 2.0 &&
      h[0].x1 - h[0].x0 == h[1].x1 - h[1].x0 == (s.x1 - s.x0) / 2.0 &&
      h[0].y1 - h[0].y0 == h[1].y1 - h[1].y0 == (s.y1 - s.y0) / 2.0
  {
  }

  /** The children of a generation: the halves of its segments, in order. */
  function Children(segs: seq<Segment>): (c: seq<Segment>)
    ensures |c| == 2 * |segs|
  {
    if |segs| == 0 then [] else Children(segs[..|segs| - 1]) + Halves(segs[|segs| - 1])
  }

  /** Children 2j and 2j + 1 are the halves of segment j. */
  lemma {:induction false} ChildrenIndex(segs: seq<Segment>, j: nat, h: nat)
    requires j < |segs| && h < 2
    ensures Children(segs)[2 * j + h] == Halves(segs[j])[h]
  {
    var init := segs[..|segs| - 1];
    if j < |segs| - 1 {
      ChildrenIndex(init, j, h);
      assert init[j] == segs[j];
    }
  }

  // ---------------------------------------------------------------------
  // draw_petals_on_segment

  /** A point of the quadratic Bezier curve from a through control c to
      b, one coordinate at a time. */
  function BezierCoord(a: real, c: real, b: real, t: real): real
  {
    Mul(Mul(1.0 - t, 1.0 - t), a) + Mul(Mul(2.0 * (1.0 - t), t), c) + Mul(Mul(t, t), b)
  }

  function Bezier(p0: Point, c: Point, p1: Point, t: real): Point
  {
    Point(BezierCoord(p0.x, c.x, p1.x, t), BezierCoord(p0.y, c.y, p1.y, t))
  }

  /** The curve starts at a (t = 0) and ends at b (t = 1). */
  lemma BezierEnds(a: real, c: real, b: real)
    ensures BezierCoord(a, c, b, 0.0) == a && BezierCoord(a, c, b, 1.0) == b
  {
    assert Mul(1.0, 1.0) == 1.0 && Mul(0.0, 0.0) == 0.0 && Mul(0.0, 1.0) == 0.0 && Mul(2.0, 0.0) == 0.0;
    assert Mul(1.0, a) == a && Mul(0.0, a) == 0.0 && Mul(1.0, b) == b && Mul(0.0, b) == 0.0;
    assert Mul(0.0, c) == 0.0;
  }

  /** Two curves whose controls are mirror images about the chord's
      midpoint average to the chord itself: (B1 + B2) / 2 is the point at
      t on the straight segment. */
  lemma BezierMirror(a: real, b: real, c1: real, c2: real, t: real)
    requires c1 + c2 == a + b
    ensures BezierCoord(a, c1, b, t) + BezierCoord(a, c2, b, t) == 2.0 * Lerp(a, b, t)
  {
    var u := 1.0 - t;
    MulDistrib(c1, c2, Mul(2.0 * u, t));
    assert Mul(Mul(2.0 * u, t), c1) + Mul(Mul(2.0 * u, t), c2) == Mul(Mul(2.0 * u, t), a + b);
    assert Mul(Mul(u, u), a) + Mul(Mul(2.0 * u, t), a) == Mul(a, u) * (u + 2.0 * t);
    assert Mul(Mul(t, t), b) + Mul(Mul(2.0 * u, t), b) == Mul(b, t) * (t + 2.0 * u);
  }

  /** The geometry of one petal: the two control points and the two
      arcs of 40 samples each. */
  datatype Petal = Petal(c1: Point, c2: Point, arc1: seq<Point>, arc2: seq<Point>)

  const ArcSamples: nat := 40
  const Curvature: real := 0.4

  /** The arc from p0 to p1 via c, sampled at 40 evenly spaced t. */
  function Arc(p0: Point, c: Point, p1: Point): (r: seq<Point>)
    ensures |r| == ArcSamples
  {
    var t := Linspace(0.0, 1.0, ArcSamples);
    seq(ArcSamples, k requires 0 <= k < ArcSamples => Bezier(p0, c, p1, t[k]))
  }

  /** The petal on a segment: controls at the midpoint plus and minus
      curvature * length along the unit normal (-uy, ux); a segment of
      zero length has no petal. */
  function PetalGeometry(s: Segment, curvature: real, hypot: (real, real) -> real): Option<Petal>
  {
    var mx, my := (s.x0 + s.x1) / 2.0, (s.y0 + s.y1) / 2.0;
    var vx, vy := s.x1 - s.x0, s.y1 - s.y0;
    var length := hypot(vx, vy);
    if length == 0.0 then None
    else
      var ux, uy := vx / length, vy / length;
      var px, py := -uy, ux;
      var k := Mul(curvature, length);
      var c1 := Point(mx + Mul(k, px), my + Mul(k, py));
      var c2 := Point(mx - Mul(k, px), my - Mul(k, py));
      var p0, p1 := Point(s.x0, s.y0), Point(s.x1, s.y1);
      Some(Petal(c1, c2, Arc(p0, c1, p1), Arc(p0, c2, p1)))
  }

  /** The controls are mirror images about the midpoint (c1 + c2 = 2m),
      and c1 - m is curvature times the direction turned a quarter turn,
      (-vy, vx): perpendicular to the segment, as long as the segment
      times the curvature. */
  lemma ControlPoints(s: Segment, curvature: real, hypot: (real, real) -> real)
    requires PetalGeometry(s, curvature, hypot).Some?
    ensures var p, mx, my := PetalGeometry(s, curvature, hypot).value, (s.x0 + s.x1) / 2.0, (s.y0 + s.y1) / 2.0;
      p.c1.x + p.c2.x == 2.0 * mx && p.c1.y + p.c2.y == 2.0 * my &&
      p.c1.x - mx == Mul(curvature, -(s.y1 - s.y0)) && p.c1.y - my == Mul(curvature, s.x1 - s.x0)
    ensures var p, mx, my := PetalGeometry(s, curvature, hypot).value, (s.x0 + s.x1) / 2.0, (s.y0 + s.y1) / 2.0;
      Mul(p.c1.x - mx, s.x1 - s.x0) + Mul(p.c1.y - my, s.y1 - s.y0) == 0.0
  {
    var vx, vy := s.x1 - s.x0, s.y1 - s.y0;
    var length := hypot(vx, vy);
    var ux, uy := vx / length, vy / length;
    CancelLength(curvature, length, -vy);
    CancelLength(curvature, length, vx);
    assert -uy == -vy / length;
    assert Mul(Mul(curvature, -vy), vx) + Mul(Mul(curvature, vx), vy) == 0.0;
  }

  /** curvature * length * (w / length) is curvature * w. */
  lemma CancelLength(curvature: real, length: real, w: real)
    requires length != 0.0
    ensures Mul(Mul(curvature, length), w / length) == Mul(curvature, w)
  {
    assert Mul(w / length, length) == w;
  }

  /** Each arc starts at the segment's start and ends at its end; the
      arcs are mirror images about the segment: sample k of the two arcs
      averages to the point at t_k on the segment. */
  lemma ArcsSpanSegment(s: Segment, curvature: real, hypot: (real, real) -> real, k: nat)
    requires PetalGeometry(s, curvature, hypot).Some? && k < ArcSamples
    ensures var p := PetalGeometry(s, curvature, hypot).value;
      p.arc1[0] == p.arc2[0] == Point(s.x0, s.y0) &&
      p.arc1[ArcSamples - 1] == p.arc2[ArcSamples - 1] == Point(s.x1, s.y1)
    ensures var p, t := PetalGeometry(s, curvature, hypot).value, Linspace(0.0, 1.0, ArcSamples)[k];
      p.arc1[k].x + p.arc2[k].x == 2.0 * Lerp(s.x0, s.x1, t) &&
      p.arc1[k].y + p.arc2[k].y == 2.0 * Lerp(s.y0, s.y1, t)
  {
    var p := PetalGeometry(s, curvature, hypot).value;
    var t := Linspace(0.0, 1.0, ArcSamples);
    LinspaceEnds(0.0, 1.0, ArcSamples);
    BezierEnds(s.x0, p.c1.x, s.x1);
    BezierEnds(s.y0, p.c1.y, s.y1);
    BezierEnds(s.x0, p.c2.x, s.x1);
    BezierEnds(s.y0, p.c2.y, s.y1);
    ControlPoints(s, curvature, hypot);
    BezierMirror(s.x0, s.x1, p.c1.x, p.c2.x, t[k]);
    BezierMirror(s.y0, s.y1, p.c1.y, p.c2.y, t[k]);
  }

  function Reverse(s: seq<Point>): (r: seq<Point>)
    ensures |r| == |s|
  {
    seq(|s|, i requires 0 <= i < |s| => s[|s| - 1 - i])
  }

  /** The filled outline: arc 1, then arc 2 backwards. */
  function FillOutline(p: Petal): seq<Point>
  {
    p.arc1 + Reverse(p.arc2)
  }

  /** The outline has 80 vertices and is closed: it runs from the
      segment's start to its end along arc 1 and back along arc 2. */
  lemma FillOutlineClosed(s: Segment, curvature: real, hypot: (real, real) -> real)
    requires PetalGeometry(s, curvature, hypot).Some?
    ensures var o := FillOutline(PetalGeometry(s, curvature, hypot).value);
      |o| == 2 * ArcSamples &&
      o[0] == o[2 * ArcSamples - 1] == Point(s.x0, s.y0) &&
      o[ArcSamples - 1] == o[ArcSamples] == Point(s.x1, s.y1)
  {
    ArcsSpanSegment(s, curvature, hypot, 0);
  }

  /** The calls that drawing a petal makes: the two arcs when edges are
      drawn, then the fill when filling with a positive alpha. */
  function PetalCalls(s: Segment, curvature: real, edge: bool, fill: bool, fillAlpha: real,
                      hypot: (real, real) -> real): seq<DrawCall>
  {
    match PetalGeometry(s, curvature, hypot)
      case None => []
      case Some(p) =>
        (if edge then [DrawCall.Plot(p.arc1), DrawCall.Plot(p.arc2)] else []) +
        (if fill && fillAlpha > 0.0 then [DrawCall.Fill(FillOutline(p))] else [])
  }

  /** A segment of zero length draws nothing; otherwise there are up to
      three calls, the fill last. */
  lemma PetalCallCount(s: Segment, curvature: real, edge: bool, fill: bool, fillAlpha: real,
                       hypot: (real, real) -> real)
    ensures hypot(s.x1 - s.x0, s.y1 - s.y0) == 0.0 ==> PetalCalls(s, curvature, edge, fill, fillAlpha, hypot) == []
    ensures hypot(s.x1 - s.x0, s.y1 - s.y0) != 0.0 ==>
      |PetalCalls(s, curvature, edge, fill, fillAlpha, hypot)| ==
        (if edge then 2 else 0) + (if fill && fillAlpha > 0.0 then 1 else 0)
  {
  }

  /** draw_petals_on_segment, recording its calls on the axes. */
  method DrawPetals(ax: Axes, s: Segment, curvature: real, edge: bool, fill: bool, fillAlpha: real,
                    hypot: (real, real) -> real)
    modifies ax
    ensures ax.calls == old(ax.calls) + PetalCalls(s, curvature, edge, fill, fillAlpha, hypot)
  {
    var mx, my := (s.x0 + s.x1) / 2.0, (s.y0 + s.y1) / 2.0;
    var vx, vy := s.x1 - s.x0, s.y1 - s.y0;
    var length := hypot(vx, vy);
    if length == 0.0 {
      return;
    }
    var ux, uy := vx / length, vy / length;
    var px, py := -uy, ux;
    var c1 := Point(mx + Mul(Mul(curvature, length), px), my + Mul(Mul(curvature, length), py));
    var c2 := Point(mx - Mul(Mul(curvature, length), px), my - Mul(Mul(curvature, length), py));
    var p0, p1 := Point(s.x0, s.y0), Point(s.x1, s.y1);
    var arc1 := Arc(p0, c1, p1);
    var arc2 := Arc(p0, c2, p1);
    if edge {
      ax.Plot(arc1);
      ax.Plot(arc2);
    }
    if fill && fillAlpha > 0.0 {
      ax.Fill(arc1 + Reverse(arc2));
    }
  }

  // ---------------------------------------------------------------------
  // draw_fibonacci_flower

  /** The default lengths: twice the Fibonacci numbers 1, 1, 2, 3, ... */
  const DefaultLengths: seq<real> := [2.0, 2.0, 4.0, 6.0, 10.0, 16.0, 26.0, 42.0, 68.0, 110.0, 178.0]

  /** The default angle patterns: vertical and horizontal, then the two
      diagonals. */
  const DefaultPatterns: seq<seq<real>> := [[90.0, 0.0], [45.0, -45.0]]

  /** Each default length after the first two is the sum of the two
      before it. */
  lemma DefaultLengthsAreFibonacci()
    ensures |DefaultLengths| == 11 && DefaultLengths[0] == DefaultLengths[1] == 2.0
    ensures forall i :: 2 <= i < |DefaultLengths| ==> DefaultLengths[i] == DefaultLengths[i - 1] + DefaultLengths[i - 2]
  {
  }

  /** One segment through the origin per angle. */
  function MainSegments(angles: seq<real>, length: real, cosd: real -> real, sind: real -> real): (r: seq<Segment>)
    ensures |r| == |angles|
  {
    seq(|angles|, j requires 0 <= j < |angles| => DrawSegment(0.0, 0.0, angles[j], length, cosd, sind))
  }

  /** The main segments of generation g use pattern g mod (number of
      patterns). */
  function GenerationSegments(patterns: seq<seq<real>>, gen: nat, length: real, cosd: real -> real,
                              sind: real -> real): (r: seq<Segment>)
    requires |patterns| > 0
    ensures |r| == |patterns[gen % |patterns|]|
  {
    MainSegments(patterns[gen % |patterns|], length, cosd, sind)
  }

  /** The segments that petals are drawn on, generation after generation. */
  function PetalSegments(patterns: seq<seq<real>>, lengths: seq<real>, cosd: real -> real, sind: real -> real)
    : seq<Segment>
    requires |patterns| > 0
  {
    if |lengths| == 0 then []
    else PetalSegments(patterns, lengths[..|lengths| - 1], cosd, sind) +
         Children(GenerationSegments(patterns, |lengths| - 1, lengths[|lengths| - 1], cosd, sind))
  }

  /** The calls for petals on these segments, in order. */
  function CallsFor(segs: seq<Segment>, edge: bool, fill: bool, fillAlpha: real, hypot: (real, real) -> real)
    : seq<DrawCall>
  {
    if |segs| == 0 then []
    else CallsFor(segs[..|segs| - 1], edge, fill, fillAlpha, hypot) +
         PetalCalls(segs[|segs| - 1], Curvature, edge, fill, fillAlpha, hypot)
  }

  /** With every pattern holding `a` angles, each generation gives 2a
      petals. */
  lemma {:induction false} PetalCount(patterns: seq<seq<real>>, lengths: seq<real>, cosd: real -> real,
                                      sind: real -> real, a: nat)
    requires |patterns| > 0 && forall i :: 0 <= i < |patterns| ==> |patterns[i]| == a
    ensures |PetalSegments(patterns, lengths, cosd, sind)| == |lengths| * (2 * a)
  {
    if |lengths| > 0 {
      PetalCount(patterns, lengths[..|lengths| - 1], cosd, sind, a);
      CountStep(|lengths|, 2 * a);
    }
  }

  /** Petal g*2a + 2j + h is half h of the segment at angle j of pattern
      g mod (number of patterns), with generation g's length. */
  lemma {:induction false} PetalIndex(patterns: seq<seq<real>>, lengths: seq<real>, cosd: real -> real,
                                      sind: real -> real, a: nat, g: nat, j: nat, h: nat)
    requires |patterns| > 0 && forall i :: 0 <= i < |patterns| ==> |patterns[i]| == a
    requires g < |lengths| && j < a && h < 2
    ensures g * (2 * a) + 2 * j + h < |PetalSegments(patterns, lengths, cosd, sind)|
    ensures PetalSegments(patterns, lengths, cosd, sind)[g * (2 * a) + 2 * j + h] ==
      Halves(DrawSegment(0.0, 0.0, patterns[g % |patterns|][j], lengths[g], cosd, sind))[h]
  {
    var last := |lengths| - 1;
    var init := lengths[..last];
    PetalCount(patterns, lengths, cosd, sind, a);
    PetalCount(patterns, init, cosd, sind, a);
    RowIndex(g, 2 * j + h, 2 * a, |lengths|);
    if g < last {
      PetalIndex(patterns, init, cosd, sind, a, g, j, h);
      assert init[g] == lengths[g];
    } else {
      ChildrenIndex(GenerationSegments(patterns, last, lengths[last], cosd, sind), j, h);
    }
  }

  /** With the defaults there are 44 petals; generation g alternates
      between the axis-aligned pair (even g) and the diagonals (odd g). */
  lemma DefaultFlower(cosd: real -> real, sind: real -> real, g: nat, j: nat, h: nat)
    requires g < 11 && j < 2 && h < 2
    ensures |PetalSegments(DefaultPatterns, DefaultLengths, cosd, sind)| == 44
    ensures PetalSegments(DefaultPatterns, DefaultLengths, cosd, sind)[4 * g + 2 * j + h] ==
      Halves(DrawSegment(0.0, 0.0, (if g % 2 == 0 then [90.0, 0.0] else [45.0, -45.0])[j], DefaultLengths[g],
                         cosd, sind))[h]
  {
    PetalCount(DefaultPatterns, DefaultLengths, cosd, sind, 2);
    PetalIndex(DefaultPatterns, DefaultLengths, cosd, sind, 2, g, j, h);
  }

  /** The petals of one generation, drawn half after half. */
  method DrawGeneration(ax: Axes, angles: seq<real>, length: real, fill: bool, edge: bool, fillAlpha: real,
                        cosd: real -> real, sind: real -> real, hypot: (real, real) -> real)
    modifies ax
    ensures ax.calls == old(ax.calls) + CallsFor(Children(MainSegments(angles, length, cosd, sind)), edge, fill, fillAlpha, hypot)
  {
    var segs: seq<Segment> := [];
    for j := 0 to |angles|
      invariant segs == MainSegments(angles[..j], length, cosd, sind)
    {
      assert angles[..j + 1][..j] == angles[..j];
      segs := segs + [DrawSegment(0.0, 0.0, angles[j], length, cosd, sind)];
    }
    assert angles[..|angles|] == angles;
    var children: seq<Segment> := [];
    for i := 0 to |segs|
      invariant children == Children(segs[..i])
    {
      var s := segs[i];
      var mx, my := (s.x0 + s.x1) / 2.0, (s.y0 + s.y1) / 2.0;
      assert segs[..i + 1][..i] == segs[..i];
      children := children + [Segment(s.x0, s.y0, mx, my), Segment(mx, my, s.x1, s.y1)];
    }
    assert segs[..|segs|] == segs;
    DrawChildren(ax, children, fill, edge, fillAlpha, hypot);
  }

  /** A petal on every child, in order. */
  method DrawChildren(ax: Axes, children: seq<Segment>, fill: bool, edge: bool, fillAlpha: real,
                      hypot: (real, real) -> real)
    modifies ax
    ensures ax.calls == old(ax.calls) + CallsFor(children, edge, fill, fillAlpha, hypot)
  {
    ghost var start := ax.calls;
    for i := 0 to |children|
      invariant ax.calls == start + CallsFor(children[..i], edge, fill, fillAlpha, hypot)
    {
      ghost var x := CallsFor(children[..i], edge, fill, fillAlpha, hypot);
      DrawPetals(ax, children[i], Curvature, edge, fill, fillAlpha, hypot);
      assert children[..i + 1][..i] == children[..i];
      assert CallsFor(children[..i + 1], edge, fill, fillAlpha, hypot) ==
        x + PetalCalls(children[i], Curvature, edge, fill, fillAlpha, hypot);
      ConcatAssoc(start, x, PetalCalls(children[i], Curvature, edge, fill, fillAlpha, hypot));
    }
    assert children[..|children|] == children;
  }

  /** CallsFor over a concatenation is the concatenation of the calls. */
  lemma {:induction false} CallsForAppend(a: seq<Segment>, b: seq<Segment>, edge: bool, fill: bool,
                                          fillAlpha: real, hypot: (real, real) -> real)
    ensures CallsFor(a + b, edge, fill, fillAlpha, hypot) ==
      CallsFor(a, edge, fill, fillAlpha, hypot) + CallsFor(b, edge, fill, fillAlpha, hypot)
    decreases |b|
  {
    if |b| == 0 {
      assert a + b == a;
    } else {
      assert (a + b)[..|a + b| - 1] == a + b[..|b| - 1];
      assert (a + b)[|a + b| - 1] == b[|b| - 1];
      CallsForAppend(a, b[..|b| - 1], edge, fill, fillAlpha, hypot);
    }
  }

  lemma ConcatAssoc(a: seq<DrawCall>, b: seq<DrawCall>, c: seq<DrawCall>)
    ensures (a + b) + c == a + (b + c)
  {
  }

  /** One more generation adds its children's calls after the earlier
      ones. */
  lemma CallsStep(patterns: seq<seq<real>>, lengths: seq<real>, gen: nat, edge: bool, fill: bool, fillAlpha: real,
                  cosd: real -> real, sind: real -> real, hypot: (real, real) -> real)
    requires |patterns| > 0 && gen < |lengths|
    ensures CallsFor(PetalSegments(patterns, lengths[..gen + 1], cosd, sind), edge, fill, fillAlpha, hypot) ==
      CallsFor(PetalSegments(patterns, lengths[..gen], cosd, sind), edge, fill, fillAlpha, hypot) +
      CallsFor(Children(MainSegments(patterns[gen % |patterns|], lengths[gen], cosd, sind)), edge, fill, fillAlpha, hypot)
  {
    assert lengths[..gen + 1][..gen] == lengths[..gen];
    CallsForAppend(PetalSegments(patterns, lengths[..gen], cosd, sind),
                   Children(MainSegments(patterns[gen % |patterns|], lengths[gen], cosd, sind)),
                   edge, fill, fillAlpha, hypot);
  }

  /** Every generation's petals, in order. */
  method DrawGenerations(ax: Axes, patterns: seq<seq<real>>, lengths: seq<real>, fill: bool, edge: bool,
                         fillAlpha: real, cosd: real -> real, sind: real -> real, hypot: (real, real) -> real)
    requires |patterns| > 0
    modifies ax
    ensures ax.calls == old(ax.calls) + CallsFor(PetalSegments(patterns, lengths, cosd, sind), edge, fill, fillAlpha, hypot)
  {
    ghost var start := ax.calls;
    for gen := 0 to |lengths|
      invariant ax.calls == start + CallsFor(PetalSegments(patterns, lengths[..gen], cosd, sind), edge, fill, fillAlpha, hypot)
    {
      var angles := patterns[gen % |patterns|];
      ghost var x := CallsFor(PetalSegments(patterns, lengths[..gen], cosd, sind), edge, fill, fillAlpha, hypot);
      DrawGeneration(ax, angles, lengths[gen], fill, edge, fillAlpha, cosd, sind, hypot);
      CallsStep(patterns, lengths, gen, edge, fill, fillAlpha, cosd, sind, hypot);
      ConcatAssoc(start, x, CallsFor(Children(MainSegments(angles, lengths[gen], cosd, sind)), edge, fill, fillAlpha, hypot));
    }
    assert lengths[..|lengths|] == lengths;
  }

  /** The flower: every generation's petals, in order. Missing patterns or
      lengths take the defaults; an empty pattern list fails at the first
      generation (a modulo by zero), before anything is drawn. */
  method DrawFibonacciFlower(ax: Axes, anglePatterns: Option<seq<seq<real>>>, fibLengths: Option<seq<real>>,
                             fill: bool, edge: bool, fillAlpha: real,
                             cosd: real -> real, sind: real -> real, hypot: (real, real) -> real)
    returns (ok: bool)
    modifies ax
    ensures var patterns := if anglePatterns.Some? then anglePatterns.value else DefaultPatterns;
      var lengths := if fibLengths.Some? then fibLengths.value else DefaultLengths;
      (ok <==> |lengths| == 0 || |patterns| > 0) &&
      (ok && |patterns| > 0 ==>
        ax.calls == old(ax.calls) + CallsFor(PetalSegments(patterns, lengths, cosd, sind), edge, fill, fillAlpha, hypot)) &&
      (|patterns| == 0 ==> ax.calls == old(ax.calls))
  {
    var lengths := if fibLengths.Some? then fibLengths.value else DefaultLengths;
    var patterns := if anglePatterns.Some? then anglePatterns.value else DefaultPatterns;
    if |patterns| == 0 {
      return |lengths| == 0;
    }
    DrawGenerations(ax, patterns, lengths, fill, edge, fillAlpha, cosd, sind, hypot);
    return true;
  }

  /** A 3x3 grid of flowers, each on its own fresh axes, drawn with the
      two alternating patterns and the default lengths. */
  method DrawFlowerGrid(fill: bool, edge: bool, fillAlpha: real,
                        cosd: real -> real, sind: real -> real, hypot: (real, real) -> real)
    returns (axes: seq<Axes>)
    ensures |axes| == 9
    ensures forall i :: 0 <= i < 9 ==> fresh(axes[i])
    ensures forall i, j :: 0 <= i < j < 9 ==> axes[i] != axes[j]
    ensures forall i :: 0 <= i < 9 ==>
      axes[i].calls == CallsFor(PetalSegments(DefaultPatterns, DefaultLengths, cosd, sind), edge, fill, fillAlpha, hypot)
  {
    axes := [];
    for idx := 0 to 9
      invariant |axes| == idx
      invariant forall i :: 0 <= i < idx ==> fresh(axes[i])
      invariant forall i, j :: 0 <= i < j < idx ==> axes[i] != axes[j]
      invariant forall i :: 0 <= i < idx ==>
        axes[i].calls == CallsFor(PetalSegments(DefaultPatterns, DefaultLengths, cosd, sind), edge, fill, fillAlpha, hypot)
    {
      var ax := GridFlower(fill, edge, fillAlpha, cosd, sind, hypot);
      axes := axes + [ax];
    }
  }

  /** One cell of the grid: fresh axes holding one flower. */
  method GridFlower(fill: bool, edge: bool, fillAlpha: real,
                    cosd: real -> real, sind: real -> real, hypot: (real, real) -> real)
    returns (ax: Axes)
    ensures fresh(ax)
    ensures ax.calls == CallsFor(PetalSegments(DefaultPatterns, DefaultLengths, cosd, sind), edge, fill, fillAlpha, hypot)
  {
    ax := new Axes();
    var basePatterns := [[90.0, 0.0], [45.0, -45.0]];
    var ok := DrawFibonacciFlower(ax, Some(basePatterns), None, fill, edge, fillAlpha, cosd, sind, hypot);
    assert ok;
  }
}
