/** Particles swarming into the word "GENUARY" (prompt5/genuary_swarm.py):
    letter skeletons made of line segments, points sampled evenly along
    each stroke (optionally on parallel rails across its thickness),
    targets normalised into a padded unit square, and the eased flight of
    every particle from a random start to its jittered target. */
module LetterSwarm {

  import opened RealArith
  import opened Easing
  import opened Spacing
  import opened Wrappers

  datatype Point = Point(x: real, y: real)

  /** A stroke from `a` to `b`. */
  datatype Segment = Segment(a: Point, b: Point)

  function Seg(x1: real, y1: real, x2: real, y2: real): Segment
  {
    Segment(Point(x1, y1), Point(x2, y2))
  }

  // ---------------------------------------------------------------------
  // make_letter_segments

  /** Index of the first segment of each letter G, E, N, U, A, R, Y, and
      the total count. */
  const LetterStarts: seq<nat> := [0, 5, 9, 12, 15, 18, 25, 28]

  /** Both ends of the stroke lie in letter k's column, x in [8k, 8k + 4.5],
      and between the rows y = -0.5 and y = 5. */
  predicate InColumn(s: Segment, k: nat)
  {
    var lo, hi := 8.0 * k as real, 8.0 * k as real + 4.5;
    lo <= s.a.x <= hi && lo <= s.b.x <= hi &&
    -0.5 <= s.a.y <= 5.0 && -0.5 <= s.b.y <= 5.0
  }

  /** The skeleton of the word, letter by letter. */
  method LetterSegments() returns (segments: seq<Segment>)
    ensures |segments| == LetterStarts[7] == 28
    // each letter sits in its own column; the columns are 3.5 apart
    ensures forall k, i :: 0 <= k < 7 && LetterStarts[k] <= i < LetterStarts[k + 1] ==> InColumn(segments[i], k)
    ensures forall i :: 0 <= i < |segments| ==> 0.0 <= segments[i].a.x <= 52.0 && 0.0 <= segments[i].b.x <= 52.0
    // no stroke is a single point
    ensures forall i :: 0 <= i < |segments| ==> segments[i].a != segments[i].b
    // the grid's extremes are reached: x = 0 and 52, y = -0.5 and 5
    ensures segments[0] == Seg(0.0, 0.0, 0.0, 5.0) && segments[26].a == Point(52.0, 5.0)
    ensures segments[13].a.y == -0.5
  {
    segments := [];
    // G
    segments := segments + [Seg(0.0, 0.0, 0.0, 5.0), Seg(0.0, 5.0, 4.5, 5.0), Seg(0.0, 0.0, 4.5, 0.0),
                            Seg(4.5, 0.0, 4.5, 2.7), Seg(2.2, 2.7, 4.5, 2.7)];
    // E
    segments := segments + [Seg(8.0, 0.0, 8.0, 5.0), Seg(8.0, 5.0, 12.0, 5.0), Seg(8.0, 2.5, 10.8, 2.5),
                            Seg(8.0, 0.0, 12.0, 0.0)];
    // N
    segments := segments + [Seg(16.0, 0.0, 16.0, 5.0), Seg(16.0, 5.0, 20.0, 0.0), Seg(20.0, 0.0, 20.0, 5.0)];
    // U
    segments := segments + [Seg(24.0, 5.0, 24.0, -0.5), Seg(24.0, -0.5, 28.0, -0.5), Seg(28.0, -0.5, 28.0, 5.0)];
    // A
    segments := segments + [Seg(32.0, 0.0, 34.0, 5.0), Seg(36.0, 0.0, 34.0, 5.0), Seg(33.0, 3.0, 35.0, 3.0)];
    // R
    segments := segments + [Seg(40.0, 0.0, 40.0, 5.0), Seg(40.0, 5.0, 43.5, 5.0), Seg(43.5, 5.0, 44.0, 4.2),
                            Seg(44.0, 4.2, 44.0, 3.2), Seg(44.0, 3.2, 43.5, 2.5), Seg(43.5, 2.5, 40.0, 2.5),
                            Seg(40.0, 2.5, 44.0, 0.0)];
    // Y
    segments := segments + [Seg(48.0, 5.0, 50.0, 3.5), Seg(52.0, 5.0, 50.0, 3.5), Seg(50.0, 3.5, 50.0, 0.0)];
  }

  // ---------------------------------------------------------------------
  // sample_points_on_segments

  /** The point at fraction t along the stroke. */
  function PointAt(s: Segment, t: real): Point
  {
    Point(Lerp(s.a.x, s.b.x, t), Lerp(s.a.y, s.b.y, t))
  }

  /** The n evenly spaced points of the stroke's centre line. */
  function Centreline(s: Segment, n: nat): (c: seq<Point>)
    ensures |c| == n
  {
    var t := Linspace(0.0, 1.0, n);
    seq(n, k requires 0 <= k < n => PointAt(s, t[k]))
  }

  /** The centre line starts at the first end and, for two or more points,
      finishes exactly at the second. */
  lemma CentrelineEnds(s: Segment, n: nat)
    requires n >= 1
    ensures Centreline(s, n)[0] == s.a
    ensures n >= 2 ==> Centreline(s, n)[n - 1] == s.b
  {
    LinspaceEnds(0.0, 1.0, n);
  }

  /** The stroke's direction, x2 - x1 and y2 - y1. */
  function Dx(s: Segment): real
  {
    s.b.x - s.a.x
  }

  function Dy(s: Segment): real
  {
    s.b.y - s.a.y
  }

  /** The stroke is drawn on rails only when it has a thickness, more than
      one rail is asked for and it has a positive length. */
  predicate RailsApply(s: Segment, thickness: real, rails: int, hypot: (real, real) -> real)
  {
    thickness > 0.0 && rails > 1 && hypot(Dx(s), Dy(s)) > 0.0
  }

  /** The normal (-dy, dx) / length. */
  function Normal(s: Segment, length: real): Point
    requires length != 0.0
  {
    Point(-Dy(s) / length, Dx(s) / length)
  }

  /** The normal is perpendicular to the stroke, and it has unit length
      when `length` is the stroke's Euclidean length. */
  lemma NormalPerpendicular(s: Segment, length: real)
    requires length > 0.0
    ensures var n := Normal(s, length); Mul(n.x, Dx(s)) + Mul(n.y, Dy(s)) == 0.0
    ensures Mul(length, length) == Mul(Dx(s), Dx(s)) + Mul(Dy(s), Dy(s)) ==>
      var n := Normal(s, length); Mul(n.x, n.x) + Mul(n.y, n.y) == 1.0
  {
    var dx, dy := Dx(s), Dy(s);
    var nx, ny := -dy / length, dx / length;
    assert Mul(nx, length) == -dy && Mul(ny, length) == dx;
    assert Mul(Mul(nx, dx) + Mul(ny, dy), length) == Mul(Mul(nx, length), dx) + Mul(Mul(ny, length), dy);
    DivOfMul(Mul(nx, dx) + Mul(ny, dy), length);
    if Mul(length, length) == Mul(dx, dx) + Mul(dy, dy) {
      var u := Mul(nx, nx) + Mul(ny, ny);
      assert Mul(u, Mul(length, length)) == Mul(Mul(nx, length), Mul(nx, length)) + Mul(Mul(ny, length), Mul(ny, length));
      assert Mul(u, Mul(length, length)) == Mul(length, length);
      MulPos(length, length);
      DivOfMul(u, Mul(length, length));
      DivOfMul(1.0, Mul(length, length));
    }
  }

  /** A point moved by off along (nx, ny). */
  function Shifted(p: Point, nx: real, ny: real, off: real): Point
  {
    Point(p.x + Mul(nx, off), p.y + Mul(ny, off))
  }

  /** The centre line shifted by `off` along the normal (nx, ny). */
  function Rail(base: seq<Point>, nx: real, ny: real, off: real): (r: seq<Point>)
    ensures |r| == |base|
  {
    seq(|base|, k requires 0 <= k < |base| => Shifted(base[k], nx, ny, off))
  }

  /** One rail per offset, in offset order. */
  function Rails(base: seq<Point>, nx: real, ny: real, offsets: seq<real>): seq<Point>
  {
    if |offsets| == 0 then []
    else Rails(base, nx, ny, offsets[..|offsets| - 1]) + Rail(base, nx, ny, offsets[|offsets| - 1])
  }

  /** The points sampled on one stroke: its rails, offsets evenly spaced
      from -thickness to +thickness, when rails apply; otherwise its centre
      line. */
  function SegmentSamples(s: Segment, n: nat, thickness: real, rails: int, hypot: (real, real) -> real): seq<Point>
  {
    var base := Centreline(s, n);
    var length := hypot(Dx(s), Dy(s));
    if thickness > 0.0 && rails > 1 && length > 0.0 then
      var normal := Normal(s, length);
      Rails(base, normal.x, normal.y, Linspace(-thickness, thickness, rails as nat))
    else base
  }

  /** All samples, stroke after stroke. */
  function Samples(segments: seq<Segment>, n: nat, thickness: real, rails: int, hypot: (real, real) -> real): seq<Point>
  {
    if |segments| == 0 then []
    else Samples(segments[..|segments| - 1], n, thickness, rails, hypot) +
         SegmentSamples(segments[|segments| - 1], n, thickness, rails, hypot)
  }

  /** Samples per stroke: n per rail, or n on the centre line. */
  function RowCount(s: Segment, n: nat, thickness: real, rails: int, hypot: (real, real) -> real): nat
  {
    if RailsApply(s, thickness, rails, hypot) then n * rails else n
  }

  function TotalRows(segments: seq<Segment>, n: nat, thickness: real, rails: int, hypot: (real, real) -> real): nat
  {
    if |segments| == 0 then 0
    else TotalRows(segments[..|segments| - 1], n, thickness, rails, hypot) +
         RowCount(segments[|segments| - 1], n, thickness, rails, hypot)
  }

  /** There are n samples per rail. */
  lemma {:induction false} RailsLength(base: seq<Point>, nx: real, ny: real, offsets: seq<real>)
    ensures |Rails(base, nx, ny, offsets)| == |offsets| * |base|
  {
    if |offsets| > 0 {
      RailsLength(base, nx, ny, offsets[..|offsets| - 1]);
      CountStep(|offsets|, |base|);
    }
  }

  /** Rail j holds samples j*n .. j*n + n - 1 of the rails. */
  lemma {:induction false} RailsIndex(base: seq<Point>, nx: real, ny: real, offsets: seq<real>, j: nat, k: nat)
    requires j < |offsets| && k < |base|
    ensures j * |base| + k < |Rails(base, nx, ny, offsets)|
    ensures Rails(base, nx, ny, offsets)[j * |base| + k] == Shifted(base[k], nx, ny, offsets[j])
  {
    var m, last := |base|, |offsets| - 1;
    var init := offsets[..last];
    RailsLength(base, nx, ny, offsets);
    RailsLength(base, nx, ny, init);
    RowIndex(j, k, m, |offsets|);
    if j < last {
      RailsIndex(base, nx, ny, init, j, k);
      assert init[j] == offsets[j];
    } else {
      assert Rails(base, nx, ny, offsets)[j * m + k] == Rail(base, nx, ny, offsets[last])[k];
    }
  }

  /** The number of samples is the sum over the strokes of n times the
      number of rails, or n for a stroke drawn as its centre line. */
  lemma {:induction false} SamplesCount(segments: seq<Segment>, n: nat, thickness: real, rails: int,
                                         hypot: (real, real) -> real)
    ensures |Samples(segments, n, thickness, rails, hypot)| == TotalRows(segments, n, thickness, rails, hypot)
  {
    if |segments| > 0 {
      var s := segments[|segments| - 1];
      SamplesCount(segments[..|segments| - 1], n, thickness, rails, hypot);
      if RailsApply(s, thickness, rails, hypot) {
        var length := hypot(Dx(s), Dy(s));
        var normal := Normal(s, length);
        RailsLength(Centreline(s, n), normal.x, normal.y, Linspace(-thickness, thickness, rails as nat));
        assert rails as nat * n == n * rails;
      }
    }
  }

  /** Every stroke gives at least n samples. */
  lemma {:induction false} TotalRowsAtLeast(segments: seq<Segment>, n: nat, thickness: real, rails: int,
                                             hypot: (real, real) -> real)
    ensures TotalRows(segments, n, thickness, rails, hypot) >= |segments| * n
  {
    if |segments| > 0 {
      TotalRowsAtLeast(segments[..|segments| - 1], n, thickness, rails, hypot);
      CountStep(|segments|, n);
      if RailsApply(segments[|segments| - 1], thickness, rails, hypot) {
        assert n * rails == n * (rails - 1) + n;
      }
    }
  }

  /** When every stroke is drawn on rails, there are n * rails samples per
      stroke. */
  lemma {:induction false} AllRailsCount(segments: seq<Segment>, n: nat, thickness: real, rails: int,
                                          hypot: (real, real) -> real)
    requires forall i :: 0 <= i < |segments| ==> RailsApply(segments[i], thickness, rails, hypot)
    ensures TotalRows(segments, n, thickness, rails, hypot) == |segments| * (n * rails)
  {
    if |segments| > 0 {
      AllRailsCount(segments[..|segments| - 1], n, thickness, rails, hypot);
      CountStep(|segments|, n * rails);
    }
  }

  /** A stroke drawn on rails: rail j, point k is centre-line point k
      moved by offset j along the normal; the offsets run from -thickness
      to +thickness. */
  lemma RailPoint(s: Segment, n: nat, thickness: real, rails: int, hypot: (real, real) -> real, j: nat, k: nat)
    requires RailsApply(s, thickness, rails, hypot) && j < rails && k < n
    ensures var length := hypot(Dx(s), Dy(s));
      var normal, off, c := Normal(s, length), Linspace(-thickness, thickness, rails as nat), Centreline(s, n);
      j * n + k < |SegmentSamples(s, n, thickness, rails, hypot)| &&
      SegmentSamples(s, n, thickness, rails, hypot)[j * n + k] == Shifted(c[k], normal.x, normal.y, off[j]) &&
      off[0] == -thickness && off[rails - 1] == thickness
  {
    var length := hypot(Dx(s), Dy(s));
    var normal := Normal(s, length);
    RailsIndex(Centreline(s, n), normal.x, normal.y, Linspace(-thickness, thickness, rails as nat), j, k);
    LinspaceEnds(-thickness, thickness, rails as nat);
  }

  /** A zero-length stroke gives n copies of its point, whatever the
      thickness and rails: with hypot(0, 0) = 0 no rail is drawn. */
  lemma ZeroLengthStroke(s: Segment, n: nat, thickness: real, rails: int, hypot: (real, real) -> real)
    requires s.a == s.b && hypot(0.0, 0.0) == 0.0
    ensures SegmentSamples(s, n, thickness, rails, hypot) == seq(n, k => s.a)
  {
  }

  /** The samples of one stroke: the centre line, or one shifted copy of
      it per rail offset. */
  method SampleSegment(s: Segment, pointsPerSegment: nat, thickness: real, rails: int, hypot: (real, real) -> real)
    returns (pts: seq<Point>)
    ensures pts == SegmentSamples(s, pointsPerSegment, thickness, rails, hypot)
  {
    var basePts := Centreline(s, pointsPerSegment);
    var dx, dy := s.b.x - s.a.x, s.b.y - s.a.y;
    var length := hypot(dx, dy);
    if thickness > 0.0 && rails > 1 && length > 0.0 {
      var nx, ny := -dy / length, dx / length;
      var offsets := Linspace(-thickness, thickness, rails as nat);
      pts := [];
      for j := 0 to |offsets|
        invariant pts == Rails(basePts, nx, ny, offsets[..j])
      {
        assert offsets[..j + 1][..j] == offsets[..j];
        pts := pts + Rail(basePts, nx, ny, offsets[j]);
      }
      assert offsets[..|offsets|] == offsets;
      assert Normal(s, length) == Point(nx, ny);
    } else {
      pts := basePts;
    }
  }

  /** The samples, appended stroke by stroke; numpy cannot stack an empty
      list of strokes, so no strokes is an error. */
  method SamplePointsOnSegments(segments: seq<Segment>, pointsPerSegment: nat, thickness: real, rails: int,
                                hypot: (real, real) -> real)
    returns (points: Option<seq<Point>>)
    ensures points.None? <==> |segments| == 0
    ensures points.Some? ==> points.value == Samples(segments, pointsPerSegment, thickness, rails, hypot)
  {
    if |segments| == 0 {
      return None;
    }
    var all: seq<Point> := [];
    for i := 0 to |segments|
      invariant all == Samples(segments[..i], pointsPerSegment, thickness, rails, hypot)
    {
      var pts := SampleSegment(segments[i], pointsPerSegment, thickness, rails, hypot);
      assert segments[..i + 1][..i] == segments[..i];
      all := all + pts;
    }
    assert segments[..|segments|] == segments;
    return Some(all);
  }

  // ---------------------------------------------------------------------
  // Target normalisation

  function Xs(pts: seq<Point>): (r: seq<real>)
    ensures |r| == |pts|
  {
    seq(|pts|, i requires 0 <= i < |pts| => pts[i].x)
  }

  function Ys(pts: seq<Point>): (r: seq<real>)
    ensures |r| == |pts|
  {
    seq(|pts|, i requires 0 <= i < |pts| => pts[i].y)
  }

  function Min(v: seq<real>): real
    requires |v| > 0
  {
    if |v| == 1 then v[0]
    else var m := Min(v[..|v| - 1]); if v[|v| - 1] < m then v[|v| - 1] else m
  }

  function Max(v: seq<real>): real
    requires |v| > 0
  {
    if |v| == 1 then v[0]
    else var m := Max(v[..|v| - 1]); if v[|v| - 1] > m then v[|v| - 1] else m
  }

  /** Min and Max bound every element and are elements. */
  lemma {:induction false} MinMax(v: seq<real>)
    requires |v| > 0
    ensures forall i :: 0 <= i < |v| ==> Min(v) <= v[i] <= Max(v)
    ensures exists i :: 0 <= i < |v| && v[i] == Min(v)
    ensures exists i :: 0 <= i < |v| && v[i] == Max(v)
  {
    if |v| > 1 {
      var init := v[..|v| - 1];
      MinMax(init);
      var i0 :| 0 <= i0 < |init| && init[i0] == Min(init);
      var i1 :| 0 <= i1 < |init| && init[i1] == Max(init);
      assert v[i0] == init[i0] && v[i1] == init[i1];
      forall i | 0 <= i < |v| - 1
        ensures Min(v) <= v[i] <= Max(v)
      {
        assert v[i] == init[i];
      }
    }
  }

  /** The horizontal widening: x moved away from cx by the factor scale. */
  function Widened(p: Point, cx: real, scale: real): Point
  {
    p.(x := Stretch(p.x, cx, scale))
  }

  function Stretch(v: real, cx: real, scale: real): real
  {
    cx + Mul(v - cx, scale)
  }

  /** Widening by a positive factor keeps the order of the x values, so
      the new extremes are the widened old ones. */
  lemma {:induction false} StretchMinMax(v: seq<real>, cx: real, scale: real)
    requires |v| > 0 && scale > 0.0
    ensures var w := seq(|v|, i requires 0 <= i < |v| => Stretch(v[i], cx, scale));
      Min(w) == Stretch(Min(v), cx, scale) && Max(w) == Stretch(Max(v), cx, scale)
  {
    var w := seq(|v|, i requires 0 <= i < |v| => Stretch(v[i], cx, scale));
    if |v| > 1 {
      var init := v[..|v| - 1];
      StretchMinMax(init, cx, scale);
      assert w[..|w| - 1] == seq(|init|, i requires 0 <= i < |init| => Stretch(init[i], cx, scale));
      StretchMonotone(v[|v| - 1], Min(init), cx, scale);
      StretchMonotone(Max(init), v[|v| - 1], cx, scale);
    }
  }

  lemma StretchMonotone(a: real, b: real, cx: real, scale: real)
    requires scale > 0.0
    ensures a < b <==> Stretch(a, cx, scale) < Stretch(b, cx, scale)
  {
    assert Mul(b - cx, scale) - Mul(a - cx, scale) == Mul(b - a, scale);
    if a < b {
      MulPos(b - a, scale);
    }
    if b <= a {
      MulNonneg(a - b, scale);
      assert Mul(a - cx, scale) - Mul(b - cx, scale) == Mul(a - b, scale);
    }
  }

  /** Widening stretches the x column and keeps the y column. */
  lemma WidenedColumns(pts: seq<Point>, cx: real, scale: real)
    ensures var w := seq(|pts|, i requires 0 <= i < |pts| => Widened(pts[i], cx, scale));
      Xs(w) == seq(|pts|, i requires 0 <= i < |pts| => Stretch(Xs(pts)[i], cx, scale)) && Ys(w) == Ys(pts)
  {
  }

  /** Widening about the middle of the x-range keeps that middle, scales
      the range's width by the factor, and leaves every y alone. */
  lemma WidenAboutMiddle(pts: seq<Point>, scale: real)
    requires |pts| > 0 && scale > 0.0
    ensures var cx := 0.5 * (Min(Xs(pts)) + Max(Xs(pts)));
      var w := seq(|pts|, i requires 0 <= i < |pts| => Widened(pts[i], cx, scale));
      0.5 * (Min(Xs(w)) + Max(Xs(w))) == cx &&
      Max(Xs(w)) - Min(Xs(w)) == Mul(Max(Xs(pts)) - Min(Xs(pts)), scale) &&
      Ys(w) == Ys(pts)
  {
    var v := Xs(pts);
    var cx := 0.5 * (Min(v) + Max(v));
    var w := seq(|pts|, i requires 0 <= i < |pts| => Widened(pts[i], cx, scale));
    WidenedColumns(pts, cx, scale);
    StretchMinMax(v, cx, scale);
    MulDistrib(Min(v) - cx, Max(v) - cx, scale);
    MulDistrib(Max(v) - cx, Min(v) - cx, scale);
    assert (Min(v) - cx) + (Max(v) - cx) == 0.0;
    assert (Max(v) - cx) - (Min(v) - cx) == Max(v) - Min(v);
    assert Mul(0.0, scale) == 0.0;
  }

  /** numpy's in-place rewrite of the x column. */
  method WidenColumn(pts: array<Point>, cx: real, scale: real)
    modifies pts
    ensures forall i :: 0 <= i < pts.Length ==> pts[i] == Widened(old(pts[i]), cx, scale)
  {
    forall i | 0 <= i < pts.Length {
      pts[i] := Widened(pts[i], cx, scale);
    }
  }

  const PadX: real := 0.08
  const PadY: real := 0.15

  /** Position of v in [lo, hi], mapped to [pad, 1 - pad]. */
  function Normalised(v: real, lo: real, hi: real, pad: real): real
    requires lo < hi
  {
    pad + (1.0 - 2.0 * pad) * ((v - lo) / (hi - lo))
  }

  /** Both coordinates normalised to the padded unit square; a range of
      zero width makes numpy divide by zero, which the model reports as
      no targets. */
  function NormaliseTargets(pts: seq<Point>): (r: Option<seq<Point>>)
    requires |pts| > 0
    ensures r.Some? ==> |r.value| == |pts|
  {
    var minX, maxX, minY, maxY := Min(Xs(pts)), Max(Xs(pts)), Min(Ys(pts)), Max(Ys(pts));
    if minX < maxX && minY < maxY then
      Some(seq(|pts|, i requires 0 <= i < |pts| =>
        Point(Normalised(pts[i].x, minX, maxX, PadX), Normalised(pts[i].y, minY, maxY, PadY))))
    else None
  }

  /** Targets fill the padded square [0.08, 0.92] x [0.15, 0.85]: every
      target lies inside it, and the extreme points land on its edges. */
  lemma TargetsInPaddedSquare(pts: seq<Point>, i: nat)
    requires |pts| > 0 && i < |pts|
    ensures NormaliseTargets(pts).None? <==> Min(Xs(pts)) == Max(Xs(pts)) || Min(Ys(pts)) == Max(Ys(pts))
    ensures NormaliseTargets(pts).Some? ==>
      var p, q := pts[i], NormaliseTargets(pts).value[i];
      PadX <= q.x <= 1.0 - PadX && PadY <= q.y <= 1.0 - PadY &&
      (p.x == Min(Xs(pts)) ==> q.x == PadX) && (p.x == Max(Xs(pts)) ==> q.x == 1.0 - PadX) &&
      (p.y == Min(Ys(pts)) ==> q.y == PadY) && (p.y == Max(Ys(pts)) ==> q.y == 1.0 - PadY)
  {
    MinMax(Xs(pts));
    MinMax(Ys(pts));
    assert Xs(pts)[i] == pts[i].x && Ys(pts)[i] == pts[i].y;
    var minX, maxX, minY, maxY := Min(Xs(pts)), Max(Xs(pts)), Min(Ys(pts)), Max(Ys(pts));
    if minX < maxX && minY < maxY {
      DivUnit(pts[i].x - minX, maxX - minX);
      DivUnit(pts[i].y - minY, maxY - minY);
      assert Mul(1.0, maxX - minX) == maxX - minX && Mul(1.0, maxY - minY) == maxY - minY;
      DivOfMul(1.0, maxX - minX);
      DivOfMul(1.0, maxY - minY);
    }
  }

  /** The target positions: the letter skeleton sampled with 60 points per
      stroke on 3 rails 0.18 apart from the centre, widened by 1.35 about
      the middle of the x-range, then normalised. */
  method LetterTargets(hypot: (real, real) -> real) returns (targets: Option<seq<Point>>)
    ensures targets.Some? ==> forall i :: 0 <= i < |targets.value| ==>
      PadX <= targets.value[i].x <= 1.0 - PadX && PadY <= targets.value[i].y <= 1.0 - PadY
    // with a Euclidean length that is positive for every stroke that is
    // not a point, every stroke has 3 rails of 60 points
    ensures targets.Some? && (forall dx, dy :: dx != 0.0 || dy != 0.0 ==> hypot(dx, dy) > 0.0) ==>
      |targets.value| == 28 * 180
  {
    var segments := LetterSegments();
    var sampled := SamplePointsOnSegments(segments, 60, 0.18, 3, hypot);
    var pts := sampled.value;
    SamplesCount(segments, 60, 0.18, 3, hypot);
    if forall dx, dy :: dx != 0.0 || dy != 0.0 ==> hypot(dx, dy) > 0.0 {
      forall i | 0 <= i < |segments|
        ensures RailsApply(segments[i], 0.18, 3, hypot)
      {
        var s := segments[i];
        assert Dx(s) != 0.0 || Dy(s) != 0.0;
      }
      AllRailsCount(segments, 60, 0.18, 3, hypot);
    }
    TotalRowsAtLeast(segments, 60, 0.18, 3, hypot);
    var column := new Point[|pts|](i requires 0 <= i < |pts| => pts[i]);
    var widthScale := 1.35;
    var cxGrid := 0.5 * (Min(Xs(pts)) + Max(Xs(pts)));
    WidenColumn(column, cxGrid, widthScale);
    var widened := column[..];
    targets := NormaliseTargets(widened);
    if targets.Some? {
      forall i | 0 <= i < |targets.value|
        ensures PadX <= targets.value[i].x <= 1.0 - PadX && PadY <= targets.value[i].y <= 1.0 - PadY
      {
        TargetsInPaddedSquare(widened, i);
      }
    }
  }

  // ---------------------------------------------------------------------
  // The frame loop of create_swarm_gif

  /** np.clip(v, 0, 1). */
  function Clip01(v: real): (r: real)
    ensures 0.0 <= r <= 1.0
    ensures 0.0 <= v <= 1.0 ==> r == v
  {
    if v < 0.0 then 0.0 else if v > 1.0 then 1.0 else v
  }

  function ClipPoint(p: Point): Point
  {
    Point(Clip01(p.x), Clip01(p.y))
  }

  predicate InUnitSquare(p: Point)
  {
    0.0 <= p.x <= 1.0 && 0.0 <= p.y <= 1.0
  }

  /** Target plus normal noise of scale 0.01, from standard-normal draws. */
  function JitteredTargets(targets: seq<Point>, draws: seq<Point>): (r: seq<Point>)
    requires |draws| == |targets|
    ensures |r| == |targets|
  {
    seq(|targets|, k requires 0 <= k < |targets| =>
      Point(targets[k].x + 0.01 * draws[k].x, targets[k].y + 0.01 * draws[k].y))
  }

  /** Eased progress of frame i of n. */
  function Alpha(i: nat, n: nat): real
  {
    Smoothstep(FrameProgress(i, n))
  }

  function Cube(u: real): real
  {
    Mul(Mul(u, u), u)
  }

  /** A cube of a value in [0, 1] stays in [0, 1]. */
  lemma CubeUnit(u: real)
    requires 0.0 <= u <= 1.0
    ensures 0.0 <= Cube(u) <= 1.0
  {
    MulNonneg(u, u);
    MulNonneg(u, 1.0 - u);
    assert Mul(u, 1.0 - u) == u - Mul(u, u);
    MulNonneg(Mul(u, u), u);
    MulNonneg(Mul(u, u), 1.0 - u);
    assert Mul(Mul(u, u), 1.0 - u) == Mul(u, u) - Mul(Mul(u, u), u);
  }

  /** jitter * (1 - alpha)^3: the noise fades as the particles arrive. */
  function NoiseScale(jitter: real, alpha: real): real
  {
    Mul(jitter, Cube(1.0 - alpha))
  }

  /** One particle: (1 - alpha) start + alpha target + scaled noise,
      clipped to the unit square. */
  function Position(start: Point, target: Point, draw: Point, alpha: real, noiseScale: real): Point
  {
    ClipPoint(Point((1.0 - alpha) * start.x + alpha * target.x + noiseScale * draw.x,
                    (1.0 - alpha) * start.y + alpha * target.y + noiseScale * draw.y))
  }

  function FramePositions(starts: seq<Point>, targets: seq<Point>, draws: seq<Point>, alpha: real, jitter: real)
    : (r: seq<Point>)
    requires |targets| == |starts| && |draws| == |starts|
    ensures |r| == |starts|
  {
    seq(|starts|, k requires 0 <= k < |starts| =>
      Position(starts[k], targets[k], draws[k], alpha, NoiseScale(jitter, alpha)))
  }

  /** Full noise at alpha 0, none at alpha 1. */
  lemma NoiseScaleEnds(jitter: real)
    ensures NoiseScale(jitter, 0.0) == jitter && NoiseScale(jitter, 1.0) == 0.0
  {
    assert Cube(1.0) == 1.0 && Cube(0.0) == 0.0;
  }

  /** In between, never more than the jitter and never negative. */
  lemma NoiseScaleBounds(jitter: real, alpha: real)
    requires 0.0 <= alpha <= 1.0 && jitter >= 0.0
    ensures 0.0 <= NoiseScale(jitter, alpha) <= jitter
  {
    var c := Cube(1.0 - alpha);
    CubeUnit(1.0 - alpha);
    MulNonneg(jitter, c);
    MulNonneg(jitter, 1.0 - c);
    assert Mul(jitter, 1.0 - c) == jitter - Mul(jitter, c);
  }

  /** The noise starts at the full jitter and is gone in the last frame;
      for a non-negative jitter it never exceeds the jitter. */
  lemma NoiseFades(jitter: real, i: nat, n: nat)
    requires i < n
    ensures n > 1 ==> NoiseScale(jitter, Alpha(0, n)) == jitter
    ensures NoiseScale(jitter, Alpha(n - 1, n)) == 0.0
    ensures jitter >= 0.0 ==> 0.0 <= NoiseScale(jitter, Alpha(i, n)) <= jitter
  {
    AlphaBounds(i, n);
    NoiseScaleEnds(jitter);
    if jitter >= 0.0 {
      NoiseScaleBounds(jitter, Alpha(i, n));
    }
  }

  /** Alpha runs from 0 at the first frame to 1 at the last (a lone frame
      is already at 1) and stays in [0, 1]. */
  lemma AlphaBounds(i: nat, n: nat)
    requires i < n
    ensures n > 1 ==> Alpha(0, n) == 0.0
    ensures Alpha(n - 1, n) == 1.0
    ensures 0.0 <= Alpha(i, n) <= 1.0
  {
    SmoothstepFixedPoints();
    FrameProgressBounds(i, n);
    FrameProgressBounds(0, n);
    SmoothstepBounded(FrameProgress(i, n));
  }

  /** At alpha 1 with no noise a particle is at its target; at alpha 0 it
      is at its start plus the full noise. */
  lemma PositionAtEnds(start: Point, target: Point, draw: Point, jitter: real)
    ensures Position(start, target, draw, 1.0, 0.0) == ClipPoint(target)
    ensures Position(start, target, draw, 0.0, jitter) ==
      ClipPoint(Point(start.x + jitter * draw.x, start.y + jitter * draw.y))
  {
  }

  /** The last frame shows every particle at its jittered target (clipped),
      and the first, for two or more frames, at its start plus the full
      noise. */
  lemma ArrivalAndDeparture(starts: seq<Point>, targets: seq<Point>, draws: seq<Point>, jitter: real, n: nat)
    requires |targets| == |starts| && |draws| == |starts| && n >= 1
    ensures FramePositions(starts, targets, draws, Alpha(n - 1, n), jitter) ==
      seq(|starts|, k requires 0 <= k < |starts| => ClipPoint(targets[k]))
    ensures n > 1 ==>
      FramePositions(starts, targets, draws, Alpha(0, n), jitter) ==
      seq(|starts|, k requires 0 <= k < |starts| =>
        ClipPoint(Point(starts[k].x + jitter * draws[k].x, starts[k].y + jitter * draws[k].y)))
  {
    AlphaBounds(n - 1, n);
    NoiseScaleEnds(jitter);
    forall k | 0 <= k < |starts| {
      PositionAtEnds(starts[k], targets[k], draws[k], jitter);
    }
  }

  /** The positions of every frame: frame i moves the particles to the
      eased point between start and jittered target, plus noise from that
      frame's standard-normal draws, clipped to the canvas. */
  method SwarmPositions(starts: seq<Point>, jitteredTargets: seq<Point>, draws: seq<seq<Point>>, nFrames: nat,
                        jitter: real)
    returns (allPositions: seq<seq<Point>>)
    requires |jitteredTargets| == |starts| && |draws| == nFrames
    requires forall i :: 0 <= i < nFrames ==> |draws[i]| == |starts|
    ensures |allPositions| == nFrames
    ensures forall i :: 0 <= i < nFrames ==>
      allPositions[i] == FramePositions(starts, jitteredTargets, draws[i], Alpha(i, nFrames), jitter)
    ensures forall i, k :: 0 <= i < nFrames && 0 <= k < |allPositions[i]| ==> InUnitSquare(allPositions[i][k])
  {
    allPositions := [];
    for frameIdx := 0 to nFrames
      invariant |allPositions| == frameIdx
      invariant forall i :: 0 <= i < frameIdx ==>
        allPositions[i] == FramePositions(starts, jitteredTargets, draws[i], Alpha(i, nFrames), jitter)
    {
      var t := if nFrames > 1 then frameIdx as real / (nFrames - 1) as real else 1.0;
      var alpha := Smoothstep(t);
      var noiseScale := NoiseScale(jitter, alpha);
      var noise := draws[frameIdx];
      var pos := seq(|starts|, k requires 0 <= k < |starts| =>
        Position(starts[k], jitteredTargets[k], noise[k], alpha, noiseScale));
      assert alpha == Alpha(frameIdx, nFrames);
      allPositions := allPositions + [pos];
    }
  }
}
