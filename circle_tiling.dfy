/** Recursive circle tiling (prompt1/one_shape_one_color.py): a circle,
    then four smaller circles each tangent to one edge of the parent's
    inscribed square, recursively up to a depth bound. The axes are a
    growing list of circle patches. */
module CircleTiling {

  import opened RealArith

  /** A filled circle patch. */
  datatype Circle = Circle(cx: real, cy: real, r: real, color: string, alpha: real)

  /** What one pattern shares across all its circles. `root2` stands for
      the value of 2 ** 0.5 the side of the inscribed square is computed
      with. */
  datatype Pattern = Pattern(color: string, alpha: real, maxIterations: int, shrinkFraction: real, root2: real)

  /** The drawing surface: the list of patches added to it, in order. */
  class Axes {
    var patches: seq<Circle>

    constructor ()
      ensures patches == []
    {
      patches := [];
    }

    method AddPatch(c: Circle)
      modifies this
      ensures patches == old(patches) + [c]
    {
      patches := patches + [c];
    }
  }

  /** Levels of recursion still allowed below a circle drawn at `iteration`. */
  function Remaining(p: Pattern, iteration: int): nat
  {
    if iteration >= p.maxIterations then 0 else p.maxIterations - iteration
  }

  /** Half the side of the square inscribed in a circle of radius r. */
  function HalfSide(p: Pattern, r: real): real
  {
    r * p.root2 / 2.0
  }

  /** Radius of each child of a circle of radius r. */
  function SmallerRadius(p: Pattern, r: real): real
  {
    r * p.shrinkFraction
  }

  /** The four child centres, in the order left, right, bottom, top. */
  function ChildCenters(p: Pattern, cx: real, cy: real, r: real): seq<(real, real)>
  {
    var halfSide := HalfSide(p, r);
    var smallerR := SmallerRadius(p, r);
    [(cx - halfSide - smallerR, cy), (cx + halfSide + smallerR, cy),
     (cx, cy - halfSide - smallerR), (cx, cy + halfSide + smallerR)]
  }

  /** The circles one recursive call adds, in the order it adds them: its
      own circle, then the patterns of its children. */
  function Tiling(p: Pattern, cx: real, cy: real, r: real, iteration: int): seq<Circle>
    decreases Remaining(p, iteration), 0, 0
  {
    [Circle(cx, cy, r, p.color, p.alpha)] +
    if iteration >= p.maxIterations then []
    else Children(p, ChildCenters(p, cx, cy, r), SmallerRadius(p, r), iteration + 1)
  }

  /** The patterns drawn at the centres `cs`, one after another. */
  function Children(p: Pattern, cs: seq<(real, real)>, r: real, iteration: int): seq<Circle>
    decreases Remaining(p, iteration), 1, |cs|
  {
    if |cs| == 0 then []
    else Children(p, cs[..|cs| - 1], r, iteration) + Tiling(p, cs[|cs| - 1].0, cs[|cs| - 1].1, r, iteration)
  }

  /** Adds the pattern rooted at (cx, cy) with radius r to the axes. */
  method DrawRecursive(ax: Axes, p: Pattern, cx: real, cy: real, r: real, iteration: int)
    modifies ax
    ensures ax.patches == old(ax.patches) + Tiling(p, cx, cy, r, iteration)
    decreases Remaining(p, iteration)
  {
    ax.AddPatch(Circle(cx, cy, r, p.color, p.alpha));
    if iteration >= p.maxIterations {
      return;
    }
    var side := r * p.root2;
    var halfSide := side / 2.0;
    var smallerR := r * p.shrinkFraction;
    var centers := [(cx - halfSide - smallerR, cy), (cx + halfSide + smallerR, cy),
                    (cx, cy - halfSide - smallerR), (cx, cy + halfSide + smallerR)];
    assert halfSide == HalfSide(p, r) && smallerR == SmallerRadius(p, r);
    assert centers == ChildCenters(p, cx, cy, r);
    ghost var start := ax.patches;
    for k := 0 to |centers|
      invariant ax.patches == start + Children(p, centers[..k], smallerR, iteration + 1)
    {
      DrawRecursive(ax, p, centers[k].0, centers[k].1, smallerR, iteration + 1);
      assert centers[..k + 1][..k] == centers[..k];
    }
    assert centers[..|centers|] == centers;
  }

  /** Draws one pattern centred at (centerX, centerY), starting at
      iteration 0. */
  method DrawPattern(ax: Axes, radius: real, p: Pattern, centerX: real, centerY: real)
    modifies ax
    ensures ax.patches == old(ax.patches) + Tiling(p, centerX, centerY, radius, 0)
  {
    DrawRecursive(ax, p, centerX, centerY, radius, 0);
  }

  /** 4^k. */
  function Pow4(k: nat): nat
  {
    if k == 0 then 1 else 4 * Pow4(k - 1)
  }

  /** 1 + 4 + ... + 4^d. */
  function SumPow4(d: nat): (s: nat)
    ensures s >= 1
  {
    if d == 0 then 1 else SumPow4(d - 1) + Pow4(d)
  }

  /** The sum 1 + 4 + ... + 4^d is one root plus four copies of the sum
      one level shorter. */
  lemma {:induction false} SumPow4Step(d: nat)
    requires d >= 1
    ensures SumPow4(d) == 1 + 4 * SumPow4(d - 1)
  {
    if d > 1 {
      SumPow4Step(d - 1);
    }
  }

  /** A call with d levels left adds 1 + 4 + ... + 4^d circles, wherever
      it is and whatever its radius. */
  lemma {:induction false} TilingCount(p: Pattern, cx: real, cy: real, r: real, iteration: int)
    ensures |Tiling(p, cx, cy, r, iteration)| == SumPow4(Remaining(p, iteration))
    decreases Remaining(p, iteration), 0, 0
  {
    if iteration < p.maxIterations {
      var cs := ChildCenters(p, cx, cy, r);
      assert |cs| == 4;
      ChildrenCount(p, cs, SmallerRadius(p, r), iteration + 1);
      SumPow4Step(Remaining(p, iteration));
      assert Remaining(p, iteration + 1) == Remaining(p, iteration) - 1;
      assert Tiling(p, cx, cy, r, iteration) == [Circle(cx, cy, r, p.color, p.alpha)] + Children(p, cs, SmallerRadius(p, r), iteration + 1);
    }
  }

  lemma {:induction false} ChildrenCount(p: Pattern, cs: seq<(real, real)>, r: real, iteration: int)
    ensures |Children(p, cs, r, iteration)| == |cs| * SumPow4(Remaining(p, iteration))
    decreases Remaining(p, iteration), 1, |cs|
  {
    if |cs| > 0 {
      var n, size := |cs|, SumPow4(Remaining(p, iteration));
      ChildrenCount(p, cs[..n - 1], r, iteration);
      TilingCount(p, cs[n - 1].0, cs[n - 1].1, r, iteration);
      CountStep(n, size);
    }
  }

  /** With max_iterations = d >= 0 a pattern has 1 + 4 + ... + 4^d circles;
      with max_iterations <= 0 it is only the root circle. */
  lemma PatternCount(p: Pattern, radius: real, centerX: real, centerY: real)
    ensures p.maxIterations >= 0 ==> |Tiling(p, centerX, centerY, radius, 0)| == SumPow4(p.maxIterations)
    ensures p.maxIterations <= 0 ==>
      Tiling(p, centerX, centerY, radius, 0) == [Circle(centerX, centerY, radius, p.color, p.alpha)]
  {
    TilingCount(p, centerX, centerY, radius, 0);
  }

  /** s^k. */
  function Pow(s: real, k: nat): real
  {
    if k == 0 then 1.0 else s * Pow(s, k - 1)
  }

  /** The radius of a circle k levels below a root of radius `radius`. */
  function RadiusAtDepth(radius: real, s: real, k: nat): real
  {
    radius * Pow(s, k)
  }

  /** A child of a circle at depth k is at depth k + 1. */
  lemma ChildRadiusAtDepth(p: Pattern, radius: real, k: nat)
    ensures SmallerRadius(p, RadiusAtDepth(radius, p.shrinkFraction, k)) == RadiusAtDepth(radius, p.shrinkFraction, k + 1)
  {
    var s := p.shrinkFraction;
    assert Mul(Mul(radius, Pow(s, k)), s) == Mul(radius, Mul(s, Pow(s, k)));
  }

  /** The recursion depth of each circle of a call whose own circle is at
      `depth`, listed in drawing order. */
  function Depths(p: Pattern, iteration: int, depth: nat): seq<nat>
    decreases Remaining(p, iteration)
  {
    [depth] +
    if iteration >= p.maxIterations then []
    else Copies(4, Depths(p, iteration + 1, depth + 1))
  }

  /** `n` copies of `s`, one after another. */
  function Copies(n: nat, s: seq<nat>): seq<nat>
  {
    if n == 0 then [] else Copies(n - 1, s) + s
  }

  /** Circle i of a pattern lies at depth Depths[i] and has radius
      radius * shrink_fraction^depth, whether the fraction is below or above
      1; all circles share the pattern's colour and alpha. */
  lemma {:induction false} TilingRadii(p: Pattern, cx: real, cy: real, r: real, iteration: int,
                                       radius: real, depth: nat)
    requires r == RadiusAtDepth(radius, p.shrinkFraction, depth)
    ensures |Depths(p, iteration, depth)| == |Tiling(p, cx, cy, r, iteration)|
    ensures forall i :: 0 <= i < |Tiling(p, cx, cy, r, iteration)| ==>
      Tiling(p, cx, cy, r, iteration)[i] ==
        Tiling(p, cx, cy, r, iteration)[i].(r := RadiusAtDepth(radius, p.shrinkFraction, Depths(p, iteration, depth)[i]),
                                            color := p.color, alpha := p.alpha)
    decreases Remaining(p, iteration), 0, 0
  {
    if iteration < p.maxIterations {
      var cs := ChildCenters(p, cx, cy, r);
      assert |cs| == 4;
      ChildRadiusAtDepth(p, radius, depth);
      ChildrenRadii(p, cs, SmallerRadius(p, r), iteration + 1, radius, depth + 1);
    }
  }

  lemma {:induction false} ChildrenRadii(p: Pattern, cs: seq<(real, real)>, r: real, iteration: int,
                                         radius: real, depth: nat)
    requires r == RadiusAtDepth(radius, p.shrinkFraction, depth)
    ensures |Copies(|cs|, Depths(p, iteration, depth))| == |Children(p, cs, r, iteration)|
    ensures forall i :: 0 <= i < |Children(p, cs, r, iteration)| ==>
      Children(p, cs, r, iteration)[i] ==
        Children(p, cs, r, iteration)[i].(r := RadiusAtDepth(radius, p.shrinkFraction, Copies(|cs|, Depths(p, iteration, depth))[i]),
                                          color := p.color, alpha := p.alpha)
    decreases Remaining(p, iteration), 1, |cs|
  {
    if |cs| > 0 {
      var n := |cs|;
      ChildrenRadii(p, cs[..n - 1], r, iteration, radius, depth);
      TilingRadii(p, cs[n - 1].0, cs[n - 1].1, r, iteration, radius, depth);
    }
  }

  /** The four child patterns, one after another. */
  lemma ChildrenOfFour(p: Pattern, cs: seq<(real, real)>, r: real, iteration: int)
    requires |cs| == 4
    ensures Children(p, cs, r, iteration) ==
      Tiling(p, cs[0].0, cs[0].1, r, iteration) + Tiling(p, cs[1].0, cs[1].1, r, iteration) +
      Tiling(p, cs[2].0, cs[2].1, r, iteration) + Tiling(p, cs[3].0, cs[3].1, r, iteration)
  {
    assert cs[..3][..2] == cs[..2] && cs[..2][..1] == cs[..1] && cs[..1][..0] == [];
    assert Children(p, cs[..1], r, iteration) == Tiling(p, cs[0].0, cs[0].1, r, iteration);
    assert Children(p, cs[..2], r, iteration) == Children(p, cs[..1], r, iteration) + Tiling(p, cs[1].0, cs[1].1, r, iteration);
    assert Children(p, cs[..3], r, iteration) == Children(p, cs[..2], r, iteration) + Tiling(p, cs[2].0, cs[2].1, r, iteration);
    assert cs[..4] == cs;
  }

  /** The circles come in pre-order: the parent first, then the whole
      pattern of its left, right, bottom and top child, each child's own
      circle opening its block of N = 1 + 4 + ... + 4^(d-1) circles. */
  lemma TilingPreOrder(p: Pattern, cx: real, cy: real, r: real, iteration: int)
    requires iteration < p.maxIterations
    ensures var t, n, cs := Tiling(p, cx, cy, r, iteration), SumPow4(Remaining(p, iteration + 1)), ChildCenters(p, cx, cy, r);
      |t| == 1 + 4 * n &&
      t[0] == Circle(cx, cy, r, p.color, p.alpha) &&
      t[1] == Circle(cs[0].0, cs[0].1, SmallerRadius(p, r), p.color, p.alpha) &&
      t[1 + n] == Circle(cs[1].0, cs[1].1, SmallerRadius(p, r), p.color, p.alpha) &&
      t[1 + 2 * n] == Circle(cs[2].0, cs[2].1, SmallerRadius(p, r), p.color, p.alpha) &&
      t[1 + 3 * n] == Circle(cs[3].0, cs[3].1, SmallerRadius(p, r), p.color, p.alpha)
  {
    var cs, sr, it := ChildCenters(p, cx, cy, r), SmallerRadius(p, r), iteration + 1;
    var t0, t1, t2, t3 := Tiling(p, cs[0].0, cs[0].1, sr, it), Tiling(p, cs[1].0, cs[1].1, sr, it),
                          Tiling(p, cs[2].0, cs[2].1, sr, it), Tiling(p, cs[3].0, cs[3].1, sr, it);
    ChildrenOfFour(p, cs, sr, it);
    TilingCount(p, cs[0].0, cs[0].1, sr, it);
    TilingCount(p, cs[1].0, cs[1].1, sr, it);
    TilingCount(p, cs[2].0, cs[2].1, sr, it);
    TilingCount(p, cs[3].0, cs[3].1, sr, it);
    var t := Tiling(p, cx, cy, r, iteration);
    assert t == [Circle(cx, cy, r, p.color, p.alpha)] + t0 + t1 + t2 + t3;
  }

  /** Each child is shifted from its parent along exactly one axis, by
      half_side + smaller_r, and touches one edge of the parent's inscribed
      square: its nearest point to the parent lies on that edge, at
      distance half_side from the parent's centre. */
  lemma ChildPlacement(p: Pattern, cx: real, cy: real, r: real)
    ensures var cs, h, sr := ChildCenters(p, cx, cy, r), HalfSide(p, r), SmallerRadius(p, r);
      |cs| == 4 &&
      cs[0].1 == cy && cs[1].1 == cy && cs[2].0 == cx && cs[3].0 == cx &&
      cx - cs[0].0 == h + sr && cs[1].0 - cx == h + sr &&
      cy - cs[2].1 == h + sr && cs[3].1 - cy == h + sr &&
      cs[0].0 + sr == cx - h && cs[1].0 - sr == cx + h &&
      cs[2].1 + sr == cy - h && cs[3].1 - sr == cy + h
  {
  }

  /** With root2 * root2 == 2 the square of half side h = r * root2 / 2 is
      inscribed: its corners (cx +- h, cy +- h) lie on the circle,
      h^2 + h^2 == r^2. */
  lemma InscribedSquare(p: Pattern, r: real)
    requires p.root2 * p.root2 == 2.0
    ensures Mul(HalfSide(p, r), HalfSide(p, r)) + Mul(HalfSide(p, r), HalfSide(p, r)) == Mul(r, r)
  {
    var h := HalfSide(p, r);
    assert Mul(h, h) == Mul(r, r) * Mul(p.root2, p.root2) / 4.0;
  }

  /** One pattern at the origin, on fresh axes, with the view margin. */
  method DrawOneShapeOneColor(radius: real, p: Pattern) returns (ax: Axes, margin: real)
    ensures fresh(ax)
    ensures ax.patches == Tiling(p, 0.0, 0.0, radius, 0)
    ensures margin == radius * 1.8
  {
    ax := new Axes();
    DrawPattern(ax, radius, p, 0.0, 0.0);
    margin := radius * 1.8;
  }

  /** The pattern drawn in grid cell (row, col). */
  function CellPattern(color: string, alpha: real, maxIterations: int, shrinkFractions: seq<seq<real>>,
                       root2: real, row: nat, col: nat): Pattern
    requires row < |shrinkFractions| && col < |shrinkFractions[row]|
  {
    Pattern(color, alpha, maxIterations, shrinkFractions[row][col], root2)
  }

  /** A 3x3 grid of patterns, all centred at the origin with the same
      margin, cell (row, col) using shrink fraction [row][col]. */
  method DrawGrid(radius: real, color: string, alpha: real, maxIterations: int,
                  shrinkFractions: seq<seq<real>>, root2: real)
    returns (axes: seq<seq<Axes>>, margin: real)
    requires |shrinkFractions| == 3
    requires forall row :: 0 <= row < 3 ==> |shrinkFractions[row]| == 3
    ensures margin == radius * 1.8
    ensures |axes| == 3 && forall row :: 0 <= row < 3 ==> |axes[row]| == 3
    ensures forall row, col :: 0 <= row < 3 && 0 <= col < 3 ==> fresh(axes[row][col])
    ensures forall row, col :: 0 <= row < 3 && 0 <= col < 3 ==>
      axes[row][col].patches == Tiling(CellPattern(color, alpha, maxIterations, shrinkFractions, root2, row, col),
                                       0.0, 0.0, radius, 0)
  {
    axes := Subplots();
    margin := radius * 1.8;
    for row := 0 to 3
      invariant forall r, c :: 0 <= r < 3 && 0 <= c < 3 ==>
        axes[r][c].patches == if r < row then Tiling(CellPattern(color, alpha, maxIterations, shrinkFractions, root2, r, c), 0.0, 0.0, radius, 0) else []
    {
      for col := 0 to 3
        invariant forall r, c :: 0 <= r < 3 && 0 <= c < 3 ==>
          axes[r][c].patches ==
            if r < row || (r == row && c < col)
            then Tiling(CellPattern(color, alpha, maxIterations, shrinkFractions, root2, r, c), 0.0, 0.0, radius, 0)
            else []
      {
        var shrinkFraction := shrinkFractions[row][col];
        var p := Pattern(color, alpha, maxIterations, shrinkFraction, root2);
        DrawPattern(axes[row][col], radius, p, 0.0, 0.0);
      }
    }
  }

  /** Nine fresh, distinct, empty axes in three rows of three. */
  method Subplots() returns (axes: seq<seq<Axes>>)
    ensures |axes| == 3 && forall row :: 0 <= row < 3 ==> |axes[row]| == 3
    ensures forall row, col :: 0 <= row < 3 && 0 <= col < 3 ==> fresh(axes[row][col]) && axes[row][col].patches == []
    ensures forall r1, c1, r2, c2 :: 0 <= r1 < 3 && 0 <= c1 < 3 && 0 <= r2 < 3 && 0 <= c2 < 3 && (r1, c1) != (r2, c2) ==>
      axes[r1][c1] != axes[r2][c2]
  {
    var a00 := new Axes();
    var a01 := new Axes();
    var a02 := new Axes();
    var a10 := new Axes();
    var a11 := new Axes();
    var a12 := new Axes();
    var a20 := new Axes();
    var a21 := new Axes();
    var a22 := new Axes();
    axes := [[a00, a01, a02], [a10, a11, a12], [a20, a21, a22]];
  }
}
