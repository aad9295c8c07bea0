/** The first bouncing-ball animation (prompt2/animate_v1.py): a fixed
    table of poses, each drawn as an ellipse whose proportions depend on a
    shape name, with exactly one ball on the axes at a time. */
module BallPoses {

  /** One planned pose: centre, base radius and shape name. */
  datatype Frame = Frame(x: real, y: real, radius: real, shape: string)

  /** The ellipse drawn for a frame: centre, width and height. */
  datatype Outline = Outline(cx: real, cy: real, width: real, height: real)

  const Circle: string := "circle"
  const StretchVertical: string := "stretch_vertical"
  const SquashHorizontal: string := "squash_horizontal"

  /** The drawing of a frame: the diameter 2r, scaled per shape; an unknown
      shape name is drawn as a circle. */
  function EllipseForFrame(f: Frame): (e: Outline)
    ensures e.cx == f.x && e.cy == f.y
  {
    var d := 2.0 * f.radius;
    if f.shape == Circle then Outline(f.x, f.y, d, d)
    else if f.shape == StretchVertical then Outline(f.x, f.y, d * 0.7, d * 1.3)
    else if f.shape == SquashHorizontal then Outline(f.x, f.y, d * 1.4, d * 0.6)
    else Outline(f.x, f.y, d, d)
  }

  /** The size of each known shape: a circle is the diameter 2r both ways,
      a vertical stretch is 0.7 of it wide and 1.3 of it tall, a horizontal
      squash 1.4 of it wide and 0.6 of it tall. */
  lemma ShapeDimensions(f: Frame)
    ensures var e, d := EllipseForFrame(f), 2.0 * f.radius;
      (f.shape == Circle ==> e.width == d && e.height == d) &&
      (f.shape == StretchVertical ==> e.width == 0.7 * d && e.height == 1.3 * d) &&
      (f.shape == SquashHorizontal ==> e.width == 1.4 * d && e.height == 0.6 * d)
  {
  }

  /** For a positive radius: a circle is as wide as it is tall, a vertical
      stretch is narrower and taller than the plain diameter 2r, and a
      horizontal squash is wider and flatter. */
  lemma ShapeProportions(f: Frame)
    requires f.radius > 0.0
    ensures var e := EllipseForFrame(f);
      (f.shape == Circle ==> e.width == e.height == 2.0 * f.radius) &&
      (f.shape == StretchVertical ==> e.width < 2.0 * f.radius < e.height) &&
      (f.shape == SquashHorizontal ==> e.height < 2.0 * f.radius < e.width)
  {
  }

  /** Any name other than the three known shapes is drawn exactly like a
      circle of the same centre and radius. */
  lemma UnknownShapeIsCircle(f: Frame)
    requires f.shape !in {Circle, StretchVertical, SquashHorizontal}
    ensures EllipseForFrame(f) == EllipseForFrame(f.(shape := Circle))
  {
  }

  /** The planned poses, built as the source builds them. */
  method MakeFrames() returns (frames: seq<Frame>)
    ensures |frames| == 17
    ensures frames[0] == Frame(1.0, 9.0, 1.0, Circle)
    // the ball travels left to right
    ensures forall i, j :: 0 <= i < j < |frames| ==> frames[i].x <= frames[j].x
    // every ground contact is a squash of radius 2 at y = 0, at frames 4, 10, 16
    ensures forall i :: 0 <= i < |frames| ==>
      (frames[i].shape == SquashHorizontal <==> i in {4, 10, 16})
    ensures forall i :: 0 <= i < |frames| && frames[i].shape == SquashHorizontal ==>
      frames[i].y == 0.0 && frames[i].radius == 2.0
    ensures forall i :: 0 <= i < |frames| ==>
      frames[i].shape in {Circle, StretchVertical, SquashHorizontal}
  {
    frames := [];
    frames := frames + [Frame(1.0, 9.0, 1.0, Circle), Frame(2.0, 8.0, 1.0, Circle), Frame(3.0, 7.0, 1.0, Circle)];
    frames := frames + [Frame(5.0, 3.0, 1.5, StretchVertical)];
    frames := frames + [Frame(6.0, 0.0, 2.0, SquashHorizontal)];
    frames := frames + [Frame(7.0, 3.0, 1.5, StretchVertical)];
    frames := frames + [Frame(8.0, 5.0, 1.0, Circle), Frame(9.0, 6.0, 1.0, Circle), Frame(10.0, 5.0, 1.0, Circle)];
    frames := frames + [Frame(11.0, 3.0, 1.5, Circle)];
    frames := frames + [Frame(12.0, 0.0, 2.0, SquashHorizontal)];
    frames := frames + [Frame(12.0, 3.0, 1.5, StretchVertical)];
    frames := frames + [Frame(14.0, 4.0, 1.0, Circle), Frame(15.0, 5.0, 1.0, Circle), Frame(16.0, 4.0, 1.0, Circle)];
    frames := frames + [Frame(17.0, 2.0, 1.5, Circle)];
    frames := frames + [Frame(18.0, 0.0, 2.0, SquashHorizontal)];
  }

  /** `s` without its first occurrence of `p`. */
  function RemoveFirst(s: seq<Outline>, p: Outline): (r: seq<Outline>)
    ensures p in s ==> |r| == |s| - 1 && multiset(r) == multiset(s) - multiset{p}
    ensures p !in s ==> r == s
  {
    if |s| == 0 then []
    else if s[0] == p then
      assert s == [s[0]] + s[1..];
      s[1..]
    else
      assert s == [s[0]] + s[1..];
      [s[0]] + RemoveFirst(s[1..], p)
  }

  /** The drawing surface: the list of patches it shows. */
  class Axes {
    var patches: seq<Outline>

    constructor ()
      ensures patches == []
    {
      patches := [];
    }

    method AddPatch(p: Outline)
      modifies this
      ensures patches == old(patches) + [p]
    {
      patches := patches + [p];
    }

    /** Removing a patch takes it off the axes. */
    method RemovePatch(p: Outline)
      modifies this
      ensures patches == RemoveFirst(old(patches), p)
    {
      patches := RemoveFirst(patches, p);
    }
  }

  /** The animation state: the axes, the frame table and the ball now shown. */
  class BouncingBall {
    const ax: Axes
    const frames: seq<Frame>
    var current: Outline

    /** Exactly one ball is on the axes, and it is the current one. */
    predicate OneBall()
      reads this, ax
    {
      ax.patches == [current]
    }

    /** Draws the first frame on empty axes. */
    constructor (axes: Axes, frames: seq<Frame>)
      requires |frames| > 0 && axes.patches == []
      modifies axes
      ensures this.ax == axes && this.frames == frames
      ensures OneBall() && current == EllipseForFrame(frames[0])
    {
      this.ax := axes;
      this.frames := frames;
      current := EllipseForFrame(frames[0]);
      new;
      ax.AddPatch(current);
    }

    /** Shows frame i: the old ball is removed before the new one is
        added, so the axes again hold exactly one ball, the drawing of
        frame i. */
    method Update(i: nat) returns (shown: seq<Outline>)
      requires i < |frames| && OneBall()
      modifies this, ax
      ensures OneBall() && current == EllipseForFrame(frames[i])
      ensures shown == [current]
    {
      ax.RemovePatch(current);
      current := EllipseForFrame(frames[i]);
      ax.AddPatch(current);
      shown := [current];
    }
  }
}
