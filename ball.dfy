/** The bouncing ball shared by the keyframe (animate_v2) and parabolic
    (animate_v3) animations: a pose is a position and a squash/stretch pair,
    and one ellipse patch on the axes is updated in place to show it. */
module Ball {

  /** A pose: centre (x, y) and horizontal/vertical scale (sx, sy) of the
      unit-radius ball. */
  datatype Pose = Pose(x: real, y: real, sx: real, sy: real)

  const BaseRadius: real := 1.0
  const BaseDiameter: real := BaseRadius * 2.0

  /** The ellipse patch the renderer draws; its fields are reassigned for
      every frame. */
  class Ellipse {
    var cx: real
    var cy: real
    var width: real
    var height: real

    /** The ellipse that shows `p`, as built for the first frame. */
    constructor (p: Pose)
      ensures ShowsPose(p)
    {
      cx, cy := p.x, p.y;
      width, height := BaseDiameter * p.sx, BaseDiameter * p.sy;
    }

    /** The patch is the drawing of pose p: centred on it, and its width and
        height are the base diameter scaled by sx and sy. */
    predicate ShowsPose(p: Pose)
      reads this
    {
      cx == p.x && cy == p.y && width == 2.0 * p.sx && height == 2.0 * p.sy
    }

    /** Moves the patch to `frame`: the centre, width and height are
        reassigned and nothing else changes. */
    method UpdateFromFrame(frame: Pose)
      modifies this
      ensures ShowsPose(frame)
    {
      cx, cy := frame.x, frame.y;
      width := BaseDiameter * frame.sx;
      height := BaseDiameter * frame.sy;
    }
  }
}
