/** Physics-flavoured bouncing ball (prompt2/animate_v3.py): each bounce is
    a parabolic arc of airborne frames whose squash/stretch follows the
    height, optionally closed by a fixed squash sequence on landing. */
module ParabolicBounce {

  import opened Ball
  import opened RealArith

  /** How much the ball stretches vertically near the ground. */
  const StretchStrength: real := 0.35

  /** The (sx, sy) scales of the landing squash, in the order they are shown. */
  const SquashScales: seq<(real, real)> := [(1.2, 0.8), (1.6, 0.5), (1.3, 0.7)]

  /** One bounce of the whole animation: from x_start to x_end, peaking at
      peak_height. */
  datatype Bounce = Bounce(xStart: real, xEnd: real, peakHeight: real)

  /** The three bounces, each lower than the last, each starting where the
      previous one landed. */
  const Bounces: seq<Bounce> :=
    [Bounce(0.0, 6.0, 9.0), Bounce(6.0, 12.0, 6.0), Bounce(12.0, 18.0, 3.0)]

  const AirSteps: int := 14

  /** Number of airborne frames of a bounce: range(1, air_steps + 1). */
  function AirCount(airSteps: int): (n: nat)
    ensures airSteps >= 0 ==> n == airSteps
    ensures airSteps <= 0 ==> n == 0
  {
    if airSteps > 0 then airSteps else 0
  }

  /** Progress of airborne frame i, i/(air_steps + 1). */
  function AirT(i: int, airSteps: int): real
    requires 1 <= i <= airSteps
  {
    i as real / (airSteps + 1) as real
  }

  /** Height of the arc at progress t: peak_height * 4t(1 - t). */
  function ArcHeight(peakHeight: real, t: real): real
  {
    peakHeight * 4.0 * t * (1.0 - t)
  }

  /** Height as a fraction of the peak; a non-positive peak counts as 0
      without dividing. */
  function HeightRatio(y: real, peakHeight: real): real
  {
    if peakHeight > 0.0 then y / peakHeight else 0.0
  }

  /** Vertical stretch: 1 at the peak, 1 + StretchStrength on the ground. */
  function VerticalScale(heightRatio: real): real
  {
    1.0 + StretchStrength * (1.0 - heightRatio)
  }

  /** The normalised arc 4t(1 - t) is positive inside (0, 1) and peaks at 1. */
  lemma UnitArcBounds(t: real)
    requires 0.0 < t < 1.0
    ensures 0.0 < Mul(4.0 * t, 1.0 - t) <= 1.0
  {
    MulPos(4.0 * t, 1.0 - t);
    // 1 - 4t(1 - t) is the square (2t - 1)^2
    if 2.0 * t - 1.0 >= 0.0 {
      MulNonneg(2.0 * t - 1.0, 2.0 * t - 1.0);
      assert Mul(2.0 * t - 1.0, 2.0 * t - 1.0) == 1.0 - Mul(4.0 * t, 1.0 - t);
    } else {
      MulNonneg(1.0 - 2.0 * t, 1.0 - 2.0 * t);
      assert Mul(1.0 - 2.0 * t, 1.0 - 2.0 * t) == 1.0 - Mul(4.0 * t, 1.0 - t);
    }
  }

  /** Inside the flight the height ratio is 4t(1 - t) for a positive peak
      and 0 otherwise; in both cases it lies in [0, 1]. */
  lemma AirborneHeightRatio(peakHeight: real, t: real)
    requires 0.0 < t < 1.0
    ensures peakHeight > 0.0 ==> HeightRatio(ArcHeight(peakHeight, t), peakHeight) == Mul(4.0 * t, 1.0 - t)
    ensures peakHeight <= 0.0 ==> HeightRatio(ArcHeight(peakHeight, t), peakHeight) == 0.0
    ensures 0.0 <= HeightRatio(ArcHeight(peakHeight, t), peakHeight) <= 1.0
  {
    UnitArcBounds(t);
    if peakHeight > 0.0 {
      assert Mul(Mul(4.0 * t, 1.0 - t), peakHeight) == ArcHeight(peakHeight, t);
      DivOfMul(Mul(4.0 * t, 1.0 - t), peakHeight);
    }
  }

  /** For a height ratio in [0, 1] the vertical scale is in [1, 1.35], and
      the horizontal scale 1/sy keeps the area: sx * sy == 1. */
  lemma VerticalScaleBounds(heightRatio: real)
    requires 0.0 <= heightRatio <= 1.0
    ensures 1.0 <= VerticalScale(heightRatio) <= 1.0 + StretchStrength
    ensures (1.0 / VerticalScale(heightRatio)) * VerticalScale(heightRatio) == 1.0
  {
  }

  /** Airborne frame i of a bounce. */
  function AirFrame(b: Bounce, i: int, airSteps: int): (f: Pose)
    requires 1 <= i <= airSteps
  {
    var t := AirT(i, airSteps);
    var y := ArcHeight(b.peakHeight, t);
    DivInterior(i as real, (airSteps + 1) as real);
    AirborneHeightRatio(b.peakHeight, t);
    VerticalScaleBounds(HeightRatio(y, b.peakHeight));
    var vs := VerticalScale(HeightRatio(y, b.peakHeight));
    Pose(Lerp(b.xStart, b.xEnd, t), y, 1.0 / vs, vs)
  }

  /** The first `count` airborne frames. */
  function AirFrames(b: Bounce, airSteps: int, count: nat): (r: seq<Pose>)
    requires count <= AirCount(airSteps)
    ensures |r| == count
  {
    seq(count, k requires 0 <= k < count => AirFrame(b, k + 1, airSteps))
  }

  /** The first `count` frames of the landing squash at x_end. */
  function SquashFrames(xEnd: real, count: nat): (r: seq<Pose>)
    requires count <= |SquashScales|
    ensures |r| == count
  {
    seq(count, k requires 0 <= k < count => Pose(xEnd, 0.0, SquashScales[k].0, SquashScales[k].1))
  }

  /** All frames of one bounce. */
  function BounceFrames(b: Bounce, airSteps: int, includeSquash: bool): seq<Pose>
  {
    AirFrames(b, airSteps, AirCount(airSteps)) +
    (if includeSquash then SquashFrames(b.xEnd, |SquashScales|) else [])
  }

  /** Generates the frames of one bounce: a loop over the airborne steps,
      each computed by AirFrame, then a loop over the squash poses. */
  method GenerateBounceFrames(b: Bounce, airSteps: int, includeSquash: bool) returns (frames: seq<Pose>)
    ensures frames == BounceFrames(b, airSteps, includeSquash)
  {
    frames := [];
    var i := 1;
    while i <= airSteps
      invariant 1 <= i <= AirCount(airSteps) + 1
      invariant frames == AirFrames(b, airSteps, i - 1)
    {
      assert AirFrames(b, airSteps, i) == AirFrames(b, airSteps, i - 1) + [AirFrame(b, i, airSteps)];
      frames := frames + [AirFrame(b, i, airSteps)];
      i := i + 1;
    }
    if includeSquash {
      ghost var air := frames;
      for k := 0 to |SquashScales|
        invariant frames == air + SquashFrames(b.xEnd, k)
      {
        assert SquashFrames(b.xEnd, k + 1) == SquashFrames(b.xEnd, k) + [Pose(b.xEnd, 0.0, SquashScales[k].0, SquashScales[k].1)];
        frames := frames + [Pose(b.xEnd, 0.0, SquashScales[k].0, SquashScales[k].1)];
      }
    }
  }

  /** A bounce has air_steps airborne frames plus three squash frames when
      the squash is on. */
  lemma BounceFrameCount(b: Bounce, airSteps: int, includeSquash: bool)
    requires airSteps >= 0
    ensures |BounceFrames(b, airSteps, includeSquash)| == airSteps + (if includeSquash then 3 else 0)
  {
  }

  /** Airborne x lies strictly between x_start and x_end (on them when they
      coincide). */
  lemma AirborneXBetween(b: Bounce, i: int, airSteps: int)
    requires 1 <= i <= airSteps
    ensures StrictlyBetween(AirFrame(b, i, airSteps).x, b.xStart, b.xEnd)
  {
    DivInterior(i as real, (airSteps + 1) as real);
    LerpInterior(b.xStart, b.xEnd, AirT(i, airSteps));
  }

  /** A ball thrown with a non-negative peak stays between the ground and the
      peak; with a positive peak it is strictly above the ground. */
  lemma AirborneHeightBounds(b: Bounce, i: int, airSteps: int)
    requires 1 <= i <= airSteps
    requires b.peakHeight >= 0.0
    ensures 0.0 <= AirFrame(b, i, airSteps).y <= b.peakHeight
    ensures b.peakHeight > 0.0 ==> 0.0 < AirFrame(b, i, airSteps).y
  {
    var t := AirT(i, airSteps);
    DivInterior(i as real, (airSteps + 1) as real);
    UnitArcBounds(t);
    var a := Mul(4.0 * t, 1.0 - t);
    assert Mul(b.peakHeight, a) == ArcHeight(b.peakHeight, t);
    MulNonneg(b.peakHeight, a);
    MulNonneg(b.peakHeight, 1.0 - a);
    assert Mul(b.peakHeight, 1.0 - a) == b.peakHeight - Mul(b.peakHeight, a);
    if b.peakHeight > 0.0 {
      MulPos(b.peakHeight, a);
    }
  }

  /** The arc is symmetric: steps i and air_steps + 1 - i are equally high. */
  lemma ArcSymmetric(b: Bounce, i: int, airSteps: int)
    requires 1 <= i <= airSteps
    ensures AirFrame(b, i, airSteps).y == AirFrame(b, airSteps + 1 - i, airSteps).y
  {
    DivComplement(i as real, (airSteps + 1) as real);
    assert AirT(airSteps + 1 - i, airSteps) == 1.0 - AirT(i, airSteps);
  }

  /** With a non-positive peak the height ratio is 0, so every airborne
      frame is fully stretched: sy = 1.35. */
  lemma FlatBounceFullyStretched(b: Bounce, i: int, airSteps: int)
    requires 1 <= i <= airSteps
    requires b.peakHeight <= 0.0
    ensures AirFrame(b, i, airSteps).sy == 1.35
  {
  }

  /** Every airborne frame has sy in [1, 1.35] and keeps the area:
      sx * sy == 1. */
  lemma AirborneScales(b: Bounce, i: int, airSteps: int)
    requires 1 <= i <= airSteps
    ensures 1.0 <= AirFrame(b, i, airSteps).sy <= 1.35
    ensures AirFrame(b, i, airSteps).sx * AirFrame(b, i, airSteps).sy == 1.0
  {
    var t := AirT(i, airSteps);
    DivInterior(i as real, (airSteps + 1) as real);
    AirborneHeightRatio(b.peakHeight, t);
    VerticalScaleBounds(HeightRatio(ArcHeight(b.peakHeight, t), b.peakHeight));
  }

  /** The landing: the three frames after the flight sit on the ground at
      x_end with scales (1.2, 0.8), (1.6, 0.5), (1.3, 0.7): the squash
      deepens and then partly recovers. */
  lemma LandingSquash(b: Bounce, airSteps: int)
    requires airSteps >= 0
    ensures var frames := BounceFrames(b, airSteps, true);
      |frames| == airSteps + 3 &&
      (forall k :: airSteps <= k < airSteps + 3 ==> frames[k].x == b.xEnd && frames[k].y == 0.0) &&
      frames[airSteps].sx < frames[airSteps + 1].sx && frames[airSteps + 1].sx > frames[airSteps + 2].sx &&
      frames[airSteps].sy > frames[airSteps + 1].sy && frames[airSteps + 1].sy < frames[airSteps + 2].sy &&
      frames[airSteps + 2].sx < frames[airSteps + 1].sx && frames[airSteps + 2].sy < frames[airSteps].sy
    ensures BounceFrames(b, airSteps, true)[airSteps..] ==
      [Pose(b.xEnd, 0.0, 1.2, 0.8), Pose(b.xEnd, 0.0, 1.6, 0.5), Pose(b.xEnd, 0.0, 1.3, 0.7)]
  {
  }

  /** The frames of all bounces, in order. */
  function AllFrames(bounces: seq<Bounce>): seq<Pose>
  {
    if |bounces| == 0 then []
    else AllFrames(bounces[..|bounces| - 1]) + BounceFrames(bounces[|bounces| - 1], AirSteps, true)
  }

  /** Chains the three bounces by extending one frame list. */
  method GenerateAllFrames() returns (allFrames: seq<Pose>)
    ensures allFrames == AllFrames(Bounces)
  {
    allFrames := [];
    for idx := 0 to |Bounces|
      invariant allFrames == AllFrames(Bounces[..idx])
    {
      var frames := GenerateBounceFrames(Bounces[idx], AirSteps, true);
      allFrames := allFrames + frames;
      assert Bounces[..idx + 1][..idx] == Bounces[..idx];
    }
    assert Bounces[..|Bounces|] == Bounces;
  }

  /** Each chained bounce contributes air_steps + 3 frames. */
  lemma {:induction false} AllFramesLength(bounces: seq<Bounce>)
    ensures |AllFrames(bounces)| == |bounces| * (AirSteps + 3)
  {
    if |bounces| > 0 {
      AllFramesLength(bounces[..|bounces| - 1]);
    }
  }

  /** The three bounces give 51 frames; each bounce starts where the
      previous one landed, and the last frame of bounce k (its final squash
      pose, frame 17k + 16) stands at that landing point. */
  lemma ThreeBounces()
    ensures |AllFrames(Bounces)| == 51
    ensures forall k :: 0 <= k < |Bounces| - 1 ==> Bounces[k].xEnd == Bounces[k + 1].xStart
    ensures forall k :: 0 <= k < |Bounces| ==>
      AllFrames(Bounces)[17 * k + 16] == Pose(Bounces[k].xEnd, 0.0, 1.3, 0.7)
  {
    AllFramesLength(Bounces);
    var all := AllFrames(Bounces);
    assert Bounces[..2][..1] == Bounces[..1];
    assert Bounces[..3][..2] == Bounces[..2];
    assert Bounces[..1][..0] == [];
    assert all == AllFrames(Bounces[..2]) + BounceFrames(Bounces[2], AirSteps, true);
    assert AllFrames(Bounces[..2]) == AllFrames(Bounces[..1]) + BounceFrames(Bounces[1], AirSteps, true);
    assert AllFrames(Bounces[..1]) == BounceFrames(Bounces[0], AirSteps, true);
  }
}
