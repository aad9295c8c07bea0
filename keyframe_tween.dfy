/** Keyframe animation of the bouncing ball (prompt2/animate_v2.py): a table
    of key poses is expanded into eased in-between frames. */
module KeyframeTween {

  import opened Ball
  import opened Easing
  import opened RealArith

  /** Distance between two key poses in the output: the in-betweens plus
      the key pose itself. A non-positive steps_between gives no in-betweens. */
  function Stride(stepsBetween: int): (k: nat)
    ensures k >= 1
    ensures stepsBetween > 0 ==> k == stepsBetween + 1
  {
    if stepsBetween > 0 then stepsBetween + 1 else 1
  }

  /** Linear progress of in-between `step` of a pair, step/(steps_between+1). */
  function StepT(step: int, stepsBetween: int): real
    requires 1 <= step <= stepsBetween
  {
    step as real / (stepsBetween + 1) as real
  }

  /** Every field of `p0` moved toward `p1` by the eased weight `te`. */
  function Interpolate(p0: Pose, p1: Pose, te: real): Pose
  {
    Pose(Lerp(p0.x, p1.x, te), Lerp(p0.y, p1.y, te),
         Lerp(p0.sx, p1.sx, te), Lerp(p0.sy, p1.sy, te))
  }

  /** The in-between frame number `step` from p0 to p1. */
  function InBetween(p0: Pose, p1: Pose, step: int, stepsBetween: int): Pose
    requires 1 <= step <= stepsBetween
  {
    Interpolate(p0, p1, Smoothstep(StepT(step, stepsBetween)))
  }

  /** The first `count` in-betweens from p0 to p1. */
  function InBetweens(p0: Pose, p1: Pose, stepsBetween: int, count: nat): (r: seq<Pose>)
    requires count <= Stride(stepsBetween) - 1
    ensures |r| == count
  {
    seq(count, k requires 0 <= k < count => InBetween(p0, p1, k + 1, stepsBetween))
  }

  /** What one pair p0 -> p1 contributes: its in-betweens, then p1. */
  function Block(p0: Pose, p1: Pose, stepsBetween: int): (r: seq<Pose>)
    ensures |r| == Stride(stepsBetween)
  {
    InBetweens(p0, p1, stepsBetween, Stride(stepsBetween) - 1) + [p1]
  }

  /** The frame list: the first key pose, then one block per consecutive pair. */
  function Tween(poses: seq<Pose>, stepsBetween: int): seq<Pose>
    decreases |poses|
  {
    if |poses| <= 1 then poses
    else Tween(poses[..|poses| - 1], stepsBetween) + Block(poses[|poses| - 2], poses[|poses| - 1], stepsBetween)
  }

  /** Expands key poses into frames, appending in two nested loops as the
      source does. */
  method TweenPoses(poses: seq<Pose>, stepsBetween: int) returns (frames: seq<Pose>)
    ensures frames == Tween(poses, stepsBetween)
  {
    if |poses| == 0 {
      return [];
    }
    frames := [poses[0]];
    for i := 0 to |poses| - 1
      invariant frames == Tween(poses[..i + 1], stepsBetween)
    {
      var p0, p1 := poses[i], poses[i + 1];
      ghost var before := frames;
      var step := 1;
      while step <= stepsBetween
        invariant 1 <= step <= Stride(stepsBetween)
        invariant frames == before + InBetweens(p0, p1, stepsBetween, step - 1)
      {
        var te := Smoothstep(step as real / (stepsBetween + 1) as real);
        assert InBetweens(p0, p1, stepsBetween, step) ==
          InBetweens(p0, p1, stepsBetween, step - 1) + [InBetween(p0, p1, step, stepsBetween)];
        frames := frames + [Interpolate(p0, p1, te)];
        step := step + 1;
      }
      frames := frames + [p1];
      assert poses[..i + 2][..i + 1] == poses[..i + 1];
    }
    assert poses[..|poses|] == poses;
  }

  /** The output has one frame for the first key pose and Stride frames for
      each further one: 1 + (n - 1) * (steps_between + 1). */
  lemma {:induction false} TweenLength(poses: seq<Pose>, stepsBetween: int)
    requires |poses| >= 1
    ensures |Tween(poses, stepsBetween)| == 1 + (|poses| - 1) * Stride(stepsBetween)
    decreases |poses|
  {
    if |poses| > 1 {
      var n, k := |poses|, Stride(stepsBetween);
      TweenLength(poses[..n - 1], stepsBetween);
      assert (n - 2) * k + k == (n - 1) * k;
    }
  }

  /** No key poses, no frames. */
  lemma TweenEmpty(stepsBetween: int)
    ensures Tween([], stepsBetween) == []
  {
  }

  /** Key pose k sits unchanged at position k * (steps_between + 1). */
  lemma {:induction false} TweenKeyPose(poses: seq<Pose>, stepsBetween: int, k: nat)
    requires k < |poses|
    ensures k * Stride(stepsBetween) < |Tween(poses, stepsBetween)|
    ensures Tween(poses, stepsBetween)[k * Stride(stepsBetween)] == poses[k]
    decreases |poses|
  {
    var n, stride := |poses|, Stride(stepsBetween);
    TweenLength(poses, stepsBetween);
    if k == n - 1 {
      if n > 1 {
        TweenLength(poses[..n - 1], stepsBetween);
        assert k * stride == 1 + (n - 2) * stride + (stride - 1);
      }
    } else {
      TweenKeyPose(poses[..n - 1], stepsBetween, k);
    }
  }

  /** Between key poses i and i + 1 sit their eased in-betweens, in order. */
  lemma {:induction false} TweenInBetween(poses: seq<Pose>, stepsBetween: int, i: nat, step: int)
    requires i < |poses| - 1 && 1 <= step <= stepsBetween
    ensures i * Stride(stepsBetween) + step < |Tween(poses, stepsBetween)|
    ensures Tween(poses, stepsBetween)[i * Stride(stepsBetween) + step] ==
      InBetween(poses[i], poses[i + 1], step, stepsBetween)
    decreases |poses|
  {
    var n, stride := |poses|, Stride(stepsBetween);
    TweenLength(poses, stepsBetween);
    TweenLength(poses[..n - 1], stepsBetween);
    if i == n - 2 {
      assert i * stride + step == 1 + (n - 2) * stride + (step - 1);
    } else {
      TweenInBetween(poses[..n - 1], stepsBetween, i, step);
    }
  }

  /** With no in-betweens the key poses come out unchanged. */
  lemma {:induction false} TweenWithoutInBetweens(poses: seq<Pose>, stepsBetween: int)
    requires stepsBetween <= 0
    ensures Tween(poses, stepsBetween) == poses
    decreases |poses|
  {
    if |poses| > 1 {
      TweenWithoutInBetweens(poses[..|poses| - 1], stepsBetween);
    }
  }

  /** Every in-between frame lies strictly between the two key poses it
      joins, field by field: its progress step/(steps_between+1) is strictly
      inside (0, 1), and so is its eased weight. */
  lemma InBetweenIsBetween(p0: Pose, p1: Pose, step: int, stepsBetween: int)
    requires 1 <= step <= stepsBetween
    ensures var f := InBetween(p0, p1, step, stepsBetween);
      StrictlyBetween(f.x, p0.x, p1.x) && StrictlyBetween(f.y, p0.y, p1.y) &&
      StrictlyBetween(f.sx, p0.sx, p1.sx) && StrictlyBetween(f.sy, p0.sy, p1.sy)
  {
    var t := StepT(step, stepsBetween);
    DivInterior(step as real, (stepsBetween + 1) as real);
    SmoothstepInterior(t);
    var te := Smoothstep(t);
    LerpInterior(p0.x, p1.x, te);
    LerpInterior(p0.y, p1.y, te);
    LerpInterior(p0.sx, p1.sx, te);
    LerpInterior(p0.sy, p1.sy, te);
  }

  /** With an odd number of in-betweens the middle one is the exact midpoint
      of the pair, because smoothstep fixes 1/2. */
  lemma MiddleInBetweenIsMidpoint(p0: Pose, p1: Pose, half: nat)
    requires half >= 1
    ensures InBetween(p0, p1, half, 2 * half - 1) ==
      Pose((p0.x + p1.x) / 2.0, (p0.y + p1.y) / 2.0, (p0.sx + p1.sx) / 2.0, (p0.sy + p1.sy) / 2.0)
  {
    assert (2 * half - 1 + 1) as real == 2.0 * half as real;
    HalfOfDouble(half as real);
    SmoothstepFixedPoints();
  }

  /** With four in-betweens (the default) the frames of one pair sit at
      t = 0.2, 0.4, 0.6, 0.8: the third frame is eased to 0.352, not to the
      midpoint, and six frames come out. */
  lemma FourInBetweens(p0: Pose, p1: Pose)
    ensures |Tween([p0, p1], 4)| == 6
    ensures Tween([p0, p1], 4)[2] == Interpolate(p0, p1, 0.352)
  {
    TweenLength([p0, p1], 4);
    TweenInBetween([p0, p1], 4, 0, 2);
    assert StepT(2, 4) == 0.4;
  }

  /** The key poses of the animation, built as the source builds them. */
  method KeyPoses() returns (poses: seq<Pose>)
    ensures |poses| == 17
    ensures poses[0] == Pose(1.0, 9.0, 1.0, 1.0) && poses[16] == Pose(18.0, 0.0, 1.4, 0.6)
    // the ball moves left to right
    ensures forall i, j :: 0 <= i < j < |poses| ==> poses[i].x <= poses[j].x
    // the horizontal squashes are exactly poses 4, 10 and 16, all on the ground
    ensures forall i :: 0 <= i < |poses| ==>
      ((poses[i].sx, poses[i].sy) == (1.4, 0.6) <==> i in {4, 10, 16})
    ensures forall i :: 0 <= i < |poses| && poses[i].sx == 1.4 ==> poses[i].y == 0.0
    // a pose with sx = 1 is an undistorted circle
    ensures forall i :: 0 <= i < |poses| && poses[i].sx == 1.0 ==> poses[i].sy == 1.0
    // no pose is distorted both ways: a wider ball is never taller
    ensures forall i :: 0 <= i < |poses| ==> (poses[i].sx > 1.0 ==> poses[i].sy <= poses[i].sx)
  {
    var circle := (x: real, y: real) => Pose(x, y, 1.0, 1.0);
    var vStretch := (x: real, y: real) => Pose(x, y, 0.8, 1.2);
    var hSquash := (x: real, y: real) => Pose(x, y, 1.4, 0.6);
    poses := [];
    poses := poses + [circle(1.0, 9.0), circle(2.0, 8.0), circle(3.0, 7.0)];
    poses := poses + [vStretch(5.0, 3.0)];
    poses := poses + [hSquash(6.0, 0.0)];
    poses := poses + [vStretch(7.0, 3.0)];
    poses := poses + [circle(8.0, 5.0), circle(9.0, 6.0), circle(10.0, 5.0)];
    poses := poses + [Pose(11.0, 3.0, 1.2, 1.2)];
    poses := poses + [hSquash(12.0, 0.0)];
    poses := poses + [vStretch(12.0, 3.0)];
    poses := poses + [circle(14.0, 4.0), circle(15.0, 5.0), circle(16.0, 4.0)];
    poses := poses + [Pose(17.0, 2.0, 1.2, 1.2)];
    poses := poses + [hSquash(18.0, 0.0)];
  }
}
