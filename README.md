# Genuary 2026 scripts, modelled in Dafny

The genuary-2026 repository is a set of small generative-art scripts. Each
one computes geometry or a frame sequence and hands it to matplotlib or PIL
for drawing. This project models the computing part of seven of them:

- **Recursive circle tiling** (`prompt1/one_shape_one_color.py`). A circle,
  then four smaller circles, each tangent to one edge of the parent's
  inscribed square, recursing to a depth bound. A 3x3 grid of such patterns
  is also modelled. The axes are a class whose list of patches grows
  (`circle_tiling.dfy`).
- **Bouncing ball from a pose table** (`prompt2/animate_v1.py`). The fixed
  list of 17 poses, the shape-name case analysis that gives each ellipse,
  and the `update` step that keeps exactly one patch on the axes
  (`ball_poses.dfy`).
- **Keyframe tweening** (`prompt2/animate_v2.py`). Key poses are expanded
  into eased in-between frames by two nested appending loops
  (`keyframe_tween.dfy`). The ellipse patch whose centre, width and height
  are reassigned each frame is shared with the next script (`ball.dfy`).
- **Parabolic bounce** (`prompt2/animate_v3.py`). Airborne frames lie on
  `h*4t(1-t)`, with squash and stretch derived from the height, then a fixed
  landing squash. Three bounces are chained (`parabolic_bounce.dfy`).
- **Boolean sun gradient** (`prompt7/boolean_algebra.py`). This covers the
  hex colour parser and the truncating colour blend. The frame image is a
  two-dimensional array, filled with the background and then updated in
  place by each sun in three passes (centre, adjacent, gradient). The
  animation's radius schedule is included (`sun_gradient.dfy`).
- **Genuary swarm** (`prompt5/genuary_swarm.py`). This covers:
  - the letter skeleton;
  - even sampling along strokes, with optional parallel rails along the
    unit normal;
  - the horizontal widening, rewritten in place;
  - normalisation into a padded unit square;
  - the frame loop that eases every particle from its start to its
    jittered target, adds fading noise and clips (`letter_swarm.dfy`).
- **Fibonacci flower** (`prompt3/fibonacci.py`). Each generation has centred
  segments through the origin. They are split into halves, and every half
  gets a petal of two mirrored quadratic Bezier arcs. The axes record the
  plot and fill calls in order (`fibonacci_flower.dfy`).

Five modules are shared:

- `real_arith.dfy` holds real-arithmetic facts. Products are written through
  a named `Mul` so that the solver can handle the non-linear steps.
- `easing.dfy` defines smoothstep `t*t*(3-2t)` and the frame progress
  `i/(n-1)`, which three scripts use.
- `spacing.dfy` models `numpy.linspace` with both ends included.
- `ball.dfy` holds the ellipse shared by the two tweening scripts.
- `wrappers.dfy` holds the `Option` type that stands for the error paths.

All floating-point values are `real`. `sqrt`, `hypot`, and cosine and sine in
degrees are function-typed parameters. A lemma that needs one of their laws
takes that law as a precondition (for example `cos^2 + sin^2 = 1`). Random
draws are inputs.

Where the scripts' docstrings and their code differ, the model follows the
code:

- The pose tables of `animate_v1.py` and `animate_v2.py` hold 17 poses, not
  the 14 their docstrings announce.
- The planning docstrings of `genuary_swarm.py` and `fibonacci.py` give other
  coordinates and rules than the code. The code's letter skeleton is the one
  modelled.

With four in-betweens, no tweened frame is the midpoint of its pair: the
third frame of a pair is at t = 0.4, eased to 0.352
(`KeyframeTween.FourInBetweens`). Only an odd number of in-betweens has an
exact midpoint frame (`KeyframeTween.MiddleInBetweenIsMidpoint`).

The functions that define what each script computes carry no contract of
their own; the members in the table below state their properties:

- `Easing.Smoothstep` is `_ease_in_out` (animate_v2.py, genuary_swarm.py)
  and the inline easing of boolean_algebra.py.
- `KeyframeTween.Tween` is the frame list of `_tween_poses`.
- `ParabolicBounce.BounceFrames` is the frame list of `_generate_bounce_frames`.
- `CircleTiling.Tiling` is the pre-order list of circles that
  `_draw_recursive` adds.
- `SunGradient.HexToRgb` is `hex_to_rgb`, `SunGradient.Blend` is
  `blend_colors`, and `SunGradient.FramePixel` is the colour of one pixel of
  `create_sun_frame`.
- `LetterSwarm.Samples` is the point list of `sample_points_on_segments`.
- `FibonacciFlower.DrawSegment` is the geometry of `draw_segment`, and
  `FibonacciFlower.PetalGeometry` the control points and arcs of
  `draw_petals_on_segment`.

## Model

| member | source | states |
|---|---|---|
| Easing.SmoothstepFixedPoints | prompt2/animate_v2.py:73-75 | smoothstep fixes 0 and 1 and maps 1/2 to 1/2 |
| Easing.SmoothstepBounded | prompt2/animate_v2.py:73-75 | smoothstep maps [0, 1] into [0, 1] |
| Easing.SmoothstepInterior | prompt2/animate_v2.py:73-75 | smoothstep maps (0, 1) into (0, 1) |
| Easing.SmoothstepPositive | prompt2/animate_v2.py:73-75 | smoothstep is positive strictly inside (0, 1) |
| Easing.SmoothstepMonotone | prompt2/animate_v2.py:73-75 | smoothstep is non-decreasing on [0, 1] |
| Easing.SmoothstepSymmetric | prompt2/animate_v2.py:73-75 | ease(1 - t) = 1 - ease(t) |
| Easing.FrameProgressBounds | prompt5/genuary_swarm.py:220-221 | frame progress is 0 at the first frame and 1 at the last; a lone frame is at 1; it is strictly inside (0, 1) for the frames in between and always in [0, 1] |
| Spacing.Linspace | prompt5/genuary_swarm.py:120 | linspace gives exactly n values |
| Spacing.LinspaceEnds | prompt5/genuary_swarm.py:120 | the first value is lo; with two or more values the last is exactly hi |
| Spacing.LinspaceStep | prompt5/genuary_swarm.py:120 | neighbouring values are (hi - lo)/(n - 1) apart, so the spacing is even |
| Spacing.LinspaceBetween | prompt5/genuary_swarm.py:134 | for lo <= hi every value lies in [lo, hi] |
| Ball.Ellipse.constructor | prompt2/animate_v2.py:145-155 | the initial patch shows the first frame: centre (x, y), width 2 sx, height 2 sy |
| Ball.Ellipse.UpdateFromFrame | prompt2/animate_v2.py:111-120 | after the update the patch shows the frame: centre (x, y), width 2 sx, height 2 sy; it modifies only the patch (animate_v3.py:98-107 has the same update) |
| KeyframeTween.TweenPoses | prompt2/animate_v2.py:78-108 | the nested appending loops build exactly the frame list Tween (first key pose, then each pair's in-betweens and its end pose) |
| KeyframeTween.TweenEmpty | prompt2/animate_v2.py:85-86 | no key poses give no frames |
| KeyframeTween.TweenLength | prompt2/animate_v2.py:88-108 | n >= 1 key poses give 1 + (n - 1)(steps_between + 1) frames |
| KeyframeTween.TweenKeyPose | prompt2/animate_v2.py:88-106 | key pose k sits unchanged at index k(steps_between + 1); in particular frame 0 is the first key pose |
| KeyframeTween.TweenInBetween | prompt2/animate_v2.py:94-104 | index i(steps_between + 1) + step holds the eased in-between number step of pair i -> i + 1 |
| KeyframeTween.TweenWithoutInBetweens | prompt2/animate_v2.py:94-106 | with steps_between <= 0 the frames are the key poses themselves |
| KeyframeTween.InBetweenIsBetween | prompt2/animate_v2.py:94-103 | every in-between x, y, sx, sy lies strictly between the two key values (equal to them when they coincide) |
| KeyframeTween.MiddleInBetweenIsMidpoint | prompt2/animate_v2.py:94-103 | with 2h - 1 in-betweens, in-between h is exactly the midpoint of the pair |
| KeyframeTween.FourInBetweens | prompt2/animate_v2.py:78-103 | with the default four in-betweens one pair gives 6 frames and the third is eased to 0.352, not the midpoint |
| KeyframeTween.KeyPoses | prompt2/animate_v2.py:10-70 | 17 key poses, x non-decreasing; the squashes (1.4, 0.6) are exactly poses 4, 10 and 16, all at y = 0; a pose with sx = 1 has sy = 1; a widened pose is never taller than it is wide |
| ParabolicBounce.UnitArcBounds | prompt2/animate_v3.py:32 | 4t(1 - t) is in (0, 1] for t in (0, 1) |
| ParabolicBounce.AirborneHeightRatio | prompt2/animate_v3.py:32-35 | the height ratio is 4t(1 - t) for a positive peak and 0 for a non-positive one, without a division; it is in [0, 1] |
| ParabolicBounce.VerticalScaleBounds | prompt2/animate_v3.py:37-40 | for a ratio in [0, 1], sy is in [1, 1.35] and sx * sy = 1 |
| ParabolicBounce.GenerateBounceFrames | prompt2/animate_v3.py:10-68 | the airborne loop and the squash loop build exactly the bounce's frame list |
| ParabolicBounce.BounceFrameCount | prompt2/animate_v3.py:28-66 | a bounce has air_steps frames, plus 3 with the squash |
| ParabolicBounce.AirborneXBetween | prompt2/animate_v3.py:28-31 | airborne x lies strictly between x_start and x_end |
| ParabolicBounce.AirborneHeightBounds | prompt2/animate_v3.py:29-32 | for a non-negative peak, airborne y is in [0, peak]; for a positive peak it is strictly above the ground |
| ParabolicBounce.ArcSymmetric | prompt2/animate_v3.py:29-32 | steps i and air_steps + 1 - i are equally high |
| ParabolicBounce.FlatBounceFullyStretched | prompt2/animate_v3.py:35-39 | a non-positive peak gives sy = 1.35 in every airborne frame |
| ParabolicBounce.AirborneScales | prompt2/animate_v3.py:34-43 | every airborne frame has sy in [1, 1.35] and sx * sy = 1 |
| ParabolicBounce.LandingSquash | prompt2/animate_v3.py:47-66 | the three landing frames are exactly (x_end, 0) with scales (1.2, 0.8), (1.6, 0.5), (1.3, 0.7): the squash deepens and then partly recovers |
| ParabolicBounce.GenerateAllFrames | prompt2/animate_v3.py:71-95 | extending by each bounce in turn builds exactly the chained frame list |
| ParabolicBounce.AllFramesLength | prompt2/animate_v3.py:85-93 | each chained bounce adds 14 + 3 frames |
| ParabolicBounce.ThreeBounces | prompt2/animate_v3.py:78-94 | the animation has 51 frames; each bounce starts where the previous one landed, and frame 17k + 16 is bounce k's last squash at its landing point |
| CircleTiling.Axes.AddPatch | prompt1/one_shape_one_color.py:24-25 | adding a patch appends it to the axes' list |
| CircleTiling.DrawRecursive | prompt1/one_shape_one_color.py:23-46 | the recursive call appends exactly the pre-order Tiling of its circle to the axes |
| CircleTiling.DrawPattern | prompt1/one_shape_one_color.py:13-48 | a pattern appends the tiling rooted at the centre, starting at iteration 0 |
| CircleTiling.TilingCount | prompt1/one_shape_one_color.py:23-46 | a call with d levels left adds 1 + 4 + ... + 4^d circles |
| CircleTiling.ChildrenCount | prompt1/one_shape_one_color.py:45-46 | the four child calls together add four times the count one level down |
| CircleTiling.PatternCount | prompt1/one_shape_one_color.py:23-48 | max_iterations = d >= 0 gives 1 + 4 + ... + 4^d circles; max_iterations <= 0 gives the root circle alone |
| CircleTiling.ChildRadiusAtDepth | prompt1/one_shape_one_color.py:34 | the child of a circle at depth k has the radius of depth k + 1 |
| CircleTiling.TilingRadii | prompt1/one_shape_one_color.py:23-46 | circle i has radius radius * shrink^depth(i) for any shrink fraction, and every circle has the pattern's colour and alpha |
| CircleTiling.ChildrenRadii | prompt1/one_shape_one_color.py:45-46 | the same radius law holds across the four child patterns |
| CircleTiling.ChildrenOfFour | prompt1/one_shape_one_color.py:45-46 | the children's circles are the left, right, bottom and top patterns one after another |
| CircleTiling.TilingPreOrder | prompt1/one_shape_one_color.py:24-46 | the parent comes first; each child's own circle opens its block of N circles, in left, right, bottom, top order |
| CircleTiling.ChildPlacement | prompt1/one_shape_one_color.py:30-43 | each child is offset along exactly one axis by half_side + smaller_r, and its nearest point lies on an edge of the inscribed square |
| CircleTiling.InscribedSquare | prompt1/one_shape_one_color.py:29-31 | with root2^2 = 2 the square of half side r root2/2 has its corners on the circle |
| CircleTiling.DrawOneShapeOneColor | prompt1/one_shape_one_color.py:51-69 | fresh axes hold the tiling at the origin, and the margin is 1.8 radius |
| CircleTiling.DrawGrid | prompt1/one_shape_one_color.py:75-108 | the nine cells each hold the tiling for their own shrink fraction, centred at the origin, with one shared margin 1.8 radius |
| CircleTiling.Subplots | prompt1/one_shape_one_color.py:87 | nine fresh, distinct, empty axes in three rows of three |
| BallPoses.EllipseForFrame | prompt2/animate_v1.py:84-112 | the ellipse is centred at the frame's (x, y) |
| BallPoses.ShapeDimensions | prompt2/animate_v1.py:91-101 | with d = 2r: a circle is d by d, a vertical stretch 0.7 d by 1.3 d, a horizontal squash 1.4 d by 0.6 d |
| BallPoses.ShapeProportions | prompt2/animate_v1.py:91-101 | a circle is 2r by 2r; a vertical stretch is narrower and taller than 2r; a horizontal squash is wider and flatter |
| BallPoses.UnknownShapeIsCircle | prompt2/animate_v1.py:102-103 | an unknown shape name is drawn exactly as a circle |
| BallPoses.MakeFrames | prompt2/animate_v1.py:25-81 | 17 frames, x non-decreasing; the squashes are exactly frames 4, 10 and 16, at y = 0 with radius 2; every shape name is one of the three known ones |
| BallPoses.RemoveFirst | prompt2/animate_v1.py:135 | removing a patch that is present drops one occurrence (one shorter, multiset minus that patch); removing an absent one changes nothing |
| BallPoses.Axes.AddPatch | prompt2/animate_v1.py:130 | adding appends the patch |
| BallPoses.Axes.RemovePatch | prompt2/animate_v1.py:135 | removing takes the patch off the list |
| BallPoses.BouncingBall.constructor | prompt2/animate_v1.py:118-130 | the first frame's ellipse is the one patch on the axes |
| BallPoses.BouncingBall.Update | prompt2/animate_v1.py:132-139 | after an update the axes hold exactly one patch, the drawing of frame i, and it is returned |
| SunGradient.StripHashes | prompt7/boolean_algebra.py:23 | the stripped string is no longer than the input and does not start with '#' |
| SunGradient.HexChar | prompt7/boolean_algebra.py:24 | the digit written for v parses back to v |
| SunGradient.RgbToHex | prompt7/boolean_algebra.py:21-24 | the inverse of the parser writes "#rrggbb", 7 characters |
| SunGradient.HexRoundTrip | prompt7/boolean_algebra.py:21-24 | parsing "#rrggbb" written for a byte colour gives that colour back |
| SunGradient.HexToRgbBytes | prompt7/boolean_algebra.py:24 | every parsed component is a byte, 0..255 |
| SunGradient.HexToRgbIgnoresTail | prompt7/boolean_algebra.py:21-24 | characters after the sixth digit are ignored |
| SunGradient.StripHashesAppend | prompt7/boolean_algebra.py:23 | stripping stops at the first character that is not '#' |
| SunGradient.HexToRgbShort | prompt7/boolean_algebra.py:24 | fewer than five digits make an empty slice, which is an error; with five digits the last field is one digit |
| SunGradient.DefaultColors | prompt7/boolean_algebra.py:35-36 | "#A33800" is (163, 56, 0) and "#FFFFFF" is white |
| SunGradient.BlendIsLerp | prompt7/boolean_algebra.py:27-29 | the value before truncation is the point at weight alpha from c1 to c2 |
| SunGradient.BlendChannelBetween | prompt7/boolean_algebra.py:27-29 | for non-negative channels and alpha in [0, 1] the blend lies between c1 and c2; alpha 0 gives c1 and alpha 1 gives c2 |
| SunGradient.BlendBytes | prompt7/boolean_algebra.py:27-29 | blending byte colours gives a byte colour, and alpha 0 leaves the first colour |
| SunGradient.SunTouchesPixelOnce | prompt7/boolean_algebra.py:63-111 | one sun changes a pixel at most once, as centre, adjacent or gradient pixel, and only with a positive radius within reach |
| SunGradient.CenterPixelIsCenterColor | prompt7/boolean_algebra.py:69-74 | right after a sun with a positive radius, its centre pixel has the centre colour |
| SunGradient.FarPixelKeepsBackground | prompt7/boolean_algebra.py:48-111 | a pixel out of reach of every sun, or with every radius non-positive, keeps the background |
| SunGradient.GradientOpacityBounds | prompt7/boolean_algebra.py:97-102 | the gradient opacity is clamped to [0, 0.5] |
| SunGradient.PositiveRadius | prompt7/boolean_algebra.py:63-73 | a positive current radius with a non-negative factor means a positive maximum radius, so the gradient's division is defined |
| SunGradient.FramePixelBytes | prompt7/boolean_algebra.py:48-111 | starting from byte colours, every pixel of the frame stays a byte colour |
| SunGradient.PaintCenter | prompt7/boolean_algebra.py:73-74 | the masked assignment paints exactly the centre pixel |
| SunGradient.BlendPass | prompt7/boolean_algebra.py:76-111 | one row-by-row pass blends exactly the pixels of its tier toward the centre colour and leaves the rest |
| SunGradient.ApplySun | prompt7/boolean_algebra.py:58-111 | after one sun every pixel is that sun's SunPixel of its old colour |
| SunGradient.CreateSunFrame | prompt7/boolean_algebra.py:32-113 | a malformed colour is an error; otherwise a fresh height x width image whose every pixel is the suns, in list order, over the background (the default sun when none are given) |
| SunGradient.CreateBooleanSunGradient | prompt7/boolean_algebra.py:116-127 | the still image is the frame with every sun at full radius |
| SunGradient.RadiusSchedule | prompt7/boolean_algebra.py:155-160 | the factor is 0 at the first frame and 1 at the last; a lone frame uses 1; every factor is in [0, 1] |
| SunGradient.AnimateFrames | prompt7/boolean_algebra.py:136-162 | with at least one frame, a malformed colour is an error; otherwise there are `frames` images, and image i is the frame drawn at factor smoothstep(i/(frames - 1)) |
| LetterSwarm.LetterSegments | prompt5/genuary_swarm.py:26-100 | 28 strokes; letter k lies in its column x in [8k, 8k + 4.5], y in [-0.5, 5]; all x in [0, 52]; no stroke is a point; the extremes x = 0, 52 and y = -0.5 are reached |
| LetterSwarm.Centreline | prompt5/genuary_swarm.py:120-123 | a stroke's centre line has n points |
| LetterSwarm.CentrelineEnds | prompt5/genuary_swarm.py:120-123 | the centre line starts at the first end and, for n >= 2, finishes exactly at the second |
| LetterSwarm.NormalPerpendicular | prompt5/genuary_swarm.py:125-132 | the normal is perpendicular to the stroke, and of unit length when the length is Euclidean |
| LetterSwarm.Rail | prompt5/genuary_swarm.py:135-137 | a rail has as many points as the centre line |
| LetterSwarm.RailsLength | prompt5/genuary_swarm.py:134-137 | the rails hold offsets x n points |
| LetterSwarm.RailsIndex | prompt5/genuary_swarm.py:134-137 | rail j, point k is the centre-line point k shifted by offset j |
| LetterSwarm.SamplesCount | prompt5/genuary_swarm.py:119-141 | the sample count is the sum over strokes of n x rails (drawn on rails) or n (centre line) |
| LetterSwarm.TotalRowsAtLeast | prompt5/genuary_swarm.py:119-141 | every stroke gives at least n samples |
| LetterSwarm.AllRailsCount | prompt5/genuary_swarm.py:119-141 | when every stroke is drawn on rails there are n x rails samples per stroke |
| LetterSwarm.RailPoint | prompt5/genuary_swarm.py:129-137 | on a railed stroke, sample j n + k is centre-line point k shifted along the normal by offset j, with offsets from -thickness to +thickness |
| LetterSwarm.ZeroLengthStroke | prompt5/genuary_swarm.py:125-139 | a zero-length stroke gives n copies of its point and no rails |
| LetterSwarm.SampleSegment | prompt5/genuary_swarm.py:119-139 | the rails loop builds exactly the stroke's samples |
| LetterSwarm.SamplePointsOnSegments | prompt5/genuary_swarm.py:103-141 | no strokes is an error; otherwise the loop builds exactly the samples, stroke after stroke |
| LetterSwarm.MinMax | prompt5/genuary_swarm.py:194-199 | min and max bound every value and are attained |
| LetterSwarm.StretchMinMax | prompt5/genuary_swarm.py:195-199 | widening by a positive factor maps the old extremes to the new ones |
| LetterSwarm.StretchMonotone | prompt5/genuary_swarm.py:195 | widening by a positive factor keeps the order of x values |
| LetterSwarm.WidenedColumns | prompt5/genuary_swarm.py:195 | widening rewrites the x column and keeps the y column |
| LetterSwarm.WidenAboutMiddle | prompt5/genuary_swarm.py:193-195 | widening about cx_grid keeps the middle of the x-range, scales its width by the factor and leaves y alone |
| LetterSwarm.WidenColumn | prompt5/genuary_swarm.py:195 | the in-place rewrite widens every point |
| LetterSwarm.NormaliseTargets | prompt5/genuary_swarm.py:198-208 | normalisation keeps the number of targets |
| LetterSwarm.TargetsInPaddedSquare | prompt5/genuary_swarm.py:198-208 | normalisation fails exactly on a zero-width range; otherwise targets lie in [0.08, 0.92] x [0.15, 0.85] and the extremes land on its edges |
| LetterSwarm.LetterTargets | prompt5/genuary_swarm.py:183-208 | the targets lie in the padded square; with a Euclidean length there are 28 x 180 of them |
| LetterSwarm.Clip01 | prompt5/genuary_swarm.py:230 | clipping lands in [0, 1] and leaves values already there |
| LetterSwarm.JitteredTargets | prompt5/genuary_swarm.py:216 | one jittered target per target |
| LetterSwarm.CubeUnit | prompt5/genuary_swarm.py:226 | a cube of a value in [0, 1] stays in [0, 1] |
| LetterSwarm.FramePositions | prompt5/genuary_swarm.py:229-230 | one position per particle |
| LetterSwarm.NoiseScaleEnds | prompt5/genuary_swarm.py:226 | the noise scale is the full jitter at alpha 0 and zero at alpha 1 |
| LetterSwarm.NoiseScaleBounds | prompt5/genuary_swarm.py:226 | for alpha in [0, 1] and a non-negative jitter the noise scale is in [0, jitter] |
| LetterSwarm.NoiseFades | prompt5/genuary_swarm.py:220-227 | the noise is the full jitter in the first frame and gone in the last, never more than the jitter |
| LetterSwarm.AlphaBounds | prompt5/genuary_swarm.py:220-222 | alpha is 0 at the first frame, 1 at the last, and in [0, 1] |
| LetterSwarm.PositionAtEnds | prompt5/genuary_swarm.py:229-230 | at alpha 1 without noise a particle is at its target; at alpha 0 it is at its start plus the full noise |
| LetterSwarm.ArrivalAndDeparture | prompt5/genuary_swarm.py:220-231 | the last frame is the clipped jittered targets; with two or more frames, the first is the starts plus full noise |
| LetterSwarm.SwarmPositions | prompt5/genuary_swarm.py:219-231 | one frame per index; frame i is the eased, noised, clipped position of every particle; every position lies in the unit square |
| FibonacciFlower.Axes.Plot | prompt3/fibonacci.py:80-81 | a plot call is appended to the record |
| FibonacciFlower.Axes.Fill | prompt3/fibonacci.py:87 | a fill call is appended to the record |
| FibonacciFlower.SegmentCentred | prompt3/fibonacci.py:38-47 | the ends are symmetric about the centre and, with cos^2 + sin^2 = 1, `length` apart |
| FibonacciFlower.Halves | prompt3/fibonacci.py:111-114 | a segment has two halves |
| FibonacciFlower.HalvesMeetAtMidpoint | prompt3/fibonacci.py:111-114 | the halves start and end with the segment, meet at its midpoint, and each runs half its direction |
| FibonacciFlower.Children | prompt3/fibonacci.py:109-114 | a generation has twice as many children as main segments |
| FibonacciFlower.ChildrenIndex | prompt3/fibonacci.py:110-114 | children 2j and 2j + 1 are the halves of segment j |
| FibonacciFlower.BezierEnds | prompt3/fibonacci.py:71-76 | an arc starts at (x0, y0) at t = 0 and ends at (x1, y1) at t = 1 |
| FibonacciFlower.BezierMirror | prompt3/fibonacci.py:60-76 | two arcs with mirrored controls average to the chord point at t |
| FibonacciFlower.Arc | prompt3/fibonacci.py:64-76 | an arc has 40 samples |
| FibonacciFlower.ControlPoints | prompt3/fibonacci.py:57-61 | the controls are mirror images about the midpoint; c1 - m is curvature x (-vy, vx), perpendicular to the segment |
| FibonacciFlower.ArcsSpanSegment | prompt3/fibonacci.py:60-76 | both arcs run from the segment's start to its end, and sample k of the two averages to the segment point at t_k |
| FibonacciFlower.FillOutlineClosed | prompt3/fibonacci.py:84-87 | the fill outline has 80 vertices, leaves and returns to the start, and turns at the end |
| FibonacciFlower.PetalCallCount | prompt3/fibonacci.py:53-87 | a zero-length segment draws nothing; otherwise 2 plots with edges plus 1 fill when filling with positive alpha |
| FibonacciFlower.DrawPetals | prompt3/fibonacci.py:49-87 | drawing a petal appends exactly its calls |
| FibonacciFlower.DefaultLengthsAreFibonacci | prompt3/fibonacci.py:89-91 | the 11 default lengths start 2, 2 and each later one is the sum of the two before |
| FibonacciFlower.MainSegments | prompt3/fibonacci.py:104-107 | one main segment per angle |
| FibonacciFlower.GenerationSegments | prompt3/fibonacci.py:102-107 | generation g has one segment per angle of pattern g mod (number of patterns) |
| FibonacciFlower.PetalCount | prompt3/fibonacci.py:101-118 | with a angles per pattern, each generation gives 2a petals |
| FibonacciFlower.PetalIndex | prompt3/fibonacci.py:101-118 | petal g 2a + 2j + h is half h of angle j of pattern g mod P at length g |
| FibonacciFlower.DefaultFlower | prompt3/fibonacci.py:91-118 | the defaults give 44 petals, alternating axis-aligned (even g) and diagonal (odd g) |
| FibonacciFlower.DrawGeneration | prompt3/fibonacci.py:102-118 | one generation appends the calls for the petals on its children, in order |
| FibonacciFlower.DrawChildren | prompt3/fibonacci.py:116-118 | the petal loop appends each child's calls in order |
| FibonacciFlower.CallsForAppend | prompt3/fibonacci.py:101-118 | calls for a concatenation are the concatenated calls |
| FibonacciFlower.CallsStep | prompt3/fibonacci.py:101-118 | one more generation adds its children's calls after the earlier ones |
| FibonacciFlower.DrawGenerations | prompt3/fibonacci.py:101-118 | the generation loop appends the calls for every generation's petals, in order |
| FibonacciFlower.DrawFibonacciFlower | prompt3/fibonacci.py:16-122 | defaults fill missing arguments; an empty pattern list fails unless there are no lengths and draws nothing; otherwise all petal calls are appended |
| FibonacciFlower.GridFlower | prompt3/fibonacci.py:153-161 | one grid cell: fresh axes holding one default flower |
| FibonacciFlower.DrawFlowerGrid | prompt3/fibonacci.py:132-161 | nine fresh, distinct axes, each holding the default flower |

## Left out

- Rendering and I/O are left out: figures, `set_aspect`, `axis`, `set_xlim` and `set_ylim`, `FuncAnimation`, `PillowWriter`, `savefig`, `Image.fromarray`, `imshow`, `plt.show`, `os.path` and `print`. The animation loop that calls `update` for each frame belongs to matplotlib and is not modelled.
- Random number generation is left out: `default_rng`, `rng.random`, `rng.normal`, `rng.uniform`, `np.random.seed`. Starts and standard-normal draws are inputs, scaled by the source's scale.
- `sqrt`, `hypot`, `cos` and `sin` of `radians(a)`, and `2 ** 0.5` are parameters. Lemmas that need their laws take them as preconditions.
- IEEE floating point is not modelled: every value is `real`. Identities such as sx * sy = 1 and ease(0.5) = 0.5 hold exactly in the model, but not necessarily in Python floats.
- Colour and size work in `genuary_swarm.py` is left out because it is transcendental floating-point colour work. This covers `_hsv_to_rgb`, the `exp`-based sizes and edge falloff, and the warm-hue mask.
- Cosmetic parameters are not recorded: colour strings of the flower and the ball, `edge_width`, `linewidth`, `facecolor`, `dpi` and `fps`. The circle patches do keep colour and alpha.
- The `visible` option of `draw_segment` is not modelled because every caller leaves it off. The model never plots a main segment.
- When `draw_fibonacci_flower` is called without axes, it creates a figure and saves it. Only the drawing onto the given axes is modelled.
- The two flower grid functions differ only in fill, edge, colour and `edge_width`. `DrawFlowerGrid` takes fill, edge and alpha as parameters and covers both.
- `HexToRgb`: the two-character fields accept only hexadecimal digits. Python's `int(s, 16)` also accepts a sign, surrounding whitespace and non-ASCII Unicode decimal digits such as Arabic-Indic ones (so "-F" gives -15); the model reports all of those as errors.
- `NormaliseTargets`: numpy divides a zero-width range into infinities and NaNs. The model returns no targets instead of modelling IEEE special values.
- `SamplePointsOnSegments`: `np.vstack` of an empty list raises, and the model returns no samples. A negative `points_per_segment` is excluded by the `nat` type.
- `LetterTargets` does not prove that the targets exist, only what holds when they do. Its count law is stated under the assumption that `hypot` is positive for every non-zero direction.
- `SwarmPositions`: two cases where the source raises `ValueError` are given a result. With `n_frames = 0`, `np.stack` of the empty frame list fails (genuary_swarm.py:233); the model returns no frames. With a negative `jitter` and two or more frames, `rng.normal` gets a negative scale in frame 0 and fails (genuary_swarm.py:227); the model uses the draws with that negative scale.
- `AnimateFrames`: with `frames = 0` the source fails at `all_frames[0]` while setting up the display. The model returns an empty list, since the display is not modelled.
- `BallPoses.RemovePatch` removes a patch by value equality. matplotlib removes by identity; while the axes hold a single patch, the two agree.
- `DrawFibonacciFlower`: an empty `angle_patterns` list raises `ZeroDivisionError` at the first generation. The model returns `false` without drawing; with no lengths there is no generation and the call succeeds.
