/** Boolean sun gradient (prompt7/boolean_algebra.py): an RGB image filled
    with a background colour, over which each sun paints its centre pixel,
    blends its adjacent pixels at 50% and blends the rest of its current
    disc with an opacity that fades outward. */
module SunGradient {

  import opened RealArith
  import opened Easing
  import opened Wrappers

  /** An RGB colour; the image stores each channel as a byte. */
  datatype Rgb = Rgb(r: int, g: int, b: int)

  /** A sun: centre (cx, cy) and the radius it grows to. */
  datatype Sun = Sun(cx: real, cy: real, maxRadius: real)

  predicate IsByte(v: int)
  {
    0 <= v < 256
  }

  predicate IsByteColor(c: Rgb)
  {
    IsByte(c.r) && IsByte(c.g) && IsByte(c.b)
  }

  // ---------------------------------------------------------------------
  // hex_to_rgb

  /** The value of one hexadecimal digit, either case. */
  function HexDigit(ch: char): Option<int>
  {
    if '0' <= ch <= '9' then Some(ch as int - '0' as int)
    else if 'a' <= ch <= 'f' then Some(ch as int - 'a' as int + 10)
    else if 'A' <= ch <= 'F' then Some(ch as int - 'A' as int + 10)
    else None
  }

  /** int(s, 16) for the one- or two-character slices the parser takes;
      an empty slice or a non-digit is an error. */
  function ParseHexField(s: string): Option<int>
  {
    if |s| == 0 || |s| > 2 then None
    else if |s| == 1 then HexDigit(s[0])
    else match (HexDigit(s[0]), HexDigit(s[1]))
      case (Some(hi), Some(lo)) => Some(16 * hi + lo)
      case _ => None
  }

  /** s with every leading '#' removed. */
  function StripHashes(s: string): (r: string)
    ensures |r| <= |s|
    ensures |r| > 0 ==> r[0] != '#'
  {
    if |s| > 0 && s[0] == '#' then StripHashes(s[1..]) else s
  }

  /** The slice s[i:j], clamped to the string as Python clamps it. */
  function Slice(s: string, i: nat, j: nat): string
    requires i <= j
  {
    var lo := if i <= |s| then i else |s|;
    var hi := if j <= |s| then j else |s|;
    s[lo..hi]
  }

  /** Parses "#rrggbb": leading '#'s are dropped, then characters 0-1, 2-3
      and 4-5 are read as hexadecimal numbers. */
  function HexToRgb(s: string): Option<Rgb>
  {
    var h := StripHashes(s);
    match (ParseHexField(Slice(h, 0, 2)), ParseHexField(Slice(h, 2, 4)), ParseHexField(Slice(h, 4, 6)))
      case (Some(r), Some(g), Some(b)) => Some(Rgb(r, g, b))
      case _ => None
  }

  /** The digit character of a value 0..15, in upper case. */
  function HexChar(v: int): (ch: char)
    requires 0 <= v < 16
    ensures HexDigit(ch) == Some(v)
  {
    if v < 10 then (v + '0' as int) as char else (v - 10 + 'A' as int) as char
  }

  /** "#rrggbb" for a byte colour. */
  function RgbToHex(c: Rgb): (s: string)
    requires IsByteColor(c)
    ensures |s| == 7
  {
    "#" + [HexChar(c.r / 16), HexChar(c.r % 16), HexChar(c.g / 16), HexChar(c.g % 16),
           HexChar(c.b / 16), HexChar(c.b % 16)]
  }

  /** Every byte colour written as "#rrggbb" parses back to itself. */
  lemma HexRoundTrip(c: Rgb)
    requires IsByteColor(c)
    ensures HexToRgb(RgbToHex(c)) == Some(c)
  {
    var s := RgbToHex(c);
    var h := s[1..];
    assert StripHashes(s) == h by {
      assert s[0] == '#' && s[1..] == h;
      assert |h| > 0 && h[0] != '#';
    }
    assert Slice(h, 0, 2) == h[0..2] && Slice(h, 2, 4) == h[2..4] && Slice(h, 4, 6) == h[4..6];
  }

  /** Each component parsed from a digit pair is a byte, so a parsed colour
      is always a byte colour. */
  lemma HexToRgbBytes(s: string)
    requires HexToRgb(s).Some?
    ensures IsByteColor(HexToRgb(s).value)
  {
  }

  /** Only the first six characters after the '#'s are read: anything
      after them is ignored. */
  lemma HexToRgbIgnoresTail(s: string, tail: string)
    requires |StripHashes(s)| >= 6
    ensures HexToRgb(s + tail) == HexToRgb(s)
  {
    StripHashesAppend(s, tail);
    var h := StripHashes(s);
    assert (h + tail)[0..2] == h[0..2] && (h + tail)[2..4] == h[2..4] && (h + tail)[4..6] == h[4..6];
  }

  lemma {:induction false} StripHashesAppend(s: string, tail: string)
    requires |StripHashes(s)| > 0
    ensures StripHashes(s + tail) == StripHashes(s) + tail
  {
    if |s| > 0 && s[0] == '#' {
      assert (s + tail)[1..] == s[1..] + tail;
      StripHashesAppend(s[1..], tail);
    }
  }

  /** Fewer than five digits leave the blue slice empty, which is an error;
      five digits make blue a single digit. */
  lemma HexToRgbShort(s: string)
    ensures |StripHashes(s)| < 5 ==> HexToRgb(s) == None
    ensures |StripHashes(s)| == 5 && HexToRgb(s).Some? ==>
      HexToRgb(s).value.b == HexDigit(StripHashes(s)[4]).value
  {
  }

  /** The default colours of the source: centre #A33800 and white. */
  lemma DefaultColors()
    ensures HexToRgb("#A33800") == Some(Rgb(163, 56, 0))
    ensures HexToRgb("#FFFFFF") == Some(Rgb(255, 255, 255))
  {
    assert StripHashes("#A33800") == "A33800" by {
      assert "#A33800"[1..] == "A33800";
    }
    assert StripHashes("#FFFFFF") == "FFFFFF" by {
      assert "#FFFFFF"[1..] == "FFFFFF";
    }
  }

  // ---------------------------------------------------------------------
  // blend_colors

  /** int(v): truncation toward zero. */
  function Trunc(v: real): int
  {
    if v >= 0.0 then v.Floor else -((-v).Floor)
  }

  /** int(c1 * (1 - alpha) + c2 * alpha). */
  function BlendChannel(c1: int, c2: int, alpha: real): int
  {
    Trunc(c1 as real * (1.0 - alpha) + c2 as real * alpha)
  }

  function Blend(c1: Rgb, c2: Rgb, alpha: real): Rgb
  {
    Rgb(BlendChannel(c1.r, c2.r, alpha), BlendChannel(c1.g, c2.g, alpha), BlendChannel(c1.b, c2.b, alpha))
  }

  /** The blended value is the point at weight alpha from c1 to c2. */
  lemma BlendIsLerp(c1: int, c2: int, alpha: real)
    ensures c1 as real * (1.0 - alpha) + c2 as real * alpha == Lerp(c1 as real, c2 as real, alpha)
  {
  }

  /** For non-negative channels and alpha in [0, 1] the blend lies between
      the two channels; alpha 0 gives the first channel, alpha 1 the
      second. */
  lemma BlendChannelBetween(c1: int, c2: int, alpha: real)
    requires 0 <= c1 && 0 <= c2 && 0.0 <= alpha <= 1.0
    ensures c1 <= c2 ==> c1 <= BlendChannel(c1, c2, alpha) <= c2
    ensures c2 <= c1 ==> c2 <= BlendChannel(c1, c2, alpha) <= c1
    ensures alpha == 0.0 ==> BlendChannel(c1, c2, alpha) == c1
    ensures alpha == 1.0 ==> BlendChannel(c1, c2, alpha) == c2
  {
    BlendIsLerp(c1, c2, alpha);
    LerpBetween(c1 as real, c2 as real, alpha);
  }

  /** Blending with alpha 0 leaves the first colour; blending a byte colour
      with a byte colour at alpha in [0, 1] gives a byte colour. */
  lemma BlendBytes(c1: Rgb, c2: Rgb, alpha: real)
    requires IsByteColor(c1) && IsByteColor(c2) && 0.0 <= alpha <= 1.0
    ensures IsByteColor(Blend(c1, c2, alpha))
    ensures alpha == 0.0 ==> Blend(c1, c2, alpha) == c1
  {
    BlendChannelBetween(c1.r, c2.r, alpha);
    BlendChannelBetween(c1.g, c2.g, alpha);
    BlendChannelBetween(c1.b, c2.b, alpha);
  }

  // ---------------------------------------------------------------------
  // create_sun_frame: the per-pixel specification

  /** Squared distance from pixel (x, y) to the sun's centre. All the tier
      tests compare distances with non-negative bounds, so they are made on
      squares. */
  function Dist2(sun: Sun, y: int, x: int): real
  {
    var dx := x as real - sun.cx;
    var dy := y as real - sun.cy;
    dx * dx + dy * dy
  }

  function CurrentRadius(sun: Sun, factor: real): real
  {
    factor * sun.maxRadius
  }

  /** The two blending passes: pixels next to the centre (0 < d <= sqrt 2)
      and the rest of the disc. */
  datatype Tier = Adjacent | Gradient

  predicate IsCenter(d2: real)
  {
    d2 == 0.0
  }

  predicate IsAdjacent(d2: real)
  {
    0.0 < d2 <= 2.0
  }

  /** d <= current_radius, for a positive current radius. */
  predicate IsWithin(d2: real, radius: real)
  {
    d2 <= radius * radius
  }

  predicate InTier(tier: Tier, d2: real, radius: real)
  {
    match tier
      case Adjacent => IsAdjacent(d2) && IsWithin(d2, radius)
      case Gradient => IsWithin(d2, radius) && !IsCenter(d2) && !IsAdjacent(d2)
  }

  /** Gradient opacity: 50% at the centre, fading linearly to 0 at the
      sun's full radius, never negative. */
  function GradientOpacity(dist: real, maxRadius: real): real
    requires maxRadius != 0.0
  {
    var opacity := 0.5 * (1.0 - dist / maxRadius);
    if 0.0 >= opacity then 0.0 else opacity
  }

  function TierOpacity(tier: Tier, sun: Sun, y: int, x: int, sqrt: real -> real): real
    requires sun.maxRadius != 0.0
  {
    match tier
      case Adjacent => 0.5
      case Gradient => GradientOpacity(sqrt(Dist2(sun, y, x)), sun.maxRadius)
  }

  /** The centre pass: the centre pixel takes the centre colour. */
  function CenterPixel(sun: Sun, y: int, x: int, c: Rgb, center: Rgb): Rgb
  {
    if IsCenter(Dist2(sun, y, x)) then center else c
  }

  /** A blending pass: pixels in the tier are blended toward the centre
      colour, the others keep their colour. */
  function TierPixel(tier: Tier, sun: Sun, radius: real, y: int, x: int, c: Rgb, center: Rgb, sqrt: real -> real): Rgb
    requires sun.maxRadius != 0.0
  {
    if InTier(tier, Dist2(sun, y, x), radius) then Blend(c, center, TierOpacity(tier, sun, y, x, sqrt)) else c
  }

  /** The colour of a pixel after one sun: its three passes in order, when
      its current radius is positive. */
  function SunPixel(sun: Sun, factor: real, y: int, x: int, c: Rgb, center: Rgb, sqrt: real -> real): Rgb
  {
    var radius := CurrentRadius(sun, factor);
    if radius > 0.0 then
      assert sun.maxRadius != 0.0;
      var c1 := CenterPixel(sun, y, x, c, center);
      var c2 := TierPixel(Adjacent, sun, radius, y, x, c1, center, sqrt);
      TierPixel(Gradient, sun, radius, y, x, c2, center, sqrt)
    else c
  }

  /** The colour of a pixel after the suns, processed in list order over
      the background. */
  function FramePixel(suns: seq<Sun>, factor: real, y: int, x: int, bg: Rgb, center: Rgb, sqrt: real -> real): Rgb
  {
    if |suns| == 0 then bg
    else SunPixel(suns[|suns| - 1], factor, y, x, FramePixel(suns[..|suns| - 1], factor, y, x, bg, center, sqrt), center, sqrt)
  }

  /** The tiers are disjoint: one sun changes a pixel at most once, as the
      centre, as an adjacent pixel or as a gradient pixel. */
  lemma SunTouchesPixelOnce(sun: Sun, factor: real, y: int, x: int, c: Rgb, center: Rgb, sqrt: real -> real)
    ensures var radius, d2 := CurrentRadius(sun, factor), Dist2(sun, y, x);
      SunPixel(sun, factor, y, x, c, center, sqrt) ==
        if radius <= 0.0 || !IsWithin(d2, radius) then c
        else if IsCenter(d2) then center
        else if IsAdjacent(d2) then Blend(c, center, 0.5)
        else Blend(c, center, GradientOpacity(sqrt(d2), sun.maxRadius))
  {
  }

  /** Right after a sun with a positive current radius, its exact centre
      pixel has the centre colour, whatever it had before. */
  lemma CenterPixelIsCenterColor(sun: Sun, factor: real, y: int, x: int, c: Rgb, center: Rgb, sqrt: real -> real)
    requires CurrentRadius(sun, factor) > 0.0 && Dist2(sun, y, x) == 0.0
    ensures SunPixel(sun, factor, y, x, c, center, sqrt) == center
  {
  }

  /** A pixel farther than the current radius from every sun (or with every
      current radius non-positive) keeps the background colour. */
  lemma {:induction false} FarPixelKeepsBackground(suns: seq<Sun>, factor: real, y: int, x: int, bg: Rgb, center: Rgb,
                                                   sqrt: real -> real)
    requires forall k :: 0 <= k < |suns| ==>
      CurrentRadius(suns[k], factor) <= 0.0 || !IsWithin(Dist2(suns[k], y, x), CurrentRadius(suns[k], factor))
    ensures FramePixel(suns, factor, y, x, bg, center, sqrt) == bg
  {
    if |suns| > 0 {
      FarPixelKeepsBackground(suns[..|suns| - 1], factor, y, x, bg, center, sqrt);
    }
  }

  /** With a non-negative factor and a non-negative square root, gradient
      opacity is clamped to [0, 0.5]. */
  lemma GradientOpacityBounds(dist: real, maxRadius: real)
    requires dist >= 0.0 && maxRadius > 0.0
    ensures 0.0 <= GradientOpacity(dist, maxRadius) <= 0.5
  {
    DivNonneg(dist, maxRadius);
  }

  lemma DivNonneg(n: real, d: real)
    requires 0.0 <= n && 0.0 < d
    ensures 0.0 <= n / d
  {
    var q := n / d;
    assert Mul(q, d) == n;
    if q < 0.0 {
      MulPos(-q, d);
    }
  }

  /** A positive current radius with a non-negative factor means a positive
      maximum radius. */
  lemma PositiveRadius(sun: Sun, factor: real)
    requires 0.0 <= factor && CurrentRadius(sun, factor) > 0.0
    ensures sun.maxRadius > 0.0
  {
    if sun.maxRadius <= 0.0 {
      MulNonneg(factor, -sun.maxRadius);
    }
  }

  /** Starting from byte colours, with a non-negative factor and a square
      root that is never negative, every pixel stays a byte colour: the
      image never overflows its channels. */
  lemma {:induction false} FramePixelBytes(suns: seq<Sun>, factor: real, y: int, x: int, bg: Rgb, center: Rgb,
                                           sqrt: real -> real)
    requires IsByteColor(bg) && IsByteColor(center) && 0.0 <= factor
    requires forall v :: 0.0 <= sqrt(v)
    ensures IsByteColor(FramePixel(suns, factor, y, x, bg, center, sqrt))
  {
    if |suns| > 0 {
      var sun := suns[|suns| - 1];
      var c := FramePixel(suns[..|suns| - 1], factor, y, x, bg, center, sqrt);
      FramePixelBytes(suns[..|suns| - 1], factor, y, x, bg, center, sqrt);
      var radius := CurrentRadius(sun, factor);
      if radius > 0.0 {
        PositiveRadius(sun, factor);
        var c1 := CenterPixel(sun, y, x, c, center);
        BlendBytes(c1, center, 0.5);
        var c2 := TierPixel(Adjacent, sun, radius, y, x, c1, center, sqrt);
        GradientOpacityBounds(sqrt(Dist2(sun, y, x)), sun.maxRadius);
        BlendBytes(c2, center, GradientOpacity(sqrt(Dist2(sun, y, x)), sun.maxRadius));
      }
    }
  }

  // ---------------------------------------------------------------------
  // create_sun_frame: the image updated in place

  /** The centre pass, a masked assignment over the whole image. */
  method PaintCenter(img: array2<Rgb>, sun: Sun, center: Rgb)
    modifies img
    ensures forall y, x :: 0 <= y < img.Length0 && 0 <= x < img.Length1 ==>
      img[y, x] == CenterPixel(sun, y, x, old(img[y, x]), center)
  {
    forall y, x | 0 <= y < img.Length0 && 0 <= x < img.Length1 && Dist2(sun, y, x) == 0.0 {
      img[y, x] := center;
    }
  }

  /** One blending pass over every pixel, row by row. A pixel still showing
      the background and a pixel already coloured by another sun are both
      blended from their current colour. */
  method BlendPass(img: array2<Rgb>, tier: Tier, sun: Sun, radius: real, center: Rgb, bg: Rgb, sqrt: real -> real)
    requires sun.maxRadius != 0.0
    modifies img
    ensures forall y, x :: 0 <= y < img.Length0 && 0 <= x < img.Length1 ==>
      img[y, x] == TierPixel(tier, sun, radius, y, x, old(img[y, x]), center, sqrt)
  {
    for y := 0 to img.Length0
      invariant forall i, j :: 0 <= i < img.Length0 && 0 <= j < img.Length1 ==>
        img[i, j] == if i < y then TierPixel(tier, sun, radius, i, j, old(img[i, j]), center, sqrt) else old(img[i, j])
    {
      for x := 0 to img.Length1
        invariant forall i, j :: 0 <= i < img.Length0 && 0 <= j < img.Length1 ==>
          img[i, j] == if i < y || (i == y && j < x) then TierPixel(tier, sun, radius, i, j, old(img[i, j]), center, sqrt)
                       else old(img[i, j])
      {
        if InTier(tier, Dist2(sun, y, x), radius) {
          var opacity := TierOpacity(tier, sun, y, x, sqrt);
          var existing := img[y, x];
          if existing == bg {
            img[y, x] := Blend(bg, center, opacity);
          } else {
            img[y, x] := Blend(existing, center, opacity);
          }
        }
      }
    }
  }

  /** Everything one sun does to the image: when its current radius is
      positive, the centre pass and the two blending passes. */
  method ApplySun(img: array2<Rgb>, sun: Sun, factor: real, center: Rgb, bg: Rgb, sqrt: real -> real)
    modifies img
    ensures forall y, x :: 0 <= y < img.Length0 && 0 <= x < img.Length1 ==>
      img[y, x] == SunPixel(sun, factor, y, x, old(img[y, x]), center, sqrt)
  {
    var currentRadius := factor * sun.maxRadius;
    assert currentRadius == CurrentRadius(sun, factor);
    if currentRadius > 0.0 {
      PaintCenter(img, sun, center);
      BlendPass(img, Adjacent, sun, currentRadius, center, bg, sqrt);
      BlendPass(img, Gradient, sun, currentRadius, center, bg, sqrt);
    }
  }

  /** The single default sun: centred, a quarter of the smaller side. */
  function DefaultSuns(width: nat, height: nat): seq<Sun>
  {
    [Sun((width / 2) as real, (height / 2) as real, ((if width <= height then width else height) / 4) as real)]
  }

  /** `img` is the frame for these suns at this factor: height rows of width
      pixels, each pixel as FramePixel says. */
  predicate IsFrame(img: array2<Rgb>, width: nat, height: nat, suns: seq<Sun>, factor: real, bg: Rgb, center: Rgb,
                    sqrt: real -> real)
    reads img
  {
    img.Length0 == height && img.Length1 == width &&
    forall y, x :: 0 <= y < height && 0 <= x < width ==> img[y, x] == FramePixel(suns, factor, y, x, bg, center, sqrt)
  }

  /** One frame: parse the two colours (a malformed one is an error), fill
      the image with the background, then let each sun paint over it. */
  method CreateSunFrame(width: nat, height: nat, centerColor: string, backgroundColor: string,
                        suns: Option<seq<Sun>>, factor: real, sqrt: real -> real)
    returns (result: Option<array2<Rgb>>)
    ensures result.None? <==> HexToRgb(centerColor).None? || HexToRgb(backgroundColor).None?
    ensures result.Some? ==> fresh(result.value)
    ensures result.Some? ==>
      IsFrame(result.value, width, height, if suns.Some? then suns.value else DefaultSuns(width, height), factor,
              HexToRgb(backgroundColor).value, HexToRgb(centerColor).value, sqrt)
  {
    var centerRgb := HexToRgb(centerColor);
    var bgRgb := HexToRgb(backgroundColor);
    if centerRgb.None? || bgRgb.None? {
      return None;
    }
    var center, bg := centerRgb.value, bgRgb.value;
    var img := new Rgb[height, width]((y, x) => bg);
    var all := if suns.Some? then suns.value else DefaultSuns(width, height);
    for k := 0 to |all|
      invariant IsFrame(img, width, height, all[..k], factor, bg, center, sqrt)
    {
      ApplySun(img, all[k], factor, center, bg, sqrt);
      assert all[..k + 1][..k] == all[..k];
    }
    assert all[..|all|] == all;
    return Some(img);
  }

  /** The still image: one frame with every sun at its full radius. */
  method CreateBooleanSunGradient(width: nat, height: nat, centerColor: string, backgroundColor: string,
                                  suns: Option<seq<Sun>>, sqrt: real -> real)
    returns (result: Option<array2<Rgb>>)
    ensures result.None? <==> HexToRgb(centerColor).None? || HexToRgb(backgroundColor).None?
    ensures result.Some? ==> fresh(result.value)
    ensures result.Some? ==>
      IsFrame(result.value, width, height, if suns.Some? then suns.value else DefaultSuns(width, height), 1.0,
              HexToRgb(backgroundColor).value, HexToRgb(centerColor).value, sqrt)
  {
    result := CreateSunFrame(width, height, centerColor, backgroundColor, suns, 1.0, sqrt);
  }

  // ---------------------------------------------------------------------
  // animate_boolean_sun_gradient: the radius schedule

  /** The radius factor of frame i: eased progress. */
  function RadiusFactor(i: nat, n: nat): real
  {
    Smoothstep(FrameProgress(i, n))
  }

  /** The suns are invisible in the first frame and at full size in the
      last; a lone frame is at full size; every factor is in [0, 1]. */
  lemma RadiusSchedule(n: nat, i: nat)
    requires i < n
    ensures n > 1 ==> RadiusFactor(0, n) == 0.0 && RadiusFactor(n - 1, n) == 1.0
    ensures n == 1 ==> RadiusFactor(0, n) == 1.0
    ensures 0.0 <= RadiusFactor(i, n) <= 1.0
  {
    SmoothstepFixedPoints();
    FrameProgressBounds(i, n);
    FrameProgressBounds(0, n);
    SmoothstepBounded(FrameProgress(i, n));
  }

  /** All frames of the animation, each one a fresh image. */
  method AnimateFrames(width: nat, height: nat, centerColor: string, backgroundColor: string,
                       suns: Option<seq<Sun>>, frames: nat, sqrt: real -> real)
    returns (result: Option<seq<array2<Rgb>>>)
    ensures frames > 0 ==> (result.None? <==> HexToRgb(centerColor).None? || HexToRgb(backgroundColor).None?)
    ensures result.Some? ==> |result.value| == frames
    ensures result.Some? ==> forall i :: 0 <= i < frames ==>
        IsFrame(result.value[i], width, height, if suns.Some? then suns.value else DefaultSuns(width, height),
                RadiusFactor(i, frames), HexToRgb(backgroundColor).value, HexToRgb(centerColor).value, sqrt)
  {
    var sunList := if suns.Some? then suns.value else DefaultSuns(width, height);
    var allFrames: seq<array2<Rgb>> := [];
    for frameIdx := 0 to frames
      invariant |allFrames| == frameIdx
      invariant frameIdx > 0 ==> HexToRgb(centerColor).Some? && HexToRgb(backgroundColor).Some?
      invariant forall i :: 0 <= i < frameIdx ==>
        IsFrame(allFrames[i], width, height, sunList, RadiusFactor(i, frames), HexToRgb(backgroundColor).value,
                HexToRgb(centerColor).value, sqrt)
    {
      var t := if frames > 1 then frameIdx as real / (frames - 1) as real else 1.0;
      var tEased := t * t * (3.0 - 2.0 * t);
      assert tEased == RadiusFactor(frameIdx, frames);
      var frame := CreateSunFrame(width, height, centerColor, backgroundColor, Some(sunList), tEased, sqrt);
      if frame.None? {
        return None;
      }
      allFrames := allFrames + [frame.value];
    }
    return Some(allFrames);
  }
}
