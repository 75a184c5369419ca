/** Colour conversions (sRGB de-gamma, linear RGB to XYZ, XYZ to CIELAB) and
    the CIEDE2000 colour difference of CIE 142-2001 (ISO/CIE 11664-6), over
    real numbers. The transcendental functions are those of a `Math` record. */
module ColorTools {
  import opened MathFacts

  /** A colour triple (RGB, XYZ or Lab). */
  type Vec3 = s: seq<real> | |s| == 3 witness [0.0, 0.0, 0.0]

  // ---------------------------------------------------------------------
  // sRGB de-gamma

  /** The inverse sRGB transfer function for one channel. */
  function DegammaChannel(m: Math, c: real): real
  {
    if c < 0.04045 then c / 12.92 else m.pow((c + 0.055) / 1.055, 2.4)
  }

  function Degamma(m: Math, rgb: Vec3): Vec3
  {
    [DegammaChannel(m, rgb[0]), DegammaChannel(m, rgb[1]), DegammaChannel(m, rgb[2])]
  }

  /** Each output channel depends on the same input channel only. */
  lemma DegammaIsChannelwise(m: Math, rgb: Vec3, rgb': Vec3, i: nat)
    requires i < 3 && rgb[i] == rgb'[i]
    ensures Degamma(m, rgb)[i] == Degamma(m, rgb')[i] == DegammaChannel(m, rgb[i])
  {
  }

  /** Below the threshold, negative values included, the curve is the
      linear segment; in particular black stays black. */
  lemma DegammaLinearSegment(m: Math, c: real)
    requires c < 0.04045
    ensures DegammaChannel(m, c) == c / 12.92
    ensures c == 0.0 ==> DegammaChannel(m, c) == 0.0
  {
  }

  /** `rgb_to_lin_rgb`: fills `rgbOut` channel by channel. The two arrays
      may be the same one, since each channel is read before it is written. */
  method RgbToLinRgb(m: Math, rgbIn: array<real>, rgbOut: array<real>)
    requires rgbIn.Length == 3 && rgbOut.Length == 3
    modifies rgbOut
    ensures rgbOut[..] == Degamma(m, old(rgbIn[..]))
  {
    ghost var input := rgbIn[..];
    var i := 0;
    while i < 3
      invariant 0 <= i <= 3
      invariant forall j :: 0 <= j < i ==> rgbOut[j] == DegammaChannel(m, input[j])
      invariant forall j :: i <= j < 3 ==> rgbIn[j] == input[j]
    {
      if rgbIn[i] < 0.04045 {
        rgbOut[i] := rgbIn[i] / 12.92;
      } else {
        rgbOut[i] := m.pow((rgbIn[i] + 0.055) / 1.055, 2.4);
      }
      i := i + 1;
    }
    assert rgbOut[..] == [rgbOut[0], rgbOut[1], rgbOut[2]];
  }

  // ---------------------------------------------------------------------
  // Linear RGB to XYZ

  function ToXyz(rgb: Vec3): Vec3
  {
    [0.4124564 * rgb[0] + 0.3575761 * rgb[1] + 0.1804375 * rgb[2],
     0.2126729 * rgb[0] + 0.7151522 * rgb[1] + 0.0721750 * rgb[2],
     0.0193339 * rgb[0] + 0.1191920 * rgb[1] + 0.9503041 * rgb[2]]
  }

  function Scale(k: real, v: Vec3): Vec3
  {
    [k * v[0], k * v[1], k * v[2]]
  }

  /** The matrix is linear: scaling the RGB input (as exposure does)
      scales the XYZ output by the same factor. */
  lemma ToXyzIsLinear(k: real, rgb: Vec3, rgb': Vec3)
    ensures ToXyz(Scale(k, rgb)) == Scale(k, ToXyz(rgb))
    ensures ToXyz([rgb[0] + rgb'[0], rgb[1] + rgb'[1], rgb[2] + rgb'[2]])
         == [ToXyz(rgb)[0] + ToXyz(rgb')[0], ToXyz(rgb)[1] + ToXyz(rgb')[1],
             ToXyz(rgb)[2] + ToXyz(rgb')[2]]
  {
  }

  /** `lin_rgb_to_xyz`. The output must not be the input array: the second
      row reads the input after the first row has been written. */
  method LinRgbToXyz(rgb: array<real>, xyz: array<real>)
    requires rgb.Length == 3 && xyz.Length == 3 && rgb != xyz
    modifies xyz
    ensures xyz[..] == ToXyz(rgb[..])
  {
    xyz[0] := 0.4124564 * rgb[0] + 0.3575761 * rgb[1] + 0.1804375 * rgb[2];
    xyz[1] := 0.2126729 * rgb[0] + 0.7151522 * rgb[1] + 0.0721750 * rgb[2];
    xyz[2] := 0.0193339 * rgb[0] + 0.1191920 * rgb[1] + 0.9503041 * rgb[2];
    assert xyz[..] == [xyz[0], xyz[1], xyz[2]];
  }

  // ---------------------------------------------------------------------
  // XYZ to CIELAB

  const Epsilon: real := 0.008856
  const Kappa: real := 903.3
  /** The D65 reference white. */
  const White: Vec3 := [0.950489, 1.0, 1.08840]

  /** The CIELAB companding function, with the linear segment near black. */
  function LabF(m: Math, t: real): real
  {
    if t > Epsilon then m.cbrt(t) else (Kappa * t + 16.0) / 116.0
  }

  function ToLab(m: Math, xyz: Vec3): Vec3
  {
    var f0 := LabF(m, xyz[0] / White[0]);
    var f1 := LabF(m, xyz[1] / White[1]);
    var f2 := LabF(m, xyz[2] / White[2]);
    [116.0 * f1 - 16.0, 500.0 * (f0 - f1), 200.0 * (f1 - f2)]
  }

  /** Black goes to the Lab origin exactly, through the linear segment. */
  lemma ToLabOfBlack(m: Math)
    ensures ToLab(m, [0.0, 0.0, 0.0]) == [0.0, 0.0, 0.0]
  {
  }

  /** Equal white-normalised ratios give a neutral colour, a = b = 0, and the
      lightness depends on Y alone. */
  lemma ToLabOfNeutral(m: Math, xyz: Vec3, xyz': Vec3)
    requires xyz[0] / White[0] == xyz[1] / White[1] == xyz[2] / White[2]
    ensures ToLab(m, xyz)[1] == 0.0 && ToLab(m, xyz)[2] == 0.0
    ensures xyz'[1] == xyz[1] ==> ToLab(m, xyz')[0] == ToLab(m, xyz)[0]
  {
  }

  /** `xyz_to_Lab`: fills a local `f` in a loop, then the output. Every
      read of `xyz` precedes the first write of `lab`, so they may alias. */
  method XyzToLab(m: Math, xyz: array<real>, lab: array<real>)
    requires xyz.Length == 3 && lab.Length == 3
    modifies lab
    ensures lab[..] == ToLab(m, old(xyz[..]))
  {
    var f := new real[3];
    var i := 0;
    while i < 3
      invariant 0 <= i <= 3
      invariant xyz[..] == old(xyz[..])
      invariant forall j :: 0 <= j < i ==> f[j] == LabF(m, old(xyz[j]) / White[j])
    {
      var t := xyz[i] / White[i];
      if t > Epsilon {
        f[i] := m.cbrt(t);
      } else {
        f[i] := (Kappa * t + 16.0) / 116.0;
      }
      i := i + 1;
    }
    lab[0] := 116.0 * f[1] - 16.0;
    lab[1] := 500.0 * (f[0] - f[1]);
    lab[2] := 200.0 * (f[1] - f[2]);
    assert lab[..] == [lab[0], lab[1], lab[2]];
  }

  function LinearToLab(m: Math, rgb: Vec3): Vec3
  {
    ToLab(m, ToXyz(rgb))
  }

  /** `lin_rgb_to_Lab`: through a local XYZ array. */
  method LinRgbToLab(m: Math, rgb: array<real>, lab: array<real>)
    requires rgb.Length == 3 && lab.Length == 3
    modifies lab
    ensures lab[..] == LinearToLab(m, old(rgb[..]))
  {
    var xyz := new real[3];
    LinRgbToXyz(rgb, xyz);
    XyzToLab(m, xyz, lab);
  }

  // ---------------------------------------------------------------------
  // CIEDE2000, step by step

  function Abs(x: real): real
  {
    if x < 0.0 then -x else x
  }

  /** Chroma sqrt(a^2 + b^2): never negative, positive unless a = b = 0. */
  function Chroma(m: Math, a: real, b: real): (c: real)
    requires Lawful(m)
    ensures c >= 0.0
    ensures a != 0.0 || b != 0.0 ==> c > 0.0
    ensures a == 0.0 && b == 0.0 ==> c == 0.0
  {
    SumOfSquares(a, b);
    m.sqrt(a * a + b * b)
  }

  /** The chroma is zero exactly for a neutral colour. */
  lemma ChromaIsZeroIffNeutral(m: Math, a: real, b: real)
    requires Lawful(m)
    ensures Chroma(m, a, b) == 0.0 <==> a == 0.0 && b == 0.0
  {
  }

  lemma SquareOfPositive(a: real)
    requires a > 0.0
    ensures a * a > 0.0
  {
  }

  lemma SquareOfNegative(a: real)
    requires a < 0.0
    ensures a * a > 0.0
  {
  }

  lemma SquareOfNonZero(a: real)
    requires a != 0.0
    ensures a * a > 0.0
  {
    if a > 0.0 { SquareOfPositive(a); } else { SquareOfNegative(a); }
  }

  lemma SquareNonNegative(a: real)
    ensures a * a >= 0.0
  {
    if a != 0.0 { SquareOfNonZero(a); }
  }

  lemma SumOfSquares(a: real, b: real)
    ensures a * a + b * b >= 0.0
    ensures a != 0.0 || b != 0.0 ==> a * a + b * b > 0.0
  {
    SquareNonNegative(a);
    SquareNonNegative(b);
    if a != 0.0 { SquareOfNonZero(a); }
    if b != 0.0 { SquareOfNonZero(b); }
  }

  /** c^7, computed as (c^2)^3 * c. */
  function Pow7(c: real): (p: real)
    ensures c >= 0.0 ==> p >= 0.0
    ensures c == 0.0 ==> p == 0.0
  {
    var c2 := c * c;
    assert c2 >= 0.0 by { SquareNonNegative(c); }
    assert c2 * c2 >= 0.0 by { SquareNonNegative(c2); }
    c2 * c2 * c2 * c
  }

  /** 25^7, the constant of the chroma-correction ratio. */
  const Pow7Of25: real := 6103515625.0

  /** c^7 / (c^7 + 25^7), a weight in [0, 1) for non-negative chroma. */
  function Pow7Ratio(c: real): (q: real)
    requires c >= 0.0
    ensures 0.0 <= q < 1.0
    ensures c == 0.0 ==> q == 0.0
  {
    Pow7(c) / (Pow7(c) + Pow7Of25)
  }

  /** G, the a-axis correction: in (0, 0.5], and exactly 0.5 for neutral
      mean chroma. */
  function ChromaCorrection(m: Math, barCStar: real): (g: real)
    requires Lawful(m) && barCStar >= 0.0
    ensures 0.0 < g <= 0.5
    ensures barCStar == 0.0 ==> g == 0.5
  {
    0.5 * (1.0 - m.sqrt(Pow7Ratio(barCStar)))
  }

  /** Hue angle h' in radians: 0 for a zero-chroma colour, otherwise the
      arctangent moved into [0, 2 pi). */
  function HuePrime(m: Math, b: real, aPrime: real): (h: real)
    requires Lawful(m)
    ensures b == 0.0 && aPrime == 0.0 ==> h == 0.0
    ensures 0.0 <= h < 2.0 * m.pi
    ensures h == m.atan2(b, aPrime) || h == m.atan2(b, aPrime) + 2.0 * m.pi || h == 0.0
  {
    if b != 0.0 || aPrime != 0.0 then
      var h0 := m.atan2(b, aPrime);
      if h0 < 0.0 then h0 + 2.0 * m.pi else h0
    else
      0.0
  }

  /** Delta h': zero when both chromas are zero; otherwise h2 - h1 shifted
      by a multiple of 2 pi into [-pi, pi] when both hues are in [0, 2 pi). */
  function DeltaHuePrime(m: Math, cPrimeSum: real, h1: real, h2: real): (d: real)
    requires Lawful(m)
    ensures cPrimeSum == 0.0 ==> d == 0.0
    ensures cPrimeSum != 0.0 ==>
      d == h2 - h1 || d == h2 - h1 - 2.0 * m.pi || d == h2 - h1 + 2.0 * m.pi
    ensures 0.0 <= h1 < 2.0 * m.pi && 0.0 <= h2 < 2.0 * m.pi ==> -m.pi <= d <= m.pi
  {
    if cPrimeSum == 0.0 then 0.0
    else if Abs(h2 - h1) <= m.pi then h2 - h1
    else if h2 - h1 > m.pi then h2 - h1 - 2.0 * m.pi
    else h2 - h1 + 2.0 * m.pi
  }

  /** Mean hue: the raw sum when both chromas are zero; otherwise half the
      sum, moved by pi when the hues are more than pi apart, the direction
      chosen by comparing the sum (not the difference) with 2 pi. */
  function MeanHuePrime(m: Math, cPrimeSum: real, h1: real, h2: real): (h: real)
    requires Lawful(m)
    ensures cPrimeSum == 0.0 ==> h == h1 + h2
    ensures cPrimeSum != 0.0 ==>
      2.0 * h == h1 + h2 || 2.0 * h == h1 + h2 + 2.0 * m.pi || 2.0 * h == h1 + h2 - 2.0 * m.pi
    ensures cPrimeSum != 0.0 && Abs(h1 - h2) <= m.pi ==> 2.0 * h == h1 + h2
    ensures cPrimeSum != 0.0 && 0.0 <= h1 < 2.0 * m.pi && 0.0 <= h2 < 2.0 * m.pi ==>
      0.0 <= h < 2.0 * m.pi
  {
    if cPrimeSum == 0.0 then h1 + h2
    else if Abs(h1 - h2) <= m.pi then (h1 + h2) / 2.0
    else if h1 + h2 < 2.0 * m.pi then (h1 + h2 + 2.0 * m.pi) / 2.0
    else (h1 + h2 - 2.0 * m.pi) / 2.0
  }

  /** T, the hue-dependent blend of cosines: at least 1 - 0.17 - 0.24 - 0.32
      - 0.20 = 0.07 and at most 1.93. */
  function HueBlend(m: Math, barHPrime: real): (t: real)
    requires Lawful(m)
    ensures 0.07 <= t <= 1.93
  {
    1.0
    - 0.17 * m.cos(barHPrime - m.pi / 6.0)
    + 0.24 * m.cos(2.0 * barHPrime)
    + 0.32 * m.cos(3.0 * barHPrime + m.pi / 30.0)
    - 0.20 * m.cos(4.0 * barHPrime - 7.0 * m.pi / 20.0)
  }

  /** R_C = 2 sqrt(c^7 / (c^7 + 25^7)), in [0, 2). */
  function RotationChroma(m: Math, barCPrime: real): (rc: real)
    requires Lawful(m) && barCPrime >= 0.0
    ensures 0.0 <= rc < 2.0
  {
    2.0 * m.sqrt(Pow7Ratio(barCPrime))
  }

  /** S_L = 1 + 0.015 (L - 50)^2 / sqrt(20 + (L - 50)^2), at least 1. */
  function LightnessWeight(m: Math, barLPrime: real): (sl: real)
    requires Lawful(m)
    ensures sl >= 1.0
  {
    var d := SquaredOffsetFrom50(barLPrime);
    assert m.sqrt(20.0 + d) > 0.0;
    1.0 + 0.015 * d / m.sqrt(20.0 + d)
  }

  function SquaredOffsetFrom50(barLPrime: real): (d: real)
    ensures d >= 0.0
  {
    SumOfSquares(barLPrime - 50.0, 0.0);
    (barLPrime - 50.0) * (barLPrime - 50.0)
  }

  /** S_C = 1 + 0.045 C, at least 1 for non-negative chroma. */
  function ChromaWeight(barCPrime: real): (sc: real)
    requires barCPrime >= 0.0
    ensures sc >= 1.0
  {
    1.0 + 0.045 * barCPrime
  }

  /** S_H = 1 + 0.015 C T, at least 1 for non-negative chroma and blend. */
  function HueWeight(barCPrime: real, t: real): (sh: real)
    requires barCPrime >= 0.0 && t >= 0.0
    ensures sh >= 1.0
  {
    assert barCPrime * t >= 0.0;
    1.0 + 0.015 * barCPrime * t
  }

  /** R_T = -sin(2 Delta theta) R_C, bounded in magnitude by R_C. */
  function RotationTerm(m: Math, barHPrime: real, rc: real): (rt: real)
    requires Lawful(m) && rc >= 0.0
    ensures -rc <= rt <= rc
  {
    var expV := (barHPrime * 180.0 / m.pi - 275.0) / 25.0;
    var deltaTheta := m.pi / 6.0 * m.exp(-expV * expV);
    var s := m.sin(2.0 * deltaTheta);
    assert -rc <= s * rc <= rc by {
      assert (1.0 - s) * rc >= 0.0;
      assert (1.0 + s) * rc >= 0.0;
    }
    -s * rc
  }

  /** Delta H' = 2 sqrt(C'1 C'2) sin(Delta h' / 2). */
  function HueChord(m: Math, cPrime1: real, cPrime2: real, deltahPrime: real): real
  {
    2.0 * m.sqrt(cPrime1 * cPrime2) * m.sin(deltahPrime / 2.0)
  }

  /** Swapping the chromas and negating the hue difference negates Delta H'. */
  lemma HueChordIsAntisymmetric(m: Math, cPrime1: real, cPrime2: real, deltahPrime: real)
    requires Lawful(m)
    ensures HueChord(m, cPrime2, cPrime1, -deltahPrime) == -HueChord(m, cPrime1, cPrime2, deltahPrime)
  {
    assert cPrime1 * cPrime2 == cPrime2 * cPrime1;
    assert (-deltahPrime) / 2.0 == -(deltahPrime / 2.0);
    NegatedFactor(m.sqrt(cPrime1 * cPrime2), m.sin(deltahPrime / 2.0));
  }

  /** The radicand x^2 + y^2 + z^2 + R_T y z of the final square root. */
  function Radicand(x: real, y: real, z: real, rt: real): real
  {
    x * x + y * y + z * z + rt * y * z
  }

  /** With |R_T| <= 2 the radicand is never negative:
      y^2 + z^2 + R_T y z >= (|y| - |z|)^2. */
  lemma RadicandNonNegative(x: real, y: real, z: real, rt: real)
    requires -2.0 <= rt <= 2.0
    ensures Radicand(x, y, z, rt) >= 0.0
  {
    SumOfSquares(x, 0.0);
    var p := y * z;
    if p >= 0.0 {
      assert rt * p >= -2.0 * p by { assert (rt + 2.0) * p >= 0.0; }
      SumOfSquares(y - z, 0.0);
      assert (y - z) * (y - z) == y * y + z * z - 2.0 * p;
    } else {
      assert rt * p >= 2.0 * p by { assert (2.0 - rt) * (-p) >= 0.0; }
      SumOfSquares(y + z, 0.0);
      assert (y + z) * (y + z) == y * y + z * z + 2.0 * p;
    }
    assert rt * y * z == rt * p;
  }

  lemma NegatedSquare(x: real)
    ensures (-x) * (-x) == x * x
  {
  }

  lemma NegatedProduct(rt: real, y: real, z: real)
    ensures rt * (-y) * (-z) == rt * y * z
  {
  }

  lemma NegatedQuotient(x: real, k: real)
    requires k != 0.0
    ensures (-x) / k == -(x / k)
  {
  }

  /** Negating all three differences leaves the radicand unchanged. */
  lemma RadicandOfNegated(x: real, y: real, z: real, rt: real)
    ensures Radicand(-x, -y, -z, rt) == Radicand(x, y, z, rt)
  {
    NegatedSquare(x);
    NegatedSquare(y);
    NegatedSquare(z);
    NegatedProduct(rt, y, z);
  }

  /** The weighting factors K_L, K_C, K_H. */
  const KL: real := 1.0
  const KC: real := 1.0
  const KH: real := 1.0

  /** The a-corrected chromas and hues of the two colours. */
  datatype Primed = Primed(g: real, cPrime1: real, cPrime2: real, hPrime1: real, hPrime2: real)

  /** The hue difference Delta h', its chord Delta H' and the mean hue. */
  datatype Hues = Hues(deltahPrime: real, deltaHPrime: real, barhPrime: real)

  /** The blend T and the weights R_C, S_L, S_C, S_H, R_T. */
  datatype Weights = Weights(t: real, rc: real, sl: real, sc: real, sh: real, rt: real)

  /** The intermediate quantities of one CIEDE2000 evaluation. */
  datatype Terms = Terms(
    p: Primed, h: Hues, w: Weights,
    deltaLPrime: real, deltaCPrime: real,
    deltaLr: real, deltaCr: real, deltaHr: real,
    radicand: real)

  /** The first steps of `deltaE2000`: the mean chroma gives the correction
      G, which scales both a axes before chroma and hue are recomputed. */
  function PrimedTerms(m: Math, lab1: Vec3, lab2: Vec3): (p: Primed)
    requires Lawful(m)
    ensures 0.0 < p.g <= 0.5
    ensures p.cPrime1 >= 0.0 && p.cPrime2 >= 0.0
    ensures 0.0 <= p.hPrime1 < 2.0 * m.pi && 0.0 <= p.hPrime2 < 2.0 * m.pi
    ensures p.cPrime1 == 0.0 ==> p.hPrime1 == 0.0
    ensures p.cPrime2 == 0.0 ==> p.hPrime2 == 0.0
    ensures lab1[1] == lab1[2] == 0.0 ==> p.cPrime1 == 0.0
    ensures lab2[1] == lab2[2] == 0.0 ==> p.cPrime2 == 0.0
  {
    var a1, b1 := lab1[1], lab1[2];
    var a2, b2 := lab2[1], lab2[2];

    var cStar1 := Chroma(m, a1, b1);
    var cStar2 := Chroma(m, a2, b2);
    var barCStar := (cStar1 + cStar2) / 2.0;

    var g := ChromaCorrection(m, barCStar);
    var aPrime1 := (1.0 + g) * a1;
    var aPrime2 := (1.0 + g) * a2;
    Primed(g, Chroma(m, aPrime1, b1), Chroma(m, aPrime2, b2),
           HuePrime(m, b1, aPrime1), HuePrime(m, b2, aPrime2))
  }

  /** The primed quantities with the two colours exchanged. */
  function SwapPrimed(p: Primed): Primed
  {
    Primed(p.g, p.cPrime2, p.cPrime1, p.hPrime2, p.hPrime1)
  }

  /** Swapping the colours swaps the primed chromas and hues. */
  lemma PrimedTermsOfSwapped(m: Math, lab1: Vec3, lab2: Vec3)
    requires Lawful(m)
    ensures PrimedTerms(m, lab2, lab1) == SwapPrimed(PrimedTerms(m, lab1, lab2))
  {
  }

  /** The hue steps, with Delta h' in [-pi, pi] and the mean hue in
      [0, 2 pi), both zero when both chromas are. */
  function HueTerms(m: Math, p: Primed): (h: Hues)
    requires Lawful(m)
    requires p.cPrime1 >= 0.0 && p.cPrime2 >= 0.0
    requires 0.0 <= p.hPrime1 < 2.0 * m.pi && 0.0 <= p.hPrime2 < 2.0 * m.pi
    requires p.cPrime1 == 0.0 ==> p.hPrime1 == 0.0
    requires p.cPrime2 == 0.0 ==> p.hPrime2 == 0.0
    ensures -m.pi <= h.deltahPrime <= m.pi
    ensures 0.0 <= h.barhPrime < 2.0 * m.pi
    ensures p.cPrime1 + p.cPrime2 == 0.0 ==> h.deltahPrime == 0.0 && h.barhPrime == 0.0
    ensures p.hPrime1 == p.hPrime2 ==> h.deltahPrime == 0.0 && h.deltaHPrime == 0.0
  {
    var cPrimeSum := p.cPrime1 + p.cPrime2;
    var deltahPrime := DeltaHuePrime(m, cPrimeSum, p.hPrime1, p.hPrime2);
    Hues(deltahPrime,
         HueChord(m, p.cPrime1, p.cPrime2, deltahPrime),
         MeanHuePrime(m, cPrimeSum, p.hPrime1, p.hPrime2))
  }

  /** Exchanging the colours negates Delta h' and Delta H' and keeps the mean hue. */
  lemma HueTermsOfSwapped(m: Math, p: Primed)
    requires Lawful(m)
    requires p.cPrime1 >= 0.0 && p.cPrime2 >= 0.0
    requires 0.0 <= p.hPrime1 < 2.0 * m.pi && 0.0 <= p.hPrime2 < 2.0 * m.pi
    requires p.cPrime1 == 0.0 ==> p.hPrime1 == 0.0
    requires p.cPrime2 == 0.0 ==> p.hPrime2 == 0.0
    ensures var h := HueTerms(m, p);
      HueTerms(m, SwapPrimed(p)) == Hues(-h.deltahPrime, -h.deltaHPrime, h.barhPrime)
  {
    var sum := p.cPrime1 + p.cPrime2;
    assert p.cPrime2 + p.cPrime1 == sum;
    DeltaHuePrimeIsAntisymmetric(m, sum, p.hPrime1, p.hPrime2);
    MeanHuePrimeIsSymmetric(m, sum, p.hPrime1, p.hPrime2);
    HueChordIsAntisymmetric(m, p.cPrime1, p.cPrime2, DeltaHuePrime(m, sum, p.hPrime1, p.hPrime2));
  }

  /** The weights, each divisor at least 1 and |R_T| <= R_C < 2. */
  function WeightTerms(m: Math, barLPrime: real, barCPrime: real, barhPrime: real): (w: Weights)
    requires Lawful(m) && barCPrime >= 0.0
    ensures 0.07 <= w.t
    ensures 0.0 <= w.rc < 2.0 && -w.rc <= w.rt <= w.rc
    ensures w.sl >= 1.0 && w.sc >= 1.0 && w.sh >= 1.0
  {
    var t := HueBlend(m, barhPrime);
    var rc := RotationChroma(m, barCPrime);
    Weights(t, rc, LightnessWeight(m, barLPrime), ChromaWeight(barCPrime),
            HueWeight(barCPrime, t), RotationTerm(m, barhPrime, rc))
  }

  /** The steps of `deltaE2000` with the bounds each step guarantees: every
      divisor is at least 1 and the radicand is non-negative. */
  function DeltaE2000Terms(m: Math, lab1: Vec3, lab2: Vec3): (tm: Terms)
    requires Lawful(m)
    ensures 0.0 < tm.p.g <= 0.5
    ensures tm.p.cPrime1 >= 0.0 && tm.p.cPrime2 >= 0.0
    ensures 0.0 <= tm.p.hPrime1 < 2.0 * m.pi && 0.0 <= tm.p.hPrime2 < 2.0 * m.pi
    ensures -m.pi <= tm.h.deltahPrime <= m.pi
    ensures 0.0 <= tm.h.barhPrime < 2.0 * m.pi
    ensures tm.p.cPrime1 + tm.p.cPrime2 == 0.0 ==>
      tm.p.hPrime1 == 0.0 && tm.p.hPrime2 == 0.0 && tm.h.deltahPrime == 0.0 && tm.h.barhPrime == 0.0
    ensures 0.07 <= tm.w.t
    ensures 0.0 <= tm.w.rc < 2.0 && -tm.w.rc <= tm.w.rt <= tm.w.rc
    ensures tm.w.sl >= 1.0 && tm.w.sc >= 1.0 && tm.w.sh >= 1.0
    ensures tm.radicand == Radicand(tm.deltaLr, tm.deltaCr, tm.deltaHr, tm.w.rt) >= 0.0
  {
    var l1, l2 := lab1[0], lab2[0];
    var p := PrimedTerms(m, lab1, lab2);
    var h := HueTerms(m, p);
    var w := WeightTerms(m, (l1 + l2) / 2.0, (p.cPrime1 + p.cPrime2) / 2.0, h.barhPrime);

    var deltaLPrime := l2 - l1;
    var deltaCPrime := p.cPrime2 - p.cPrime1;
    var deltaLr := deltaLPrime / (KL * w.sl);
    var deltaCr := deltaCPrime / (KC * w.sc);
    var deltaHr := h.deltaHPrime / (KH * w.sh);
    RadicandNonNegative(deltaLr, deltaCr, deltaHr, w.rt);

    Terms(p, h, w, deltaLPrime, deltaCPrime, deltaLr, deltaCr, deltaHr,
          Radicand(deltaLr, deltaCr, deltaHr, w.rt))
  }

  /** `deltaE2000`: the CIEDE2000 difference of two Lab colours. */
  function DeltaE2000(m: Math, lab1: Vec3, lab2: Vec3): (r: real)
    requires Lawful(m)
    ensures r >= 0.0
  {
    m.sqrt(DeltaE2000Terms(m, lab1, lab2).radicand)
  }

  /** A colour has no difference from itself. */
  lemma SelfDifferenceIsZero(m: Math, lab: Vec3)
    requires Lawful(m)
    ensures DeltaE2000(m, lab, lab) == 0.0
  {
    var tm := DeltaE2000Terms(m, lab, lab);
    assert tm.p.hPrime1 == tm.p.hPrime2;
    assert tm.h.deltaHPrime == 0.0;
    assert tm.deltaLPrime == 0.0 && tm.deltaCPrime == 0.0;
    assert tm.radicand == 0.0;
  }

  /** Delta h' is antisymmetric in the two hues. */
  lemma DeltaHuePrimeIsAntisymmetric(m: Math, cPrimeSum: real, h1: real, h2: real)
    requires Lawful(m)
    ensures DeltaHuePrime(m, cPrimeSum, h2, h1) == -DeltaHuePrime(m, cPrimeSum, h1, h2)
  {
  }

  /** The mean hue is symmetric in the two hues. */
  lemma MeanHuePrimeIsSymmetric(m: Math, cPrimeSum: real, h1: real, h2: real)
    requires Lawful(m)
    ensures MeanHuePrime(m, cPrimeSum, h2, h1) == MeanHuePrime(m, cPrimeSum, h1, h2)
  {
  }

  lemma NegatedFactor(x: real, y: real)
    ensures 2.0 * x * (-y) == -(2.0 * x * y)
  {
  }

  /** Swapping the colours swaps the primed terms and negates both hue
      differences, keeping the mean hue. */
  lemma HuesOfSwapped(m: Math, lab1: Vec3, lab2: Vec3)
    requires Lawful(m)
    ensures DeltaE2000Terms(m, lab2, lab1).p == SwapPrimed(DeltaE2000Terms(m, lab1, lab2).p)
    ensures var h := DeltaE2000Terms(m, lab1, lab2).h;
      DeltaE2000Terms(m, lab2, lab1).h == Hues(-h.deltahPrime, -h.deltaHPrime, h.barhPrime)
  {
    var tm := DeltaE2000Terms(m, lab1, lab2);
    PrimedTermsOfSwapped(m, lab1, lab2);
    HueTermsOfSwapped(m, tm.p);
  }

  /** Swapping the colours negates Delta L' and Delta C' and leaves every
      weight unchanged. */
  lemma WeightsOfSwapped(m: Math, lab1: Vec3, lab2: Vec3)
    requires Lawful(m)
    ensures DeltaE2000Terms(m, lab2, lab1).w == DeltaE2000Terms(m, lab1, lab2).w
    ensures DeltaE2000Terms(m, lab2, lab1).deltaLPrime == -DeltaE2000Terms(m, lab1, lab2).deltaLPrime
    ensures DeltaE2000Terms(m, lab2, lab1).deltaCPrime == -DeltaE2000Terms(m, lab1, lab2).deltaCPrime
  {
    HuesOfSwapped(m, lab1, lab2);
  }

  /** Swapping the colours negates the three weighted differences and
      leaves the rotation term unchanged. */
  lemma ReducedTermsOfSwapped(m: Math, lab1: Vec3, lab2: Vec3)
    requires Lawful(m)
    ensures DeltaE2000Terms(m, lab2, lab1).deltaLr == -DeltaE2000Terms(m, lab1, lab2).deltaLr
    ensures DeltaE2000Terms(m, lab2, lab1).deltaCr == -DeltaE2000Terms(m, lab1, lab2).deltaCr
    ensures DeltaE2000Terms(m, lab2, lab1).deltaHr == -DeltaE2000Terms(m, lab1, lab2).deltaHr
    ensures DeltaE2000Terms(m, lab2, lab1).w == DeltaE2000Terms(m, lab1, lab2).w
  {
    WeightsOfSwapped(m, lab1, lab2);
    LightnessTermOfSwapped(m, lab1, lab2);
    ChromaTermOfSwapped(m, lab1, lab2);
    HueTermOfSwapped(m, lab1, lab2);
  }

  lemma LightnessTermOfSwapped(m: Math, lab1: Vec3, lab2: Vec3)
    requires Lawful(m)
    ensures DeltaE2000Terms(m, lab2, lab1).deltaLr == -DeltaE2000Terms(m, lab1, lab2).deltaLr
  {
    var tm := DeltaE2000Terms(m, lab1, lab2);
    WeightsOfSwapped(m, lab1, lab2);
    NegatedQuotient(tm.deltaLPrime, KL * tm.w.sl);
  }

  lemma ChromaTermOfSwapped(m: Math, lab1: Vec3, lab2: Vec3)
    requires Lawful(m)
    ensures DeltaE2000Terms(m, lab2, lab1).deltaCr == -DeltaE2000Terms(m, lab1, lab2).deltaCr
  {
    var tm := DeltaE2000Terms(m, lab1, lab2);
    WeightsOfSwapped(m, lab1, lab2);
    NegatedQuotient(tm.deltaCPrime, KC * tm.w.sc);
  }

  lemma HueTermOfSwapped(m: Math, lab1: Vec3, lab2: Vec3)
    requires Lawful(m)
    ensures DeltaE2000Terms(m, lab2, lab1).deltaHr == -DeltaE2000Terms(m, lab1, lab2).deltaHr
  {
    var tm := DeltaE2000Terms(m, lab1, lab2);
    HuesOfSwapped(m, lab1, lab2);
    WeightsOfSwapped(m, lab1, lab2);
    NegatedQuotient(tm.h.deltaHPrime, KH * tm.w.sh);
  }

  /** The difference is symmetric: swapping the colours negates Delta L',
      Delta C', Delta h' and Delta H' and leaves every weight unchanged. */
  lemma DeltaE2000IsSymmetric(m: Math, lab1: Vec3, lab2: Vec3)
    requires Lawful(m)
    ensures DeltaE2000(m, lab1, lab2) == DeltaE2000(m, lab2, lab1)
  {
    var tm, tm' := DeltaE2000Terms(m, lab1, lab2), DeltaE2000Terms(m, lab2, lab1);
    ReducedTermsOfSwapped(m, lab1, lab2);
    RadicandOfNegated(tm.deltaLr, tm.deltaCr, tm.deltaHr, tm.w.rt);
  }
}
