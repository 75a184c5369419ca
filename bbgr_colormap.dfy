/** `BBGRColorMap`: the six-stop ramp as a colour-map object. Its static
    `clamp` and `place` are the free ones of `ColorRamp`. */
module BbgrColorMaps {
  import opened MathFacts
  import opened ColorTools
  import opened ColorRamp

  /** The colour of the two-value overload, which divides by `hi - lo`
      without clamping. For lo = hi the quotient is -inf below `lo`, which
      takes the first segment and clamps to black, and +inf or NaN
      otherwise, which both fall through to red. */
  function QuotientColor(v: real, lo: real, hi: real): Vec3
  {
    if lo != hi then RampColor((v - lo) / (hi - lo))
    else if v < lo then Black
    else Red
  }

  /** The ramp flattens below 0 and above 1, exactly as `place` clamps:
      so the ramp of any `t` is the ramp of `t` clamped to [0, 1]. */
  lemma RampColorOfClamped(t: real)
    ensures RampColor(t) == RampColor(Clamp(t, 0.0, 1.0))
  {
    if t <= 0.0 {
      assert Clamp(t, 0.0, 1.0) == 0.0;
      RampColorBelowZero(t);
      RampColorBelowZero(0.0);
    } else if t >= 1.0 {
      assert Clamp(t, 0.0, 1.0) == 1.0;
      RampColorAboveOne(t);
      RampColorAboveOne(1.0);
    } else {
      assert Clamp(t, 0.0, 1.0) == t;
    }
  }

  /** For lo < hi the unclamped overload colours every value as `getRGB`. */
  lemma QuotientColorIsRangeColor(v: real, lo: real, hi: real)
    requires lo < hi
    ensures QuotientColor(v, lo, hi) == RangeColor(v, lo, hi)
  {
    var q := (v - lo) / (hi - lo);
    QuotientBounds(v - lo, hi - lo);
    if v <= lo {
      assert q <= 0.0;
      assert Place(v, lo, hi) == 0.0;
      RampColorBelowZero(0.0);
      RampColorBelowZero(q);
    } else if v >= hi {
      assert q >= 1.0;
      assert Place(v, lo, hi) == 1.0;
      RampColorAboveOne(1.0);
      RampColorAboveOne(q);
    } else {
      assert Clamp(v, lo, hi) == v;
      assert Place(v, lo, hi) == q;
    }
  }

  class BbgrColorMap {

    constructor()
    {
    }

    /** `getRGBValue(v)`: the ramp loop without normalisation. */
    method GetRgbValue(v: real, rgb: array<real>)
      requires rgb.Length == 3
      modifies rgb
      ensures rgb[..] == RampColor(v)
    {
      SearchRamp(v, true, rgb);
    }

    /** `getRGBValue(v, lo, hi)`: delegates with `(v - lo) / (hi - lo)`. */
    method GetRgbValueIn(v: real, vMin: real, vMax: real, rgb: array<real>)
      requires rgb.Length == 3
      modifies rgb
      ensures rgb[..] == QuotientColor(v, vMin, vMax)
    {
      if vMin != vMax {
        GetRgbValue((v - vMin) / (vMax - vMin), rgb);
      } else {
        // the quotient is -inf below vMin, else +inf or NaN; -1 and 2
        // take the same branches of the search
        GetRgbValue(if v < vMin then -1.0 else 2.0, rgb);
        if v < vMin {
          RampColorBelowZero(-1.0);
        } else {
          RampColorAboveOne(2.0);
        }
      }
    }
  }
}
