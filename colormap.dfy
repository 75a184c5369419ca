/** The six-stop false-colour ramp black, blue, cyan, green, yellow, red,
    with the `clamp` and `place` normalisation it is indexed by. The free
    function `getRGB` maps a value of [lo, hi] onto the ramp. */
module ColorRamp {
  import opened MathFacts
  import opened ColorTools

  /** `std::min(std::max(v, lo), hi)`: `max` keeps `v` unless `v < lo`, and
      `min` keeps its first argument unless `hi` is smaller. */
  function Clamp(v: real, lo: real, hi: real): (r: real)
    ensures lo <= hi ==> lo <= r <= hi
    ensures lo <= v <= hi ==> r == v
    ensures v < lo <= hi ==> r == lo
    ensures lo <= hi < v ==> r == hi
    ensures lo > hi ==> r == hi
  {
    var atLeastLo := if v < lo then lo else v;
    if hi < atLeastLo then hi else atLeastLo
  }

  /** Clamping twice is clamping once. */
  lemma ClampIsIdempotent(v: real, lo: real, hi: real)
    ensures Clamp(Clamp(v, lo, hi), lo, hi) == Clamp(v, lo, hi)
  {
  }

  /** `place`: the clamped value's relative position in [lo, hi]. The
      source divides 0 by 0 when lo = hi; that case is excluded here and
      handled by the callers. */
  function Place(v: real, lo: real, hi: real): (r: real)
    requires lo != hi
    ensures lo < hi ==> 0.0 <= r <= 1.0
    ensures lo < hi && v <= lo ==> r == 0.0
    ensures lo < hi && v >= hi ==> r == 1.0
    ensures lo > hi ==> r == 1.0
  {
    (Clamp(v, lo, hi) - lo) / (hi - lo)
  }

  /** `place` never decreases as its argument grows. */
  lemma PlaceIsMonotone(v: real, v': real, lo: real, hi: real)
    requires lo != hi && v <= v'
    ensures Place(v, lo, hi) <= Place(v', lo, hi)
  {
    if lo < hi {
      var c, c' := Clamp(v, lo, hi), Clamp(v', lo, hi);
      assert c <= c';
      assert (c - lo) / (hi - lo) <= (c' - lo) / (hi - lo) by {
        DivideIsMonotone(c - lo, c' - lo, hi - lo);
      }
    }
  }

  lemma DivideIsMonotone(x: real, x': real, d: real)
    requires x <= x' && d > 0.0
    ensures x / d <= x' / d
  {
    assert x' / d - x / d == (x' - x) / d;
  }

  /** The ramp's colours, in order. */
  const Stops: seq<Vec3> := [
    [0.0, 0.0, 0.0],
    [0.0, 0.0, 1.0],
    [0.0, 1.0, 1.0],
    [0.0, 1.0, 0.0],
    [1.0, 1.0, 0.0],
    [1.0, 0.0, 0.0]]

  const Black: Vec3 := Stops[0]
  const Red: Vec3 := Stops[5]

  /** Stop `i` sits at `i / 5`. */
  function StopPos(i: int): real
  {
    i as real / 5.0
  }

  /** The search loop from stop `i` on: the first stop `j >= i`, `j <= 5`,
      with `t <= j / 5`, or 6 when none qualifies. */
  function SegmentFrom(t: real, i: nat): (j: nat)
    requires 1 <= i <= 6
    ensures i <= j <= 6
    ensures j <= 5 ==> t <= StopPos(j)
    ensures forall k :: i <= k < j ==> t > StopPos(k)
    decreases 6 - i
  {
    if i == 6 then 6
    else if t <= StopPos(i) then i
    else SegmentFrom(t, i + 1)
  }

  /** The segment the ramp takes for `t`: its upper stop, or 6 for the
      fall-through. */
  function Segment(t: real): (j: nat)
    ensures 1 <= j <= 6
  {
    SegmentFrom(t, 1)
  }

  /** The segment of `t` is the stop at or above `t` whose predecessor is
      below `t`: both stops bracket `t` on every segment but the first. */
  lemma SegmentBrackets(t: real)
    ensures Segment(t) <= 5 <==> t <= 1.0
    ensures Segment(t) <= 5 ==> t <= StopPos(Segment(t))
    ensures 2 <= Segment(t) ==> StopPos(Segment(t) - 1) < t
    ensures Segment(t) == 1 <==> t <= StopPos(1)
  {
    var j := Segment(t);
    if j == 6 {
      assert t > StopPos(5);
    }
    if j >= 2 {
      assert t > StopPos(j - 1);
    }
  }

  /** The convex combination `w hi + (1 - w) lo`, channel by channel. */
  function Blend(w: real, lo: Vec3, hi: Vec3): Vec3
  {
    [w * hi[0] + (1.0 - w) * lo[0],
     w * hi[1] + (1.0 - w) * lo[1],
     w * hi[2] + (1.0 - w) * lo[2]]
  }

  /** The weight of the upper stop within segment `j`. */
  function SegmentWeight(t: real, j: nat): (w: real)
    requires 1 <= j <= 5
    ensures 0.0 <= w <= 1.0
  {
    Place(t, StopPos(j - 1), StopPos(j))
  }

  /** The ramp colour at normalised position `t`: the stops of the
      segment blended by `t`'s place between them, and the last stop when
      the search falls through. */
  function RampColor(t: real): Vec3
  {
    var j := Segment(t);
    if j == 6 then Red
    else Blend(SegmentWeight(t, j), Stops[j - 1], Stops[j])
  }

  /** `getRGB(v, lo, hi)`. When lo = hi, `place` returns NaN, which fails
      every `<=` test, so the search falls through to the last stop. */
  function RangeColor(v: real, lo: real, hi: real): Vec3
  {
    if lo == hi then Red else RampColor(Place(v, lo, hi))
  }

  /** Positions at or below 0 give black: the first segment, weight 0. */
  lemma RampColorBelowZero(t: real)
    requires t <= 0.0
    ensures RampColor(t) == Black
  {
    assert Segment(t) == 1;
  }

  /** Positions at or above 1 give red: the last segment with weight 1,
      or the fall-through. */
  lemma RampColorAboveOne(t: real)
    requires t >= 1.0
    ensures RampColor(t) == Red
  {
    SegmentBrackets(t);
    if Segment(t) <= 5 {
      assert Segment(t) == 5;
    }
  }

  /** At `k / 5` the ramp is exactly stop `k`. */
  lemma RampColorAtStop(k: nat)
    requires k <= 5
    ensures RampColor(StopPos(k)) == Stops[k]
  {
    var t := StopPos(k);
    SegmentBrackets(t);
    if k == 0 {
      assert Segment(t) == 1;
    } else {
      assert Segment(t) == k;
    }
  }

  /** Halfway along the ramp lies the midpoint of cyan and green. */
  lemma RampColorAtMiddle()
    ensures RampColor(0.5) == [0.0, 1.0, 0.5]
  {
    SegmentBrackets(0.5);
    assert Segment(0.5) == 3;
    assert Place(0.5, StopPos(2), StopPos(3)) == 0.5;
  }

  lemma ProductNonNegative(x: real, y: real)
    requires x >= 0.0 && y >= 0.0
    ensures x * y >= 0.0
  {
  }

  /** A weight in [0, 1] blends two values of [0, 1] into [0, 1], between them. */
  lemma BlendChannelInRange(w: real, a: real, b: real)
    requires 0.0 <= w <= 1.0 && 0.0 <= a <= 1.0 && 0.0 <= b <= 1.0
    ensures 0.0 <= w * b + (1.0 - w) * a <= 1.0
    ensures a <= b ==> a <= w * b + (1.0 - w) * a <= b
    ensures b <= a ==> b <= w * b + (1.0 - w) * a <= a
  {
    ProductNonNegative(w, b);
    ProductNonNegative(1.0 - w, a);
    ProductNonNegative(w, 1.0 - b);
    ProductNonNegative(1.0 - w, 1.0 - a);
    if a <= b {
      ProductNonNegative(w, b - a);
      ProductNonNegative(1.0 - w, b - a);
    } else {
      ProductNonNegative(w, a - b);
      ProductNonNegative(1.0 - w, a - b);
    }
  }

  /** Every ramp colour is a convex combination of two consecutive stops
      (a single stop for the fall-through); hence every channel lies in [0, 1]. */
  lemma RampColorIsConvex(t: real)
    ensures Segment(t) <= 5 ==>
      RampColor(t) == Blend(SegmentWeight(t, Segment(t)), Stops[Segment(t) - 1], Stops[Segment(t)])
    ensures Segment(t) == 6 ==> RampColor(t) == Red
    ensures forall c :: 0 <= c < 3 ==> 0.0 <= RampColor(t)[c] <= 1.0
  {
    var j := Segment(t);
    if j <= 5 {
      var w := SegmentWeight(t, j);
      var lo, hi := Stops[j - 1], Stops[j];
      BlendChannelInRange(w, lo[0], hi[0]);
      BlendChannelInRange(w, lo[1], hi[1]);
      BlendChannelInRange(w, lo[2], hi[2]);
    }
  }

  /** After `place` by a non-degenerate interval the search always stops
      at a segment: its fall-through is unreachable. */
  lemma PlacedValueFindsSegment(v: real, lo: real, hi: real)
    requires lo != hi
    ensures Segment(Place(v, lo, hi)) <= 5
  {
    SegmentBrackets(Place(v, lo, hi));
  }

  /** `getRGB` gives black at or below `lo`, red at or above `hi`, and red
      for a reversed or empty interval. */
  lemma RangeColorEnds(v: real, lo: real, hi: real)
    ensures lo < hi && v <= lo ==> RangeColor(v, lo, hi) == Black
    ensures lo < hi && v >= hi ==> RangeColor(v, lo, hi) == Red
    ensures lo >= hi ==> RangeColor(v, lo, hi) == Red
  {
    if lo != hi {
      var t := Place(v, lo, hi);
      if t <= 0.0 { RampColorBelowZero(t); }
      if t >= 1.0 { RampColorAboveOne(t); }
    }
  }

  /** On a scale [0, hi] with hi > 0, a non-negative value is black exactly
      when it is 0. */
  lemma RangeColorIsBlackIffZero(v: real, hi: real)
    requires v >= 0.0 && hi > 0.0
    ensures RangeColor(v, 0.0, hi) == Black <==> v == 0.0
  {
    RangeColorEnds(v, 0.0, hi);
    if v > 0.0 {
      QuotientBounds(Clamp(v, 0.0, hi), hi);
      RampColorAboveZeroIsNotBlack(Place(v, 0.0, hi));
    }
  }

  /** Every channel of `getRGB` lies in [0, 1], whatever the interval. */
  lemma RangeColorInUnit(v: real, lo: real, hi: real)
    ensures forall c :: 0 <= c < 3 ==> 0.0 <= RangeColor(v, lo, hi)[c] <= 1.0
  {
    if lo != hi {
      RampColorIsConvex(Place(v, lo, hi));
    }
  }

  /** Only positions at or below 0 are black: every segment above 0 keeps
      one channel positive. */
  lemma RampColorAboveZeroIsNotBlack(t: real)
    requires t > 0.0
    ensures RampColor(t) != Black
  {
    var j := Segment(t);
    SegmentBrackets(t);
    if j == 1 {
      assert StopPos(0) == 0.0 && StopPos(1) == 0.2;
      var c := Clamp(t, 0.0, 0.2);
      assert c > 0.0;
      assert SegmentWeight(t, 1) == c / 0.2;
      assert RampColor(t)[2] == SegmentWeight(t, 1);
    } else if j == 2 {
      assert RampColor(t)[2] == 1.0;
    } else if j == 3 || j == 4 {
      assert RampColor(t)[1] == 1.0;
    } else if j == 5 {
      assert RampColor(t)[0] == 1.0;
    }
  }

  /** The channel loop of the ramp: `rgb[c] = w hi[c] + (1 - w) lo[c]`. */
  method BlendInto(w: real, lo: Vec3, hi: Vec3, rgb: array<real>)
    requires rgb.Length == 3
    modifies rgb
    ensures rgb[..] == Blend(w, lo, hi)
  {
    var c := 0;
    while c < 3
      invariant 0 <= c <= 3
      invariant forall k :: 0 <= k < c ==> rgb[k] == Blend(w, lo, hi)[k]
    {
      rgb[c] := w * hi[c] + (1.0 - w) * lo[c];
      c := c + 1;
    }
  }

  /** The loop filling `values` with the stop positions `i / (n - 1)`. */
  method StopValues() returns (values: array<real>)
    ensures fresh(values) && values.Length == |Stops|
    ensures forall j :: 0 <= j < values.Length ==> values[j] == StopPos(j)
  {
    values := new real[|Stops|];
    var i := 0;
    while i < values.Length
      invariant 0 <= i <= values.Length
      invariant forall j :: 0 <= j < i ==> values[j] == StopPos(j)
    {
      values[i] := i as real / (|Stops| - 1) as real;
      i := i + 1;
    }
  }

  /** The channel loop copying one colour into `rgb`. */
  method SetColor(rgb: array<real>, color: Vec3)
    requires rgb.Length == 3
    modifies rgb
    ensures rgb[..] == color
  {
    var c := 0;
    while c < 3
      invariant 0 <= c <= 3
      invariant forall k :: 0 <= k < c ==> rgb[k] == color[k]
    {
      rgb[c] := color[c];
      c := c + 1;
    }
  }

  /** Segment `j` of the ramp blends its two stops by `t`'s place
      between them. */
  lemma RampColorOnSegment(t: real, j: nat)
    requires 1 <= j <= 5 && Segment(t) == j
    ensures RampColor(t) == Blend(Place(t, StopPos(j - 1), StopPos(j)), Stops[j - 1], Stops[j])
  {
  }

  /** The stop search shared by `getRGB` and `getRGBValue`: the stop
      positions, the first segment whose upper stop is at least `t`, and
      the last stop when none is. A NaN `t` (`comparable` false) fails
      every test and falls through. */
  method SearchRamp(t: real, comparable: bool, rgb: array<real>)
    requires rgb.Length == 3
    modifies rgb
    ensures rgb[..] == if comparable then RampColor(t) else Red
  {
    var scale := Stops;
    var values := StopValues();
    var i := 1;
    while i < values.Length
      invariant 1 <= i <= values.Length
      invariant comparable ==> Segment(t) == SegmentFrom(t, i)
    {
      if comparable && t <= values[i] {
        var interp := Place(t, values[i - 1], values[i]);
        BlendInto(interp, scale[i - 1], scale[i], rgb);
        RampColorOnSegment(t, i);
        return;
      }
      i := i + 1;
    }

    SetColor(rgb, scale[|scale| - 1]);
  }

  /** `getRGB`: writes the ramp colour of `v` relative to [vMin, vMax]
      into `rgb`. */
  method GetRgb(v: real, vMin: real, vMax: real, rgb: array<real>)
    requires rgb.Length == 3
    modifies rgb
    ensures rgb[..] == RangeColor(v, vMin, vMax)
  {
    // place(v, vMin, vMin) is 0/0, a NaN
    var isNaN := vMin == vMax;
    var t := if isNaN then 0.0 else Place(v, vMin, vMax);
    SearchRamp(t, !isNaN, rgb);
  }
}
