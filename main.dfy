/** The body of `main` between loading and encoding: the dimension check,
    the per-pixel difference loop that fills the RGBA output and scales the
    inputs in place, and the optional colour-scale legend on the right.
    The decoded images are inputs; decoding and encoding are not modelled. */
module DiffMain {
  import opened Wrappers
  import opened MathFacts
  import opened CNumeric
  import opened ColorTools
  import opened ColorRamp

  /** Columns of the legend block. */
  const ScaleWidth: nat := 30

  /** `width_out`: the image width, plus the legend when it is shown. */
  function OutWidth(width: nat, displayScale: bool): (wo: nat)
    ensures wo >= width
    ensures wo - width == (if displayScale then ScaleWidth else 0)
  {
    if displayScale then width + ScaleWidth else width
  }

  // ---------------------------------------------------------------------
  // Indexing of the RGBA output

  /** First byte of output pixel (x, y): `4 (y width_out + x)`. */
  function OutIndex(x: nat, y: nat, wo: nat): nat
  {
    4 * (y * wo + x)
  }

  /** The four bytes of output pixel (x, y), or none if they are not all
      inside the buffer. */
  function OutPixel(out: seq<Byte>, x: nat, y: nat, wo: nat): (px: seq<Byte>)
    ensures |px| == 4 ==> OutIndex(x, y, wo) + 4 <= |out|
  {
    var i := OutIndex(x, y, wo);
    if i + 4 <= |out| then out[i..i + 4] else []
  }

  lemma MulIsMonotone(a: nat, b: nat, c: nat)
    requires a <= b
    ensures a * c <= b * c
  {
    var d := b - a;
    assert b * c == a * c + d * c;
  }

  /** A pixel of a `w`-wide raster of `h` rows precedes the end of row `h - 1`. */
  lemma PixelBelowEnd(x: nat, y: nat, w: nat, h: nat)
    requires x < w && y < h
    ensures y * w + x < h * w
    ensures y * w + x < w * h
  {
    assert y * w + x < (y + 1) * w;
    MulIsMonotone(y + 1, h, w);
  }

  /** Every write index is inside the `width_out height 4` buffer. */
  lemma OutIndexInBounds(x: nat, y: nat, wo: nat, h: nat)
    requires x < wo && y < h
    ensures OutIndex(x, y, wo) + 4 <= wo * h * 4
  {
    PixelBelowEnd(x, y, wo, h);
  }

  /** Pixels of earlier rows lie wholly before every pixel of later rows,
      and within a row earlier columns before later ones: the four-byte
      blocks of distinct pixels are disjoint. */
  lemma BlocksAreOrdered(x: nat, y: nat, x': nat, y': nat, wo: nat)
    requires x < wo && x' < wo
    requires y < y' || (y == y' && x < x')
    ensures OutIndex(x, y, wo) + 4 <= OutIndex(x', y', wo)
  {
    if y < y' {
      PixelBelowEnd(x, y, wo, y');
    }
  }

  /** A row ends where the next begins: an index up to the end of row `y`
      is at most any index of a later row. */
  lemma RowsAreOrdered(x: nat, y: nat, x': nat, y': nat, wo: nat)
    requires x <= wo && y < y'
    ensures OutIndex(x, y, wo) <= OutIndex(x', y', wo)
  {
    assert (y + 1) * wo == y * wo + wo;
    MulIsMonotone(y + 1, y', wo);
  }

  /** A pixel whose block lies outside the written range keeps its bytes. */
  lemma OutPixelUnchanged(s: seq<Byte>, s': seq<Byte>, x: nat, y: nat, wo: nat, lo: nat, hi: nat)
    requires |s| == |s'|
    requires forall j :: 0 <= j < |s| && !(lo <= j < hi) ==> s'[j] == s[j]
    requires OutIndex(x, y, wo) + 4 <= lo || hi <= OutIndex(x, y, wo)
    ensures OutPixel(s', x, y, wo) == OutPixel(s, x, y, wo)
  {
    var i := OutIndex(x, y, wo);
    if i + 4 <= |s| {
      assert forall j :: i <= j < i + 4 ==> s'[j] == s[j];
      assert s'[i..i + 4] == s[i..i + 4];
    }
  }

  /** Every pixel number of a `wo`-wide raster of `h` rows is a column
      and a row of it. */
  lemma PixelOwner(p: nat, wo: nat, h: nat) returns (x: nat, y: nat)
    requires p < wo * h
    ensures x < wo && y < h && p == y * wo + x
  {
    if wo == 0 {
      assert false;
    }
    y := p / wo;
    x := p % wo;
    if y >= h {
      MulIsMonotone(h, y, wo);
      assert false;
    }
  }

  /** Every byte of the buffer belongs to a pixel of the raster. */
  lemma ByteOwner(i: nat, wo: nat, h: nat) returns (x: nat, y: nat, c: nat)
    requires i < wo * h * 4
    ensures x < wo && y < h && c < 4
    ensures i == OutIndex(x, y, wo) + c
  {
    var p := i / 4;
    c := i % 4;
    assert wo * h * 4 == 4 * (wo * h);
    x, y := PixelOwner(p, wo, h);
  }

  /** ... and to only one: pixel and channel are determined by the byte. */
  lemma ByteOwnerIsUnique(x: nat, y: nat, c: nat, x': nat, y': nat, c': nat, wo: nat)
    requires x < wo && x' < wo && c < 4 && c' < 4
    requires OutIndex(x, y, wo) + c == OutIndex(x', y', wo) + c'
    ensures x == x' && y == y' && c == c'
  {
    if y' < y || (y' == y && x' < x) {
      BlocksAreOrdered(x', y', x, y, wo);
    } else if y < y' || (y == y' && x < x') {
      BlocksAreOrdered(x, y, x', y', wo);
    }
  }

  // ---------------------------------------------------------------------
  // What each pixel receives

  /** `(unsigned char)(255 c)` per colour channel, and alpha 255. */
  function PixelBytes(color: Vec3): (px: seq<Byte>)
    requires forall c :: 0 <= c < 3 ==> 0.0 <= color[c] <= 1.0
    ensures |px| == 4 && px[3] == 255
    ensures forall c :: 0 <= c < 3 ==> px[c] as real <= 255.0 * color[c] < px[c] as real + 1.0
  {
    [ToByte(color[0]), ToByte(color[1]), ToByte(color[2]), 255]
  }

  /** Pixel `o` of an RGBA buffer after exposure compensation by `k`. */
  function ExposedRgb(m: Math, s: seq<real>, o: nat, k: real): Vec3
    requires 4 * o + 4 <= |s|
  {
    [m.fmul(s[4 * o], k), m.fmul(s[4 * o + 1], k), m.fmul(s[4 * o + 2], k)]
  }

  /** The map colour of the CIEDE2000 difference of two linear RGB pixels,
      on the scale [0, max_deltaE]: `getRGB(deltaE, 0, max_deltaE)`. */
  function DiffColor(m: Math, p1: Vec3, p2: Vec3, maxDeltaE: real): (color: Vec3)
    requires Lawful(m)
    ensures forall c :: 0 <= c < 3 ==> 0.0 <= color[c] <= 1.0
  {
    var deltaE := DeltaE2000(m, LinearToLab(m, p1), LinearToLab(m, p2));
    RangeColorInUnit(deltaE, 0.0, maxDeltaE);
    RangeColor(deltaE, 0.0, maxDeltaE)
  }

  /** The bytes the image pixel at input offset `o` receives. */
  function OffsetPixel(m: Math, s1: seq<real>, s2: seq<real>, o: nat, k: real, maxDeltaE: real): (px: seq<Byte>)
    requires Lawful(m) && 4 * o + 4 <= |s1| && 4 * o + 4 <= |s2|
    ensures |px| == 4 && px[3] == 255
  {
    PixelBytes(DiffColor(m, ExposedRgb(m, s1, o, k), ExposedRgb(m, s2, o, k), maxDeltaE))
  }

  /** The bytes image pixel (x, y) receives from the original buffers. */
  function ImagePixel(m: Math, s1: seq<real>, s2: seq<real>, x: nat, y: nat, w: nat, h: nat,
                      k: real, maxDeltaE: real): (px: seq<Byte>)
    requires Lawful(m) && x < w && y < h
    requires |s1| >= 4 * w * h && |s2| >= 4 * w * h
    ensures |px| == 4 && px[3] == 255
  {
    PixelBelowEnd(x, y, w, h);
    OffsetPixel(m, s1, s2, y * w + x, k, maxDeltaE)
  }

  /** `expected` lists the bytes of the first `|expected|` image pixels.
      The loops below speak of `expected` only, so that the colour
      computation is unfolded in the pixel step alone. */
  ghost predicate Tabulates(expected: seq<seq<Byte>>, m: Math, s1: seq<real>, s2: seq<real>,
                            k: real, maxDeltaE: real)
  {
    && Lawful(m) && 4 * |expected| <= |s1| && 4 * |expected| <= |s2|
    && forall o {:trigger OffsetPixel(m, s1, s2, o, k, maxDeltaE)} :: 0 <= o < |expected| ==>
         expected[o] == OffsetPixel(m, s1, s2, o, k, maxDeltaE)
  }

  /** The table of every image pixel's bytes, by input offset. */
  ghost function ImageTable(m: Math, s1: seq<real>, s2: seq<real>, n: nat, k: real, maxDeltaE: real)
    : (t: seq<seq<Byte>>)
    requires Lawful(m) && 4 * n <= |s1| && 4 * n <= |s2|
    ensures |t| == n && Tabulates(t, m, s1, s2, k, maxDeltaE)
  {
    seq(n, o requires 0 <= o < n => OffsetPixel(m, s1, s2, o, k, maxDeltaE))
  }

  /** Entry `o` of a table, or nothing past its end. */
  function Entry(t: seq<seq<Byte>>, o: nat): seq<Byte>
  {
    if o < |t| then t[o] else []
  }

  /** `float(height - y) / float(height - 1)`. For a single row this is
      1 / 0, +inf, which `place` clamps to 1 like any value above 1. */
  function LegendValue(y: nat, h: nat): (v: real)
    requires y < h
    ensures v > 0.0
    ensures y == 0 ==> v >= 1.0
  {
    if h == 1 then 1.0
    else
      QuotientBounds((h - y) as real, (h - 1) as real);
      (h - y) as real / (h - 1) as real
  }

  /** The legend colour of row `y`: `getRGB(v, 0, 1)`. */
  function LegendColor(y: nat, h: nat): (color: Vec3)
    requires y < h
    ensures forall c :: 0 <= c < 3 ==> 0.0 <= color[c] <= 1.0
  {
    RangeColorInUnit(LegendValue(y, h), 0.0, 1.0);
    RangeColor(LegendValue(y, h), 0.0, 1.0)
  }

  function LegendPixel(y: nat, h: nat): (px: seq<Byte>)
    requires y < h
    ensures |px| == 4 && px[3] == 255
  {
    PixelBytes(LegendColor(y, h))
  }

  /** The legend bytes of every row. */
  function LegendTable(h: nat): (t: seq<seq<Byte>>)
    ensures |t| == h
    ensures forall y :: 0 <= y < h ==> t[y] == LegendPixel(y, h)
  {
    seq(h, y requires 0 <= y < h => LegendPixel(y, h))
  }

  /** Value `i` of an RGBA buffer after the image loop has exposure-scaled
      its first `n` pixels: channels 0..2 of each replaced by the exposure
      product with `k`, alpha and later pixels untouched. */
  function ExposedValue(m: Math, s: seq<real>, n: nat, k: real, i: nat): real
    requires i < |s|
  {
    if i < 4 * n && i % 4 < 3 then m.fmul(s[i], k) else s[i]
  }

  /** `a` is the buffer `s` with its first `n` pixels exposure-scaled. */
  ghost predicate IsExposed(m: Math, a: seq<real>, s: seq<real>, n: nat, k: real)
  {
    |a| == |s| && forall i :: 0 <= i < |s| ==> a[i] == ExposedValue(m, s, n, k, i)
  }

  /** The buffer `s` with its first `n` pixels exposure-scaled. */
  function ExposedUpTo(m: Math, s: seq<real>, n: nat, k: real): (r: seq<real>)
    ensures |r| == |s|
  {
    seq(|s|, i requires 0 <= i < |s| => ExposedValue(m, s, n, k, i))
  }

  /** A buffer that is exposure-scaled up to pixel `n` is that stage. */
  lemma IsExposedUpTo(m: Math, a: seq<real>, s: seq<real>, n: nat, k: real)
    requires IsExposed(m, a, s, n, k)
    ensures a == ExposedUpTo(m, s, n, k)
  {
  }

  /** Before any pixel is scaled the buffer is as decoded. */
  lemma ExposedNone(m: Math, s: seq<real>, k: real)
    ensures IsExposed(m, s, s, 0, k)
    ensures ExposedUpTo(m, s, 0, k) == s
  {
    IsExposedUpTo(m, s, s, 0, k);
  }

  /** Scaling pixel `n` changes its three colour values to the exposure
      product of the decoded ones with `k`, and no other value. */
  lemma ExposedValueStep(m: Math, s: seq<real>, n: nat, k: real, i: nat)
    requires 4 * n + 4 <= |s| && i < |s|
    ensures ExposedValue(m, s, n + 1, k, i) ==
      if 4 * n <= i < 4 * n + 3 then m.fmul(s[i], k) else ExposedValue(m, s, n, k, i)
  {
    if i == 4 * n + 3 {
      assert i % 4 == 3;
    } else if 4 * n <= i < 4 * n + 3 {
      assert i % 4 == i - 4 * n;
    }
  }

  /** Scaling the three colour values of pixel `n` in place takes the
      buffer from stage `n` to stage `n + 1`, and leaves the exposed colour
      of pixel `n` in them. */
  lemma ExposedStep(m: Math, s: seq<real>, n: nat, k: real, cur: seq<real>, next: seq<real>)
    requires 4 * n + 4 <= |s| && IsExposed(m, cur, s, n, k) && |next| == |s|
    requires forall i :: 0 <= i < |next| ==> next[i] == if 4 * n <= i < 4 * n + 3 then m.fmul(cur[i], k) else cur[i]
    ensures IsExposed(m, next, s, n + 1, k)
    ensures next[4 * n .. 4 * n + 3] == ExposedRgb(m, s, n, k)
  {
    forall i | 0 <= i < |s|
      ensures next[i] == ExposedValue(m, s, n + 1, k, i)
    {
      ExposedValueStep(m, s, n, k, i);
    }
  }

  /** After `n` pixels are scaled, the colour of each of them is the decoded
      colour times `k` and its alpha is kept; later pixels are as decoded. */
  lemma ExposedPixelIsScaled(m: Math, s: seq<real>, n: nat, k: real, o: nat)
    requires Lawful(m) && 4 * o + 4 <= |s|
    ensures o < n ==> ExposedUpTo(m, s, n, k)[4 * o .. 4 * o + 3] == Scale(k, s[4 * o .. 4 * o + 3])
    ensures o < n ==> ExposedUpTo(m, s, n, k)[4 * o + 3] == s[4 * o + 3]
    ensures n <= o ==> ExposedUpTo(m, s, n, k)[4 * o .. 4 * o + 4] == s[4 * o .. 4 * o + 4]
  {
    if o < n {
      ScaledPixel(m, s, n, k, o);
      ExposedXyzIsScaled(m, s, o, k);
    } else {
      UnscaledPixel(m, s, n, k, o);
    }
  }

  /** A scaled pixel of the buffer holds its exposed colour. */
  lemma ScaledPixel(m: Math, s: seq<real>, n: nat, k: real, o: nat)
    requires 4 * o + 4 <= |s| && o < n
    ensures ExposedUpTo(m, s, n, k)[4 * o .. 4 * o + 3] == ExposedRgb(m, s, o, k)
    ensures ExposedUpTo(m, s, n, k)[4 * o + 3] == s[4 * o + 3]
  {
    var e := ExposedUpTo(m, s, n, k);
    var got, want := e[4 * o .. 4 * o + 3], ExposedRgb(m, s, o, k);
    ExposedChannel(m, s, n, k, o, 0);
    ExposedChannel(m, s, n, k, o, 1);
    ExposedChannel(m, s, n, k, o, 2);
    ExposedChannel(m, s, n, k, o, 3);
    assert got[0] == want[0] && got[1] == want[1] && got[2] == want[2];
  }

  lemma UnscaledPixel(m: Math, s: seq<real>, n: nat, k: real, o: nat)
    requires 4 * o + 4 <= |s| && n <= o
    ensures ExposedUpTo(m, s, n, k)[4 * o .. 4 * o + 4] == s[4 * o .. 4 * o + 4]
  {
    var e := ExposedUpTo(m, s, n, k);
    ExposedChannel(m, s, n, k, o, 0);
    ExposedChannel(m, s, n, k, o, 1);
    ExposedChannel(m, s, n, k, o, 2);
    ExposedChannel(m, s, n, k, o, 3);
    assert e[4 * o .. 4 * o + 4] == [e[4 * o], e[4 * o + 1], e[4 * o + 2], e[4 * o + 3]];
    assert s[4 * o .. 4 * o + 4] == [s[4 * o], s[4 * o + 1], s[4 * o + 2], s[4 * o + 3]];
  }

  /** Channel `c` of pixel `o` after `n` pixels are scaled. */
  lemma ExposedChannel(m: Math, s: seq<real>, n: nat, k: real, o: nat, c: nat)
    requires c < 4 && 4 * o + 4 <= |s|
    ensures ExposedUpTo(m, s, n, k)[4 * o + c] == if o < n && c < 3 then m.fmul(s[4 * o + c], k) else s[4 * o + c]
  {
    assert (4 * o + c) % 4 == c;
    assert 4 * o + c < 4 * n <==> o < n;
  }

  /** The exposed colour is the decoded colour times `k`, so its XYZ value is
      the decoded colour's XYZ value times `k`. */
  lemma ExposedXyzIsScaled(m: Math, s: seq<real>, o: nat, k: real)
    requires Lawful(m) && 4 * o + 4 <= |s|
    ensures ExposedRgb(m, s, o, k) == Scale(k, s[4 * o .. 4 * o + 3])
    ensures ToXyz(ExposedRgb(m, s, o, k)) == Scale(k, ToXyz(s[4 * o .. 4 * o + 3]))
  {
    var rgb := s[4 * o .. 4 * o + 3];
    var got, scaled := ExposedRgb(m, s, o, k), Scale(k, rgb);
    assert rgb[0] == s[4 * o] && rgb[1] == s[4 * o + 1] && rgb[2] == s[4 * o + 2];
    assert got[0] == k * rgb[0] && got[1] == k * rgb[1] && got[2] == k * rgb[2];
    assert scaled[0] == k * rgb[0] && scaled[1] == k * rgb[1] && scaled[2] == k * rgb[2];
    ToXyzIsLinear(k, rgb, rgb);
  }

  // ---------------------------------------------------------------------
  // What a write leaves unchanged

  /** Writing pixel (x, y) keeps the pixels before it in its row. */
  lemma EarlierColumnsKept(before: seq<Byte>, after: seq<Byte>, x: nat, y: nat, w: nat, wo: nat,
                           expected: seq<seq<Byte>>)
    requires |before| == |after|
    requires forall j :: 0 <= j < |after| && !(OutIndex(x, y, wo) <= j < OutIndex(x, y, wo) + 4) ==>
      after[j] == before[j]
    requires forall x' :: 0 <= x' < x ==> OutPixel(before, x', y, wo) == Entry(expected, y * w + x')
    requires OutPixel(after, x, y, wo) == Entry(expected, y * w + x)
    ensures forall x' :: 0 <= x' < x + 1 ==> OutPixel(after, x', y, wo) == Entry(expected, y * w + x')
  {
    forall x' | 0 <= x' < x
      ensures OutPixel(after, x', y, wo) == Entry(expected, y * w + x')
    {
      OutPixelUnchanged(before, after, x', y, wo, OutIndex(x, y, wo), OutIndex(x, y, wo) + 4);
    }
  }

  /** Writing the legend pixel (x, y) keeps the legend pixels before it. */
  lemma EarlierFillKept(before: seq<Byte>, after: seq<Byte>, x: nat, y: nat, wo: nat, from: nat,
                        px: seq<Byte>)
    requires |before| == |after|
    requires forall j :: 0 <= j < |after| && !(OutIndex(x, y, wo) <= j < OutIndex(x, y, wo) + 4) ==>
      after[j] == before[j]
    requires forall x' :: from <= x' < x ==> OutPixel(before, x', y, wo) == px
    requires OutPixel(after, x, y, wo) == px
    ensures forall x' :: from <= x' < x + 1 ==> OutPixel(after, x', y, wo) == px
  {
    forall x' | from <= x' < x
      ensures OutPixel(after, x', y, wo) == px
    {
      OutPixelUnchanged(before, after, x', y, wo, OutIndex(x, y, wo), OutIndex(x, y, wo) + 4);
    }
  }

  /** Two writes, to [lo, mid) and then to [mid, hi), together change
      nothing outside [lo, hi). */
  lemma WritesCompose(s0: seq<Byte>, s1: seq<Byte>, s2: seq<Byte>, lo: nat, mid: nat, hi: nat)
    requires |s0| == |s1| == |s2| && lo <= mid <= hi
    requires forall j :: 0 <= j < |s1| && !(lo <= j < mid) ==> s1[j] == s0[j]
    requires forall j :: 0 <= j < |s2| && !(mid <= j < hi) ==> s2[j] == s1[j]
    ensures forall j :: 0 <= j < |s2| && !(lo <= j < hi) ==> s2[j] == s0[j]
  {
  }

  /** Writing the image columns of row `y` keeps every earlier row. */
  lemma EarlierRowsKept(before: seq<Byte>, after: seq<Byte>, y: nat, w: nat, wo: nat,
                        expected: seq<seq<Byte>>)
    requires w <= wo && |before| == |after|
    requires forall j :: 0 <= j < |after| && !(OutIndex(0, y, wo) <= j < OutIndex(w, y, wo)) ==>
      after[j] == before[j]
    requires forall y', x' :: 0 <= y' < y && 0 <= x' < w ==>
      OutPixel(before, x', y', wo) == Entry(expected, y' * w + x')
    requires forall x' :: 0 <= x' < w ==> OutPixel(after, x', y, wo) == Entry(expected, y * w + x')
    ensures forall y', x' :: 0 <= y' < y + 1 && 0 <= x' < w ==>
      OutPixel(after, x', y', wo) == Entry(expected, y' * w + x')
  {
    forall y', x' | 0 <= y' < y && 0 <= x' < w
      ensures OutPixel(after, x', y', wo) == Entry(expected, y' * w + x')
    {
      BlocksAreOrdered(x', y', 0, y, wo);
      OutPixelUnchanged(before, after, x', y', wo, OutIndex(0, y, wo), OutIndex(w, y, wo));
    }
  }

  /** Writing the legend columns of row `y` keeps every image pixel. */
  lemma LegendKeepsImage(before: seq<Byte>, after: seq<Byte>, y: nat, w: nat, h: nat, wo: nat)
    requires w <= wo && |before| == |after|
    requires forall j :: 0 <= j < |after| && !(OutIndex(w, y, wo) <= j < OutIndex(wo, y, wo)) ==>
      after[j] == before[j]
    ensures forall y', x' :: 0 <= y' < h && 0 <= x' < w ==>
      OutPixel(after, x', y', wo) == OutPixel(before, x', y', wo)
  {
    forall y', x' | 0 <= y' < h && 0 <= x' < w
      ensures OutPixel(after, x', y', wo) == OutPixel(before, x', y', wo)
    {
      if y' < y {
        BlocksAreOrdered(x', y', 0, y, wo);
      } else if y < y' {
        RowsAreOrdered(wo, y, x', y', wo);
      }
      OutPixelUnchanged(before, after, x', y', wo, OutIndex(w, y, wo), OutIndex(wo, y, wo));
    }
  }

  /** Writing the legend columns of row `y` keeps the earlier legend rows. */
  lemma EarlierLegendRowsKept(before: seq<Byte>, after: seq<Byte>, y: nat, w: nat, wo: nat,
                              legend: seq<seq<Byte>>)
    requires w <= wo && |before| == |after|
    requires forall j :: 0 <= j < |after| && !(OutIndex(w, y, wo) <= j < OutIndex(wo, y, wo)) ==>
      after[j] == before[j]
    requires forall y', x' :: 0 <= y' < y && w <= x' < wo ==> OutPixel(before, x', y', wo) == Entry(legend, y')
    requires forall x' :: w <= x' < wo ==> OutPixel(after, x', y, wo) == Entry(legend, y)
    ensures forall y', x' :: 0 <= y' < y + 1 && w <= x' < wo ==> OutPixel(after, x', y', wo) == Entry(legend, y')
  {
    forall y', x' | 0 <= y' < y && w <= x' < wo
      ensures OutPixel(after, x', y', wo) == Entry(legend, y')
    {
      BlocksAreOrdered(x', y', 0, y, wo);
      OutPixelUnchanged(before, after, x', y', wo, OutIndex(w, y, wo), OutIndex(wo, y, wo));
    }
  }

  // ---------------------------------------------------------------------
  // The loops

  /** The exposure loop of one pixel: its three colour values in both
      input buffers replaced in place by their exposure product with `k`,
      which `Lawful` makes the values times `k`. */
  method ExposePixel(m: Math, rgba1: array<real>, rgba2: array<real>, o: nat, k: real)
    requires rgba1 != rgba2 && 4 * o + 4 <= rgba1.Length && 4 * o + 4 <= rgba2.Length
    modifies rgba1, rgba2
    ensures forall i :: 0 <= i < rgba1.Length ==>
      rgba1[i] == if 4 * o <= i < 4 * o + 3 then m.fmul(old(rgba1[i]), k) else old(rgba1[i])
    ensures forall i :: 0 <= i < rgba2.Length ==>
      rgba2[i] == if 4 * o <= i < 4 * o + 3 then m.fmul(old(rgba2[i]), k) else old(rgba2[i])
    ensures Lawful(m) ==> forall i :: 4 * o <= i < 4 * o + 3 ==>
      rgba1[i] == k * old(rgba1[i]) && rgba2[i] == k * old(rgba2[i])
  {
    var c := 0;
    while c < 3
      invariant 0 <= c <= 3
      invariant forall i :: 0 <= i < rgba1.Length ==>
        rgba1[i] == if 4 * o <= i < 4 * o + c then m.fmul(old(rgba1[i]), k) else old(rgba1[i])
      invariant forall i :: 0 <= i < rgba2.Length ==>
        rgba2[i] == if 4 * o <= i < 4 * o + c then m.fmul(old(rgba2[i]), k) else old(rgba2[i])
    {
      rgba1[4 * o + c] := m.fmul(rgba1[4 * o + c], k);
      rgba2[4 * o + c] := m.fmul(rgba2[4 * o + c], k);
      c := c + 1;
    }
  }

  /** The loop setting the colour bytes of one pixel, then its alpha. */
  method WritePixel(out: array<Byte>, at: nat, color: Vec3)
    requires at + 4 <= out.Length
    requires forall c :: 0 <= c < 3 ==> 0.0 <= color[c] <= 1.0
    modifies out
    ensures out[at..at + 4] == PixelBytes(color)
    ensures forall j :: 0 <= j < out.Length && !(at <= j < at + 4) ==> out[j] == old(out[j])
  {
    var c := 0;
    while c < 3
      invariant 0 <= c <= 3
      invariant forall j :: 0 <= j < c ==> out[at + j] == ToByte(color[j])
      invariant forall j :: 0 <= j < out.Length && !(at <= j < at + c) ==> out[j] == old(out[j])
    {
      out[at + c] := ToByte(color[c]);
      c := c + 1;
    }
    out[at + 3] := 255;
  }

  /** `&rgba[4 offset]` read as an RGB triple. */
  method ReadPixel(rgba: array<real>, o: nat) returns (px: array<real>)
    requires 4 * o + 4 <= rgba.Length
    ensures fresh(px) && px.Length == 3
    ensures px[..] == rgba[4 * o .. 4 * o + 3]
  {
    px := new real[3];
    px[0], px[1], px[2] := rgba[4 * o], rgba[4 * o + 1], rgba[4 * o + 2];
  }

  /** Lab conversion of both pixels and their CIEDE2000 difference. */
  method PixelDeltaE(m: Math, px1: array<real>, px2: array<real>) returns (deltaE: real)
    requires Lawful(m) && px1.Length == 3 && px2.Length == 3
    ensures deltaE == DeltaE2000(m, LinearToLab(m, px1[..]), LinearToLab(m, px2[..]))
  {
    var lab1 := new real[3];
    var lab2 := new real[3];
    LinRgbToLab(m, px1, lab1);
    LinRgbToLab(m, px2, lab2);
    deltaE := DeltaE2000(m, lab1[..], lab2[..]);
  }

  /** The difference of both pixels and its map colour. */
  method DiffColorOf(m: Math, px1: array<real>, px2: array<real>, maxDeltaE: real)
    returns (scaleRgb: array<real>)
    requires Lawful(m) && px1.Length == 3 && px2.Length == 3
    ensures fresh(scaleRgb) && scaleRgb.Length == 3
    ensures scaleRgb[..] == DiffColor(m, px1[..], px2[..], maxDeltaE)
  {
    var deltaE := PixelDeltaE(m, px1, px2);
    scaleRgb := new real[3];
    GetRgb(deltaE, 0.0, maxDeltaE, scaleRgb);
  }

  /** The table entry at offset `o` is the colour of the exposed pixels. */
  lemma TabulatedPixel(expected: seq<seq<Byte>>, m: Math, s1: seq<real>, s2: seq<real>, o: nat,
                       k: real, maxDeltaE: real, p1: Vec3, p2: Vec3)
    requires Tabulates(expected, m, s1, s2, k, maxDeltaE) && o < |expected|
    requires p1 == ExposedRgb(m, s1, o, k) && p2 == ExposedRgb(m, s2, o, k)
    ensures expected[o] == PixelBytes(DiffColor(m, p1, p2, maxDeltaE))
  {
    assert expected[o] == OffsetPixel(m, s1, s2, o, k, maxDeltaE);
  }

  /** The map colour of two exposed pixels, whose bytes are the table
      entry of their offset. */
  method TabulatedColor(m: Math, px1: array<real>, px2: array<real>, o: nat, k: real, maxDeltaE: real,
                        ghost orig1: seq<real>, ghost orig2: seq<real>, ghost expected: seq<seq<Byte>>)
    returns (scaleRgb: array<real>)
    requires Tabulates(expected, m, orig1, orig2, k, maxDeltaE) && o < |expected|
    requires px1[..] == ExposedRgb(m, orig1, o, k) && px2[..] == ExposedRgb(m, orig2, o, k)
    ensures fresh(scaleRgb) && scaleRgb.Length == 3
    ensures forall c :: 0 <= c < 3 ==> 0.0 <= scaleRgb[c] <= 1.0
    ensures PixelBytes(scaleRgb[..]) == expected[o]
  {
    scaleRgb := DiffColorOf(m, px1, px2, maxDeltaE);
    TabulatedPixel(expected, m, orig1, orig2, o, k, maxDeltaE, px1[..], px2[..]);
  }

  /** The exposure of pixel `o` in place, then the pixel addresses
      `&rgba[4 o]` read as RGB triples. */
  method ExposedPixels(m: Math, rgba1: array<real>, rgba2: array<real>, o: nat, k: real,
                       ghost orig1: seq<real>, ghost orig2: seq<real>)
    returns (px1: array<real>, px2: array<real>)
    requires rgba1 != rgba2 && |orig1| == rgba1.Length && |orig2| == rgba2.Length
    requires 4 * o + 4 <= rgba1.Length && 4 * o + 4 <= rgba2.Length
    requires IsExposed(m, rgba1[..], orig1, o, k) && IsExposed(m, rgba2[..], orig2, o, k)
    modifies rgba1, rgba2
    ensures IsExposed(m, rgba1[..], orig1, o + 1, k) && IsExposed(m, rgba2[..], orig2, o + 1, k)
    ensures fresh(px1) && fresh(px2) && px1.Length == 3 && px2.Length == 3
    ensures px1[..] == ExposedRgb(m, orig1, o, k) && px2[..] == ExposedRgb(m, orig2, o, k)
  {
    ghost var cur1, cur2 := rgba1[..], rgba2[..];
    ExposePixel(m, rgba1, rgba2, o, k);
    ExposedStep(m, orig1, o, k, cur1, rgba1[..]);
    ExposedStep(m, orig2, o, k, cur2, rgba2[..]);
    px1 := ReadPixel(rgba1, o);
    px2 := ReadPixel(rgba2, o);
  }

  /** The body of the image loop at input offset `o` and output index `at`:
      exposure, Lab, difference, colour, bytes. */
  method ProcessPixel(m: Math, rgba1: array<real>, rgba2: array<real>, o: nat, k: real,
                      maxDeltaE: real, out: array<Byte>, at: nat,
                      ghost orig1: seq<real>, ghost orig2: seq<real>, ghost expected: seq<seq<Byte>>)
    requires Tabulates(expected, m, orig1, orig2, k, maxDeltaE) && o < |expected|
    requires rgba1 != rgba2 && |orig1| == rgba1.Length && |orig2| == rgba2.Length
    requires IsExposed(m, rgba1[..], orig1, o, k) && IsExposed(m, rgba2[..], orig2, o, k)
    requires at + 4 <= out.Length
    modifies rgba1, rgba2, out
    ensures IsExposed(m, rgba1[..], orig1, o + 1, k) && IsExposed(m, rgba2[..], orig2, o + 1, k)
    ensures out[at..at + 4] == expected[o]
    ensures forall j :: 0 <= j < out.Length && !(at <= j < at + 4) ==> out[j] == old(out[j])
  {
    var px1, px2 := ExposedPixels(m, rgba1, rgba2, o, k, orig1, orig2);
    var scaleRgb := TabulatedColor(m, px1, px2, o, k, maxDeltaE, orig1, orig2, expected);
    WritePixel(out, at, scaleRgb[..]);
  }

  /** One iteration of the image loop, at pixel (x, y). */
  method RenderPixel(m: Math, rgba1: array<real>, rgba2: array<real>, x: nat, y: nat, w: nat, h: nat,
                     wo: nat, k: real, maxDeltaE: real, out: array<Byte>,
                     ghost orig1: seq<real>, ghost orig2: seq<real>, ghost expected: seq<seq<Byte>>)
    requires Tabulates(expected, m, orig1, orig2, k, maxDeltaE) && |expected| == w * h
    requires rgba1 != rgba2 && x < w <= wo && y < h
    requires |orig1| == rgba1.Length && |orig2| == rgba2.Length
    requires out.Length == wo * h * 4
    requires IsExposed(m, rgba1[..], orig1, y * w + x, k) && IsExposed(m, rgba2[..], orig2, y * w + x, k)
    modifies rgba1, rgba2, out
    ensures IsExposed(m, rgba1[..], orig1, y * w + x + 1, k)
    ensures IsExposed(m, rgba2[..], orig2, y * w + x + 1, k)
    ensures OutPixel(out[..], x, y, wo) == Entry(expected, y * w + x)
    ensures forall j :: 0 <= j < out.Length && !(OutIndex(x, y, wo) <= j < OutIndex(x, y, wo) + 4) ==>
      out[j] == old(out[j])
  {
    PixelBelowEnd(x, y, w, h);
    OutIndexInBounds(x, y, wo, h);
    var offset := y * w + x;
    var at := 4 * (y * wo + x);
    ProcessPixel(m, rgba1, rgba2, offset, k, maxDeltaE, out, at, orig1, orig2, expected);
  }

  /** The `x` loop of one image row, which keeps the rows before it. */
  method RenderRow(m: Math, rgba1: array<real>, rgba2: array<real>, y: nat, w: nat, h: nat,
                   wo: nat, k: real, maxDeltaE: real, out: array<Byte>,
                   ghost orig1: seq<real>, ghost orig2: seq<real>, ghost expected: seq<seq<Byte>>)
    requires Tabulates(expected, m, orig1, orig2, k, maxDeltaE) && |expected| == w * h
    requires rgba1 != rgba2 && y < h && w <= wo
    requires |orig1| == rgba1.Length && |orig2| == rgba2.Length
    requires out.Length == wo * h * 4
    requires IsExposed(m, rgba1[..], orig1, y * w, k) && IsExposed(m, rgba2[..], orig2, y * w, k)
    requires forall y', x' :: 0 <= y' < y && 0 <= x' < w ==>
      OutPixel(out[..], x', y', wo) == Entry(expected, y' * w + x')
    modifies rgba1, rgba2, out
    ensures IsExposed(m, rgba1[..], orig1, y * w + w, k) && IsExposed(m, rgba2[..], orig2, y * w + w, k)
    ensures forall x :: 0 <= x < w ==> OutPixel(out[..], x, y, wo) == Entry(expected, y * w + x)
    ensures forall y', x' :: 0 <= y' < y + 1 && 0 <= x' < w ==>
      OutPixel(out[..], x', y', wo) == Entry(expected, y' * w + x')
    ensures forall j :: 0 <= j < out.Length && !(OutIndex(0, y, wo) <= j < OutIndex(w, y, wo)) ==>
      out[j] == old(out[j])
  {
    ghost var start := out[..];
    var x := 0;
    while x < w
      invariant 0 <= x <= w
      invariant IsExposed(m, rgba1[..], orig1, y * w + x, k)
      invariant IsExposed(m, rgba2[..], orig2, y * w + x, k)
      invariant forall x' :: 0 <= x' < x ==> OutPixel(out[..], x', y, wo) == Entry(expected, y * w + x')
      invariant forall j :: 0 <= j < out.Length && !(OutIndex(0, y, wo) <= j < OutIndex(x, y, wo)) ==>
        out[..][j] == start[j]
    {
      ghost var before := out[..];
      RenderPixel(m, rgba1, rgba2, x, y, w, h, wo, k, maxDeltaE, out, orig1, orig2, expected);
      EarlierColumnsKept(before, out[..], x, y, w, wo, expected);
      WritesCompose(start, before, out[..], OutIndex(0, y, wo), OutIndex(x, y, wo), OutIndex(x, y, wo) + 4);
      x := x + 1;
    }
    EarlierRowsKept(start, out[..], y, w, wo, expected);
  }

  /** The `y` loop over the image rows. */
  method RenderImage(m: Math, rgba1: array<real>, rgba2: array<real>, w: nat, h: nat, wo: nat,
                     k: real, maxDeltaE: real, out: array<Byte>,
                     ghost orig1: seq<real>, ghost orig2: seq<real>, ghost expected: seq<seq<Byte>>)
    requires Tabulates(expected, m, orig1, orig2, k, maxDeltaE) && |expected| == w * h
    requires rgba1 != rgba2 && w <= wo
    requires |orig1| == rgba1.Length && |orig2| == rgba2.Length
    requires out.Length == wo * h * 4
    requires IsExposed(m, rgba1[..], orig1, 0, k) && IsExposed(m, rgba2[..], orig2, 0, k)
    modifies rgba1, rgba2, out
    ensures IsExposed(m, rgba1[..], orig1, h * w, k) && IsExposed(m, rgba2[..], orig2, h * w, k)
    ensures forall y, x :: 0 <= y < h && 0 <= x < w ==>
      OutPixel(out[..], x, y, wo) == Entry(expected, y * w + x)
  {
    var y := 0;
    while y < h
      invariant 0 <= y <= h
      invariant IsExposed(m, rgba1[..], orig1, y * w, k)
      invariant IsExposed(m, rgba2[..], orig2, y * w, k)
      invariant forall y', x' :: 0 <= y' < y && 0 <= x' < w ==>
        OutPixel(out[..], x', y', wo) == Entry(expected, y' * w + x')
    {
      RenderRow(m, rgba1, rgba2, y, w, h, wo, k, maxDeltaE, out, orig1, orig2, expected);
      assert y * w + w == (y + 1) * w;
      y := y + 1;
    }
  }

  /** The `x` loop of one legend row: every column in [from, to) gets the
      same colour. */
  method FillRow(out: array<Byte>, y: nat, h: nat, wo: nat, from: nat, to: nat, color: Vec3)
    requires y < h && from <= to <= wo && out.Length == wo * h * 4
    requires forall c :: 0 <= c < 3 ==> 0.0 <= color[c] <= 1.0
    modifies out
    ensures forall x :: from <= x < to ==> OutPixel(out[..], x, y, wo) == PixelBytes(color)
    ensures forall j :: 0 <= j < out.Length && !(OutIndex(from, y, wo) <= j < OutIndex(to, y, wo)) ==>
      out[j] == old(out[j])
  {
    ghost var start := out[..];
    ghost var px := PixelBytes(color);
    var x := from;
    while x < to
      invariant from <= x <= to
      invariant forall x' :: from <= x' < x ==> OutPixel(out[..], x', y, wo) == px
      invariant forall j :: 0 <= j < out.Length && !(OutIndex(from, y, wo) <= j < OutIndex(x, y, wo)) ==>
        out[..][j] == start[j]
    {
      OutIndexInBounds(x, y, wo, h);
      ghost var before := out[..];
      WritePixel(out, 4 * (y * wo + x), color);
      EarlierFillKept(before, out[..], x, y, wo, from, px);
      WritesCompose(start, before, out[..], OutIndex(from, y, wo), OutIndex(x, y, wo), OutIndex(x, y, wo) + 4);
      x := x + 1;
    }
  }

  /** The colour of legend row `y`, as `main` computes it. */
  method LegendRowColor(y: nat, h: nat) returns (color: Vec3)
    requires y < h
    ensures color == LegendColor(y, h)
  {
    var v := LegendValue(y, h);
    var scaleRgb := new real[3];
    GetRgb(v, 0.0, 1.0, scaleRgb);
    color := scaleRgb[..];
  }

  /** The legend loop: columns [w, wo) of every row, leaving the image
      columns as they were. */
  method RenderLegend(out: array<Byte>, w: nat, h: nat, wo: nat)
    requires w <= wo && out.Length == wo * h * 4
    modifies out
    ensures forall y, x :: 0 <= y < h && 0 <= x < w ==>
      OutPixel(out[..], x, y, wo) == OutPixel(old(out[..]), x, y, wo)
    ensures forall y, x :: 0 <= y < h && w <= x < wo ==> OutPixel(out[..], x, y, wo) == LegendPixel(y, h)
  {
    ghost var legend := LegendTable(h);
    var y := 0;
    while y < h
      invariant 0 <= y <= h
      invariant forall y', x' :: 0 <= y' < h && 0 <= x' < w ==>
        OutPixel(out[..], x', y', wo) == OutPixel(old(out[..]), x', y', wo)
      invariant forall y', x' :: 0 <= y' < y && w <= x' < wo ==>
        OutPixel(out[..], x', y', wo) == Entry(legend, y')
    {
      var color := LegendRowColor(y, h);
      ghost var before := out[..];
      FillRow(out, y, h, wo, w, wo, color);
      LegendKeepsImage(before, out[..], y, w, h, wo);
      EarlierLegendRowsKept(before, out[..], y, w, wo, legend);
      y := y + 1;
    }
    LegendTableIsLegend(out[..], w, h, wo);
  }

  /** The legend table entries are the rows' legend pixels. */
  lemma LegendTableIsLegend(out: seq<Byte>, w: nat, h: nat, wo: nat)
    requires forall y, x :: 0 <= y < h && w <= x < wo ==> OutPixel(out, x, y, wo) == Entry(LegendTable(h), y)
    ensures forall y, x :: 0 <= y < h && w <= x < wo ==> OutPixel(out, x, y, wo) == LegendPixel(y, h)
  {
    forall y, x | 0 <= y < h && w <= x < wo
      ensures OutPixel(out, x, y, wo) == LegendPixel(y, h)
    {
      assert Entry(LegendTable(h), y) == LegendPixel(y, h);
    }
  }

  /** The table entries are the pixels' bytes. */
  lemma TableIsImage(m: Math, out: seq<Byte>, s1: seq<real>, s2: seq<real>, w: nat, h: nat, wo: nat,
                     k: real, maxDeltaE: real)
    requires Lawful(m) && |s1| >= 4 * w * h && |s2| >= 4 * w * h
    requires forall y, x :: 0 <= y < h && 0 <= x < w ==>
      OutPixel(out, x, y, wo) == Entry(ImageTable(m, s1, s2, w * h, k, maxDeltaE), y * w + x)
    ensures forall y, x :: 0 <= y < h && 0 <= x < w ==>
      OutPixel(out, x, y, wo) == ImagePixel(m, s1, s2, x, y, w, h, k, maxDeltaE)
  {
    forall y, x | 0 <= y < h && 0 <= x < w
      ensures OutPixel(out, x, y, wo) == ImagePixel(m, s1, s2, x, y, w, h, k, maxDeltaE)
    {
      PixelBelowEnd(x, y, w, h);
      assert Entry(ImageTable(m, s1, s2, w * h, k, maxDeltaE), y * w + x) ==
        OffsetPixel(m, s1, s2, y * w + x, k, maxDeltaE);
    }
  }

  // ---------------------------------------------------------------------
  // What the output shows

  /** The ends of the ramp as bytes: black is (0, 0, 0) and red (255, 0, 0). */
  lemma EndBytes()
    ensures PixelBytes(Black) == [0, 0, 0, 255]
    ensures PixelBytes(Red) == [255, 0, 0, 255]
  {
    assert Black == [0.0, 0.0, 0.0];
    assert Red == [1.0, 0.0, 0.0];
  }

  /** For a positive scale, the difference colour is black exactly when the
      two pixels do not differ. */
  lemma DiffColorIsBlackIffNoDifference(m: Math, p1: Vec3, p2: Vec3, maxDeltaE: real)
    requires Lawful(m) && maxDeltaE > 0.0
    ensures DiffColor(m, p1, p2, maxDeltaE) == Black <==>
      DeltaE2000(m, LinearToLab(m, p1), LinearToLab(m, p2)) == 0.0
  {
    RangeColorIsBlackIffZero(DeltaE2000(m, LinearToLab(m, p1), LinearToLab(m, p2)), maxDeltaE);
  }

  /** A difference at or beyond the top of the scale is red; a scale of
      zero or below makes every difference red. */
  lemma SaturatedDifferenceIsRed(m: Math, p1: Vec3, p2: Vec3, maxDeltaE: real)
    requires Lawful(m)
    requires maxDeltaE <= 0.0 || DeltaE2000(m, LinearToLab(m, p1), LinearToLab(m, p2)) >= maxDeltaE
    ensures DiffColor(m, p1, p2, maxDeltaE) == Red
  {
    RangeColorEnds(DeltaE2000(m, LinearToLab(m, p1), LinearToLab(m, p2)), 0.0, maxDeltaE);
  }

  /** Two pixels with the same colour values (whatever their alpha) give
      opaque black. */
  lemma IdenticalPixelsAreBlack(m: Math, s1: seq<real>, s2: seq<real>, o: nat, k: real, maxDeltaE: real)
    requires Lawful(m) && 4 * o + 4 <= |s1| && 4 * o + 4 <= |s2| && maxDeltaE > 0.0
    requires s1[4 * o .. 4 * o + 3] == s2[4 * o .. 4 * o + 3]
    ensures OffsetPixel(m, s1, s2, o, k, maxDeltaE) == [0, 0, 0, 255]
  {
    assert s1[4 * o] == s2[4 * o] && s1[4 * o + 1] == s2[4 * o + 1] && s1[4 * o + 2] == s2[4 * o + 2] by {
      assert s1[4 * o .. 4 * o + 3][0] == s2[4 * o .. 4 * o + 3][0];
      assert s1[4 * o .. 4 * o + 3][1] == s2[4 * o .. 4 * o + 3][1];
      assert s1[4 * o .. 4 * o + 3][2] == s2[4 * o .. 4 * o + 3][2];
    }
    var p := ExposedRgb(m, s1, o, k);
    assert ExposedRgb(m, s2, o, k) == p;
    SelfDifferenceIsZero(m, LinearToLab(m, p));
    DiffColorIsBlackIffNoDifference(m, p, p, maxDeltaE);
    EndBytes();
  }

  /** Identical input images give opaque black at every image pixel. */
  lemma IdenticalImagesAreBlack(m: Math, s: seq<real>, x: nat, y: nat, w: nat, h: nat, k: real, maxDeltaE: real)
    requires Lawful(m) && x < w && y < h && |s| >= 4 * w * h && maxDeltaE > 0.0
    ensures ImagePixel(m, s, s, x, y, w, h, k, maxDeltaE) == [0, 0, 0, 255]
  {
    PixelBelowEnd(x, y, w, h);
    assert 4 * (y * w + x) + 4 <= |s|;
    IdenticalPixelsAreBlack(m, s, s, y * w + x, k, maxDeltaE);
  }

  /** A scale of zero or below paints every image pixel opaque red. */
  lemma NonPositiveScaleIsRed(m: Math, s1: seq<real>, s2: seq<real>, o: nat, k: real, maxDeltaE: real)
    requires Lawful(m) && 4 * o + 4 <= |s1| && 4 * o + 4 <= |s2| && maxDeltaE <= 0.0
    ensures OffsetPixel(m, s1, s2, o, k, maxDeltaE) == [255, 0, 0, 255]
  {
    SaturatedDifferenceIsRed(m, ExposedRgb(m, s1, o, k), ExposedRgb(m, s2, o, k), maxDeltaE);
    EndBytes();
  }

  /** The top legend row is the top of the scale: opaque red. */
  lemma LegendTopIsRed(h: nat)
    requires h >= 1
    ensures LegendColor(0, h) == Red
  {
    RangeColorEnds(LegendValue(0, h), 0.0, 1.0);
  }

  /** ... so its bytes are (255, 0, 0, 255). */
  lemma LegendTopPixelIsRed(h: nat)
    requires h >= 1
    ensures LegendPixel(0, h) == [255, 0, 0, 255]
  {
    LegendTopIsRed(h);
    EndBytes();
  }

  /** The bottom legend row shows 1 / (height - 1), not 0, so its colour is
      not black. */
  lemma LegendBottomIsNotBlack(h: nat)
    requires h >= 2
    ensures LegendValue(h - 1, h) == 1.0 / (h - 1) as real
    ensures LegendColor(h - 1, h) != Black
  {
    var v := LegendValue(h - 1, h);
    assert (h - (h - 1)) as real == 1.0;
    QuotientBounds(1.0, (h - 1) as real);
    assert Place(v, 0.0, 1.0) == v;
    RampColorAboveZeroIsNotBlack(v);
  }

  /** Lower legend rows show smaller values. */
  lemma LegendValueIsDecreasing(y: nat, y': nat, h: nat)
    requires y < y' < h
    ensures LegendValue(y', h) < LegendValue(y, h)
  {
    var d := (h - 1) as real;
    assert (h - y) as real / d - (h - y') as real / d == (y' - y) as real / d;
    QuotientBounds((y' - y) as real, d);
  }

  /** `main` from the dimension check to the filled output buffer: every
      image pixel gets the colour of its difference, every legend pixel
      the colour of its row, and both inputs are exposure-scaled in place. */
  method RenderDifference(m: Math, rgba1: array<real>, rgba2: array<real>, w: nat, h: nat,
                          maxDeltaE: real, exposure: real, displayScale: bool)
    returns (out: array<Byte>)
    requires Lawful(m) && rgba1 != rgba2
    requires rgba1.Length >= 4 * w * h && rgba2.Length >= 4 * w * h
    modifies rgba1, rgba2
    ensures fresh(out) && out.Length == OutWidth(w, displayScale) * h * 4
    ensures rgba1[..] == ExposedUpTo(m, old(rgba1[..]), w * h, m.exp2(exposure))
    ensures rgba2[..] == ExposedUpTo(m, old(rgba2[..]), w * h, m.exp2(exposure))
    ensures forall y, x :: 0 <= y < h && 0 <= x < w ==>
      OutPixel(out[..], x, y, OutWidth(w, displayScale)) ==
      ImagePixel(m, old(rgba1[..]), old(rgba2[..]), x, y, w, h, m.exp2(exposure), maxDeltaE)
    ensures displayScale ==> forall y, x :: 0 <= y < h && w <= x < OutWidth(w, displayScale) ==>
      OutPixel(out[..], x, y, OutWidth(w, displayScale)) == LegendPixel(y, h)
  {
    ghost var orig1, orig2 := rgba1[..], rgba2[..];
    var wo := OutWidth(w, displayScale);
    out := new Byte[wo * h * 4];
    var k := m.exp2(exposure);
    ExposedNone(m, orig1, k);
    ExposedNone(m, orig2, k);
    ghost var expected := ImageTable(m, orig1, orig2, w * h, k, maxDeltaE);
    RenderImage(m, rgba1, rgba2, w, h, wo, k, maxDeltaE, out, orig1, orig2, expected);
    if displayScale {
      RenderLegend(out, w, h, wo);
    }
    TableIsImage(m, out[..], orig1, orig2, w, h, wo, k, maxDeltaE);
    IsExposedUpTo(m, rgba1[..], orig1, w * h, k);
    IsExposedUpTo(m, rgba2[..], orig2, w * h, k);
  }

  /** `main` once both images are decoded: differing widths or heights
      return -1 before anything is rendered or scaled; otherwise the
      raster is rendered and 0 returned. */
  method Run(m: Math, rgba1: array<real>, w1: nat, h1: nat, rgba2: array<real>, w2: nat, h2: nat,
             maxDeltaE: real, exposure: real, displayScale: bool)
    returns (retVal: int, out: Option<array<Byte>>)
    requires Lawful(m) && rgba1 != rgba2
    requires rgba1.Length == 4 * w1 * h1 && rgba2.Length == 4 * w2 * h2
    modifies rgba1, rgba2
    ensures retVal == -1 <==> w1 != w2 || h1 != h2
    ensures retVal == -1 ==> out == None && unchanged(rgba1, rgba2)
    ensures retVal != -1 ==> retVal == 0 && out.Some? && fresh(out.value)
    ensures out.Some? ==> out.value.Length == OutWidth(w1, displayScale) * h1 * 4
    ensures out.Some? ==> rgba1[..] == ExposedUpTo(m, old(rgba1[..]), w1 * h1, m.exp2(exposure))
    ensures out.Some? ==> rgba2[..] == ExposedUpTo(m, old(rgba2[..]), w1 * h1, m.exp2(exposure))
    ensures out.Some? ==> forall y, x :: 0 <= y < h1 && 0 <= x < w1 ==>
      OutPixel(out.value[..], x, y, OutWidth(w1, displayScale)) ==
      ImagePixel(m, old(rgba1[..]), old(rgba2[..]), x, y, w1, h1, m.exp2(exposure), maxDeltaE)
    ensures out.Some? && displayScale ==> forall y, x :: 0 <= y < h1 && w1 <= x < OutWidth(w1, displayScale) ==>
      OutPixel(out.value[..], x, y, OutWidth(w1, displayScale)) == LegendPixel(y, h1)
  {
    if w1 != w2 || h1 != h2 {
      return -1, None;
    }
    var raster := RenderDifference(m, rgba1, rgba2, w1, h1, maxDeltaE, exposure, displayScale);
    return 0, Some(raster);
  }
}
