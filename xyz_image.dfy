/** `XYZImage`: an image of XYZ triples stored flat in a `std::vector<float>`
    whose length is kept at `3 width height`. */
module XyzImages {

  /** `n` value-initialised floats. */
  function Zeros(n: nat): (z: seq<real>)
    ensures |z| == n
    ensures forall i :: 0 <= i < n ==> z[i] == 0.0
  {
    seq(n, _ => 0.0)
  }

  /** `std::vector::resize(n)`: keeps the first `n` elements, appending
      zeros when the vector grows. */
  function Resized(s: seq<real>, n: nat): (r: seq<real>)
    ensures |r| == n
    ensures forall i :: 0 <= i < n && i < |s| ==> r[i] == s[i]
    ensures forall i :: |s| <= i < n ==> r[i] == 0.0
  {
    if n <= |s| then s[..n] else s + Zeros(n - |s|)
  }

  /** Resizing to the current length changes nothing. */
  lemma ResizedToLength(s: seq<real>)
    ensures Resized(s, |s|) == s
  {
  }

  /** Resizing twice to the same length is resizing once. */
  lemma ResizedIsIdempotent(s: seq<real>, n: nat)
    ensures Resized(Resized(s, n), n) == Resized(s, n)
  {
  }

  /** Shrinking and growing back keeps the kept elements and zeroes the
      rest: the discarded values are not recovered. */
  lemma ShrinkThenGrow(s: seq<real>, k: nat)
    requires k <= |s|
    ensures forall i :: 0 <= i < k ==> Resized(Resized(s, k), |s|)[i] == s[i]
    ensures forall i :: k <= i < |s| ==> Resized(Resized(s, k), |s|)[i] == 0.0
  {
  }

  class XyzImage {
    var width: nat
    var height: nat
    var buffer: seq<real>

    /** `XYZImage(width, height)`: a zeroed buffer of `3 w h` values. */
    constructor(w: nat, h: nat)
      ensures width == w && height == h
      ensures |buffer| == 3 * width * height
      ensures buffer == Zeros(3 * w * h)
    {
      width := w;
      height := h;
      buffer := Zeros(3 * w * h);
    }

    /** `width()`: reads the stored width. */
    method Width() returns (w: nat)
      ensures w == width
    {
      w := width;
    }

    /** `height()`: reads the stored height. */
    method Height() returns (h: nat)
      ensures h == height
    {
      h := height;
    }

    /** `resize(w, h)`: new dimensions, and the buffer resized to match. */
    method Resize(w: nat, h: nat)
      modifies this
      ensures width == w && height == h
      ensures |buffer| == 3 * width * height
      ensures buffer == Resized(old(buffer), 3 * w * h)
    {
      width := w;
      height := h;
      buffer := Resized(buffer, 3 * w * h);
    }
  }
}
