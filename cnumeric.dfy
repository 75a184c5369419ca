/** The C conversions the source applies to floating-point values, over reals. */
module CNumeric {

  /** The largest `size_t` value on a 64-bit target. */
  const SizeMax: int := 0x1_0000_0000_0000_0000 - 1

  /** A floating-to-integer conversion in C discards the fractional part,
      rounding toward zero. */
  function TruncToInt(x: real): (r: int)
    ensures x >= 0.0 ==> r >= 0 && r as real <= x < r as real + 1.0
    ensures x <= 0.0 ==> r <= 0 && r as real - 1.0 < x <= r as real
  {
    if x >= 0.0 then x.Floor else -((-x).Floor)
  }

  /** Truncation is not rounding: every value in [k, k + 1) gives k. */
  lemma TruncOfNonNegative(x: real, k: int)
    requires k >= 0 && k as real <= x < k as real + 1.0
    ensures TruncToInt(x) == k
  {
  }

  /** Values strictly between -1 and 1 truncate to zero. */
  lemma TruncNearZero(x: real)
    requires -1.0 < x < 1.0
    ensures TruncToInt(x) == 0
  {
  }

  /** A byte `unsigned char` receives `255 * c`, truncated. */
  type Byte = b: int | 0 <= b < 256

  /** For c in [0, 1] the truncated `255 c` fits a byte; 0 and 1 give 0 and 255. */
  function ToByte(c: real): (b: Byte)
    requires 0.0 <= c <= 1.0
    ensures b as real <= 255.0 * c < b as real + 1.0
    ensures c == 0.0 ==> b == 0
    ensures c == 1.0 ==> b == 255
  {
    TruncToInt(255.0 * c)
  }
}
