// The three detection sliders and the values their callbacks store.
// Each slider hands its callback `int(float(v))`; the blur-size callback then
// forces the value to be odd, because the Gaussian kernel must have odd sides.
module Sliders {

  /** The blur slider's range as the window sets it up (from, to). */
  const BlurFrom: int := 1
  const BlurTo: int := 15

  /** Python's `int()` on a float: truncation toward zero. */
  function Truncate(x: real): (r: int)
    ensures 0.0 <= x ==> 0 <= r && r as real <= x < r as real + 1.0
    ensures x < 0.0 ==> r <= 0 && r as real - 1.0 < x <= r as real
  {
    if x >= 0.0 then x.Floor else -((-x).Floor)
  }

  /** The parity coercion of the blur-size callback: an even value is bumped by one.
      Python's `%` by 2 and Dafny's agree on every int (both give 0 or 1). */
  function CoerceOdd(value: int): (r: int)
    ensures r % 2 == 1
    ensures r == value || r == value + 1
  {
    if value % 2 == 0 then value + 1 else value
  }

  /** An odd value is stored as given, an even one as its successor. */
  lemma CoerceOddCases(value: int)
    ensures value % 2 == 1 <==> CoerceOdd(value) == value
    ensures value % 2 == 0 <==> CoerceOdd(value) == value + 1
  {
  }

  /** Coercing twice is the same as coercing once. */
  lemma CoerceOddIdempotent(value: int)
    ensures CoerceOdd(CoerceOdd(value)) == CoerceOdd(value)
  {
  }

  /** Every position of the blur slider yields an odd kernel size inside the
      slider's own range; the top even value 14 becomes 15, not 16. */
  lemma BlurSliderStaysInRange(x: real)
    requires BlurFrom as real <= x <= BlurTo as real
    ensures BlurFrom <= CoerceOdd(Truncate(x)) <= BlurTo
    ensures CoerceOdd(Truncate(x)) % 2 == 1
  {
    var t := Truncate(x);
    assert BlurFrom <= t <= BlurTo;
    if t == 14 {
      assert CoerceOdd(t) == 15;
    }
  }

  lemma FourteenBecomesFifteen()
    ensures CoerceOdd(14) == 15
  {
  }
}
