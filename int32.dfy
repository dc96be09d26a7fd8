/** Go's `int32(x)` conversion of a wider integer: the low 32 bits, read as two's complement. */
module Int32 {

  const Modulus: int := 0x1_0000_0000
  const Min: int := -0x8000_0000
  const Max: int := 0x7fff_ffff

  predicate InRange(x: int) {
    Min <= x <= Max
  }

  /** The unique value in int32 range that is congruent to `x` modulo 2^32. */
  function ToInt32(x: int): (r: int)
    ensures InRange(r)
    ensures (x - r) % Modulus == 0
    ensures InRange(x) ==> r == x
  {
    var low := x % Modulus;
    if low > Max then low - Modulus else low
  }

  /** Two values that differ by a multiple of 2^32 are indistinguishable after the conversion. */
  lemma {:induction false} WrapsAround(x: int, k: int)
    ensures ToInt32(x + k * Modulus) == ToInt32(x)
  {
    var a, b := ToInt32(x + k * Modulus), ToInt32(x);
    assert (a - b) % Modulus == 0 by {
      assert a - b == (x + k * Modulus - b) - (x + k * Modulus - a);
    }
    assert -Modulus < a - b < Modulus;
  }
}
