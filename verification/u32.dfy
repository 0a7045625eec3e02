/**
 Fixed-width unsigned integers of the component: POST codes are `uint8_t`,
 `millis()` readings, timestamps and deltas are `uint32_t`.  Dafny integers are
 unbounded, so the C++ wrap-around of `uint32_t` addition and subtraction is
 written out here as arithmetic modulo 2^32.
 */
module U32 {

  const Modulus: int := 0x1_0000_0000

  /** A `uint32_t` value. */
  type u32 = x: int | 0 <= x < Modulus

  /** A `uint8_t` value (one POST code). */
  type byte = x: int | 0 <= x < 256

  /** `a + b` on `uint32_t`: the sum, wrapped once past 2^32 if it overflows. */
  function WrapAdd(a: u32, b: u32): (r: u32)
    ensures a + b < Modulus ==> r == a + b
    ensures a + b >= Modulus ==> r == a + b - Modulus
  {
    (a + b) % Modulus
  }

  /** `a - b` on `uint32_t`: the elapsed amount that takes `b` to `a` modulo 2^32. */
  function WrapSub(a: u32, b: u32): (r: u32)
    ensures WrapAdd(b, r) == a
    ensures a >= b ==> r == a - b
    ensures a < b ==> r == a - b + Modulus
  {
    (a - b) % Modulus
  }

  /** The wrapped difference is the only `uint32_t` that takes `b` to `a`, so
      a delta computed with it is correct across wrap-around of the counter. */
  lemma WrapSubUnique(a: u32, b: u32, d: u32)
    requires WrapAdd(b, d) == a
    ensures d == WrapSub(a, b)
  {
    if b + d < Modulus {
      assert a == b + d;
    } else {
      assert a == b + d - Modulus;
    }
  }
}
