/** Go's `int64`: wrap-around addition and the conversions from `float64`. */
module Int64 {

  const TWO_63: int := 0x8000_0000_0000_0000
  const TWO_64: int := 0x1_0000_0000_0000_0000
  const MIN: int := -0x8000_0000_0000_0000
  const MAX: int := 0x7fff_ffff_ffff_ffff

  predicate InRange(n: int) {
    -0x8000_0000_0000_0000 <= n <= 0x7fff_ffff_ffff_ffff
  }

  type Int64 = n: int | -0x8000_0000_0000_0000 <= n <= 0x7fff_ffff_ffff_ffff

  /** The value an `int64` holds after an exact result `n` was stored in it. */
  function Wrap(n: int): (r: Int64)
    ensures InRange(n) ==> r == n
    decreases if n < 0 then -2 * n else 2 * n + 1
  {
    if n > MAX then Wrap(n - TWO_64)
    else if n < MIN then Wrap(n + TWO_64)
    else n
  }

  lemma {:induction false} WrapIsCongruent(n: int)
    ensures (Wrap(n) - n) % TWO_64 == 0
    decreases if n < 0 then -2 * n else 2 * n + 1
  {
    if n > MAX {
      WrapIsCongruent(n - TWO_64);
    } else if n < MIN {
      WrapIsCongruent(n + TWO_64);
    }
  }

  lemma WrapShift(n: int)
    ensures Wrap(n + TWO_64) == Wrap(n)
  {
  }

  lemma {:induction false} WrapAdd(a: int, b: int)
    ensures Wrap(Wrap(a) + b) == Wrap(a + b)
    decreases if a < 0 then -2 * a else 2 * a + 1
  {
    if a > MAX {
      WrapAdd(a - TWO_64, b);
      WrapShift(a - TWO_64 + b);
    } else if a < MIN {
      WrapAdd(a + TWO_64, b);
      WrapShift(a + b);
    }
  }

  /** `uint64(v)`. */
  function Unsigned(v: Int64): (u: nat)
    ensures u < TWO_64
  {
    if v >= 0 then v else v + TWO_64
  }

  lemma UnsignedRoundTrip(v: Int64, u: nat)
    ensures Wrap(Unsigned(v)) == v
    ensures u < TWO_64 ==> Unsigned(Wrap(u)) == u
  {
  }

  /** Rounding toward zero. */
  function Truncate(x: real): (r: int)
    ensures x >= 0.0 ==> r as real <= x < r as real + 1.0
    ensures x <= 0.0 ==> x <= r as real < x + 1.0
  {
    if x >= 0.0 then x.Floor else -((-x).Floor)
  }

  /**
   * `int64(f)`: truncation when the result fits. Otherwise Go leaves the value
   * to the implementation; amd64 yields the smallest `int64`.
   */
  function FromReal(x: real): (r: Int64)
    ensures 0.0 <= x ==> r as real <= x
  {
    if InRange(Truncate(x)) then Truncate(x) else MIN
  }

  function FromInt(n: int): Int64 {
    if InRange(n) then n else MIN
  }

  /**
   * `float64(math.MaxInt64)` rounds up to 2^63, so a guard `x > that` lets
   * exactly one value through which the conversion cannot represent.
   */
  lemma GuardedConversion(n: int)
    requires MIN <= n <= TWO_63
    ensures FromInt(n) == n <==> n <= MAX
  {
  }
}
