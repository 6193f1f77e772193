/**
 * JavaScript number arithmetic that differs from Dafny's.
 *
 * JavaScript's `%` truncates the quotient toward zero, so the remainder has
 * the sign of the dividend (`-90 % 360 == -90`), whereas Dafny's `%` on `int`
 * is Euclidean (never negative).
 */
module JsArith {

  /** The quotient of `a / m` truncated toward zero, as `Math.trunc(a / m)`. */
  function Quot(a: int, m: int): int
    requires m > 0
  {
    if a >= 0 then a / m else -((-a) / m)
  }

  /** `a % m` as JavaScript computes it on integral numbers, for a positive modulus. */
  function Rem(a: int, m: int): (r: int)
    requires m > 0
    ensures a == Quot(a, m) * m + r
    ensures -m < r < m
    ensures a >= 0 ==> r >= 0
    ensures a <= 0 ==> r <= 0
  {
    if a >= 0 then a % m else -((-a) % m)
  }

  /** A multiple of `m` leaves no Euclidean remainder. */
  lemma MultipleModZero(q: int, m: int)
    requires m > 0
    ensures (q * m) % m == 0
  {
    var d, r := (q * m) / m, (q * m) % m;
    assert (q - d) * m == r;
    // `r` lies in [0, m), so it is a multiple of `m` only as 0 times `m`
    if q - d >= 1 {
      assert false;
    } else if q - d <= -1 {
      assert false;
    }
  }

  /**
   * JavaScript's remainder is zero exactly when the modulus divides `a`,
   * whatever the sign of `a`: `-a` and `a` are multiples of `m` together.
   */
  lemma RemZeroIffDivides(a: int, m: int)
    requires m > 0
    ensures Rem(a, m) == 0 <==> a % m == 0
  {
    if a < 0 {
      if a % m == 0 {
        assert -a == (-(a / m)) * m;
        MultipleModZero(-(a / m), m);
      }
      if (-a) % m == 0 {
        assert a == (-((-a) / m)) * m;
        MultipleModZero(-((-a) / m), m);
      }
    }
  }
}
