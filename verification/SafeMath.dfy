/** The decimal helpers of safemath.hpp, computed in unsigned 128-bit arithmetic. */
module SafeMath {
  import opened Eosio

  /** `mul_down`. */
  function MulDown(a: nat, b: nat, p: nat): (r: nat)
    requires p > 0
  {
    WrapU128(10 * a * b) / p / 10
  }

  /** `mul_up`. */
  function MulUp(a: nat, b: nat, p: nat): (r: nat)
    requires p > 0
  {
    WrapU128(WrapU128(10 * a * b) / p + 5) / 10
  }

  // ---------- Division facts ----------

  /** The quotient is the only integer whose multiple of the divisor falls just below the dividend. */
  lemma QuotientIs(n: int, d: int, q: int)
    requires d > 0 && q * d <= n < (q + 1) * d
    ensures n / d == q
  {
    var r := n / d;
    assert r * d <= n < (r + 1) * d;
    if r < q {
      MulOrder(r + 1, q, d);
    } else if q < r {
      MulOrder(q + 1, r, d);
    }
  }

  lemma MulOrder(a: int, b: int, d: int)
    requires a <= b && d >= 0
    ensures a * d <= b * d
  {
  }

  lemma QuotientBounds(n: int, d: int)
    requires d > 0
    ensures n / d * d <= n < (n / d + 1) * d
  {
  }

  lemma QuotientMonotone(m: int, n: int, d: int)
    requires m <= n && d > 0
    ensures m / d <= n / d
  {
    QuotientBounds(m, d);
    QuotientBounds(n, d);
    if n / d < m / d {
      MulOrder(n / d + 1, m / d, d);
    }
  }

  /** Flooring at one decimal first loses nothing: floor((n + c) / d / 10) needs no exact n / d. */
  lemma NestedFloor(n: int, d: int, c: int)
    requires d > 0
    ensures (n / d + c) / 10 == (n + c * d) / (10 * d)
  {
    var q := (n / d + c) / 10;
    QuotientBounds(n, d);
    MulOrder(10 * q - c, n / d, d);
    MulOrder(n / d + 1, 10 * q + 10 - c, d);
    assert q * (10 * d) <= n + c * d by {
      assert (10 * q - c) * d == q * (10 * d) - c * d;
    }
    assert n + c * d < (q + 1) * (10 * d) by {
      assert (10 * q + 10 - c) * d == (q + 1) * (10 * d) - c * d;
    }
    QuotientIs(n + c * d, 10 * d, q);
  }

  /** `mul_down` is the plain floor of a * b / p whenever the product fits in 128 bits. */
  lemma MulDownIsFloor(a: nat, b: nat, p: nat)
    requires p > 0 && 10 * a * b < TWO_128
    ensures MulDown(a, b, p) == a * b / p
  {
    hide MulDown;
    var n := a * b;
    MulDownOf(a, b, p);
    assert 10 * a * b == 10 * n;
    TenthOfTen(n, p);
  }

  lemma MulDownOf(a: nat, b: nat, p: nat)
    requires p > 0 && 10 * a * b < TWO_128
    ensures MulDown(a, b, p) == 10 * a * b / p / 10
  {
    Fits128(10 * a * b);
    hide WrapU128;
  }

  lemma Fits128(n: nat)
    requires n < TWO_128
    ensures WrapU128(n) == n
  {
  }

  lemma TenthOfTen(n: nat, p: nat)
    requires p > 0
    ensures 10 * n / p / 10 == n / p
  {
    NestedFloor(10 * n, p, 0);
    var q := n / p;
    QuotientBounds(n, p);
    assert q * (10 * p) == 10 * (q * p);
    assert (q + 1) * (10 * p) == 10 * ((q + 1) * p);
    QuotientIs(10 * n, 10 * p, q);
  }

  lemma RoundHalfUp(n: nat, p: nat)
    requires p > 0
    ensures (10 * n / p + 5) / 10 == (2 * n + p) / (2 * p)
  {
    NestedFloor(10 * n, p, 5);
    var q := (2 * n + p) / (2 * p);
    QuotientBounds(2 * n + p, 2 * p);
    assert q * (10 * p) == 5 * (q * (2 * p));
    assert (q + 1) * (10 * p) == 5 * ((q + 1) * (2 * p));
    QuotientIs(10 * n + 5 * p, 10 * p, q);
  }

  lemma QuotientAtMost(n: nat, p: nat)
    requires p > 0
    ensures 0 <= n / p <= n
  {
    QuotientBounds(n, p);
    QuotientMonotone(0, n, p);
    MulOrder(1, p, n / p);
  }

  /** `mul_up` rounds a * b / p to the nearest integer, halves upwards, while nothing is cut to 128 bits; it is not a ceiling. */
  lemma MulUpIsRoundHalfUp(a: nat, b: nat, p: nat)
    requires p > 0 && 10 * a * b < TWO_128 && 10 * a * b / p < TWO_128 - 5
    ensures MulUp(a, b, p) == (2 * (a * b) + p) / (2 * p)
  {
    var n := a * b;
    var m := 10 * a * b;
    assert m == 10 * n;
    Fits128(m);
    QuotientAtMost(m, p);
    Fits128(m / p + 5);
    assert MulUp(a, b, p) == (m / p + 5) / 10;
    RoundHalfUp(n, p);
  }

  lemma WrapAtMost(n: nat, m: nat)
    requires m > 0
    ensures n % m <= n
    ensures n >= m ==> n % m <= n - m
  {
    QuotientBounds(n, m);
    QuotientMonotone(0, n, m);
    MulOrder(0, n / m, m);
    if n >= m {
      QuotientMonotone(m, n, m);
      MulOrder(1, n / m, m);
    }
  }

  /** Once ten times the product is cut, the result falls short, for every divisor up to 2^63. */
  lemma MulUpFallsShort(a: nat, b: nat, p: nat)
    requires 0 < p <= TWO_63 && 10 * a * b >= TWO_128
    ensures MulUp(a, b, p) < (2 * (a * b) + p) / (2 * p)
  {
    var n := a * b;
    var m := 10 * a * b;
    assert m == 10 * n;
    RoundHalfUp(n, p);
    WrapAtMost(m, TWO_128);
    var r := WrapU128(m);
    QuotientAtMost(r, p);
    WrapAtMost(r / p + 5, TWO_128);
    QuotientMonotone(WrapU128(r / p + 5), r / p + 5, 10);
    FarAbove(r, m, p);
  }

  lemma FarAbove(r: nat, m: nat, p: nat)
    requires 0 < p <= TWO_63 && m >= r + TWO_128
    ensures (r / p + 5) / 10 < (m / p + 5) / 10
  {
    var q := r / p + 4 * TWO_63;
    QuotientBounds(r, p);
    MulOrder(p, TWO_63, 4 * TWO_63);
    assert q * p == r / p * p + 4 * TWO_63 * p;
    QuotientMonotone(q * p, m, p);
    QuotientIs(q * p, p, q);
  }

  // ---------- Floors ----------

  /** `q` is `n / d` rounded down. */
  ghost predicate IsFloor(q: int, n: int, d: int) {
    q * d <= n < (q + 1) * d
  }

  /** `q` is `n / d` rounded down exactly when that has 63 bits. */
  ghost predicate CutFloor(q: int, n: int, d: int) {
    q < TWO_63 && (IsFloor(q, n, d) <==> n < d * TWO_63)
  }

  lemma FloorIs(n: nat, d: nat)
    requires d > 0
    ensures n / d >= 0 && IsFloor(n / d, n, d)
  {
    QuotientBounds(n, d);
    QuotientMonotone(0, n, d);
  }

  lemma FloorUnique(q: int, n: int, d: int)
    requires d > 0 && IsFloor(q, n, d)
    ensures n / d == q
  {
    QuotientIs(n, d, q);
  }

  /** A value of 63 bits is the floor exactly when the floor has as many, if it is the floor then. */
  lemma CutFloorIff(q: int, n: nat, d: nat)
    requires d > 0 && q < TWO_63
    requires n < d * TWO_63 ==> q == n / d
    ensures IsFloor(q, n, d) <==> n < d * TWO_63
  {
    if n < d * TWO_63 {
      FloorIs(n, d);
    } else if IsFloor(q, n, d) {
      MulOrder(q + 1, TWO_63, d);
    }
  }

  /** Cutting a quotient to 64 bits. */
  lemma CutFloorIs(n: nat, d: nat)
    requires d > 0
    ensures CutFloor(WrapS64(n / d), n, d)
  {
    QuotientBounds(n, d);
    QuotientMonotone(0, n, d);
    if n < d * TWO_63 && n / d >= TWO_63 {
      MulOrder(TWO_63, n / d, d);
    }
    CutFloorIff(WrapS64(n / d), n, d);
  }
}
