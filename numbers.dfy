/** The number operations of JavaScript the views depend on, over exact integers. */
module Numbers {

  /** `a % n` in JavaScript: the remainder truncated toward zero, so it has the sign of `a`. */
  function JsRem(a: int, n: int): (r: int)
    requires n > 0
    ensures a >= 0 ==> 0 <= r < n
    ensures a < 0 ==> -n < r <= 0
  {
    if a >= 0 then NatRem(a, n) else -(NatRem(-a, n) as int)
  }

  /** The remainder of a non-negative dividend, by repeated subtraction. */
  function NatRem(a: nat, n: nat): (r: nat)
    requires n > 0
    ensures r < n
    decreases a
  {
    if a < n then a else NatRem(a - n, n)
  }

  /** For a non-negative dividend the remainder is Dafny's own `%`. */
  lemma {:induction false} JsRemNonNegative(a: int, n: int)
    requires n > 0 && a >= 0
    ensures JsRem(a, n) == a % n
  {
    if a < n {
      ModUnique(a, n, 0, a);
    } else {
      JsRemNonNegative(a - n, n);
      ModUnique(a, n, (a - n) / n + 1, (a - n) % n);
    }
  }

  /** For a negative dividend the remainder is the negated remainder of its magnitude. */
  lemma JsRemNegative(a: int, n: int)
    requires n > 0 && a < 0
    ensures JsRem(a, n) == -((-a) % n)
  {
    JsRemNonNegative(-a, n);
  }

  /** For a non-negative dividend the remainder repeats with period `n`. */
  lemma JsRemPeriod(a: int, n: int)
    requires n > 0 && a >= 0
    ensures JsRem(a + n, n) == JsRem(a, n)
  {
  }

  /** The remainder is the only `r` in `[0, n)` with `x == q * n + r`. */
  lemma ModUnique(x: int, n: int, q: int, r: int)
    requires n > 0 && 0 <= r < n && x == q * n + r
    ensures x % n == r
  {
    var q', r' := x / n, x % n;
    assert (q - q') * n == r' - r;
    if q - q' >= 1 {
      MulLeft(n, 1, q - q');
    } else if q - q' <= -1 {
      MulLeft(n, q - q', -1);
    }
  }

  /**
   * `Math.round(num / den * 100)` in exact arithmetic: the nearest integer to 100 * num / den,
   * halves rounded up.
   */
  function RoundPercent(num: int, den: int): (r: int)
    requires den > 0
    ensures 2 * den * r <= 200 * num + den < 2 * den * (r + 1)
  {
    (200 * num + den) / (2 * den)
  }

  /** A share of a whole rounds to a percentage between 0 and 100, and the whole to 100. */
  lemma {:induction false} RoundPercentBounds(num: int, den: int)
    requires 0 <= num <= den && den > 0
    ensures 0 <= RoundPercent(num, den) <= 100
    ensures num == den ==> RoundPercent(num, den) == 100
    ensures num == 0 ==> RoundPercent(num, den) == 0
  {
    var r := RoundPercent(num, den);
    if r < 0 {
      MulLeft(2 * den, r + 1, 0);
    }
    if r > 100 {
      MulLeft(2 * den, 101, r);
    }
    if num == den && r < 100 {
      MulLeft(2 * den, r + 1, 100);
    }
    if num == 0 && r > 0 {
      MulLeft(2 * den, 1, r);
    }
  }

  lemma MulLeft(k: int, a: int, b: int)
    requires k > 0 && a <= b
    ensures k * a <= k * b
  {
  }
}
