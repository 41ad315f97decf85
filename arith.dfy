/** Facts about integer multiples that the solver does not find on its own. */
module Arith {

  lemma MulAtLeast(a: int, e: int)
    requires e > 0 && a >= 1
    ensures a * e >= e
  {
    assert a * e == (a - 1) * e + e;
    assert (a - 1) * e >= 0;
  }

  lemma MulAtMost(a: int, e: int)
    requires e > 0 && a <= -1
    ensures a * e <= -e
  {
    assert a * e == -((-a) * e);
    MulAtLeast(-a, e);
  }

  /** q·e leaves no remainder and divides back to q. */
  lemma MultipleModZero(q: int, e: int)
    requires e > 0
    ensures (q * e) % e == 0 && (q * e) / e == q
  {
    var d, r := (q * e) / e, (q * e) % e;
    assert q * e == d * e + r;
    assert r == (q - d) * e;
    if q - d >= 1 { MulAtLeast(q - d, e); }
    if q - d <= -1 { MulAtMost(q - d, e); }
  }

  /** A multiple of a non-zero e, of either sign, leaves no remainder. */
  lemma MultipleModZeroAnySign(q: int, e: int)
    requires e != 0
    ensures (q * e) % e == 0
  {
    if e > 0 {
      MultipleModZero(q, e);
    } else {
      var d, r := (q * e) / e, (q * e) % e;
      assert q * e == d * e + r;
      assert r == (d - q) * (-e);
      if d - q >= 1 { MulAtLeast(d - q, -e); }
      if d - q <= -1 { MulAtMost(d - q, -e); }
    }
  }

  /** A positive multiple of e is at least e, and the multiple before it is one too. */
  lemma StepBackMultiple(x: int, e: int)
    requires e > 0 && x % e == 0 && x > 0
    ensures x >= e && (x - e) % e == 0
  {
    var d := x / e;
    assert x == d * e;
    MulAtLeast(d, e);
    assert x - e == (d - 1) * e;
    MultipleModZero(d - 1, e);
  }

  /** (q·n + b) splits back into quotient q and remainder b when 0 <= b < n. */
  lemma DivModOfSum(q: int, n: int, b: int)
    requires n > 0 && 0 <= b < n
    ensures (q * n + b) / n == q && (q * n + b) % n == b
  {
    var x := q * n + b;
    var d, r := x / n, x % n;
    assert x == d * n + r;
    assert (q - d) * n == r - b;
    if q - d >= 1 { MulAtLeast(q - d, n); }
    if q - d <= -1 { MulAtMost(q - d, n); }
  }

  /** Counting up by one: the remainder grows by one, or wraps to 0 as the quotient grows by one. */
  lemma NextDivMod(j: int, n: int)
    requires n > 0
    ensures (j + 1) % n == 0 ==> (j + 1) / n == j / n + 1 && j % n == n - 1
    ensures (j + 1) % n != 0 ==> (j + 1) / n == j / n && (j + 1) % n == j % n + 1
  {
    var q, r := j / n, j % n;
    assert j == q * n + r;
    if r + 1 < n {
      DivModOfSum(q, n, r + 1);
    } else {
      assert j + 1 == (q + 1) * n + 0;
      DivModOfSum(q + 1, n, 0);
    }
  }
}
