/** Quotients, remainders and multiples. */
module Arithmetic {
  lemma QuotientBound(k: nat, b: nat, n: nat)
    requires b > 0 && k / b >= n
    ensures k >= n * b
  {
    assert k == b * (k / b) + k % b;
    assert b * (k / b) >= b * n;
  }

  lemma QuotientIff(k: nat, b: nat, p: nat)
    requires b > 0
    ensures p * b <= k < p * b + b <==> k / b == p
  {
    var q := k / b;
    assert k == b * q + k % b;
    if q < p {
      assert b * (q + 1) <= b * p;
    } else if q > p {
      assert b * (p + 1) <= b * q;
    }
  }

  /** Stepping and wrapping is wrapping after the step. */
  lemma StepPosition(x: nat, n: nat)
    requires n > 0
    ensures (x % n + 1) % n == (x + 1) % n
  {
    var q, r := x / n, x % n;
    if r + 1 < n {
      RemainderUnique(x + 1, n, q, r + 1);
      RemainderUnique(r + 1, n, 0, r + 1);
    } else {
      RemainderUnique(x + 1, n, q + 1, 0);
      RemainderUnique(r + 1, n, 1, 0);
    }
  }

  lemma RemainderUnique(x: nat, n: nat, q: nat, r: nat)
    requires n > 0 && x == n * q + r && r < n
    ensures x % n == r
  {
    assert q * n == n * q;
    QuotientIff(x, n, q);
  }

  lemma {:induction false} MultipleBelow(k: nat, n: nat, m: nat)
    requires k <= n
    ensures k * m <= n * m && (k < n ==> k * m + m <= n * m)
  {
    if k < n {
      MultipleBelow(k, n - 1, m);
      assert n * m == (n - 1) * m + m;
    }
  }

  /** Multiples of the modulus do not matter. */
  lemma ModShift(x: nat, n: nat, q: nat)
    requires n > 0
    ensures (x + n * q) % n == x % n
  {
    assert x + n * q == n * (x / n + q) + x % n;
    RemainderUnique(x + n * q, n, x / n + q, x % n);
  }

  function PowerOfTwo(k: nat): nat { if k == 0 then 1 else 2 * PowerOfTwo(k - 1) }

  lemma {:induction false} PowerPositive(k: nat)
    ensures PowerOfTwo(k) > 0
  {
    if k > 0 {
      PowerPositive(k - 1);
    }
  }

  /** Wrapping sums associate. */
  lemma WrapAssociates(a: nat, b: nat, c: nat, n: nat)
    requires n > 0
    ensures ((a + b) % n + c) % n == (a + (b + c) % n) % n == (a + b + c) % n
  {
    assert (a + b) % n + c + n * ((a + b) / n) == a + b + c;
    ModShift((a + b) % n + c, n, (a + b) / n);
    assert a + (b + c) % n + n * ((b + c) / n) == a + b + c;
    ModShift(a + (b + c) % n, n, (b + c) / n);
  }
}
