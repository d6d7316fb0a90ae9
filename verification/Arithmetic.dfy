/** Facts about division and remainder that the other modules share. */
module Arithmetic {

  const INT64_MAX: int := 0x7fff_ffff_ffff_ffff

  function Min(a: int, b: int): int {
    if b < a then b else a
  }

  function CeilDiv(a: nat, b: nat): nat
    requires b > 0
  {
    (a + b - 1) / b
  }

  lemma QuotientAtLeast(a: int, n: int, q: int)
    requires n > 0 && q * n <= a
    ensures q <= a / n
  {
    var d := a / n;
    assert a == d * n + a % n < d * n + n;
    assert (q - d) * n < n;
    if q - d >= 1 {
      MulMonotone(1, q - d, n);
      assert false;
    }
  }

  lemma MulMonotone(x: int, y: int, n: int)
    requires x <= y && 0 <= n
    ensures x * n <= y * n
  {
  }

  lemma DivModUnique(a: int, n: int, q: int, r: int)
    requires n > 0 && a == q * n + r && 0 <= r < n
    ensures a / n == q && a % n == r
  {
    var d := q - a / n;
    assert a == (a / n) * n + a % n;
    assert d * n == a % n - r;
    if d >= 1 {
      MulMonotone(1, d, n);
      assert false;
    }
    if d <= -1 {
      MulMonotone(d, -1, n);
      assert false;
    }
  }

  lemma NextRemainder(x: nat, n: nat)
    requires n > 0
    ensures (x + 1) % n == if x % n == n - 1 then 0 else x % n + 1
  {
    var q, r := x / n, x % n;
    assert x == q * n + r;
    if r == n - 1 {
      DivModUnique(x + 1, n, q + 1, 0);
    } else {
      DivModUnique(x + 1, n, q, r + 1);
    }
  }

  /** Of `total` items in blocks of `c`, block `k` begins before the end exactly when it is one of the
      first ceil(total / c). */
  lemma BlockStartsInside(total: nat, c: nat, k: int)
    requires c > 0
    ensures k * c < total <==> k < CeilDiv(total, c)
  {
    var n := CeilDiv(total, c);
    assert n * c <= total + c - 1 < n * c + c;
    if k < n {
      MulMonotone(k, n - 1, c);
    } else {
      MulMonotone(n, k, c);
    }
  }

  lemma CeilDivIs(k: nat, n: nat)
    requires n > 0
    ensures CeilDiv(k, n) == k / n + if k % n == 0 then 0 else 1
  {
    var q, r := k / n, k % n;
    assert k == q * n + r;
    if r == 0 {
      DivModUnique(k + n - 1, n, q, n - 1);
    } else {
      DivModUnique(k + n - 1, n, q + 1, r - 1);
    }
  }

  lemma QuotientOfSum(a: int, k: nat, n: nat)
    requires n > 0
    ensures k / n <= (a + k) / n - a / n <= CeilDiv(k, n)
  {
    CeilDivIs(k, n);
    var qa, ra, qk, rk := a / n, a % n, k / n, k % n;
    assert a == qa * n + ra && k == qk * n + rk;
    assert (qa + qk) * n == qa * n + qk * n;
    if ra + rk < n {
      DivModUnique(a + k, n, qa + qk, ra + rk);
    } else {
      DivModUnique(a + k, n, qa + qk + 1, ra + rk - n);
    }
  }
}
