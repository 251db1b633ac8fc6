/** Powers of two, and division where the solver needs help. */
module Arithmetic {
  function Pow2(n: nat): (r: nat)
    ensures r > 0
  {
    if n == 0 then 1 else 2 * Pow2(n - 1)
  }

  lemma {:induction false} Pow2Divides(m: nat, n: nat)
    requires m <= n
    ensures Pow2(n) == Pow2(n - m) * Pow2(m)
    decreases n - m
  {
    if m < n {
      Pow2Divides(m, n - 1);
      DoubleProduct(Pow2(n - 1 - m), Pow2(m));
    }
  }

  lemma DoubleProduct(a: nat, b: nat)
    ensures 2 * (a * b) == (2 * a) * b
  {
  }

  lemma DivisionIsUnique(n: int, m: int, q: int, r: int)
    requires n == q * m + r && 0 <= r < m
    ensures n / m == q && n % m == r
  {
    var d := n / m - q;
    assert n == (n / m) * m + n % m;
    assert d * m == r - n % m;
    assert d >= 1 ==> d * m >= m;
    assert d <= -1 ==> d * m <= -m;
  }

  lemma MultipleBelow(a: int, k: int, m: int)
    requires m > 0 && a * m < k * m + m
    ensures a * m <= k * m
  {
    assert k < a ==> (k + 1) * m <= a * m;
  }

  lemma FloorOfFloor(x: nat, small: nat, factor: nat, big: nat)
    requires small > 0 && big == small * factor && big > 0
    ensures var y := x - x % small; 0 <= y && y - y % big == x - x % big
  {
    var q, k := x / big, x / small;
    var y, f := k * small, q * big;
    assert x == y + x % small;
    assert x == f + x % big;
    assert f == (q * factor) * small;
    MultipleBelow(q * factor, k, small);
    DivisionIsUnique(y, big, q, y - f);
  }

  lemma RemainderIsSmaller(x: nat, m: nat)
    requires m > 0
    ensures 0 <= x % m <= x
  {
    if x < m {
      DivisionIsUnique(x, m, 0, x);
    }
  }

  lemma MultipleOfMultiple(x: nat, k: nat, m: nat)
    requires k > 0 && m > 0 && k * m > 0 && x % (k * m) == 0
    ensures x % m == 0 && m <= k * m
  {
    var q := x / (k * m);
    assert x == q * (k * m);
    assert q * (k * m) == (q * k) * m;
    DivisionIsUnique(x, m, q * k, 0);
    assert (k - 1) * m >= 0 && k * m == (k - 1) * m + m;
  }
}
