/** Division facts used across the model. */
module Arithmetic {
  const WORD16: nat := 0x1_0000

  function One(b: bool): nat {
    if b then 1 else 0
  }

  function Pow2(n: nat): (p: nat)
    ensures p >= 1
  {
    if n == 0 then 1 else 2 * Pow2(n - 1)
  }

  lemma MulLeq(x: int, y: int, n: nat)
    requires x <= y
    ensures x * n <= y * n
  {
  }

  /** Division with remainder is unique. */
  lemma DivModUnique(x: nat, y: int, n: nat, r: nat)
    requires r < n && x == y * n + r
    ensures x / n == y && x % n == r
  {
    var q := x / n;
    assert x == q * n + x % n;
    if q < y {
      MulLeq(q + 1, y, n);
    } else if q > y {
      MulLeq(y + 1, q, n);
    }
  }

  lemma ModUnique(x: nat, y: int, n: nat, r: nat)
    requires r < n && x == y * n + r
    ensures x % n == r
  {
    DivModUnique(x, y, n, r);
  }

  lemma ModAdd(a: nat, n: nat, q: int)
    requires n > 0 && a + q * n >= 0
    ensures (a + q * n) % n == a % n
  {
    ModUnique(a + q * n, a / n + q, n, a % n);
  }
}
