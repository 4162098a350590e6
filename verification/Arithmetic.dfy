/** Integer helpers of the Rust standard library. */
module Arithmetic {

  function Min(a: nat, b: nat): nat {
    if a < b then a else b
  }

  function Max(a: nat, b: nat): nat {
    if a < b then b else a
  }

  function Clamp(n: nat, lo: nat, hi: nat): nat
    requires lo <= hi
  {
    if n < lo then lo else if n > hi then hi else n
  }

  // usize::div_ceil
  function DivCeil(n: nat, d: nat): nat
    requires d > 0
  {
    (n + d - 1) / d
  }

  lemma MulAtLeast(d: int, k: int)
    requires d >= 0
    ensures k >= 1 ==> d * k >= d
    ensures k <= -1 ==> d * k + d <= 0
  {
    if k >= 1 {
      assert d * k == d + d * (k - 1);
    } else if k <= -1 {
      assert d * k + d == d * (k + 1);
    }
  }

  lemma DivUnique(a: nat, d: nat, q: nat, r: nat)
    requires r < d && a == d * q + r
    ensures a / d == q
  {
    var k := a / d - q;
    assert d * k == r - a % d;
    MulAtLeast(d, k);
  }

  // One round takes d off, or the rest.
  lemma DivCeilStep(n: nat, d: nat)
    requires n > 0 && d > 0
    ensures DivCeil(n, d) == 1 + DivCeil(n - Min(n, d), d)
  {
    var q, r := (n - 1) / d, (n - 1) % d;
    assert n - 1 == d * q + r;
    assert n + d - 1 == d * (q + 1) + r;
    DivUnique(n + d - 1, d, q + 1, r);
    if n > d {
      assert (n - d) + d - 1 == d * q + r;
      DivUnique((n - d) + d - 1, d, q, r);
    } else {
      assert d - 1 == d * 0 + (d - 1) && n - 1 == d * 0 + (n - 1);
      DivUnique(d - 1, d, 0, d - 1);
      DivUnique(n - 1, d, 0, n - 1);
    }
  }

  lemma RoundBounds(n: nat, c: nat, k: nat)
    requires c > 0 && k * c < n
    ensures k < DivCeil(n, c)
    ensures (k + 1) * c == k * c + c
    ensures n <= (k + 1) * c ==> DivCeil(n, c) == k + 1
  {
    var q, r := (n + c - 1) / c, (n + c - 1) % c;
    assert n + c - 1 == c * q + r;
    MulAtLeast(c, q - k);
    MulAtLeast(c, q - k - 1);
    MulAtLeast(c, k + 1 - q);
    assert c * (q - k) == c * q - k * c;
  }
}
