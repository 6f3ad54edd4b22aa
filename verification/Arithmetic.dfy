/** Facts about division that the verifier does not find by itself. */
module Arithmetic {

  lemma MulGap(a: nat, b: nat, n: nat)
    requires a < b
    ensures b * n >= a * n + n
  {
    assert b * n == a * n + (b - a) * n;
    assert (b - a) * n == n + (b - a - 1) * n;
  }

  /** Quotient and remainder are unique. */
  lemma ModUnique(n: nat, x: nat, d: nat, r: nat)
    requires r < n && x == d * n + r
    ensures x % n == r
  {
    var e, r' := x / n, x % n;
    assert x == e * n + r';
    if e < d { MulGap(e, d, n); } else if d < e { MulGap(d, e, n); }
  }

  lemma DivUnique(n: nat, x: nat, d: nat, r: nat)
    requires r < n && x == d * n + r
    ensures x / n == d
  {
    ModUnique(n, x, d, r);
    var e := x / n;
    assert x == e * n + r;
    if e < d { MulGap(e, d, n); } else if d < e { MulGap(d, e, n); }
  }

  lemma ModSmall(x: nat, n: nat)
    requires n >= 1
    ensures x % n == x <==> x < n
  {
    if x < n { ModUnique(n, x, 0, x); }
  }
}
