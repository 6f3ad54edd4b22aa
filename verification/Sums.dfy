/** Sums over the clients or threads below a bound. */
module Sums {

  ghost function Sum(f: nat -> int, m: nat): int {
    if m == 0 then 0 else Sum(f, m - 1) + f(m - 1)
  }

  /** Two functions that differ at one place only. */
  lemma {:induction false} SumDiffers(f: nat -> int, g: nat -> int, m: nat, t: nat)
    requires forall j: nat :: j < m && j != t ==> f(j) == g(j)
    ensures Sum(g, m) == Sum(f, m) + if t < m then g(t) - f(t) else 0
  {
    if m > 0 { SumDiffers(f, g, m - 1, t); }
  }

  lemma {:induction false} SumNat(f: nat -> int, m: nat)
    requires forall j: nat :: j < m ==> f(j) >= 0
    ensures Sum(f, m) >= 0
  {
    if m > 0 { SumNat(f, m - 1); }
  }

  lemma {:induction false} SumConst(f: nat -> int, m: nat, c: int)
    requires forall j: nat :: j < m ==> f(j) == c
    ensures Sum(f, m) == m * c
  {
    if m > 0 { SumConst(f, m - 1, c); assert m * c == (m - 1) * c + c; }
  }
}
