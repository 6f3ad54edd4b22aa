/**
 Counting facts about multisets of indices.  The protocols keep their messages and completions in
 multisets keyed by a queue-pair (or client) index, and need pigeonhole arguments over them.
 */
module Multisets {

  /** At most `t` copies of each of the indices below `n` make at most `n * t` elements. */
  lemma {:induction false} CardAtMost(m: multiset<nat>, n: nat, t: nat)
    requires forall x :: x in m ==> x < n && m[x] <= t
    ensures |m| <= n * t
  {
    if n == 0 {
      assert m == multiset{};
    } else {
      var rest := m[n - 1 := 0];
      forall x | x in rest ensures x < n - 1 && rest[x] <= t {
        assert x in m;
      }
      CardAtMost(rest, n - 1, t);
      assert (n - 1) * t + t == n * t;
    }
  }

  /** When that bound is met exactly, every index is present exactly `t` times. */
  lemma {:induction false} CardFull(m: multiset<nat>, n: nat, t: nat)
    requires forall x :: x in m ==> x < n && m[x] <= t
    requires |m| == n * t
    ensures forall i: nat :: i < n ==> m[i] == t
  {
    forall i: nat | i < n ensures m[i] == t {
      assert i in m || m[i] == 0;
      if m[i] < t {
        var more := m[i := m[i] + 1];
        forall x | x in more ensures x < n && more[x] <= t {
          if x != i { assert x in m; }
        }
        CardAtMost(more, n, t);
      }
    }
  }

  /** A multiset that holds every index below `n` exactly `t` times has `n * t` elements. */
  lemma {:induction false} CardExact(m: multiset<nat>, n: nat, t: nat)
    requires forall x :: x in m ==> x < n
    requires forall i: nat :: i < n ==> m[i] == t
    ensures |m| == n * t
  {
    if n == 0 {
      assert m == multiset{};
    } else {
      var rest := m[n - 1 := 0];
      forall x | x in rest ensures x < n - 1 {
        assert x in m;
      }
      CardExact(rest, n - 1, t);
      assert (n - 1) * t + t == n * t;
    }
  }

  /** Inclusion bounds the size. */
  lemma SubCard<T>(a: multiset<T>, b: multiset<T>)
    requires a <= b
    ensures |a| <= |b|
  {
    assert b == a + (b - a);
  }
}
