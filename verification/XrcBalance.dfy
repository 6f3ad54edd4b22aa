/** Round robin: over a full run every send QP of the server carries the same number of messages. */
module XrcBalance {
  import opened XrcPingPong
  import opened XrcSafety
  import opened Arithmetic
  import opened Runs

  // ---------------------------------------------------------------- counting

  /** How many of the first `k` messages to client `i` travel through send QP `j`. */
  ghost function Hits(n: nat, i: nat, k: nat, j: nat): nat
    requires n >= 1
  {
    if k == 0 then 0 else Hits(n, i, k - 1, j) + (if (i + (k - 1)) % n == j then 1 else 0)
  }

  /** The same, summed over the clients that `counts` lists. */
  ghost function LoadOf(n: nat, counts: seq<nat>, j: nat): nat
    requires n >= 1
  {
    if counts == [] then 0
    else LoadOf(n, counts[..|counts| - 1], j) + Hits(n, |counts| - 1, counts[|counts| - 1], j)
  }

  /** One more message to client `i` is one more message on the send QP that the code picks. */
  lemma {:induction false} LoadStep(n: nat, counts: seq<nat>, i: nat, j: nat)
    requires n >= 1 && i < |counts|
    ensures LoadOf(n, counts[i := counts[i] + 1], j) == LoadOf(n, counts, j) + (if (i + counts[i]) % n == j then 1 else 0)
  {
    var last := |counts| - 1;
    var counts' := counts[i := counts[i] + 1];
    if i == last {
      assert counts'[..last] == counts[..last];
    } else {
      assert counts'[..last] == counts[..last][i := counts[i] + 1];
      LoadStep(n, counts[..last], i, j);
    }
  }

  lemma {:induction false} LoadZero(n: nat, counts: seq<nat>, j: nat)
    requires n >= 1 && forall i :: 0 <= i < |counts| ==> counts[i] == 0
    ensures LoadOf(n, counts, j) == 0
  {
    if counts != [] { LoadZero(n, counts[..|counts| - 1], j); }
  }

  /** No client has been sent more than `counts`, so no send QP carries more. */
  lemma {:induction false} LoadMonotone(n: nat, counts: seq<nat>, more: seq<nat>, j: nat)
    requires n >= 1 && |counts| == |more| && forall i :: 0 <= i < |counts| ==> counts[i] <= more[i]
    ensures LoadOf(n, counts, j) <= LoadOf(n, more, j)
  {
    if counts != [] {
      var last := |counts| - 1;
      LoadMonotone(n, counts[..last], more[..last], j);
      HitsMonotone(n, last, counts[last], more[last], j);
    }
  }

  lemma {:induction false} HitsMonotone(n: nat, i: nat, k: nat, k': nat, j: nat)
    requires n >= 1 && k <= k'
    ensures Hits(n, i, k, j) <= Hits(n, i, k', j)
    decreases k'
  {
    if k < k' { HitsMonotone(n, i, k, k' - 1, j); }
  }

  // ---------------------------------------------------------------- each round is a permutation

  /** (i + k) % n, written with the offset of the round below n. */
  lemma {:induction false} Wrap(n: nat, i: nat, k: nat)
    requires i < n
    ensures (i + k) % n == if i + k % n < n then i + k % n else i + k % n - n
  {
    var c, d := k % n, k / n;
    assert k == d * n + c;
    if i + c < n {
      ModUnique(n, i + k, d, i + c);
    } else {
      assert i + k == (d + 1) * n + (i + c - n);
      ModUnique(n, i + k, d + 1, i + c - n);
    }
  }

  /** In round `k` the clients below `m` use send QP `j` once if the right client is among them. */
  ghost function RoundHits(n: nat, m: nat, k: nat, j: nat): nat
    requires n >= 1
  {
    if m == 0 then 0 else RoundHits(n, m - 1, k, j) + (if (m - 1 + k) % n == j then 1 else 0)
  }

  /** The client that uses send QP `j` in round `k`. */
  ghost function Owner(n: nat, k: nat, j: nat): int
    requires n >= 1
  {
    if k % n <= j then j - k % n else j + n - k % n
  }

  lemma {:induction false} OnePerRound(n: nat, m: nat, k: nat, j: nat)
    requires m <= n && j < n
    ensures RoundHits(n, m, k, j) == if Owner(n, k, j) < m then 1 else 0
  {
    if m > 0 {
      OnePerRound(n, m - 1, k, j);
      Wrap(n, m - 1, k);
    }
  }

  /** `m` clients that were each sent `t` messages. */
  lemma {:induction false} LoadByRounds(n: nat, m: nat, t: nat, j: nat)
    requires n >= 1 && t >= 1
    ensures LoadOf(n, seq(m, _ => t), j) == LoadOf(n, seq(m, _ => t - 1), j) + RoundHits(n, m, t - 1, j)
  {
    if m > 0 {
      assert seq(m, _ => t)[..m - 1] == seq(m - 1, _ => t);
      assert seq(m, _ => t - 1)[..m - 1] == seq(m - 1, _ => t - 1);
      LoadByRounds(n, m - 1, t, j);
    }
  }

  /** `t` full rounds put exactly `t` messages on every send QP. */
  lemma {:induction false} RoundRobinIsBalanced(n: nat, t: nat, j: nat)
    requires j < n
    ensures LoadOf(n, seq(n, _ => t), j) == t
  {
    if t == 0 {
      LoadZero(n, seq(n, _ => 0), j);
    } else {
      RoundRobinIsBalanced(n, t - 1, j);
      LoadByRounds(n, n, t, j);
      OnePerRound(n, n, t - 1, j);
    }
  }

  // ---------------------------------------------------------------- in the exchange

  ghost predicate LoadInv(p: Params, s: System) {
    p.n >= 1 && forall j: nat :: s.server.load[j] == LoadOf(p.n, s.server.ppCnt, j)
  }

  lemma LoadInit(p: Params)
    requires p.Valid()
    ensures LoadInv(p, Init(p))
  {
    forall j: nat ensures Init(p).server.load[j] == LoadOf(p.n, Init(p).server.ppCnt, j) {
      LoadZero(p.n, Init(p).server.ppCnt, j);
    }
  }

  lemma SendKeepsLoad(p: Params, s: System, i: nat)
    requires LoadInv(p, s) && i < |s.server.ppCnt| && i < |s.clients| && SlotFree(p, s.server, i)
    ensures LoadInv(p, ServerSend(p, s, i))
  {
    SendEffect(p, s, i);
    var s' := ServerSend(p, s, i);
    forall j: nat ensures s'.server.load[j] == LoadOf(p.n, s'.server.ppCnt, j) {
      LoadStep(p.n, s.server.ppCnt, i, j);
      assert s.server.load[j] == LoadOf(p.n, s.server.ppCnt, j);
    }
  }

  lemma HandleKeepsLoad(p: Params, s: System)
    requires p.Valid() && Inv(p, s) && LoadInv(p, s) && CanHandle(s)
    ensures LoadInv(p, ServerHandle(p, s))
  {
    var i, s' := s.server.recvCq[0], s.(server := ServerTake(p, s.server));
    if s.server.ppCnt[i] < p.t {
      SendHasSlot(p, s, i);
      SendKeepsLoad(p, s', i);
    }
  }

  lemma StepKeepsLoad(p: Params, s: System, a: Step)
    requires p.Valid() && Inv(p, s) && LoadInv(p, s) && Enabled(p, s, a)
    ensures LoadInv(p, Apply(p, s, a))
  {
    match a
    case Kick =>
      assert ClientInv(p, s.server, s.server.kicked, s.clients[s.server.kicked]);
      SendHasSlot(p, s, s.server.kicked);
      SendKeepsLoad(p, s, s.server.kicked);
    case ServerRecv =>
      HandleKeepsLoad(p, s);
    case _ =>
      OthersKeepLoad(p, s, a);
  }

  lemma OthersKeepLoad(p: Params, s: System, a: Step)
    requires Enabled(p, s, a) && a != Kick && a != ServerRecv
    ensures Apply(p, s, a).server.load == s.server.load && Apply(p, s, a).server.ppCnt == s.server.ppCnt
  {
  }

  lemma LoadInEveryRun(p: Params, s: System)
    requires p.Valid() && Reachable(Exchange(p), s)
    ensures LoadInv(p, s)
  {
    var m := Exchange(p);
    var inv := s => Inv(p, s) && LoadInv(p, s);
    InitInv(p);
    LoadInit(p);
    forall s, a | inv(s) && m.enabled(s, a) ensures inv(m.apply(s, a)) {
      StepInv(p, s, a);
      StepKeepsLoad(p, s, a);
    }
    ReachableKeeps(m, inv, s);
  }
}
