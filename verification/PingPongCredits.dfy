/** When the ping-pong refills its receive queue: as soon as numQp credits are left, and then to rxDepth. */
module PingPongCredits {
  import opened PingPong
  import opened PingPongSafety
  import opened Arithmetic
  import opened Runs

  /** The credits after `k` receives: they run down from rxDepth to numQp + 1 and start again. */
  function CreditsAfter(p: Params, k: nat): int {
    if p.numQp < p.rxDepth then p.rxDepth - k % (p.rxDepth - p.numQp) else p.rxDepth
  }

  /** The counter starts again exactly when the next receive would leave numQp credits. */
  lemma NextCredit(p: Params, k: nat)
    requires p.Accepted()
    ensures CreditsAfter(p, k + 1) == if CreditsAfter(p, k) - 1 <= p.numQp then p.rxDepth else CreditsAfter(p, k) - 1
  {
    if p.numQp < p.rxDepth { ModNext(k, p.rxDepth - p.numQp); }
  }

  lemma ModNext(k: nat, m: nat)
    requires m > 0
    ensures (k + 1) % m == if k % m == m - 1 then 0 else k % m + 1
  {
    var q, r := k / m, k % m;
    assert k == q * m + r;
    if r == m - 1 {
      assert k + 1 == (q + 1) * m;
      ModUnique(m, k + 1, q + 1, 0);
    } else {
      ModUnique(m, k + 1, q, r + 1);
    }
  }

  ghost predicate Exact(p: Params, h: Host) { h.routs == CreditsAfter(p, h.rcnt) }

  ghost function ExactInv(p: Params): System -> bool { s => Inv(p, s) && Exact(p, s.client) && Exact(p, s.server) }

  lemma TakeExact(p: Params, h: Host)
    requires p.Accepted() && h.posted + 1 <= h.routs <= p.rxDepth && Exact(p, h)
    ensures Exact(p, TakeReceive(p, h))
  {
    NextCredit(p, h.rcnt);
  }

  lemma CountExact(p: Params, h: Host)
    requires p.Accepted() && HostInv(p, h) && h.batch != [] && Exact(p, h)
    ensures Exact(p, Counted(p, h.(batch := h.batch[1..]), h.batch[0]))
  {
    var hb := h.(batch := h.batch[1..]);
    if h.batch[0].work == Recv {
      Take(h, hb);
      TakeExact(p, hb);
    }
  }

  lemma ProcessExact(p: Params, s: System, side: Side)
    requires p.Accepted() && Inv(p, s) && Exact(p, s.Get(side)) && Enabled(p, s, Process(side))
    ensures Exact(p, Apply(p, s, Process(side)).Get(side))
  {
    var h := s.Get(side);
    var hb, c := h.(batch := h.batch[1..]), h.batch[0];
    CountExact(p, h);
    CountLinked(p, s, side, Counted(p, hb, c));
    AfterCounting(p, hb, c);
    ProcessHost(p, s, side);
  }

  lemma AfterCounting(p: Params, h: Host, c: Completion)
    requires c.qp < |h.pending| && Counted(p, h, c).fault == NoFault
    ensures ProcessOne(p, h, c).routs == Counted(p, h, c).routs && ProcessOne(p, h, c).rcnt == Counted(p, h, c).rcnt
  {
    ProcessEffect(p, h, c);
  }

  lemma ProcessHost(p: Params, s: System, side: Side)
    requires Enabled(p, s, Process(side))
    ensures var h := s.Get(side);
      Apply(p, s, Process(side)).Get(side) == ProcessOne(p, h.(batch := h.batch[1..]), h.batch[0])
  {
  }

  /** The other steps touch neither the credits nor the count. */
  lemma SameCredits(p: Params, s: System, a: Step, side: Side)
    requires Enabled(p, s, a) && a != Process(side)
    ensures var h, h' := s.Get(side), Apply(p, s, a).Get(side); h'.routs == h.routs && h'.rcnt == h.rcnt
  {
  }

  lemma StepExact(p: Params, s: System, a: Step, side: Side)
    requires p.Accepted() && Inv(p, s) && Exact(p, s.Get(side)) && Enabled(p, s, a)
    ensures Exact(p, Apply(p, s, a).Get(side))
  {
    if a == Process(side) { ProcessExact(p, s, side); } else { SameCredits(p, s, a, side); }
  }

  /** In every run the credits follow from the receives counted, and the receives posted from the credits. */
  lemma CreditsAreExact(p: Params, s: System, side: Side)
    requires p.Accepted() && Reachable(Exchange(p), s)
    ensures var h := s.Get(side);
      && h.routs == (if p.numQp < p.rxDepth then p.rxDepth - h.rcnt % (p.rxDepth - p.numQp) else p.rxDepth)
      && h.posted == h.routs - |Of(h.batch + h.cq, Recv)|
  {
    ExactInductive(p);
    ReachableKeeps(Exchange(p), ExactInv(p), s);
  }

  lemma ExactStep(p: Params, s: System, a: Step)
    requires p.Accepted() && ExactInv(p)(s) && Enabled(p, s, a)
    ensures ExactInv(p)(Apply(p, s, a))
  {
    StepInv(p, s, a);
    StepExact(p, s, a, Client);
    StepExact(p, s, a, Server);
  }

  lemma ExactInductive(p: Params)
    requires p.Accepted()
    ensures Inductive(Exchange(p), ExactInv(p))
  {
    InitInv(p);
    forall s, a | ExactInv(p)(s) && Exchange(p).enabled(s, a) ensures ExactInv(p)(Exchange(p).apply(s, a)) {
      ExactStep(p, s, a);
    }
  }
}
