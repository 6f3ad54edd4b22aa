/** What every run of the ping-pong exchange guarantees. */
module PingPongTheorems {
  import opened PingPong
  import opened PingPongSafety
  import opened Multisets
  import opened Runs

  // ---------------------------------------------------------------- safety of every reachable state

  /** No receive queue runs empty, no queue overflows, no post fails: for any interleaving. */
  lemma NothingEverFails(p: Params, s: System)
    requires p.Accepted() && Reachable(Exchange(p), s)
    ensures s.Healthy()
  {
    InvInEveryRun(p, s);
  }

  /** The credit counter accounts for every receive, and stays between numQp and rxDepth. */
  lemma CreditsInEveryRun(p: Params, s: System, side: Side)
    requires p.Accepted() && Reachable(Exchange(p), s)
    ensures var h := s.Get(side);
      && h.posted + |Of(h.batch + h.cq, Recv)| == h.routs
      && p.numQp <= h.routs <= p.rxDepth
      && |h.batch| + |h.cq| <= p.rxDepth + p.numQp
  {
    InvInEveryRun(p, s);
    QueueFits(p, s, side);
  }

  lemma QueueFits(p: Params, s: System, side: Side)
    requires p.Accepted() && Inv(p, s)
    ensures |s.Get(side).Queue()| <= p.rxDepth + p.numQp
  {
    var h := s.Get(side);
    Tokens(p, s, side);
    CardAtMost(h.Pend(Recv), p.numQp, 1);
    CardAtMost(h.Pend(Send), p.numQp, 1);
    OfSplit(h.Queue());
  }

  /**
   One token per queue pair.  The client is ahead of the server by one message or by none; one message,
   no more and no less, is in flight, queued or unanswered, and which side it is with tells who is ahead;
   the SEND bit stands for exactly one unprocessed send; an idle queue pair means that its host has
   reached its own goal.
   */
  lemma OneTokenInEveryRun(p: Params, s: System, q: nat)
    requires p.Accepted() && Reachable(Exchange(p), s) && q < p.numQp
    ensures |s.client.pending| == |s.server.pending| == p.numQp
    ensures s.server.posts[q] <= s.client.posts[q] <= s.server.posts[q] + 1
    ensures AtServer(s.client, s.server, q) + AtClient(s.client, s.server, q) == 1
    ensures s.client.posts[q] == s.server.posts[q] + 1 <==>
      s.client.wire[q] + Of(s.server.batch + s.server.cq, Recv)[q] + I(!s.server.pending[q].recv) == 1
    ensures s.client.posts[q] == s.server.posts[q] <==>
      s.server.wire[q] + Of(s.client.batch + s.client.cq, Recv)[q] + I(!s.client.pending[q].recv) == 1
    ensures forall side: Side :: var h := s.Get(side);
      && h.wire[q] + h.unacked[q] + Of(h.batch + h.cq, Send)[q] == I(h.pending[q].send)
      && (q < h.started && h.pending[q] == NONE ==> h.scnt >= p.iters)
  {
    InvInEveryRun(p, s);
    assert TokenInv(s.client, s.server, q);
    forall side: Side ensures QpInv(p, s.Get(side), q) { }
  }

  /** A host overshoots its goal by less than the number of queue pairs. */
  lemma SendOvershoot(p: Params, s: System, side: Side)
    requires p.Accepted() && 1 <= p.iters && Reachable(Exchange(p), s)
    ensures |s.Get(side).posts| <= p.iters + p.numQp - 1
  {
    InvInEveryRun(p, s);
  }

  // ---------------------------------------------------------------- progress

  lemma StuckNic(p: Params, s: System, side: Side)
    requires s.Healthy() && Stuck(Exchange(p), s)
    ensures s.Get(side).wire == multiset{} && s.Get(side).unacked == multiset{}
  {
    var m := Exchange(p);
    forall q ensures q !in s.Get(side).wire { assert !m.enabled(s, Deliver(side, q)); }
    forall q ensures q !in s.Get(side).unacked { assert !m.enabled(s, Ack(side, q)); }
  }

  lemma StuckHost(p: Params, s: System, side: Side)
    requires p.Accepted() && s.Healthy()
    requires !Enabled(p, s, Start) && !Enabled(p, s, Process(side)) && !Enabled(p, s, Poll(side, 1))
    requires InRange(p, s.client) && InRange(p, s.server) && s.server.started == p.numQp
    ensures s.Get(side).started == p.numQp && Halted(p, s.Get(side))
  {
    var h := s.Get(side);
    assert s.client.started == p.numQp;
    if h.batch != [] {
      CanProcess(p, s, side);
    } else if !h.Done(p) && h.cq != [] {
      CanPoll(p, s, side);
    }
  }

  lemma CanProcess(p: Params, s: System, side: Side)
    requires s.Healthy() && InRange(p, s.Get(side)) && s.Get(side).batch != []
    ensures Enabled(p, s, Process(side))
  {
  }

  lemma CanPoll(p: Params, s: System, side: Side)
    requires p.numWc >= 1 && s.Healthy() && s.Get(side).started == p.numQp
    requires s.Get(side).batch == [] && !s.Get(side).Done(p) && s.Get(side).cq != []
    ensures Enabled(p, s, Poll(side, 1))
  {
  }

  /** Everything polled is processed, and a host that still polls finds nothing. */
  ghost predicate Halted(p: Params, h: Host) { h.batch == [] && (h.Done(p) || h.cq == []) }

  lemma NotEnabled(p: Params, s: System, a: Step)
    requires Stuck(Exchange(p), s)
    ensures !Enabled(p, s, a)
  {
    assert !Exchange(p).enabled(s, a);
  }

  /** When no step is enabled, a host that still polls has nothing left to process. */
  lemma StuckMeansIdle(p: Params, s: System, side: Side)
    requires p.Accepted() && Inv(p, s) && Stuck(Exchange(p), s)
    ensures s.Get(side).wire == multiset{}
    ensures s.Get(side).Done(p) || Idle(p, s.Get(side))
  {
    StuckNic(p, s, side);
    NotEnabled(p, s, Start);
    NotEnabled(p, s, Process(side));
    NotEnabled(p, s, Poll(side, 1));
    StuckHost(p, s, side);
  }

  ghost predicate Idle(p: Params, h: Host) {
    && h.wire == multiset{} && h.unacked == multiset{}
    && h.batch == [] && h.cq == [] && h.started == p.numQp
  }

  /** A host with empty queues has processed everything that was ever sent. */
  lemma IdleCounts(p: Params, s: System, side: Side)
    requires Inv(p, s) && Idle(p, s.Get(side)) && s.Get(side.Peer()).wire == multiset{}
    ensures s.Get(side).scnt == |s.Get(side).posts|
    ensures s.Get(side).rcnt == |s.Get(side.Peer()).posts|
  {
    assert s.Get(side).Queue() == [];
  }

  /** If one host has reached its goal, so has a peer that has nothing left to process. */
  lemma IdleFollowsDone(p: Params, s: System, side: Side)
    requires Inv(p, s) && Idle(p, s.Get(side)) && s.Get(side.Peer()).wire == multiset{}
    requires s.Get(side.Peer()).Done(p)
    ensures s.Get(side).Done(p)
  {
    IdleCounts(p, s, side);
  }

  lemma PostsApart(p: Params, s: System, q: nat)
    requires Inv(p, s)
    ensures s.server.posts[q] <= s.client.posts[q]
    ensures q < p.numQp ==> s.client.posts[q] == s.server.posts[q] + AtServer(s.client, s.server, q)
    ensures q >= p.numQp ==> s.client.posts[q] == s.server.posts[q]
  {
    if q < p.numQp {
      assert TokenInv(s.client, s.server, q);
    } else {
      assert q !in s.client.posts && q !in s.server.posts;
    }
  }

  /** An idle queue pair shows which host stopped, and that it stopped because it was done. */
  lemma BothIdleAreDone(p: Params, s: System)
    requires p.numQp >= 1 && Inv(p, s)
    requires Idle(p, s.client) && Idle(p, s.server)
    ensures s.Finished(p)
  {
    var c, r := s.client, s.server;
    IdleCounts(p, s, Client);
    IdleCounts(p, s, Server);
    assert c.Queue() == [] && r.Queue() == [];
    forall q: nat ensures r.posts[q] <= c.posts[q] { PostsApart(p, s, q); }
    SubCard(r.posts, c.posts);
    if q: nat :| q < p.numQp && !r.pending[q].recv {
      assert QpInv(p, r, q);
    } else {
      forall q: nat ensures r.posts[q] == c.posts[q] { PostsApart(p, s, q); }
      assert r.posts == c.posts;
      assert TokenInv(c, r, 0);
      assert QpInv(p, c, 0);
    }
  }

  /** A run can only stop when both hosts have left their loops. */
  lemma StuckIsFinished(p: Params, s: System)
    requires p.Accepted() && p.numQp >= 1 && Inv(p, s) && Stuck(Exchange(p), s)
    ensures s.Finished(p)
  {
    StuckMeansIdle(p, s, Client);
    StuckMeansIdle(p, s, Server);
    if s.server.Done(p) {
      if Idle(p, s.client) { IdleFollowsDone(p, s, Client); }
    } else if s.client.Done(p) {
      IdleFollowsDone(p, s, Server);
    } else {
      BothIdleAreDone(p, s);
    }
  }

  // ---------------------------------------------------------------- termination

  /** Work left: unposted, in flight, unacknowledged, unpolled, unprocessed. */
  ghost function Effort(p: Params, h: Host): int {
    6 * (p.Budget() - |h.posts|) + (p.numQp - h.started)
    + 6 * |h.wire| + 3 * |h.unacked| + 2 * |h.cq| + |h.batch|
  }

  ghost function Measure(p: Params, s: System): int {
    Effort(p, s.client) + Effort(p, s.server)
  }

  /** Processing spends a completion; a reply spends budget and puts one message on the wire. */
  lemma ProcessEffort(p: Params, h: Host, c: Completion)
    requires c.qp < |h.pending|
    ensures Effort(p, ProcessOne(p, h, c)) <= Effort(p, h)
  {
    var h1 := Counted(p, h, c);
    assert Effort(p, h1) == Effort(p, h);
  }

  lemma ProcessDecreases(p: Params, s: System, side: Side)
    requires Enabled(p, s, Process(side))
    ensures Measure(p, Apply(p, s, Process(side))) < Measure(p, s)
  {
    var h := s.Get(side);
    ProcessEffort(p, h.(batch := h.batch[1..]), h.batch[0]);
  }

  lemma StartDecreases(p: Params, s: System)
    requires Enabled(p, s, Start)
    ensures Measure(p, Apply(p, s, Start)) < Measure(p, s)
  {
  }

  lemma DeliverDecreases(p: Params, s: System, from: Side, q: nat)
    requires p.Accepted() && Inv(p, s) && Enabled(p, s, Deliver(from, q))
    ensures Measure(p, Apply(p, s, Deliver(from, q))) < Measure(p, s)
  {
    var a', b' := DeliverEffect(p, s, from, q);
    assert q in s.Get(from).wire;
    assert Effort(p, a') == Effort(p, s.Get(from)) - 3;
    assert Effort(p, b') == Effort(p, s.Get(from.Peer())) + 2;
  }

  lemma AckDecreases(p: Params, s: System, side: Side, q: nat)
    requires Enabled(p, s, Ack(side, q))
    ensures Measure(p, Apply(p, s, Ack(side, q))) < Measure(p, s)
  {
  }

  lemma PollDecreases(p: Params, s: System, side: Side, k: nat)
    requires Enabled(p, s, Poll(side, k))
    ensures Measure(p, Apply(p, s, Poll(side, k))) < Measure(p, s)
  {
  }

  lemma StepDecreases(p: Params, s: System, a: Step)
    requires p.Accepted() && Inv(p, s) && Enabled(p, s, a)
    ensures Measure(p, Apply(p, s, a)) < Measure(p, s)
  {
    match a
    case Start => StartDecreases(p, s);
    case Deliver(from, q) => DeliverDecreases(p, s, from, q);
    case Ack(side, q) => AckDecreases(p, s, side, q);
    case Poll(side, k) => PollDecreases(p, s, side, k);
    case Process(side) => ProcessDecreases(p, s, side);
  }

  ghost function WorkLeft(p: Params): System -> nat {
    s => if Measure(p, s) < 0 then 0 else Measure(p, s)
  }

  lemma WorkDecreases(p: Params)
    requires p.Accepted()
    ensures Decreasing(Exchange(p), InvOf(p), WorkLeft(p))
  {
    var m := Exchange(p);
    forall s, a | InvOf(p)(s) && m.enabled(s, a) ensures WorkLeft(p)(m.apply(s, a)) < WorkLeft(p)(s) {
      StepWork(p, s, a);
    }
  }

  lemma StepWork(p: Params, s: System, a: Step)
    requires p.Accepted() && Inv(p, s) && Enabled(p, s, a)
    ensures WorkLeft(p)(Apply(p, s, a)) < WorkLeft(p)(s)
  {
    StepDecreases(p, s, a);
    StepInv(p, s, a);
    MeasureNat(p, Apply(p, s, a));
    LessLeft(p, s, Apply(p, s, a));
  }

  lemma LessLeft(p: Params, s: System, t: System)
    requires 0 <= Measure(p, t) < Measure(p, s)
    ensures WorkLeft(p)(t) < WorkLeft(p)(s)
  {
  }

  lemma MeasureNat(p: Params, s: System)
    requires Inv(p, s)
    ensures 0 <= Measure(p, s)
  {
  }

  /** Every run stops after a bounded number of steps, however the NIC and the hosts interleave. */
  lemma EveryRunIsBounded(p: Params, run: seq<Step>)
    requires p.Accepted() && ValidRun(Exchange(p), Init(p), run)
    ensures |run| <= 12 * p.Budget() + p.numQp
  {
    InvInductive(p);
    WorkDecreases(p);
    RunLength(Exchange(p), InvOf(p), WorkLeft(p), Init(p), run);
    assert Measure(p, Init(p)) == 12 * p.Budget() + p.numQp;
  }

  /**
   Both hosts leave their loops.  With at least one queue pair, a run that cannot continue has finished
   on both sides; without queue pairs the hosts poll for ever.
   */
  lemma ExchangeCompletes(p: Params)
    requires p.Accepted()
    ensures (forall s :: Reachable(Exchange(p), s) && Stuck(Exchange(p), s) ==> s.Finished(p))
            <==> (p.numQp >= 1 || p.iters == 0)
  {
    var m := Exchange(p);
    if p.numQp >= 1 {
      forall s | Reachable(m, s) && Stuck(m, s) ensures s.Finished(p) {
        InvInEveryRun(p, s);
        StuckIsFinished(p, s);
      }
    } else if p.iters > 0 {
      InitReachable(m);
      assert Stuck(m, m.init) && !m.init.Finished(p);
    }
  }

  /** Whatever has happened so far, the exchange can still be completed. */
  lemma CanAlwaysComplete(p: Params, s: System)
    requires p.Accepted() && p.numQp >= 1 && Reachable(Exchange(p), s)
    ensures exists t :: CanReach(Exchange(p), s, t) && t.Finished(p)
  {
    InvInductive(p);
    WorkDecreases(p);
    CanAlwaysStop(Exchange(p), InvOf(p), WorkLeft(p), s);
    var t :| CanReach(Exchange(p), s, t) && Stuck(Exchange(p), t) && Reachable(Exchange(p), t);
    InvInEveryRun(p, t);
    StuckIsFinished(p, t);
  }

  /** rc_pingpong: with a single queue pair both hosts count exactly `iters` sends and receives. */
  lemma SingleQpIsExact(p: Params, s: System, side: Side)
    requires p.Accepted() && p.numQp == 1 && 1 <= p.iters
    requires Reachable(Exchange(p), s) && s.Finished(p)
    ensures var h := s.Get(side); h.scnt == h.rcnt == |h.posts| == p.iters
  {
    InvInEveryRun(p, s);
  }

  // ---------------------------------------------------------------- why numQp > rxDepth is rejected

  /** One receive per queue pair is what it takes: the shared receive queue can run empty otherwise. */
  lemma ReceiveQueueNeverEmptyIff(p: Params)
    requires 1 <= p.numWc
    ensures (forall s, side: Side :: Reachable(Exchange(p), s) ==> s.Get(side).fault != ReceiverNotReady)
            <==> p.numQp <= p.rxDepth
  {
    var m := Exchange(p);
    if p.Accepted() {
      forall s, side: Side | Reachable(m, s) ensures s.Get(side).fault != ReceiverNotReady {
        NothingEverFails(p, s);
      }
    } else {
      InitReachable(m);
      var s := Drain(p, m.init);
      assert s.Get(Server).fault == ReceiverNotReady;
    }
  }

  /** The client sends on one queue pair after the other while the server is slow to poll. */
  lemma {:induction false} Drain(p: Params, s: System) returns (t: System)
    requires p.rxDepth < p.numQp && s.Healthy() && |s.client.pending| == p.numQp
    requires s.client.wire == multiset{} && s.client.cq == [] && Bounded(s.client.unacked, s.client.started)
    requires s.server.posted == p.rxDepth - s.client.started && |s.server.cq| == s.client.started
    requires Reachable(Exchange(p), s)
    ensures Reachable(Exchange(p), t) && t.server.fault == ReceiverNotReady
    decreases s.server.posted
  {
    var m := Exchange(p);
    var q := s.client.started;
    assert q !in s.client.unacked;
    StepReachable(m, s, Start);
    var s1 := m.apply(s, Start);
    assert s1.client.wire == multiset{q};
    StepReachable(m, s1, Deliver(Client, q));
    t := m.apply(s1, Deliver(Client, q));
    if s.server.posted > 0 {
      assert t.client.wire == multiset{};
      t := Drain(p, t);
    }
  }
}
