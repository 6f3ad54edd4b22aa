/**
 Leaving the ping-pong.  A host that has left its loop prints its results and destroys its queue pairs
 (pp_close_ctx) without asking the peer.  When can a message still be on its way to it?
 */
module PingPongClose {
  import opened PingPong
  import opened PingPongSafety
  import opened PingPongTheorems
  import opened Multisets
  import opened Runs

  /** The host has found its loop test false, and goes on to pp_close_ctx. */
  ghost predicate Exited(p: Params, h: Host) { h.started == p.numQp && h.batch == [] && h.Done(p) }

  /** Nothing is on its way to a host that has left. */
  ghost predicate NothingLate(p: Params, s: System) {
    forall side: Side :: Exited(p, s.Get(side)) ==> s.Get(side.Peer()).wire == multiset{}
  }

  /**
   With the queue pairs that the command line accepts, a host may close while a message to it is in flight,
   unless there is one queue pair and something to do, or no queue pair at all.
   */
  lemma NothingLateIff(p: Params)
    requires p.Accepted()
    ensures (forall s :: Reachable(Exchange(p), s) ==> NothingLate(p, s))
            <==> p.numQp == 0 || (p.numQp == 1 && p.iters >= 1)
  {
    if p.numQp == 0 || (p.numQp == 1 && p.iters >= 1) {
      forall s | Reachable(Exchange(p), s) ensures NothingLate(p, s) { OneQpIsClean(p, s); }
    } else if p.iters == 0 {
      var s := LateAtOnce(p);
    } else {
      var s := LateMessage(p);
      assert Exited(p, s.Get(Server)) && 1 in s.Get(Client).wire;
    }
  }

  lemma OneQpIsClean(p: Params, s: System)
    requires p.Accepted() && Reachable(Exchange(p), s)
    requires p.numQp == 0 || (p.numQp == 1 && p.iters >= 1)
    ensures NothingLate(p, s)
  {
    InvInEveryRun(p, s);
    forall side: Side | Exited(p, s.Get(side)) ensures s.Get(side.Peer()).wire == multiset{} {
      NothingComes(p, s, side);
    }
  }

  /** Both hosts have sent all they will when one of them leaves. */
  lemma NothingComes(p: Params, s: System, side: Side)
    requires Inv(p, s) && Exited(p, s.Get(side)) && (p.numQp == 0 || (p.numQp == 1 && p.iters >= 1))
    ensures s.Get(side.Peer()).wire == multiset{} && s.Get(side).wire == multiset{}
  {
    var a, b := s.Get(side.Peer()), s.Get(side);
    assert LinkInv(a, b) && HostInv(p, a) && HostInv(p, b);
    assert forall q: nat :: p.numQp == 0 ==> q !in a.wire && q !in b.wire;
  }

  /** Without iterations the server never enters its loop, but the client has sent. */
  lemma LateAtOnce(p: Params) returns (s: System)
    requires p.Accepted() && p.numQp >= 1 && p.iters == 0
    ensures Reachable(Exchange(p), s) && !NothingLate(p, s)
  {
    var m := Exchange(p);
    InitReachable(m);
    StepReachable(m, m.init, Start);
    s := m.apply(m.init, Start);
    assert 0 in s.Get(Client).wire && Exited(p, s.Get(Server));
  }

  // ---------------------------------------------------------------- all queue pairs but one are slow

  /** The send completions that the client has got or can get. */
  ghost function Completed(h: Host): nat { h.scnt + |h.Pend(Send)| }

  /**
   The network holds back what the client sends on the other queue pairs, and the acknowledgement with which
   the client would reach its goal.
   */
  ghost function Prompt(p: Params): (System, Step) -> bool {
    (s: System, a: Step) =>
      (a.Deliver? && a.from == Client ==> a.qp == 0)
      && (a.Ack? && a.side == Client ==> Completed(s.client) < p.iters - 1)
  }

  ghost function Slow(p: Params): Machine<System, Step> { Only(Exchange(p), Prompt(p)) }

  ghost predicate HeldBack(s: System) { forall q: nat :: 1 <= q < s.client.started ==> s.client.wire[q] >= 1 }

  ghost predicate Behind(p: Params, s: System) { p.iters >= 1 ==> Completed(s.client) <= p.iters - 1 }

  ghost function SlowInv(p: Params): System -> bool { s => Inv(p, s) && HeldBack(s) && Behind(p, s) }

  lemma ProcessFields(p: Params, h: Host, c: Completion)
    requires c.qp < |h.pending|
    ensures var h' := ProcessOne(p, h, c);
      && h.wire <= h'.wire && h'.started == h.started && h'.batch == h.batch && h'.cq == h.cq
      && h'.scnt == h.scnt + (if c.work == Send then 1 else 0)
  {
  }

  lemma ProcessClient(p: Params, s: System)
    requires Enabled(p, s, Process(Client))
    ensures var h := s.client;
      Apply(p, s, Process(Client)).client == ProcessOne(p, h.(batch := h.batch[1..]), h.batch[0])
  {
  }

  /** No step but a delivery takes a message from the wire. */
  lemma StaysOnWire(p: Params, s: System, a: Step, q: nat)
    requires Enabled(p, s, a) && Prompt(p)(s, a) && q >= 1
    ensures Apply(p, s, a).client.wire[q] >= s.client.wire[q]
    ensures !a.Start? ==> Apply(p, s, a).client.started == s.client.started
  {
    if a == Process(Client) {
      var h := s.client;
      ProcessClient(p, s);
      ProcessFields(p, h.(batch := h.batch[1..]), h.batch[0]);
    } else if a == Process(Server) {
      ProcessServer(p, s);
    } else {
      NicOnWire(p, s, a, q);
    }
  }

  lemma ProcessServer(p: Params, s: System)
    requires Enabled(p, s, Process(Server))
    ensures Apply(p, s, Process(Server)).client == s.client
  {
  }

  lemma NicOnWire(p: Params, s: System, a: Step, q: nat)
    requires Enabled(p, s, a) && Prompt(p)(s, a) && q >= 1 && !a.Process?
    ensures Apply(p, s, a).client.wire[q] >= s.client.wire[q]
    ensures !a.Start? ==> Apply(p, s, a).client.started == s.client.started
  {
    if a.Deliver? { DeliverOnWire(p, s, a.from, a.qp, q); }
  }

  lemma DeliverOnWire(p: Params, s: System, from: Side, qp: nat, q: nat)
    requires Enabled(p, s, Deliver(from, qp)) && (from == Client ==> qp == 0) && q >= 1
    ensures Apply(p, s, Deliver(from, qp)).client.wire[q] >= s.client.wire[q]
    ensures Apply(p, s, Deliver(from, qp)).client.started == s.client.started
  {
  }

  /** The client's first send on a queue pair is on the wire, and nothing else is lost from it. */
  lemma StartsOnWire(p: Params, s: System)
    requires Enabled(p, s, Start) && Apply(p, s, Start).client.fault == NoFault
    ensures var h, h' := s.client, Apply(p, s, Start).client;
      h'.started == h.started + 1 && h'.wire[h.started] >= 1
  {
  }

  lemma StaysHeldBack(p: Params, s: System, a: Step)
    requires Enabled(p, s, a) && Prompt(p)(s, a) && HeldBack(s) && Apply(p, s, a).client.fault == NoFault
    ensures HeldBack(Apply(p, s, a))
  {
    var t := Apply(p, s, a);
    if a.Start? { StartsOnWire(p, s); }
    forall q: nat | 1 <= q < t.client.started ensures t.client.wire[q] >= 1 {
      StaysOnWire(p, s, a, q);
    }
  }

  lemma ProcessKeepsCompleted(p: Params, s: System)
    requires Enabled(p, s, Process(Client))
    ensures Completed(Apply(p, s, Process(Client)).client) <= Completed(s.client)
  {
    var h, h' := s.client, Apply(p, s, Process(Client)).client;
    ProcessClient(p, s);
    ProcessFields(p, h.(batch := h.batch[1..]), h.batch[0]);
    Take(h, h');
  }

  lemma DeliverKeepsCompleted(p: Params, s: System, from: Side, q: nat)
    requires p.Accepted() && Inv(p, s) && Enabled(p, s, Deliver(from, q))
    ensures Completed(Apply(p, s, Deliver(from, q)).client) == Completed(s.client)
  {
    var a', b' := DeliverEffect(p, s, from, q);
    if from == Client {
      assert a'.Queue() == s.client.Queue();
    } else {
      Arrive(s.client, b', Completion(q, Recv));
    }
  }

  lemma AckCompletes(p: Params, s: System, side: Side, q: nat)
    requires Enabled(p, s, Ack(side, q))
    ensures Completed(Apply(p, s, Ack(side, q)).client) <= Completed(s.client) + I(side == Client)
  {
    var h, h' := s.client, Apply(p, s, Ack(side, q)).client;
    if h'.cq == h.cq + [Completion(q, Send)] { Arrive(h, h', Completion(q, Send)); } else { assert h'.Queue() == h.Queue(); }
  }

  /** The other steps leave the completions alone. */
  lemma SameCompleted(p: Params, s: System, a: Step)
    requires Enabled(p, s, a) && (a.Start? || a.Poll? || a == Process(Server))
    ensures Completed(Apply(p, s, a).client) == Completed(s.client)
  {
    assert Apply(p, s, a).client.Queue() == s.client.Queue();
  }

  /** Completions arrive by acknowledgements only. */
  lemma StaysBehind(p: Params, s: System, a: Step)
    requires p.Accepted() && Inv(p, s) && Enabled(p, s, a) && Prompt(p)(s, a) && Behind(p, s)
    ensures Behind(p, Apply(p, s, a))
  {
    match a
    case Start => SameCompleted(p, s, a);
    case Deliver(from, q) => DeliverKeepsCompleted(p, s, from, q);
    case Ack(side, q) => AckCompletes(p, s, side, q);
    case Poll(side, k) => SameCompleted(p, s, a);
    case Process(side) => if side == Client { ProcessKeepsCompleted(p, s); } else { SameCompleted(p, s, a); }
  }

  lemma SlowStep(p: Params, s: System, a: Step)
    requires p.Accepted() && SlowInv(p)(s) && Enabled(p, s, a) && Prompt(p)(s, a)
    ensures SlowInv(p)(Apply(p, s, a)) && WorkLeft(p)(Apply(p, s, a)) < WorkLeft(p)(s)
  {
    StepInv(p, s, a);
    StaysHeldBack(p, s, a);
    StaysBehind(p, s, a);
    StepWork(p, s, a);
  }

  lemma SlowInductive(p: Params)
    requires p.Accepted()
    ensures SlowInv(p)(Init(p)) && Kept(Slow(p), SlowInv(p)) && Decreasing(Slow(p), SlowInv(p), WorkLeft(p))
  {
    InitInv(p);
    assert Behind(p, Init(p)) by { assert Init(p).client.Queue() == []; }
    forall s, a | SlowInv(p)(s) && Slow(p).enabled(s, a)
      ensures SlowInv(p)(Slow(p).apply(s, a)) && WorkLeft(p)(Slow(p).apply(s, a)) < WorkLeft(p)(s)
    {
      SlowStep(p, s, a);
    }
  }

  /** A run of the slow network can be continued until nothing but what is held back is left. */
  lemma SlowEnd(p: Params) returns (s: System)
    requires p.Accepted()
    ensures Reachable(Exchange(p), s) && Stuck(Slow(p), s) && Inv(p, s) && HeldBack(s) && Behind(p, s)
  {
    SlowInductive(p);
    var run := RunOn(Slow(p), SlowInv(p), WorkLeft(p), Init(p));
    s := Exec(Slow(p), Init(p), run);
    RunOfOnly(Exchange(p), Prompt(p), Init(p), run);
  }

  /**
   There the server has left, with a message of the second queue pair still to come.  The client has nothing
   left to process and, unless there was nothing to do, has not reached its goal.
   */
  lemma LateMessage(p: Params) returns (s: System)
    requires p.Accepted() && p.numQp >= 2
    ensures Reachable(Exchange(p), s) && Exited(p, s.server) && s.client.wire[1] >= 1
    ensures s.client.started == p.numQp && s.client.batch == []
    ensures p.iters >= 1 ==> !s.client.Done(p) && s.client.cq == []
  {
    s := SlowEnd(p);
    SlowStuckNic(p, s);
    SlowStuckHosts(p, s);
    SlowExit(p, s);
  }

  lemma NotEnabledSlow(p: Params, s: System, a: Step)
    requires Stuck(Slow(p), s) && Prompt(p)(s, a)
    ensures !Enabled(p, s, a)
  {
    assert !Slow(p).enabled(s, a);
  }

  /** All that the card has left to do for the client is held back. */
  ghost predicate NothingAcked(p: Params, h: Host) { h.unacked == multiset{} || Completed(h) >= p.iters - 1 }

  lemma SlowStuckNic(p: Params, s: System)
    requires s.Healthy() && Stuck(Slow(p), s)
    ensures s.client.wire[0] == 0 && s.server.wire == multiset{}
    ensures NothingAcked(p, s.client) && s.server.unacked == multiset{}
  {
    NotEnabledSlow(p, s, Deliver(Client, 0));
    forall q: nat ensures q !in s.server.wire { NotEnabledSlow(p, s, Deliver(Server, q)); }
    forall q: nat ensures q !in s.server.unacked { NotEnabledSlow(p, s, Ack(Server, q)); }
    if Completed(s.client) < p.iters - 1 {
      forall q: nat ensures q !in s.client.unacked { NotEnabledSlow(p, s, Ack(Client, q)); }
    }
  }

  lemma SlowStuckHosts(p: Params, s: System)
    requires p.Accepted() && s.Healthy() && Stuck(Slow(p), s)
    requires InRange(p, s.client) && InRange(p, s.server) && s.server.started == p.numQp
    ensures s.client.started == p.numQp && Halted(p, s.client) && Halted(p, s.server)
  {
    NotEnabledSlow(p, s, Start);
    forall side: Side ensures s.Get(side).started == p.numQp && Halted(p, s.Get(side)) {
      NotEnabledSlow(p, s, Process(side));
      NotEnabledSlow(p, s, Poll(side, 1));
      StuckHost(p, s, side);
    }
    assert Halted(p, s.Get(Client)) && Halted(p, s.Get(Server));
    assert s.Get(Client).started == p.numQp;
  }

  /** What a host with empty queues still owes its peer on a queue pair. */
  ghost function Owed(h: Host): multiset<nat>
    requires |h.pending| > 0
  {
    if h.pending[0].recv then multiset{} else multiset{0}
  }

  /** The client is ahead by the messages held back, and by one if the server owes an answer on queue pair 0. */
  lemma ClientAhead(p: Params, s: System)
    requires Inv(p, s) && HeldBack(s) && p.numQp >= 1 && s.client.started == p.numQp
    requires s.client.wire[0] == 0 && s.server.Queue() == []
    ensures s.client.posts == s.server.posts + s.client.wire + Owed(s.server)
  {
    var c, r := s.client, s.server;
    forall q: nat ensures c.posts[q] == (r.posts + c.wire + Owed(r))[q] {
      PostsApart(p, s, q);
      if 1 <= q < p.numQp {
        assert TokenInv(c, r, q);
      } else if q >= p.numQp {
        assert q !in c.wire;
      }
    }
  }

  lemma SlowExit(p: Params, s: System)
    requires Inv(p, s) && HeldBack(s) && Behind(p, s) && p.numQp >= 1 && s.client.started == p.numQp
    requires s.client.wire[0] == 0 && s.server.wire == multiset{}
    requires NothingAcked(p, s.client) && s.server.unacked == multiset{}
    requires Halted(p, s.client) && Halted(p, s.server)
    ensures Exited(p, s.server)
    ensures p.iters >= 1 ==> !s.client.Done(p) && s.client.cq == []
  {
    if p.iters >= 1 && !s.server.Done(p) {
      assert s.server.Queue() == [] && s.client.Queue() == [];
      SlowServerDone(p, s);
    }
  }

  /** A server with empty queues has reached its goal: the token of queue pair 0 rests with a host that has. */
  lemma SlowServerDone(p: Params, s: System)
    requires Inv(p, s) && HeldBack(s) && Behind(p, s) && p.numQp >= 1 && s.client.started == p.numQp && p.iters >= 1
    requires s.client.wire[0] == 0 && s.server.wire == multiset{}
    requires NothingAcked(p, s.client) && s.server.unacked == multiset{}
    requires s.client.Queue() == [] && s.server.Queue() == []
    ensures s.server.Done(p)
  {
    var c, r := s.client, s.server;
    ClientAhead(p, s);
    assert |c.posts| == |r.posts| + |c.wire| + |Owed(r)|;
    assert r.rcnt == r.scnt + |Owed(r)|;
    assert c.scnt == Completed(c) <= p.iters - 1;
    assert QpInv(p, r, 0) && QpInv(p, c, 0) && TokenInv(c, r, 0);
    if r.pending[0].recv {
      assert c.unacked != multiset{};
      assert |c.unacked| >= 1;
    }
  }
}
