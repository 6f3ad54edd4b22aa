/** The invariant of the ping-pong exchange holds in every run, so no run faults. */
module PingPongSafety {
  import opened PingPong
  import opened Multisets
  import opened Runs

  // ---------------------------------------------------------------- queues of completions

  lemma {:induction false} OfConcat(a: seq<Completion>, b: seq<Completion>, w: Work)
    ensures Of(a + b, w) == Of(a, w) + Of(b, w)
  {
    if a == [] {
      assert a + b == b;
    } else {
      assert (a + b)[1..] == a[1..] + b;
      OfConcat(a[1..], b, w);
    }
  }

  lemma {:induction false} OfSplit(cs: seq<Completion>)
    ensures |cs| == |Of(cs, Recv)| + |Of(cs, Send)|
  {
    if cs != [] { OfSplit(cs[1..]); }
  }

  lemma {:induction false} OfBounded(cs: seq<Completion>, w: Work, n: nat)
    requires forall i :: 0 <= i < |cs| ==> cs[i].qp < n
    ensures Bounded(Of(cs, w), n)
  {
    if cs != [] { OfBounded(cs[1..], w, n); }
  }

  lemma OfSnoc(cs: seq<Completion>, c: Completion, w: Work)
    ensures Of(cs + [c], w) == if c.work == w then Of(cs, w) + multiset{c.qp} else Of(cs, w)
  {
    OfConcat(cs, [c], w);
    assert [c][1..] == [];
    assert Of([c], w) == if c.work == w then multiset{c.qp} else multiset{};
  }

  /** A completion that arrives joins the pending work of its kind. */
  lemma Arrive(h: Host, h': Host, c: Completion)
    requires h'.batch == h.batch && h'.cq == h.cq + [c]
    ensures h'.Pend(c.work) == h.Pend(c.work) + multiset{c.qp}
    ensures forall w :: w != c.work ==> h'.Pend(w) == h.Pend(w)
  {
    assert h'.Queue() == h.Queue() + [c];
    OfSnoc(h.Queue(), c, c.work);
    OfSnoc(h.Queue(), c, if c.work == Recv then Send else Recv);
  }

  /** Taking the first completion of the batch removes it from the pending work. */
  lemma Take(h: Host, h': Host)
    requires h.batch != [] && h'.batch == h.batch[1..] && h'.cq == h.cq
    ensures h.Pend(h.batch[0].work) == h'.Pend(h.batch[0].work) + multiset{h.batch[0].qp}
    ensures forall w :: w != h.batch[0].work ==> h'.Pend(w) == h.Pend(w)
  {
    assert h.Queue()[1..] == h'.Queue();
  }

  // ---------------------------------------------------------------- pigeonhole

  /** No queue pair holds more than one unprocessed receive or send, so the queue is short. */
  lemma QueueShort(p: Params, h: Host, q: nat, w: Work)
    requires InRange(p, h) && q < p.numQp
    requires forall x: nat :: x < p.numQp ==> h.Pend(Recv)[x] <= 1 && h.Pend(Send)[x] <= 1
    requires h.Pend(w)[q] == 0
    ensures |h.Pend(w)| <= p.numQp - 1
    ensures |h.cq| < p.numQp + p.numQp
  {
    CardAtMost(h.Pend(w) + multiset{q}, p.numQp, 1);
    CardAtMost(h.Pend(Recv), p.numQp, 1);
    CardAtMost(h.Pend(Send), p.numQp, 1);
    OfSplit(h.Queue());
  }

  /** A host with an idle queue pair has at most numQp - 1 unprocessed sends. */
  lemma SendsShort(p: Params, h: Host, q: nat)
    requires InRange(p, h) && q < p.numQp
    requires forall x: nat :: x < p.numQp ==> h.wire[x] + h.unacked[x] + h.Pend(Send)[x] <= 1
    requires h.wire[q] + h.unacked[q] + h.Pend(Send)[q] == 0
    ensures |h.wire| + |h.unacked| + |h.Pend(Send)| <= p.numQp - 1
  {
    CardAtMost(h.wire + h.unacked + h.Pend(Send) + multiset{q}, p.numQp, 1);
  }

  // ---------------------------------------------------------------- one step at a time

  lemma InitInv(p: Params)
    requires p.Accepted()
    ensures Inv(p, Init(p))
  {
  }

  /** The token of each queue pair, whichever host is asked. */
  lemma Tokens(p: Params, s: System, side: Side)
    requires Inv(p, s)
    ensures forall q: nat :: q < p.numQp ==>
      s.Get(side).Pend(Recv)[q] + s.Get(side.Peer()).wire[q] + I(!s.Get(side).pending[q].recv) <= 1
    ensures forall q: nat :: q < p.numQp ==> s.Get(side).Pend(Send)[q] <= 1
  {
    forall q: nat | q < p.numQp
      ensures s.Get(side).Pend(Recv)[q] + s.Get(side.Peer()).wire[q] + I(!s.Get(side).pending[q].recv) <= 1
      ensures s.Get(side).Pend(Send)[q] <= 1
    {
      assert TokenInv(s.client, s.server, q);
      assert QpInv(p, s.Get(side), q);
    }
  }

  /** The NIC steps change neither the masks nor the counters of main. */
  ghost predicate SameVariables(h: Host, h': Host) {
    && h'.pending == h.pending && h'.started == h.started && h'.fault == h.fault
    && h'.scnt == h.scnt && h'.rcnt == h.rcnt && h'.routs == h.routs && h'.posts == h.posts
  }

  /** A NIC step moves a message along without adding or losing one, which keeps what links the hosts. */
  lemma NicStepInv(p: Params, s: System, s': System)
    requires Inv(p, s) && HostInv(p, s'.client) && HostInv(p, s'.server)
    requires SameVariables(s.client, s'.client) && SameVariables(s.server, s'.server)
    requires s.client.wire + s.server.Pend(Recv) == s'.client.wire + s'.server.Pend(Recv)
    requires s.server.wire + s.client.Pend(Recv) == s'.server.wire + s'.client.Pend(Recv)
    ensures Inv(p, s')
  {
    var up, down := s'.client.wire + s'.server.Pend(Recv), s'.server.wire + s'.client.Pend(Recv);
    assert |up| == |s'.client.wire| + |s'.server.Pend(Recv)| == |s.client.wire| + |s.server.Pend(Recv)|;
    assert |down| == |s'.server.wire| + |s'.client.Pend(Recv)| == |s.server.wire| + |s.client.Pend(Recv)|;
    forall x: nat | x < p.numQp ensures TokenInv(s'.client, s'.server, x) {
      assert TokenInv(s.client, s.server, x);
      assert up[x] == s'.client.wire[x] + s'.server.Pend(Recv)[x] == s.client.wire[x] + s.server.Pend(Recv)[x];
      assert down[x] == s'.server.wire[x] + s'.client.Pend(Recv)[x] == s.server.wire[x] + s.client.Pend(Recv)[x];
    }
  }

  lemma PollHost(p: Params, h: Host, h': Host, k: nat)
    requires HostInv(p, h) && h.started == p.numQp && h.batch == [] && k <= |h.cq|
    requires h' == h.(batch := h.cq[..k], cq := h.cq[k..])
    ensures h'.Queue() == h.Queue() && HostInv(p, h')
  {
    assert h'.Queue() == h.Queue();
    forall x: nat | x < p.numQp ensures QpInv(p, h', x) { assert QpInv(p, h, x); }
  }

  lemma PollInv(p: Params, s: System, side: Side, k: nat)
    requires Inv(p, s) && Enabled(p, s, Poll(side, k))
    ensures Inv(p, Apply(p, s, Poll(side, k)))
  {
    var s' := Apply(p, s, Poll(side, k));
    PollHost(p, s.Get(side), s'.Get(side), k);
    NicStepInv(p, s, s');
  }

  lemma AckHost(p: Params, h: Host, h': Host, q: nat)
    requires HostInv(p, h) && q in h.unacked
    requires h' == h.(unacked := h.unacked - multiset{q}, cq := h.cq + [Completion(q, Send)])
    ensures HostInv(p, h') && h'.Pend(Recv) == h.Pend(Recv)
  {
    Arrive(h, h', Completion(q, Send));
    AckRange(p, h, h', q);
    forall x: nat | x < p.numQp ensures QpInv(p, h', x) { assert QpInv(p, h, x); }
  }

  lemma AckRange(p: Params, h: Host, h': Host, q: nat)
    requires InRange(p, h) && q in h.unacked && h'.Pend(Recv) == h.Pend(Recv)
    requires h'.Pend(Send) == h.Pend(Send) + multiset{q}
    requires h' == h.(unacked := h.unacked - multiset{q}, cq := h.cq + [Completion(q, Send)])
    ensures InRange(p, h')
  {
    forall x | x in h'.unacked ensures x < p.numQp { assert x in h.unacked; }
    forall x | x in h'.Pend(Send) ensures x < p.numQp { assert x in h.Pend(Send) || x == q; }
  }

  lemma AckInv(p: Params, s: System, side: Side, q: nat)
    requires p.Accepted() && Inv(p, s) && Enabled(p, s, Ack(side, q))
    ensures Inv(p, Apply(p, s, Ack(side, q)))
  {
    var h := s.Get(side);
    Tokens(p, s, side);
    assert QpInv(p, h, q);
    QueueShort(p, h, q, Send);
    var s' := Apply(p, s, Ack(side, q));
    AckHost(p, h, s'.Get(side), q);
    NicStepInv(p, s, s');
  }

  lemma DeliverSender(p: Params, a: Host, a': Host, q: nat)
    requires HostInv(p, a) && q in a.wire
    requires a' == a.(wire := a.wire - multiset{q}, unacked := a.unacked + multiset{q})
    ensures HostInv(p, a') && a'.Pend(Recv) == a.Pend(Recv)
  {
    assert a'.Queue() == a.Queue();
    forall x: nat | x < p.numQp ensures QpInv(p, a', x) { assert QpInv(p, a, x); }
  }

  lemma DeliverReceiver(p: Params, b: Host, b': Host, q: nat)
    requires HostInv(p, b) && q < p.numQp && b.posted > 0
    requires b' == b.(posted := b.posted - 1, cq := b.cq + [Completion(q, Recv)])
    ensures HostInv(p, b') && b'.Pend(Recv) == b.Pend(Recv) + multiset{q}
  {
    Arrive(b, b', Completion(q, Recv));
    forall x: nat | x < p.numQp ensures QpInv(p, b', x) { assert QpInv(p, b, x); }
  }

  /** An arriving message finds a posted receive and room for its completion. */
  lemma RoomToDeliver(p: Params, s: System, from: Side, q: nat)
    requires p.Accepted() && Inv(p, s) && Enabled(p, s, Deliver(from, q))
    ensures s.Get(from.Peer()).posted > 0
    ensures |s.Get(from.Peer()).cq| < p.rxDepth + p.numQp
  {
    Tokens(p, s, from.Peer());
    QueueShort(p, s.Get(from.Peer()), q, Recv);
  }

  /** What Deliver does when nothing goes wrong. */
  lemma DeliverEffect(p: Params, s: System, from: Side, q: nat) returns (a': Host, b': Host)
    requires p.Accepted() && Inv(p, s) && Enabled(p, s, Deliver(from, q))
    ensures s.Get(from.Peer()).posted > 0
    ensures var a := s.Get(from); a' == a.(wire := a.wire - multiset{q}, unacked := a.unacked + multiset{q})
    ensures var b := s.Get(from.Peer()); b' == b.(posted := b.posted - 1, cq := b.cq + [Completion(q, Recv)])
    ensures Apply(p, s, Deliver(from, q)) == s.Put(from, a').Put(from.Peer(), b')
  {
    RoomToDeliver(p, s, from, q);
    var a, b := s.Get(from), s.Get(from.Peer());
    a' := a.(wire := a.wire - multiset{q}, unacked := a.unacked + multiset{q});
    b' := b.(posted := b.posted - 1, cq := b.cq + [Completion(q, Recv)]);
  }

  lemma DeliverInv(p: Params, s: System, from: Side, q: nat)
    requires p.Accepted() && Inv(p, s) && Enabled(p, s, Deliver(from, q))
    ensures Inv(p, Apply(p, s, Deliver(from, q)))
  {
    var a', b' := DeliverEffect(p, s, from, q);
    DeliverMoves(p, s, from, q, a', b');
  }

  lemma DeliverMoves(p: Params, s: System, from: Side, q: nat, a': Host, b': Host)
    requires Inv(p, s) && q in s.Get(from).wire && s.Get(from.Peer()).posted > 0
    requires var a := s.Get(from); a' == a.(wire := a.wire - multiset{q}, unacked := a.unacked + multiset{q})
    requires var b := s.Get(from.Peer()); b' == b.(posted := b.posted - 1, cq := b.cq + [Completion(q, Recv)])
    ensures Inv(p, s.Put(from, a').Put(from.Peer(), b'))
  {
    var a, b := s.Get(from), s.Get(from.Peer());
    DeliverSender(p, a, a', q);
    DeliverReceiver(p, b, b', q);
    assert a.wire + b.Pend(Recv) == a'.wire + b'.Pend(Recv);
    BothMoved(p, s, from, a', b');
  }

  lemma BothMoved(p: Params, s: System, from: Side, a': Host, b': Host)
    requires Inv(p, s) && HostInv(p, a') && HostInv(p, b')
    requires SameVariables(s.Get(from), a') && SameVariables(s.Get(from.Peer()), b')
    requires s.Get(from).wire + s.Get(from.Peer()).Pend(Recv) == a'.wire + b'.Pend(Recv)
    requires s.Get(from.Peer()).wire + s.Get(from).Pend(Recv) == b'.wire + a'.Pend(Recv)
    ensures Inv(p, s.Put(from, a').Put(from.Peer(), b'))
  {
    NicStepInv(p, s, s.Put(from, a').Put(from.Peer(), b'));
  }

  // ---------------------------------------------------------------- the host's own steps

  /** A host that counts a completion and clears its bit holds exactly the messages it held before. */
  lemma LocalStepLinked(p: Params, s: System, side: Side, h': Host)
    requires Linked(p, s)
    requires var h := s.Get(side);
      && |h'.pending| == p.numQp && h'.wire == h.wire && h'.posts == h.posts
      && |h'.Pend(Recv)| + h'.rcnt == |h.Pend(Recv)| + h.rcnt
      && (forall x: nat :: x < p.numQp ==> Held(h', x) == Held(h, x))
    ensures Linked(p, s.Put(side, h'))
  {
    var s' := s.Put(side, h');
    forall x: nat | x < p.numQp ensures TokenInv(s'.client, s'.server, x) {
      assert TokenInv(s.client, s.server, x);
      assert Held(h', x) == Held(s.Get(side), x);
    }
  }

  /** Posting a send on `q` hands the token of `q` to the peer. */
  lemma PostLinked(p: Params, s: System, side: Side, h': Host, q: nat)
    requires Linked(p, s) && q < p.numQp
    requires var h := s.Get(side);
      && h.pending[q] == NONE && h'.pending == h.pending[q := BOTH]
      && h'.wire == h.wire + multiset{q} && h'.posts == h.posts + multiset{q}
      && h'.batch == h.batch && h'.cq == h.cq && h'.rcnt == h.rcnt
    ensures Linked(p, s.Put(side, h'))
  {
    var s' := s.Put(side, h');
    assert h'.Queue() == s.Get(side).Queue();
    assert LinkInv(s'.client, s'.server) && LinkInv(s'.server, s'.client);
    forall x: nat | x < p.numQp ensures TokenInv(s'.client, s'.server, x) {
      assert TokenInv(s.client, s.server, x);
      assert h'.Pend(Recv) == s.Get(side).Pend(Recv);
      assert h'.wire[x] == s.Get(side).wire[x] + I(x == q);
      assert h'.posts[x] == s.Get(side).posts[x] + I(x == q);
    }
  }

  /** HostInv in the middle of ProcessOne: queue pair `q` may be idle although sends are still due. */
  ghost predicate MidInv(p: Params, h: Host, q: nat) {
    && h.fault == NoFault && q < p.numQp
    && h.started == p.numQp
    && InRange(p, h) && CountInv(p, h)
    && h.wire[q] + h.unacked[q] + h.Pend(Send)[q] == I(h.pending[q].send)
    && (forall x: nat :: x < p.numQp && x != q ==> QpInv(p, h, x))
  }

  /** A send is posted only into a free slot, and only while the budget lasts. */
  lemma PostRoom(p: Params, h: Host, q: nat)
    requires MidInv(p, h, q) && h.pending[q] == NONE && h.scnt < p.iters
    ensures !SlotBusy(h, q)
    ensures |h.posts| + 1 <= p.Budget()
  {
    OfConcat(h.batch, h.cq, Send);
    forall x: nat | x < p.numQp ensures h.wire[x] + h.unacked[x] + h.Pend(Send)[x] <= 1 {
      if x != q { assert QpInv(p, h, x); }
    }
    SendsShort(p, h, q);
  }

  lemma PostHost(p: Params, h: Host, h': Host, q: nat)
    requires MidInv(p, h, q) && h.pending[q] == NONE && |h.posts| + 1 <= p.Budget()
    requires h' == h.(wire := h.wire + multiset{q}, posts := h.posts + multiset{q}, pending := h.pending[q := BOTH])
    ensures HostInv(p, h')
  {
    assert h'.Queue() == h.Queue();
    forall x: nat | x < p.numQp ensures QpInv(p, h', x) {
      if x != q { assert QpInv(p, h, x); }
    }
  }

  /** The completion is counted, the receive queue refilled, the bit cleared. */
  function Counted(p: Params, h: Host, c: Completion): Host
    requires c.qp < |h.pending|
  {
    var h1 := if c.work == Send then h.(scnt := h.scnt + 1) else TakeReceive(p, h);
    h1.(pending := h1.pending[c.qp := h1.pending[c.qp].Clear(c.work)])
  }

  lemma CreditKept(p: Params, h: Host)
    requires p.Accepted() && h.fault == NoFault
    requires 1 <= h.posted + 1 <= h.routs <= p.rxDepth
    requires p.numQp < h.routs || h.routs == p.rxDepth
    ensures var h' := TakeReceive(p, h);
      && h' == h.(routs := h'.routs, posted := h'.posted, rcnt := h.rcnt + 1)
      && h'.posted - h'.routs == h.posted - h.routs + 1
      && (p.numQp < h'.routs <= p.rxDepth || h'.routs == p.rxDepth)
  {
  }

  lemma TakeRange(p: Params, h: Host, h': Host)
    requires InRange(p, h) && h.batch != [] && h'.batch == h.batch[1..] && h'.cq == h.cq
    requires |h'.pending| == p.numQp && h'.started == h.started && h'.wire == h.wire && h'.unacked == h.unacked && h'.posts == h.posts
    ensures InRange(p, h') && h.batch[0].qp < p.numQp
  {
    forall i | 0 <= i < |h'.batch| ensures h'.batch[i].qp < p.numQp {
      assert h'.batch[i] == h.batch[i + 1];
    }
    Take(h, h');
    forall w, x | x in h'.Pend(w) ensures x < p.numQp {
      assert x in h.Pend(w);
    }
  }

  lemma CountSend(p: Params, h: Host, h': Host)
    requires HostInv(p, h) && h.batch != [] && h.batch[0].work == Send
    requires h' == Counted(p, h.(batch := h.batch[1..]), h.batch[0])
    ensures MidInv(p, h', h.batch[0].qp)
    ensures h'.wire == h.wire && h'.posts == h.posts && h'.rcnt == h.rcnt
    ensures |h'.Pend(Recv)| == |h.Pend(Recv)|
    ensures forall x: nat :: x < p.numQp ==> Held(h', x) == Held(h, x)
  {
    Take(h, h');
    TakeRange(p, h, h');
    forall x: nat | x < p.numQp
      ensures x != h.batch[0].qp ==> QpInv(p, h', x)
      ensures h'.wire[x] + h'.unacked[x] + h'.Pend(Send)[x] == I(h'.pending[x].send)
    {
      assert QpInv(p, h, x);
    }
  }

  lemma CreditTaken(p: Params, h: Host)
    requires p.Accepted() && HostInv(p, h) && h.batch != [] && h.batch[0].work == Recv
    ensures var hb := h.(batch := h.batch[1..]);
      var h' := TakeReceive(p, hb);
      && h' == hb.(routs := h'.routs, posted := h'.posted, rcnt := h.rcnt + 1)
      && h'.posted - h'.routs == h.posted - h.routs + 1
      && (p.numQp < h'.routs <= p.rxDepth || h'.routs == p.rxDepth)
  {
    var hb := h.(batch := h.batch[1..]);
    Take(h, hb);
    CreditKept(p, hb);
  }

  lemma CountRecv(p: Params, h: Host, h': Host)
    requires p.Accepted() && HostInv(p, h) && h.batch != [] && h.batch[0].work == Recv
    requires h' == Counted(p, h.(batch := h.batch[1..]), h.batch[0])
    ensures MidInv(p, h', h.batch[0].qp)
    ensures h'.wire == h.wire && h'.posts == h.posts && h'.rcnt == h.rcnt + 1
    ensures |h'.Pend(Recv)| + 1 == |h.Pend(Recv)|
    ensures h.pending[h.batch[0].qp].recv ==> forall x: nat :: x < p.numQp ==> Held(h', x) == Held(h, x)
  {
    CreditTaken(p, h);
    Take(h, h');
    TakeRange(p, h, h');
    forall x: nat | x < p.numQp
      ensures x != h.batch[0].qp ==> QpInv(p, h', x)
      ensures h'.wire[x] + h'.unacked[x] + h'.Pend(Send)[x] == I(h'.pending[x].send)
    {
      assert QpInv(p, h, x);
    }
  }

  /** A queue pair with an unprocessed receive still waits for it. */
  lemma RecvBitSet(p: Params, s: System, side: Side)
    requires Inv(p, s)
    requires s.Get(side).batch != [] && s.Get(side).batch[0].work == Recv
    ensures s.Get(side).pending[s.Get(side).batch[0].qp].recv
  {
    var h := s.Get(side);
    Take(h, h.(batch := h.batch[1..]));
    Tokens(p, s, side);
    assert h.Pend(Recv)[h.batch[0].qp] >= 1;
  }

  /** Counting a completion turns a queued message into an unanswered one and changes nothing else. */
  lemma CountLinked(p: Params, s: System, side: Side, h': Host)
    requires p.Accepted() && Inv(p, s) && s.Get(side).batch != []
    requires var h := s.Get(side); h' == Counted(p, h.(batch := h.batch[1..]), h.batch[0])
    ensures MidInv(p, h', s.Get(side).batch[0].qp)
    ensures Linked(p, s.Put(side, h'))
  {
    var h := s.Get(side);
    if h.batch[0].work == Send {
      CountSend(p, h, h');
    } else {
      RecvBitSet(p, s, side);
      CountRecv(p, h, h');
    }
    LocalStepLinked(p, s, side, h');
  }

  /** What is left to do once a completion is counted and its bit cleared. */
  function Answered(p: Params, h: Host, q: nat): Host
    requires q < |h.pending|
  {
    if h.scnt < p.iters && h.pending[q] == NONE then PostSend(h, q) else h
  }

  lemma AnsweredInv(p: Params, s: System, side: Side, h: Host, q: nat)
    requires Inv(p, s) && MidInv(p, h, q) && Linked(p, s.Put(side, h))
    ensures Inv(p, s.Put(side, Answered(p, h, q)))
  {
    if h.scnt < p.iters && h.pending[q] == NONE {
      PostRoom(p, h, q);
      PostHost(p, h, PostSend(h, q), q);
      PostLinked(p, s.Put(side, h), side, PostSend(h, q), q);
      assert s.Put(side, h).Put(side, PostSend(h, q)) == s.Put(side, PostSend(h, q));
    } else {
      forall x: nat | x < p.numQp ensures QpInv(p, h, x) { }
    }
  }

  lemma ProcessEffect(p: Params, h: Host, c: Completion)
    requires c.qp < |h.pending| && Counted(p, h, c).fault == NoFault
    ensures ProcessOne(p, h, c) == Answered(p, Counted(p, h, c), c.qp)
  {
  }

  lemma ProcessInv(p: Params, s: System, side: Side)
    requires p.Accepted() && Inv(p, s) && Enabled(p, s, Process(side))
    ensures Inv(p, Apply(p, s, Process(side)))
  {
    var h, c := s.Get(side).(batch := s.Get(side).batch[1..]), s.Get(side).batch[0];
    CountLinked(p, s, side, Counted(p, h, c));
    AnsweredInv(p, s, side, Counted(p, h, c), c.qp);
    ProcessEffect(p, h, c);
  }

  lemma StartHost(p: Params, h: Host, h': Host)
    requires HostInv(p, h) && h.started < p.numQp && h' == StartOne(h)
    ensures !SlotBusy(h, h.started) && h.pending[h.started] == NONE
    ensures HostInv(p, h') && h'.started == h.started + 1
  {
    var q := h.started;
    assert QpInv(p, h, q);
    assert h.Queue() == h.cq;
    assert h'.Queue() == h.Queue();
    forall x: nat | x < p.numQp ensures QpInv(p, h', x) { assert QpInv(p, h, x); }
  }

  lemma StartInv(p: Params, s: System)
    requires Inv(p, s) && Enabled(p, s, Start)
    ensures Inv(p, Apply(p, s, Start))
  {
    var h' := StartOne(s.client);
    StartHost(p, s.client, h');
    PostLinked(p, s, Client, h', s.client.started);
  }

  // ---------------------------------------------------------------- every step

  lemma StepInv(p: Params, s: System, a: Step)
    requires p.Accepted() && Inv(p, s) && Enabled(p, s, a)
    ensures Inv(p, Apply(p, s, a))
  {
    match a
    case Start => StartInv(p, s);
    case Deliver(from, q) => DeliverInv(p, s, from, q);
    case Ack(side, q) => AckInv(p, s, side, q);
    case Poll(side, k) => PollInv(p, s, side, k);
    case Process(side) => ProcessInv(p, s, side);
  }

  ghost function InvOf(p: Params): System -> bool { s => Inv(p, s) }

  lemma InvInductive(p: Params)
    requires p.Accepted()
    ensures Inductive(Exchange(p), InvOf(p))
  {
    InitInv(p);
    var m := Exchange(p);
    forall s, a | InvOf(p)(s) && m.enabled(s, a) ensures InvOf(p)(m.apply(s, a)) {
      StepInv(p, s, a);
    }
  }

  lemma InvInEveryRun(p: Params, s: System)
    requires p.Accepted() && Reachable(Exchange(p), s)
    ensures Inv(p, s)
  {
    InvInductive(p);
    ReachableKeeps(Exchange(p), InvOf(p), s);
  }
}
