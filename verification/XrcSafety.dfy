/** The invariant of the XRC exchange holds in every run. */
module XrcSafety {
  import opened XrcPingPong
  import opened Multisets
  import opened Runs

  function I(b: bool): nat { if b then 1 else 0 }

  // ---------------------------------------------------------------- invariant

  /** One client and what the server knows about it: every message is accounted for. */
  ghost predicate ClientInv(p: Params, v: Server, i: nat, c: Client)
    requires i < |v.ppCnt|
  {
    && MessagesInv(p, v, i, c)
    && SignalsInv(p, v, i, c)
    && PhaseInv(p, v, i, c)
  }

  ghost predicate MessagesInv(p: Params, v: Server, i: nat, c: Client)
    requires i < |v.ppCnt|
  {
    // sent by the server: in flight, queued or processed here
    && v.ppCnt[i] == |c.inbox| + c.rcq + c.cnt
    // sent by the client: in flight, queued or processed there
    && c.ppCnt == c.cnt == |c.outbox| + multiset(v.recvCq)[i] + v.got[i]
    // the server is one message ahead until it has sent its last
    && v.ppCnt[i] == (if i >= v.kicked then 0 else if v.got[i] < p.t then v.got[i] + 1 else p.t)
    && v.got[i] <= p.t
    && (i >= v.kicked ==> v.got[i] == 0)
    && c.posted + c.rcq == 1
    && (forall m :: 0 <= m < |c.inbox| ==> c.inbox[m].qp < p.n)
  }

  /** The last send each way is the signalled one, and its completion appears once. */
  ghost predicate SignalsInv(p: Params, v: Server, i: nat, c: Client)
    requires i < |v.ppCnt|
  {
    && (forall m :: 0 <= m < |c.inbox| ==> c.inbox[m].signalled == (v.ppCnt[i] == p.t))
    && (forall m :: 0 <= m < |c.outbox| ==> c.outbox[m] == (c.cnt == p.t))
    && v.unacked[i] + v.sendCq[i] + v.drained[i] == I(v.ppCnt[i] == p.t && c.inbox == [])
    && c.unacked + c.sendCq + c.drained == I(c.cnt == p.t && c.outbox == [])
  }

  ghost predicate PhaseInv(p: Params, v: Server, i: nat, c: Client) {
    && (c.phase != Exchanging ==> c.cnt == p.t && c.rcq == 0)
    && (c.phase == Exchanging ==> c.drained == 0)
    && (c.phase in {AwaitingEnd, Closed} ==> c.drained == 1)
    && (c.phase == Closed ==> i < v.released)
    && (i < v.ends ==> c.phase in {AwaitingEnd, Closed})
  }

  ghost predicate Bounded(m: multiset<nat>, n: nat) { forall i :: i in m ==> i < n }

  /** All sends of the server. */
  ghost function Posted(ppCnt: seq<nat>): nat {
    if ppCnt == [] then 0 else Posted(ppCnt[..|ppCnt| - 1]) + ppCnt[|ppCnt| - 1]
  }

  ghost predicate ServerInv(p: Params, v: Server) {
    && |v.ppCnt| == p.n && v.kicked <= p.n && v.ends <= p.n && v.released <= p.n
    && v.posted + |v.recvCq| == p.n
    && v.cnt == |v.got| && |v.load| == Posted(v.ppCnt)
    && Bounded(multiset(v.recvCq), p.n) && Bounded(v.got, p.n)
    && Bounded(v.unacked, p.n) && Bounded(v.sendCq, p.n) && Bounded(v.drained, p.n)
    && (v.phase == Kicking <==> v.kicked < p.n)
    && (v.phase in {Emptying, Ending, Gone} ==> v.cnt >= p.n * p.t && v.recvCq == [])
    && (v.phase in {Ending, Gone} ==> |v.drained| >= p.n)
    && (v.ends > 0 ==> v.phase in {Ending, Gone})
    && (v.released > 0 ==> v.ends == p.n)
    && (v.phase == Gone ==> v.released == p.n)
  }

  ghost predicate Inv(p: Params, s: System) {
    && s.fault == NoFault && |s.clients| == p.n
    && ServerInv(p, s.server)
    && (forall i: nat :: i < p.n ==> ClientInv(p, s.server, i, s.clients[i]))
  }

  // ---------------------------------------------------------------- consequences

  /** Each client has at most one message with the server, so the server's queues never fill up. */
  lemma OneMessageEach(p: Params, s: System, i: nat)
    requires Inv(p, s) && i < p.n
    ensures var c := s.clients[i];
      |c.inbox| + c.rcq + |c.outbox| + multiset(s.server.recvCq)[i] <= 1
  {
    assert ClientInv(p, s.server, i, s.clients[i]);
  }

  lemma ServerHasRoom(p: Params, s: System, i: nat)
    requires Inv(p, s) && i < p.n && s.clients[i].outbox != []
    ensures s.server.posted > 0 && |s.server.recvCq| < p.n
  {
    var q := multiset(s.server.recvCq) + multiset{i};
    forall x | x in q ensures x < p.n && q[x] <= 1 {
      if x == i { OneMessageEach(p, s, i); } else { assert x in multiset(s.server.recvCq); OneMessageEach(p, s, x); }
    }
    CardAtMost(q, p.n, 1);
  }

  /** The counter of the server lands exactly on its target, with `t` messages from every client. */
  lemma ServerIsExact(p: Params, s: System)
    requires Inv(p, s)
    ensures s.server.cnt <= p.n * p.t
    ensures s.server.cnt >= p.n * p.t ==> forall i: nat :: i < p.n ==> s.server.got[i] == p.t
  {
    forall x | x in s.server.got ensures x < p.n && s.server.got[x] <= p.t {
      assert ClientInv(p, s.server, x, s.clients[x]);
    }
    CardAtMost(s.server.got, p.n, p.t);
    if s.server.cnt >= p.n * p.t { CardFull(s.server.got, p.n, p.t); }
  }

  /** When the server has left its loop nothing is in flight in either direction. */
  lemma ServerDoneMeansQuiet(p: Params, s: System, i: nat)
    requires Inv(p, s) && i < p.n && s.server.phase in {Emptying, Ending, Gone}
    ensures s.clients[i].cnt == s.server.ppCnt[i] == s.server.got[i] == p.t
    ensures s.clients[i].inbox == [] && s.clients[i].outbox == []
  {
    ServerIsExact(p, s);
    assert ClientInv(p, s.server, i, s.clients[i]);
  }

  /** The termination barrier: nobody closes before everybody has everything. */
  lemma ClosedMeansQuiet(p: Params, s: System, j: nat, i: nat)
    requires Inv(p, s) && j < p.n && i < p.n && s.clients[j].phase == Closed
    ensures s.clients[i].phase in {AwaitingEnd, Closed} && s.clients[i].cnt == p.t
    ensures s.clients[i].inbox == [] && s.clients[i].outbox == []
  {
    assert ClientInv(p, s.server, j, s.clients[j]);
    assert ClientInv(p, s.server, i, s.clients[i]);
    ServerDoneMeansQuiet(p, s, i);
  }

  // ---------------------------------------------------------------- one step at a time

  lemma {:induction false} PostedNothing(ppCnt: seq<nat>)
    requires forall i :: 0 <= i < |ppCnt| ==> ppCnt[i] == 0
    ensures Posted(ppCnt) == 0
  {
    if ppCnt != [] { PostedNothing(ppCnt[..|ppCnt| - 1]); }
  }

  lemma {:induction false} PostedOneMore(ppCnt: seq<nat>, i: nat)
    requires i < |ppCnt|
    ensures Posted(ppCnt[i := ppCnt[i] + 1]) == Posted(ppCnt) + 1
  {
    var more := ppCnt[i := ppCnt[i] + 1];
    if i == |ppCnt| - 1 {
      assert more[..i] == ppCnt[..i];
    } else {
      assert more[..|ppCnt| - 1] == ppCnt[..|ppCnt| - 1][i := ppCnt[i] + 1];
      PostedOneMore(ppCnt[..|ppCnt| - 1], i);
    }
  }

  lemma {:induction false} PostedAtMost(ppCnt: seq<nat>, t: nat)
    requires forall i :: 0 <= i < |ppCnt| ==> ppCnt[i] <= t
    ensures Posted(ppCnt) <= |ppCnt| * t
  {
    if ppCnt != [] {
      PostedAtMost(ppCnt[..|ppCnt| - 1], t);
      assert |ppCnt| * t == (|ppCnt| - 1) * t + t;
    }
  }

  /** A send that the code posts finds a free entry in the send queue that it picks. */
  lemma SendHasSlot(p: Params, s: System, i: nat)
    requires p.Valid() && Inv(p, s) && i < p.n && s.server.ppCnt[i] < p.t
    ensures SlotFree(p, s.server, i)
  {
    var v := s.server;
    forall j: nat | j < p.n ensures v.ppCnt[j] <= p.t { assert MessagesInv(p, v, j, s.clients[j]); }
    PostedOneMore(v.ppCnt, i);
    PostedAtMost(v.ppCnt[i := v.ppCnt[i] + 1], p.t);
    var q := MessageTo(p, i, v.ppCnt[i]).qp;
    SubCard(multiset{}[q := v.load[q]], v.load);
  }

  /** What a send does then. */
  lemma SendEffect(p: Params, s: System, i: nat)
    requires p.n >= 1 && i < |s.server.ppCnt| && i < |s.clients| && SlotFree(p, s.server, i)
    ensures var k := s.server.ppCnt[i]; var msg := MessageTo(p, i, k);
      ServerSend(p, s, i) ==
        s.(server := s.server.(ppCnt := s.server.ppCnt[i := k + 1], load := s.server.load + multiset{msg.qp}),
           clients := s.clients[i := s.clients[i].(inbox := s.clients[i].inbox + [msg])])
  {
  }

  lemma InitInv(p: Params)
    requires p.Valid()
    ensures Inv(p, Init(p))
  {
    PostedNothing(Init(p).server.ppCnt);
  }

  /** A step of client `i` alone. */
  lemma ClientStep(p: Params, s: System, i: nat, c: Client)
    requires Inv(p, s) && i < p.n && ClientInv(p, s.server, i, c)
    ensures Inv(p, s.(clients := s.clients[i := c]))
  {
    var s' := s.(clients := s.clients[i := c]);
    forall j: nat | j < p.n ensures ClientInv(p, s'.server, j, s'.clients[j]) {
      assert ClientInv(p, s.server, j, s.clients[j]);
    }
  }

  /** A step of the server that concerns client `i` only. */
  lemma ServerStep(p: Params, s: System, i: nat, v: Server, c: Client)
    requires Inv(p, s) && i < p.n && ServerInv(p, v) && ClientInv(p, v, i, c)
    requires forall j: nat :: j < p.n && j != i ==> SameFor(s.server, v, j)
    ensures Inv(p, s.(server := v, clients := s.clients[i := c]))
  {
    var s' := s.(server := v, clients := s.clients[i := c]);
    forall j: nat | j < p.n ensures ClientInv(p, s'.server, j, s'.clients[j]) {
      assert ClientInv(p, s.server, j, s.clients[j]);
      if j != i { assert SameFor(s.server, v, j); }
    }
  }

  /** What client `j` can notice of the server. */
  ghost predicate SameFor(v: Server, v': Server, j: nat)
    requires j < |v.ppCnt| && j < |v'.ppCnt|
  {
    && v'.ppCnt[j] == v.ppCnt[j] && v'.got[j] == v.got[j]
    && multiset(v'.recvCq)[j] == multiset(v.recvCq)[j]
    && v'.unacked[j] == v.unacked[j] && v'.sendCq[j] == v.sendCq[j] && v'.drained[j] == v.drained[j]
    && (j < v.kicked <==> j < v'.kicked)
    && v'.released >= v.released
    && (j < v'.ends ==> j < v.ends)
  }

  lemma ClientRecvInv(p: Params, s: System, i: nat)
    requires p.Valid() && Inv(p, s) && Enabled(p, s, ClientRecv(i))
    ensures Inv(p, Apply(p, s, ClientRecv(i)))
  {
    var c := s.clients[i];
    assert ClientInv(p, s.server, i, c);
    ClientStep(p, s, i, ClientHandle(p, c));
  }

  /** The client-side steps that change neither counters nor messages. */
  lemma ClientPhaseInv(p: Params, s: System, i: nat, a: Step)
    requires p.Valid() && Inv(p, s) && Enabled(p, s, a)
    requires a in {ClientLeave(i), ClientDrain(i), ClientEnd(i), ClientClose(i), AckUp(i)}
    ensures Inv(p, Apply(p, s, a))
  {
    var c := s.clients[i];
    assert ClientInv(p, s.server, i, c);
    ClientStep(p, s, i, Apply(p, s, a).clients[i]);
  }

  /** A message to client `i` finds the target QP it travels through, a posted receive, and room. */
  lemma RoomToDeliverDown(p: Params, s: System, i: nat, m: nat)
    requires Inv(p, s) && i < p.n && m < |s.clients[i].inbox|
    ensures var c := s.clients[i];
      && |c.inbox| == 1 && c.posted == 1 && c.rcq == 0 && c.phase != Closed
      && c.inbox[m].qp < p.n && s.clients[c.inbox[m].qp].phase != Closed
  {
    var c := s.clients[i];
    assert ClientInv(p, s.server, i, c);
    OneMessageEach(p, s, i);
    NotClosed(p, s, i, c.inbox[m].qp);
    NotClosed(p, s, i, i);
  }

  /** While a message to client `i` is in flight nobody has closed. */
  lemma NotClosed(p: Params, s: System, i: nat, j: nat)
    requires Inv(p, s) && i < p.n && j < p.n && s.clients[i].inbox != []
    ensures s.clients[j].phase != Closed
  {
    if s.clients[j].phase == Closed { ClosedMeansQuiet(p, s, j, i); }
  }

  lemma DeliverDownEffect(p: Params, s: System, i: nat, m: nat)
    requires Enabled(p, s, DeliverDown(i, m)) && i < p.n && m < |s.clients[i].inbox|
    requires var c := s.clients[i];
      && c.posted == 1 && c.rcq == 0 && c.phase != Closed && s.clients[c.inbox[m].qp].phase != Closed
    ensures var v, c := s.server, s.clients[i];
      Apply(p, s, DeliverDown(i, m)) ==
        s.(server := if c.inbox[m].signalled then v.(unacked := v.unacked + multiset{i}) else v,
           clients := s.clients[i := c.(inbox := Without(c.inbox, m), posted := 0, rcq := 1)])
  {
  }

  lemma DeliverDownMoves(p: Params, s: System, i: nat)
    requires p.Valid() && Inv(p, s) && i < p.n
    requires |s.clients[i].inbox| == 1 && s.clients[i].posted == 1 && s.clients[i].rcq == 0
    ensures var v, c := s.server, s.clients[i];
      Inv(p, s.(server := if c.inbox[0].signalled then v.(unacked := v.unacked + multiset{i}) else v,
                clients := s.clients[i := c.(inbox := [], posted := 0, rcq := 1)]))
  {
    var v, c := s.server, s.clients[i];
    assert ClientInv(p, v, i, c);
    ServerStep(p, s, i, if c.inbox[0].signalled then v.(unacked := v.unacked + multiset{i}) else v,
               c.(inbox := [], posted := 0, rcq := 1));
  }

  lemma DeliverDownInv(p: Params, s: System, i: nat, m: nat)
    requires p.Valid() && Inv(p, s) && i < p.n && m < |s.clients[i].inbox| && Enabled(p, s, DeliverDown(i, m))
    ensures Inv(p, Apply(p, s, DeliverDown(i, m)))
  {
    RoomToDeliverDown(p, s, i, m);
    DeliverDownEffect(p, s, i, m);
    DeliverDownMoves(p, s, i);
    assert Without(s.clients[i].inbox, m) == [];
  }

  lemma DeliverUpClient(p: Params, v: Server, v': Server, i: nat, c: Client, c': Client)
    requires p.Valid() && ServerInv(p, v) && v.phase in {Kicking, Serving} && v.posted > 0
    requires i < p.n && ClientInv(p, v, i, c) && c.outbox != []
    requires v' == v.(posted := v.posted - 1, recvCq := v.recvCq + [i])
    requires c' == c.(outbox := [], unacked := if c.outbox[0] then c.unacked + 1 else c.unacked) && |c.outbox| == 1
    ensures multiset(v'.recvCq) == multiset(v.recvCq) + multiset{i}
    ensures ServerInv(p, v') && ClientInv(p, v', i, c')
  {
    assert multiset(v'.recvCq) == multiset(v.recvCq) + multiset{i};
  }

  lemma DeliverUpEffect(p: Params, s: System, i: nat, m: nat)
    requires Enabled(p, s, DeliverUp(i, m)) && s.server.phase != Gone && s.server.posted > 0 && |s.server.recvCq| < p.n
    ensures i < p.n && m < |s.clients[i].outbox|
    ensures var v, c := s.server, s.clients[i];
      Apply(p, s, DeliverUp(i, m)) ==
        s.(server := v.(posted := v.posted - 1, recvCq := v.recvCq + [i]),
           clients := s.clients[i := c.(outbox := Without(c.outbox, m),
                                        unacked := if c.outbox[m] then c.unacked + 1 else c.unacked)])
  {
  }

  /** A message to the server finds it listening, with a posted receive and room for a completion. */
  lemma RoomToDeliverUp(p: Params, s: System, i: nat)
    requires Inv(p, s) && i < p.n && s.clients[i].outbox != []
    ensures s.server.posted > 0 && |s.server.recvCq| < p.n && s.server.phase in {Kicking, Serving}
    ensures |s.clients[i].outbox| == 1
  {
    ServerHasRoom(p, s, i);
    OneMessageEach(p, s, i);
    if s.server.phase in {Emptying, Ending, Gone} { ServerDoneMeansQuiet(p, s, i); }
  }

  lemma DeliverUpInv(p: Params, s: System, i: nat, m: nat)
    requires p.Valid() && Inv(p, s) && i < p.n && m < |s.clients[i].outbox| && Enabled(p, s, DeliverUp(i, m))
    ensures Inv(p, Apply(p, s, DeliverUp(i, m)))
  {
    RoomToDeliverUp(p, s, i);
    DeliverUpEffect(p, s, i, m);
    DeliverUpMoves(p, s, i);
    assert Without(s.clients[i].outbox, m) == [];
  }

  lemma DeliverUpMoves(p: Params, s: System, i: nat)
    requires p.Valid() && Inv(p, s) && i < p.n && |s.clients[i].outbox| == 1
    requires s.server.posted > 0 && s.server.phase in {Kicking, Serving}
    ensures var v, c := s.server, s.clients[i];
      Inv(p, s.(server := v.(posted := v.posted - 1, recvCq := v.recvCq + [i]),
                clients := s.clients[i := c.(outbox := [], unacked := if c.outbox[0] then c.unacked + 1 else c.unacked)]))
  {
    var v, c := s.server, s.clients[i];
    assert ClientInv(p, v, i, c);
    var v' := v.(posted := v.posted - 1, recvCq := v.recvCq + [i]);
    var c' := c.(outbox := [], unacked := if c.outbox[0] then c.unacked + 1 else c.unacked);
    DeliverUpClient(p, v, v', i, c, c');
    forall j: nat | j < p.n && j != i ensures SameFor(v, v', j) { QueuedForOthers(v, v', i, j); }
    ServerStep(p, s, i, v', c');
  }

  /** A completion for client `i` is nothing to the others. */
  lemma QueuedForOthers(v: Server, v': Server, i: nat, j: nat)
    requires v.posted > 0 && v' == v.(posted := v.posted - 1, recvCq := v.recvCq + [i]) && j != i && j < |v.ppCnt|
    ensures SameFor(v, v', j)
  {
    assert multiset(v'.recvCq) == multiset(v.recvCq) + multiset{i};
  }

  lemma KickInv(p: Params, s: System)
    requires p.Valid() && Inv(p, s) && Enabled(p, s, Kick)
    ensures Inv(p, Apply(p, s, Kick))
  {
    var i := s.server.kicked;
    assert ClientInv(p, s.server, i, s.clients[i]);
    SendHasSlot(p, s, i);
    SendEffect(p, s, i);
    PostedOneMore(s.server.ppCnt, i);
    var s' := Apply(p, s, Kick);
    ServerStep(p, s, i, s'.server, s'.clients[i]);
  }

  lemma ServerTakeInv(p: Params, v: Server)
    requires ServerInv(p, v) && v.recvCq != [] && v.phase == Serving
    ensures ServerInv(p, ServerTake(p, v)) && v.recvCq[0] < p.n
    ensures multiset(v.recvCq) == multiset(ServerTake(p, v).recvCq) + multiset{v.recvCq[0]}
  {
    assert v.recvCq == [v.recvCq[0]] + v.recvCq[1..];
    assert v.recvCq[0] in multiset(v.recvCq);
    var v' := ServerTake(p, v);
    forall x | x in multiset(v'.recvCq) ensures x < p.n { assert x in multiset(v.recvCq); }
  }

  /** The client that was answered. */
  lemma ServerRecvClient(p: Params, v: Server, v': Server, c: Client, c': Client)
    requires p.Valid() && ServerInv(p, v) && v.phase == Serving && v.recvCq != [] && v.recvCq[0] < p.n
    requires ClientInv(p, v, v.recvCq[0], c)
    requires multiset(v.recvCq) == multiset(ServerTake(p, v).recvCq) + multiset{v.recvCq[0]}
    requires var i := v.recvCq[0]; var k := v.ppCnt[i];
      if k < p.t then
        && v' == ServerTake(p, v).(ppCnt := v.ppCnt[i := k + 1], load := v'.load)
        && c' == c.(inbox := c.inbox + [Msg((i + k) % p.n, k + 1 >= p.t)])
      else v' == ServerTake(p, v) && c' == c
    ensures ClientInv(p, v', v.recvCq[0], c')
  {
  }

  /** The server without its answer, and with it. */
  lemma ServerRecvServer(p: Params, s: System)
    requires p.Valid() && Inv(p, s) && s.server.phase == Serving && s.server.recvCq != []
    ensures CanHandle(s)
    ensures var v, s' := s.server, ServerHandle(p, s); var i := v.recvCq[0];
      if v.ppCnt[i] < p.t then
        && s'.server == ServerTake(p, v).(ppCnt := v.ppCnt[i := v.ppCnt[i] + 1], load := s'.server.load)
        && |s'.server.load| == |v.load| + 1
        && s' == s.(server := s'.server,
                    clients := s.clients[i := s.clients[i].(inbox := s.clients[i].inbox + [MessageTo(p, i, v.ppCnt[i])])])
      else s' == s.(server := ServerTake(p, v))
  {
    var v := s.server;
    ServerTakeInv(p, v);
    if v.ppCnt[v.recvCq[0]] < p.t {
      SendHasSlot(p, s, v.recvCq[0]);
      SendEffect(p, s.(server := ServerTake(p, v)), v.recvCq[0]);
    }
  }

  ghost predicate Answered(p: Params, v: Server, v': Server)
    requires v.recvCq != [] && v.recvCq[0] < |v.ppCnt|
  {
    var i := v.recvCq[0];
    if v.ppCnt[i] < p.t then
      v' == ServerTake(p, v).(ppCnt := v.ppCnt[i := v.ppCnt[i] + 1], load := v'.load) && |v'.load| == |v.load| + 1
    else v' == ServerTake(p, v)
  }

  lemma AnsweredServer(p: Params, v: Server, v': Server)
    requires ServerInv(p, v) && v.phase == Serving && v.recvCq != [] && v.recvCq[0] < p.n && Answered(p, v, v')
    ensures ServerInv(p, v')
  {
    ServerTakeInv(p, v);
    PostedOneMore(v.ppCnt, v.recvCq[0]);
  }

  lemma AnsweredOthers(p: Params, v: Server, v': Server, j: nat)
    requires ServerInv(p, v) && v.recvCq != [] && v.recvCq[0] < p.n && Answered(p, v, v')
    requires j < p.n && j != v.recvCq[0]
    ensures SameFor(v, v', j)
  {
    assert v.recvCq == [v.recvCq[0]] + v.recvCq[1..];
    assert multiset(v.recvCq)[j] == multiset(v.recvCq[1..])[j];
  }

  /** The server and the client afterwards keep the invariant. */
  lemma ServerAnswered(p: Params, s: System, v': Server, c': Client)
    requires p.Valid() && Inv(p, s) && s.server.phase == Serving && s.server.recvCq != [] && s.server.recvCq[0] < p.n
    requires Answered(p, s.server, v')
    requires var v := s.server; var i := v.recvCq[0]; var c := s.clients[i];
      c' == if v.ppCnt[i] < p.t then c.(inbox := c.inbox + [MessageTo(p, i, v.ppCnt[i])]) else c
    ensures Inv(p, s.(server := v', clients := s.clients[s.server.recvCq[0] := c']))
  {
    var v, i := s.server, s.server.recvCq[0];
    AnsweredServer(p, v, v');
    assert ClientInv(p, v', i, c') by {
      ServerTakeInv(p, v);
      assert ClientInv(p, v, i, s.clients[i]);
      ServerRecvClient(p, v, v', s.clients[i], c');
    }
    forall j: nat | j < p.n && j != i ensures SameFor(v, v', j) { AnsweredOthers(p, v, v', j); }
    ServerStep(p, s, i, v', c');
  }

  lemma ServerRecvInv(p: Params, s: System)
    requires p.Valid() && Inv(p, s) && s.server.phase == Serving && s.server.recvCq != []
    ensures CanHandle(s) && Inv(p, ServerHandle(p, s))
  {
    ServerRecvServer(p, s);
    var s', i := ServerHandle(p, s), s.server.recvCq[0];
    assert s' == s.(server := s'.server, clients := s.clients[i := s'.clients[i]]);
    ServerAnswered(p, s, s'.server, s'.clients[i]);
  }

  /** The server's last sends are signalled once per client, so they fit the send queue. */
  lemma SendCqHasRoom(p: Params, s: System, i: nat)
    requires Inv(p, s) && i < p.n && i in s.server.unacked
    ensures |s.server.sendCq| < p.n
  {
    var v := s.server;
    var q := v.sendCq + multiset{i};
    forall x | x in q ensures x < p.n && q[x] <= 1 {
      assert x in v.sendCq || x == i;
      assert SignalsInv(p, v, x, s.clients[x]) by { assert ClientInv(p, v, x, s.clients[x]); }
    }
    CardAtMost(q, p.n, 1);
  }

  lemma AckDownServer(p: Params, v: Server, i: nat, c: Client) returns (v': Server)
    requires ServerInv(p, v) && i < p.n && i in v.unacked && ClientInv(p, v, i, c)
    ensures v' == v.(unacked := v.unacked - multiset{i}, sendCq := v.sendCq + multiset{i})
    ensures ServerInv(p, v') && ClientInv(p, v', i, c)
  {
    v' := v.(unacked := v.unacked - multiset{i}, sendCq := v.sendCq + multiset{i});
    assert v'.unacked[i] == v.unacked[i] - 1 && v'.sendCq[i] == v.sendCq[i] + 1;
  }

  lemma AckDownEffect(p: Params, s: System, i: nat)
    requires Enabled(p, s, AckDown(i)) && |s.server.sendCq| < p.n
    ensures i < p.n && i in s.server.unacked && |s.clients| == p.n
    ensures var v := s.server;
      Apply(p, s, AckDown(i)) == s.(server := v.(unacked := v.unacked - multiset{i}, sendCq := v.sendCq + multiset{i}))
  {
  }

  lemma AckDownInv(p: Params, s: System, i: nat)
    requires p.Valid() && Inv(p, s) && Enabled(p, s, AckDown(i))
    ensures Inv(p, Apply(p, s, AckDown(i)))
  {
    assert i < p.n && i in s.server.unacked;
    SendCqHasRoom(p, s, i);
    AckDownEffect(p, s, i);
    AckDownServerStep(p, s, i);
  }

  lemma AckDownServerStep(p: Params, s: System, i: nat)
    requires Inv(p, s) && i < p.n && i in s.server.unacked
    ensures var v := s.server;
      Inv(p, s.(server := v.(unacked := v.unacked - multiset{i}, sendCq := v.sendCq + multiset{i})))
  {
    assert ClientInv(p, s.server, i, s.clients[i]);
    var v' := AckDownServer(p, s.server, i, s.clients[i]);
    ServerStep(p, s, i, v', s.clients[i]);
    assert s.clients[i := s.clients[i]] == s.clients;
  }

  lemma ServerDrainInv(p: Params, s: System, i: nat)
    requires p.Valid() && Inv(p, s) && Enabled(p, s, ServerDrain(i))
    ensures Inv(p, Apply(p, s, ServerDrain(i)))
  {
    assert ClientInv(p, s.server, i, s.clients[i]);
    ServerStep(p, s, i, Apply(p, s, ServerDrain(i)).server, s.clients[i]);
  }

  lemma ReadEndInv(p: Params, s: System)
    requires p.Valid() && Inv(p, s) && Enabled(p, s, ReadEnd)
    ensures Inv(p, Apply(p, s, ReadEnd))
  {
    var i := s.server.ends;
    assert ClientInv(p, s.server, i, s.clients[i]);
    ServerStep(p, s, i, Apply(p, s, ReadEnd).server, s.clients[i]);
  }

  lemma ServerPhaseInv(p: Params, s: System, a: Step)
    requires p.Valid() && Inv(p, s) && Enabled(p, s, a)
    requires a in {ServerLeave, ServerDrained, WriteEnd, ServerClose}
    ensures Inv(p, Apply(p, s, a))
  {
    assert ClientInv(p, s.server, 0, s.clients[0]);
    ServerStep(p, s, 0, Apply(p, s, a).server, s.clients[0]);
  }

  // ---------------------------------------------------------------- every step

  lemma StepInv(p: Params, s: System, a: Step)
    requires p.Valid() && Inv(p, s) && Enabled(p, s, a)
    ensures Inv(p, Apply(p, s, a))
  {
    match a
    case Kick => KickInv(p, s);
    case ServerRecv => ServerRecvInv(p, s);
    case ServerDrain(i) => ServerDrainInv(p, s, i);
    case ReadEnd => ReadEndInv(p, s);
    case ClientRecv(i) => ClientRecvInv(p, s, i);
    case DeliverDown(i, m) =>
      assert i < p.n && m < |s.clients[i].inbox|;
      DeliverDownInv(p, s, i, m);
    case DeliverUp(i, m) =>
      assert i < p.n && m < |s.clients[i].outbox|;
      DeliverUpInv(p, s, i, m);
    case AckDown(i) => AckDownInv(p, s, i);
    case ServerLeave => ServerPhaseInv(p, s, a);
    case ServerDrained => ServerPhaseInv(p, s, a);
    case WriteEnd => ServerPhaseInv(p, s, a);
    case ServerClose => ServerPhaseInv(p, s, a);
    case ClientLeave(i) => ClientPhaseInv(p, s, i, a);
    case ClientDrain(i) => ClientPhaseInv(p, s, i, a);
    case ClientEnd(i) => ClientPhaseInv(p, s, i, a);
    case ClientClose(i) => ClientPhaseInv(p, s, i, a);
    case AckUp(i) => ClientPhaseInv(p, s, i, a);
  }

  ghost function InvOf(p: Params): System -> bool { s => Inv(p, s) }

  lemma InvInductive(p: Params)
    requires p.Valid()
    ensures Inductive(Exchange(p), InvOf(p))
  {
    InitInv(p);
    var m := Exchange(p);
    forall s, a | InvOf(p)(s) && m.enabled(s, a) ensures InvOf(p)(m.apply(s, a)) {
      StepInv(p, s, a);
    }
  }

  lemma InvInEveryRun(p: Params, s: System)
    requires p.Valid() && Reachable(Exchange(p), s)
    ensures Inv(p, s)
  {
    InvInductive(p);
    ReachableKeeps(Exchange(p), InvOf(p), s);
  }
}
