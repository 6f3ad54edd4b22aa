/** What every run of the XRC exchange guarantees. */
module XrcTheorems {
  import opened XrcPingPong
  import opened XrcSafety
  import opened XrcBalance
  import opened Multisets
  import opened Runs
  import opened Sums

  // ---------------------------------------------------------------- safety

  /** No message is lost, no queue runs empty or overflows, for any number of clients. */
  lemma NothingEverFails(p: Params, s: System)
    requires p.Valid() && Reachable(Exchange(p), s)
    ensures s.fault == NoFault
  {
    InvInEveryRun(p, s);
  }

  /**
   The termination barrier.  As soon as any client has closed its context, every client has received its
   `t` messages and nothing is in flight, in particular nothing routed through the closed target QP.
   */
  lemma TerminationBarrier(p: Params, s: System, j: nat)
    requires p.Valid() && Reachable(Exchange(p), s)
    requires j < |s.clients| && s.clients[j].phase == Closed
    ensures forall i :: 0 <= i < |s.clients| ==>
      s.clients[i].cnt == p.t && s.clients[i].inbox == [] && s.clients[i].outbox == []
  {
    InvInEveryRun(p, s);
    forall i | 0 <= i < |s.clients|
      ensures s.clients[i].cnt == p.t && s.clients[i].inbox == [] && s.clients[i].outbox == []
    {
      ClosedMeansQuiet(p, s, j, i);
    }
  }

  /**
   Exact counts.  The server never counts past `n * t`, and when it leaves its loop it has exchanged
   exactly `t` messages each way with every client; a client that leaves its loop has exactly `t`.
   */
  lemma ExactCounts(p: Params, s: System, i: nat)
    requires p.Valid() && Reachable(Exchange(p), s) && i < p.n
    ensures |s.clients| == |s.server.ppCnt| == p.n
    ensures s.server.cnt <= p.n * p.t && s.server.ppCnt[i] <= p.t && s.clients[i].ppCnt == s.clients[i].cnt <= p.t
    ensures s.server.phase in {Emptying, Ending, Gone} ==>
      && s.server.cnt == p.n * p.t
      && s.server.ppCnt[i] == s.server.got[i] == s.clients[i].ppCnt == p.t
    ensures s.clients[i].phase != Exchanging ==> s.clients[i].cnt == p.t
  {
    InvInEveryRun(p, s);
    assert ClientInv(p, s.server, i, s.clients[i]);
    ServerIsExact(p, s);
    if s.server.phase in {Emptying, Ending, Gone} { ServerDoneMeansQuiet(p, s, i); }
  }

  /**
   One signalled send per direction and client: its completion is on its way, queued or drained, and
   once the exchange with a client is over it exists exactly once.
   */
  lemma OneCompletionPerClient(p: Params, s: System, i: nat)
    requires p.Valid() && Reachable(Exchange(p), s) && i < p.n
    ensures |s.clients| == |s.server.ppCnt| == p.n
    ensures s.server.unacked[i] + s.server.sendCq[i] + s.server.drained[i] <= 1
    ensures s.server.ppCnt[i] == p.t && s.clients[i].inbox == [] <==>
      s.server.unacked[i] + s.server.sendCq[i] + s.server.drained[i] == 1
    ensures s.clients[i].cnt == p.t && s.clients[i].outbox == [] <==>
      s.clients[i].unacked + s.clients[i].sendCq + s.clients[i].drained == 1
    ensures |s.server.drained| <= p.n
  {
    InvInEveryRun(p, s);
    assert ClientInv(p, s.server, i, s.clients[i]);
    forall x | x in s.server.drained ensures x < p.n && s.server.drained[x] <= 1 {
      assert ClientInv(p, s.server, x, s.clients[x]);
    }
    CardAtMost(s.server.drained, p.n, 1);
  }

  /** What the queues hold at most: each was created with that many entries. */
  lemma QueuesFit(p: Params, s: System, i: nat)
    requires p.Valid() && Reachable(Exchange(p), s) && i < p.n
    ensures |s.clients| == p.n
    ensures s.server.posted + |s.server.recvCq| == p.n && |s.server.sendCq| + |s.server.drained| <= p.n
    ensures s.clients[i].posted + s.clients[i].rcq == 1 && s.clients[i].sendCq + s.clients[i].drained <= 1
  {
    InvInEveryRun(p, s);
    SendCqFits(p, s);
    ClientQueuesFit(p, s.server, i, s.clients[i]);
  }

  lemma ClientQueuesFit(p: Params, v: Server, i: nat, c: Client)
    requires i < |v.ppCnt| && ClientInv(p, v, i, c)
    ensures c.posted + c.rcq == 1 && c.sendCq + c.drained <= 1
  {
  }

  lemma SendCqFits(p: Params, s: System)
    requires Inv(p, s)
    ensures |s.server.sendCq| + |s.server.drained| <= p.n
  {
    var both := s.server.sendCq + s.server.drained;
    forall x | x in both ensures x < p.n && both[x] <= 1 {
      assert x in s.server.sendCq || x in s.server.drained;
      assert SignalsInv(p, s.server, x, s.clients[x]) by { assert ClientInv(p, s.server, x, s.clients[x]); }
    }
    CardAtMost(both, p.n, 1);
  }

  /**
   When the server goes on to the END messages it has drained exactly one completion for every client, and none
   is left or to come; so has every client that has sent its END.
   */
  lemma DrainedExactly(p: Params, s: System, i: nat)
    requires p.Valid() && Reachable(Exchange(p), s) && i < p.n
    ensures |s.clients| == p.n
    ensures s.server.phase in {Ending, Gone} ==>
      |s.server.drained| == p.n && s.server.drained[i] == 1 && s.server.unacked[i] == s.server.sendCq[i] == 0
    ensures s.clients[i].phase in {AwaitingEnd, Closed} ==>
      s.clients[i].drained == 1 && s.clients[i].unacked == s.clients[i].sendCq == 0
  {
    OneCompletionPerClient(p, s, i);
    InvInEveryRun(p, s);
    assert ClientInv(p, s.server, i, s.clients[i]);
    forall x | x in s.server.drained ensures x < p.n && s.server.drained[x] <= 1 {
      assert ClientInv(p, s.server, x, s.clients[x]);
    }
    if s.server.phase in {Ending, Gone} { CardFull(s.server.drained, p.n, 1); }
  }

  /**
   Round robin.  No send QP ever carries more than `t` messages, and when the server leaves its loop
   each has carried exactly `t`.
   */
  lemma BalancedSendQps(p: Params, s: System, j: nat)
    requires p.Valid() && Reachable(Exchange(p), s) && j < p.n
    ensures s.server.load[j] <= p.t
    ensures s.server.phase in {Emptying, Ending, Gone} ==> s.server.load[j] == p.t
  {
    InvInEveryRun(p, s);
    LoadInEveryRun(p, s);
    var full := seq(p.n, _ => p.t);
    RoundRobinIsBalanced(p.n, p.t, j);
    forall i: nat | i < p.n ensures s.server.ppCnt[i] <= full[i] { assert ClientInv(p, s.server, i, s.clients[i]); }
    LoadMonotone(p.n, s.server.ppCnt, full, j);
    if s.server.phase in {Emptying, Ending, Gone} {
      forall i: nat | i < p.n ensures s.server.ppCnt[i] == full[i] { ServerDoneMeansQuiet(p, s, i); }
      assert s.server.ppCnt == full;
    }
  }

  // ---------------------------------------------------------------- progress

  ghost predicate AllClosed(s: System) {
    s.server.phase == Gone && forall i :: 0 <= i < |s.clients| ==> s.clients[i].phase == Closed
  }

  /** Nothing for the NIC to do. */
  ghost predicate Quiet(p: Params, s: System)
    requires |s.clients| == p.n
  {
    && s.server.unacked == multiset{}
    && forall i :: 0 <= i < p.n ==> s.clients[i].inbox == [] && s.clients[i].outbox == [] && s.clients[i].unacked == 0
  }

  lemma NicCanStep(p: Params, s: System)
    requires Inv(p, s) && p.Valid() && !Quiet(p, s)
    ensures exists a :: Enabled(p, s, a)
  {
    if i :| i in s.server.unacked {
      assert Enabled(p, s, AckDown(i));
    } else {
      var i :| 0 <= i < p.n && !(s.clients[i].inbox == [] && s.clients[i].outbox == [] && s.clients[i].unacked == 0);
      assert ClientInv(p, s.server, i, s.clients[i]);
      ClientNicCanStep(p, s, i);
    }
  }

  lemma ClientNicCanStep(p: Params, s: System, i: nat)
    requires s.fault == NoFault && Shaped(p, s) && i < p.n
    requires forall m :: 0 <= m < |s.clients[i].inbox| ==> s.clients[i].inbox[m].qp < p.n
    requires !(s.clients[i].inbox == [] && s.clients[i].outbox == [] && s.clients[i].unacked == 0)
    ensures exists a :: Enabled(p, s, a)
  {
    if s.clients[i].inbox != [] {
      assert Enabled(p, s, DeliverDown(i, 0));
    } else if s.clients[i].outbox != [] {
      assert Enabled(p, s, DeliverUp(i, 0));
    } else {
      assert Enabled(p, s, AckUp(i));
    }
  }

  /** While the server still expects messages, some client has one to answer. */
  lemma ServingCanStep(p: Params, s: System)
    requires Inv(p, s) && p.Valid() && Quiet(p, s) && s.server.phase == Serving
    ensures exists a :: Enabled(p, s, a)
  {
    var v := s.server;
    if v.recvCq != [] {
      assert v.recvCq[0] in multiset(v.recvCq);
      assert Enabled(p, s, ServerRecv);
    } else if i: nat :| i < p.n && v.got[i] < p.t {
      assert ClientInv(p, v, i, s.clients[i]);
      assert Enabled(p, s, ClientRecv(i));
    } else {
      forall i: nat | i < p.n ensures v.got[i] == p.t { assert ClientInv(p, v, i, s.clients[i]); }
      CardExact(v.got, p.n, p.t);
      assert Enabled(p, s, ServerLeave);
    }
  }

  lemma EmptyingCanStep(p: Params, s: System)
    requires Inv(p, s) && p.Valid() && Quiet(p, s) && s.server.phase == Emptying
    ensures exists a :: Enabled(p, s, a)
  {
    var v := s.server;
    if |v.drained| < p.n && v.sendCq != multiset{} {
      var i :| i in v.sendCq;
      assert Enabled(p, s, ServerDrain(i));
    } else {
      if v.sendCq == multiset{} {
        forall i: nat | i < p.n ensures v.drained[i] == 1 {
          ServerDoneMeansQuiet(p, s, i);
          assert ClientInv(p, v, i, s.clients[i]);
        }
        CardExact(v.drained, p.n, 1);
      }
      assert Enabled(p, s, ServerDrained);
    }
  }

  /** A client that has not sent its END can move on once the server is done. */
  lemma ClientCanFinish(p: Params, s: System, i: nat)
    requires Inv(p, s) && p.Valid() && Quiet(p, s) && s.server.phase == Ending
    requires i < p.n && s.clients[i].phase in {Exchanging, Draining}
    ensures exists a :: Enabled(p, s, a)
  {
    ServerDoneMeansQuiet(p, s, i);
    assert ClientInv(p, s.server, i, s.clients[i]);
    if s.clients[i].phase == Exchanging {
      assert Enabled(p, s, ClientLeave(i));
    } else if s.clients[i].drained >= 1 {
      assert Enabled(p, s, ClientEnd(i));
    } else {
      assert Enabled(p, s, ClientDrain(i));
    }
  }

  lemma EndingCanStep(p: Params, s: System)
    requires Inv(p, s) && p.Valid() && Quiet(p, s) && s.server.phase == Ending
    ensures exists a :: Enabled(p, s, a)
  {
    var v := s.server;
    if v.ends >= p.n {
      assert Enabled(p, s, if v.released < p.n then WriteEnd else ServerClose);
    } else if s.clients[v.ends].phase in {AwaitingEnd, Closed} {
      assert Enabled(p, s, ReadEnd);
    } else {
      ClientCanFinish(p, s, v.ends);
    }
  }

  lemma ClosingCanStep(p: Params, s: System, i: nat)
    requires Inv(p, s) && p.Valid() && s.server.phase == Gone && i < p.n && s.clients[i].phase != Closed
    ensures exists a :: Enabled(p, s, a)
  {
    assert ClientInv(p, s.server, i, s.clients[i]);
    assert Enabled(p, s, ClientClose(i));
  }

  lemma Progress(p: Params, s: System)
    requires Inv(p, s) && p.Valid() && !AllClosed(s)
    ensures exists a :: Enabled(p, s, a)
  {
    if !Quiet(p, s) { NicCanStep(p, s); }
    else {
      match s.server.phase
      case Kicking => assert Enabled(p, s, Kick);
      case Serving => ServingCanStep(p, s);
      case Emptying => EmptyingCanStep(p, s);
      case Ending => EndingCanStep(p, s);
      case Gone =>
        var i :| 0 <= i < |s.clients| && s.clients[i].phase != Closed;
        ClosingCanStep(p, s, i);
    }
  }

  lemma NotStuck(p: Params, s: System)
    requires Inv(p, s) && p.Valid() && !AllClosed(s)
    ensures !Stuck(Exchange(p), s)
  {
    Progress(p, s);
    var a :| Enabled(p, s, a);
    assert Exchange(p).enabled(s, a);
  }

  // ---------------------------------------------------------------- termination

  ghost function ClientRank(c: Client): int {
    match c.phase case Exchanging => 3 case Draining => 2 case AwaitingEnd => 1 case Closed => 0
  }

  /** Work left with client `i`, on both sides and in between. */
  ghost function Work(p: Params, s: System, i: nat): int {
    if i >= |s.clients| || i >= |s.server.ppCnt| then 0
    else
      var c, v := s.clients[i], s.server;
      4 * (p.t - v.ppCnt[i]) + 4 * (p.t - c.ppCnt)
      + 4 * |c.inbox| + c.rcq + 4 * |c.outbox| + multiset(v.recvCq)[i]
      + 2 * c.unacked + c.sendCq + 2 * v.unacked[i] + v.sendCq[i] + ClientRank(c)
  }

  ghost function ServerRank(p: Params, v: Server): int {
    (p.n - v.kicked) + (p.n - v.ends) + (p.n - v.released)
    + match v.phase case Kicking => 4 case Serving => 4 case Emptying => 2 case Ending => 1 case Gone => 0
  }

  ghost function WorkOf(p: Params, s: System): nat -> int { (i: nat) => Work(p, s, i) }

  ghost function Measure(p: Params, s: System): int {
    ServerRank(p, s.server) + Sum(WorkOf(p, s), p.n)
  }

  /** The client that a step concerns. */
  ghost function Touched(s: System, a: Step): nat {
    match a
    case Kick => s.server.kicked
    case ServerRecv => if s.server.recvCq == [] then 0 else s.server.recvCq[0]
    case ServerDrain(i) => i
    case ClientRecv(i) => i
    case ClientLeave(i) => i
    case ClientDrain(i) => i
    case ClientEnd(i) => i
    case ClientClose(i) => i
    case DeliverDown(i, m) => i
    case DeliverUp(i, m) => i
    case AckDown(i) => i
    case AckUp(i) => i
    case _ => 0
  }

  /** A step lowers the work of one client, or the rank of the server, and leaves the other clients alone. */
  ghost predicate Lowers(p: Params, s: System, s': System, t: nat) {
    && t < p.n
    && ServerRank(p, s'.server) + Work(p, s', t) < ServerRank(p, s.server) + Work(p, s, t)
    && forall j: nat :: j < p.n && j != t ==> Work(p, s', j) == Work(p, s, j)
  }

  lemma ClientLowers(p: Params, s: System, a: Step)
    requires Enabled(p, s, a) && Apply(p, s, a).fault == NoFault
    requires a.ClientRecv? || a.ClientLeave? || a.ClientDrain? || a.ClientEnd? || a.ClientClose? || a.AckUp?
    ensures Lowers(p, s, Apply(p, s, a), Touched(s, a))
  {
  }

  lemma DeliverDownLowers(p: Params, s: System, i: nat, m: nat)
    requires Inv(p, s) && i < p.n && m < |s.clients[i].inbox| && Enabled(p, s, DeliverDown(i, m))
    ensures Lowers(p, s, Apply(p, s, DeliverDown(i, m)), i)
  {
    RoomToDeliverDown(p, s, i, m);
    DeliverDownEffect(p, s, i, m);
    var v, c := s.server, s.clients[i];
    var c' := c.(inbox := Without(c.inbox, m), posted := 0, rcq := 1);
    LessWork(p, s, i, if c.inbox[m].signalled then v.unacked + multiset{i} else v.unacked, c');
  }

  lemma LessWork(p: Params, s: System, i: nat, unacked: multiset<nat>, c: Client)
    requires Shaped(p, s) && i < p.n && s.clients[i].inbox != []
    requires unacked[i] <= s.server.unacked[i] + 1
    requires forall j: nat :: j != i ==> unacked[j] == s.server.unacked[j]
    requires c == s.clients[i].(inbox := c.inbox, posted := c.posted, rcq := s.clients[i].rcq + 1)
    requires |c.inbox| + 1 == |s.clients[i].inbox|
    ensures Lowers(p, s, s.(server := s.server.(unacked := unacked), clients := s.clients[i := c]), i)
  {
  }

  lemma DeliverUpLowers(p: Params, s: System, i: nat, m: nat)
    requires Inv(p, s) && i < p.n && m < |s.clients[i].outbox| && Enabled(p, s, DeliverUp(i, m))
    ensures Lowers(p, s, Apply(p, s, DeliverUp(i, m)), i)
  {
    RoomToDeliverUp(p, s, i);
    MovedUpLowers(p, s, i, m);
  }

  lemma MovedUpLowers(p: Params, s: System, i: nat, m: nat)
    requires Enabled(p, s, DeliverUp(i, m)) && s.server.phase != Gone && s.server.posted > 0 && |s.server.recvCq| < p.n
    ensures i < p.n && Lowers(p, s, Apply(p, s, DeliverUp(i, m)), i)
  {
    DeliverUpEffect(p, s, i, m);
    var v, c := s.server, s.clients[i];
    var c' := c.(outbox := Without(c.outbox, m), unacked := if c.outbox[m] then c.unacked + 1 else c.unacked);
    QueuedLowers(p, s, i, v.(posted := v.posted - 1, recvCq := v.recvCq + [i]), c');
  }

  lemma QueuedLowers(p: Params, s: System, i: nat, v: Server, c: Client)
    requires Shaped(p, s) && i < p.n && s.clients[i].outbox != []
    requires v == s.server.(posted := v.posted, recvCq := s.server.recvCq + [i])
    requires c == s.clients[i].(outbox := c.outbox, unacked := c.unacked)
    requires |c.outbox| + 1 == |s.clients[i].outbox| && c.unacked <= s.clients[i].unacked + 1
    ensures Lowers(p, s, s.(server := v, clients := s.clients[i := c]), i)
  {
    assert multiset(s.server.recvCq + [i]) == multiset(s.server.recvCq) + multiset{i};
  }

  lemma SendWork(p: Params, s: System, i: nat)
    requires p.n >= 1 && |s.server.ppCnt| == |s.clients| == p.n && i < p.n && SlotFree(p, s.server, i)
    ensures var s' := ServerSend(p, s, i);
      && Work(p, s', i) == Work(p, s, i)
      && (forall j: nat :: j < p.n && j != i ==> Work(p, s', j) == Work(p, s, j))
  {
    SendEffect(p, s, i);
  }

  lemma KickLowers(p: Params, s: System)
    requires p.Valid() && Inv(p, s) && Enabled(p, s, Kick)
    ensures Lowers(p, s, Apply(p, s, Kick), s.server.kicked)
  {
    assert ClientInv(p, s.server, s.server.kicked, s.clients[s.server.kicked]);
    SendHasSlot(p, s, s.server.kicked);
    SendWork(p, s, s.server.kicked);
    var s' := ServerSend(p, s, s.server.kicked);
    var t := Apply(p, s, Kick);
    forall j: nat | j < p.n ensures Work(p, t, j) == Work(p, s', j) { }
  }

  lemma TakeLowers(p: Params, s: System)
    requires Shaped(p, s) && s.server.recvCq != [] && s.server.recvCq[0] < p.n
    ensures Lowers(p, s, s.(server := ServerTake(p, s.server)), s.server.recvCq[0])
  {
    var i, v := s.server.recvCq[0], s.server;
    assert v.recvCq == [i] + v.recvCq[1..];
    assert multiset(v.recvCq) == multiset{i} + multiset(ServerTake(p, v).recvCq);
  }

  lemma ServerRecvLowers(p: Params, s: System)
    requires p.Valid() && Inv(p, s) && Shaped(p, s) && s.server.recvCq != [] && s.server.recvCq[0] < p.n
    ensures Lowers(p, s, ServerHandle(p, s), s.server.recvCq[0])
  {
    TakeLowers(p, s);
    var i := s.server.recvCq[0];
    if s.server.ppCnt[i] < p.t {
      SendHasSlot(p, s, i);
      SendWork(p, s.(server := ServerTake(p, s.server)), i);
    }
  }

  lemma ServerLowers(p: Params, s: System, a: Step)
    requires Enabled(p, s, a) && Apply(p, s, a).fault == NoFault
    requires a.ServerLeave? || a.ServerDrained? || a.ReadEnd? || a.WriteEnd? || a.ServerClose?
    ensures Lowers(p, s, Apply(p, s, a), 0)
  {
    var s' := Apply(p, s, a);
    forall j: nat | j < p.n ensures Work(p, s', j) == Work(p, s, j) { }
  }

  lemma AckDownLowers(p: Params, s: System, i: nat)
    requires Inv(p, s) && Enabled(p, s, AckDown(i))
    ensures Lowers(p, s, Apply(p, s, AckDown(i)), i)
  {
    assert i < p.n && i in s.server.unacked;
    SendCqHasRoom(p, s, i);
    AckDownEffect(p, s, i);
    MoveLowers(p, s, i, s.server.unacked - multiset{i}, s.server.sendCq + multiset{i}, s.server.drained);
  }

  lemma MoveLowers(p: Params, s: System, i: nat, unacked: multiset<nat>, sendCq: multiset<nat>, drained: multiset<nat>)
    requires Shaped(p, s) && i < p.n
    requires 2 * unacked[i] + sendCq[i] < 2 * s.server.unacked[i] + s.server.sendCq[i]
    requires forall j: nat :: j != i ==> unacked[j] == s.server.unacked[j] && sendCq[j] == s.server.sendCq[j]
    ensures Lowers(p, s, s.(server := s.server.(unacked := unacked, sendCq := sendCq, drained := drained)), i)
  {
  }

  lemma ServerDrainLowers(p: Params, s: System, i: nat)
    requires i < p.n && Enabled(p, s, ServerDrain(i))
    ensures Lowers(p, s, Apply(p, s, ServerDrain(i)), i)
  {
    MoveLowers(p, s, i, s.server.unacked, s.server.sendCq - multiset{i}, s.server.drained + multiset{i});
  }

  lemma StepLowers(p: Params, s: System, a: Step)
    requires p.Valid() && Enabled(p, s, a) && Apply(p, s, a).fault == NoFault && Inv(p, s)
    ensures Lowers(p, s, Apply(p, s, a), Touched(s, a))
  {
    match a
    case Kick => KickLowers(p, s);
    case ServerRecv => ServerRecvLowers(p, s);
    case ServerDrain(i) =>
      assert i in s.server.sendCq;
      ServerDrainLowers(p, s, i);
    case AckDown(i) => AckDownLowers(p, s, i);
    case DeliverDown(i, m) =>
      assert i < p.n && m < |s.clients[i].inbox|;
      DeliverDownLowers(p, s, i, m);
    case DeliverUp(i, m) =>
      assert i < p.n && m < |s.clients[i].outbox|;
      DeliverUpLowers(p, s, i, m);
    case ServerLeave => ServerLowers(p, s, a);
    case ServerDrained => ServerLowers(p, s, a);
    case ReadEnd => ServerLowers(p, s, a);
    case WriteEnd => ServerLowers(p, s, a);
    case ServerClose => ServerLowers(p, s, a);
    case ClientRecv(i) => ClientLowers(p, s, a);
    case ClientLeave(i) => ClientLowers(p, s, a);
    case ClientDrain(i) => ClientLowers(p, s, a);
    case ClientEnd(i) => ClientLowers(p, s, a);
    case ClientClose(i) => ClientLowers(p, s, a);
    case AckUp(i) => ClientLowers(p, s, a);
  }

  lemma MeasureNat(p: Params, s: System)
    requires Inv(p, s)
    ensures Measure(p, s) >= 0
  {
    forall j: nat | j < p.n ensures WorkOf(p, s)(j) >= 0 { assert ClientInv(p, s.server, j, s.clients[j]); }
    SumNat(WorkOf(p, s), p.n);
  }

  lemma StepDecreases(p: Params, s: System, a: Step)
    requires p.Valid() && Inv(p, s) && Enabled(p, s, a)
    ensures Inv(p, Apply(p, s, a)) && 0 <= Measure(p, Apply(p, s, a)) < Measure(p, s)
  {
    StepInv(p, s, a);
    var s' := Apply(p, s, a);
    MeasureNat(p, s');
    StepLowers(p, s, a);
    SumDiffers(WorkOf(p, s), WorkOf(p, s'), p.n, Touched(s, a));
  }

  ghost function WorkLeft(p: Params): System -> nat {
    s => if Measure(p, s) < 0 then 0 else Measure(p, s)
  }

  lemma WorkDecreases(p: Params)
    requires p.Valid()
    ensures Decreasing(Exchange(p), InvOf(p), WorkLeft(p))
  {
    var m := Exchange(p);
    forall s, a | InvOf(p)(s) && m.enabled(s, a) ensures WorkLeft(p)(m.apply(s, a)) < WorkLeft(p)(s) {
      StepDecreases(p, s, a);
    }
  }

  /** Every run stops: each message each way costs a bounded number of steps, so does the ending. */
  lemma EveryRunIsBounded(p: Params, run: seq<Step>)
    requires p.Valid() && ValidRun(Exchange(p), Init(p), run)
    ensures |run| <= p.n * (8 * p.t + 3) + 3 * p.n + 4
  {
    InvInductive(p);
    WorkDecreases(p);
    RunLength(Exchange(p), InvOf(p), WorkLeft(p), Init(p), run);
    InitMeasure(p);
  }

  lemma InitMeasure(p: Params)
    ensures Measure(p, Init(p)) == p.n * (8 * p.t + 3) + 3 * p.n + 4
  {
    var s := Init(p);
    forall j: nat | j < p.n ensures WorkOf(p, s)(j) == 8 * p.t + 3 { }
    SumConst(WorkOf(p, s), p.n, 8 * p.t + 3);
  }

  /** A run can only stop when the server and all clients have closed. */
  lemma StuckMeansAllClosed(p: Params, s: System)
    requires p.Valid() && Reachable(Exchange(p), s) && Stuck(Exchange(p), s)
    ensures AllClosed(s)
  {
    InvInEveryRun(p, s);
    if !AllClosed(s) { NotStuck(p, s); }
  }

  /** Whatever has happened so far, everybody can still finish. */
  lemma CanAlwaysClose(p: Params, s: System)
    requires p.Valid() && Reachable(Exchange(p), s)
    ensures exists t :: CanReach(Exchange(p), s, t) && AllClosed(t)
  {
    InvInductive(p);
    WorkDecreases(p);
    CanAlwaysStop(Exchange(p), InvOf(p), WorkLeft(p), s);
    var t :| CanReach(Exchange(p), s, t) && Stuck(Exchange(p), t) && Reachable(Exchange(p), t);
    StuckMeansAllClosed(p, t);
  }

  // ---------------------------------------------------------------- no tests at all

  /** Nothing fails and everybody closes in every run that cannot go on, if and only if there are tests to do. */
  lemma WorksIff(p: Params)
    requires p.n >= 1
    ensures (forall s :: Reachable(Exchange(p), s) ==> s.fault == NoFault && (Stuck(Exchange(p), s) ==> AllClosed(s)))
            <==> p.t >= 1
  {
    var m := Exchange(p);
    if p.t >= 1 {
      forall s | Reachable(m, s) ensures s.fault == NoFault && (Stuck(m, s) ==> AllClosed(s)) {
        NothingEverFails(p, s);
        if Stuck(m, s) { StuckMeansAllClosed(p, s); }
      }
    } else {
      InitReachable(m);
      StepReachable(m, m.init, Kick);
      assert m.apply(m.init, Kick).fault == SendQueueFull;
    }
  }

  /** A client that has sent nothing, and so has no completion to drain. */
  ghost predicate Waits(c: Client) {
    && c.inbox == [] && c.outbox == [] && c.rcq == 0
    && c.unacked == c.sendCq == c.drained == 0 && c.phase in {Exchanging, Draining}
  }

  ghost predicate NothingSent(p: Params, s: System) {
    && |s.clients| == |s.server.ppCnt| == p.n && s.server.recvCq == []
    && (forall i: nat :: i < p.n ==> Waits(s.clients[i]))
  }

  lemma NothingSentStep(p: Params, s: System, a: Step)
    requires p.n >= 1 && p.t == 0 && NothingSent(p, s) && Enabled(p, s, a)
    ensures NothingSent(p, Apply(p, s, a))
  {
    if a.Kick? {
      assert !SlotFree(p, s.server, s.server.kicked);
    } else {
      forall i: nat | i < p.n ensures Waits(Apply(p, s, a).clients[i]) { assert Waits(s.clients[i]); }
    }
  }

  /** With num_tests 0 no client ever closes: it waits for the completion of a send that it never makes. */
  lemma NobodyCloses(p: Params, s: System, i: nat)
    requires p.n >= 1 && p.t == 0 && Reachable(Exchange(p), s) && i < p.n
    ensures |s.clients| == p.n && s.clients[i].phase in {Exchanging, Draining} && s.clients[i].drained == 0
  {
    var m := Exchange(p);
    var inv := (s: System) => NothingSent(p, s);
    assert inv(m.init);
    forall s, a | inv(s) && m.enabled(s, a) ensures inv(m.apply(s, a)) { NothingSentStep(p, s, a); }
    ReachableKeeps(m, inv, s);
    assert Waits(s.clients[i]);
  }
}
