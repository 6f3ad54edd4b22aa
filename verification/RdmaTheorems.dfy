/**
 What the syncs of RDMA/rdma1.cpp achieve, in every interleaving of the two processes and the network cards,
 and that none of them can be left out.
 */
module RdmaTheorems {
  import opened Runs
  import opened RdmaBarriers

  function Full(m: Msgs): Params { Params(m, {}) }

  ghost function InvOf(m: Msgs): State -> bool { (s: State) => Inv(m, s) }

  lemma StartSockets(s: Side, c: Side)
    requires s.pc == 0 && c.pc == 0 && s.socket == "" && c.socket == ""
    ensures Sockets(s, c)
  {
    assert Channel(0, 0, "");
  }

  lemma StartSides(m: Msgs, s: Side, c: Side)
    requires s.pc == 0 && s.qp == Reset && !s.knowsPeer && s.buf == m.send
    requires c.pc == 0 && c.qp == Reset && !c.knowsPeer && c.buf == ""
    requires s.posted == 0 && s.sq == Idle && s.cq == 0 && s.shown == []
    requires c.posted == 0 && c.sq == Idle && c.cq == 0 && c.shown == []
    ensures ServerInv(m, s, c) && ClientInv(m, s, c)
  {
  }

  lemma StartInv(m: Msgs, s: State)
    requires s.faults == {}
    requires s.server.pc == 0 && s.server.qp == Reset && !s.server.knowsPeer && s.server.buf == m.send
    requires s.client.pc == 0 && s.client.qp == Reset && !s.client.knowsPeer && s.client.buf == ""
    requires s.server.posted == 0 && s.server.sq == Idle && s.server.cq == 0 && s.server.shown == []
    requires s.client.posted == 0 && s.client.sq == Idle && s.client.cq == 0 && s.client.shown == []
    requires s.server.socket == "" && s.client.socket == ""
    ensures Inv(m, s)
  {
    StartSockets(s.server, s.client);
    StartSides(m, s.server, s.client);
    MakeInv(m, s.server, s.client, s.faults);
  }

  lemma InitInv(m: Msgs)
    ensures InvOf(m)(Program(Full(m)).init)
  {
    StartInv(m, Init(m));
  }

  lemma InvKept(m: Msgs)
    ensures Kept(Program(Full(m)), InvOf(m))
  {
    forall s, a | InvOf(m)(s) && Program(Full(m)).enabled(s, a) ensures InvOf(m)(Program(Full(m)).apply(s, a)) {
      StepInv(Full(m), s, a);
    }
  }

  lemma InvInductive(m: Msgs)
    ensures Inductive(Program(Full(m)), InvOf(m))
  {
    InitInv(m);
    InvKept(m);
  }

  lemma InvInEveryRun(m: Msgs, s: State)
    requires Reachable(Program(Full(m)), s)
    ensures Inv(m, s)
  {
    InvInductive(m);
    ReachableKeeps(Program(Full(m)), InvOf(m), s);
  }

  /** What the two processes print if nothing goes wrong. */
  function ServerPrints(m: Msgs): seq<string> { [m.write] }
  function ClientPrints(m: Msgs): seq<string> { [m.send, m.read] }

  /** No request fails and nothing but the right contents is printed. */
  ghost predicate Right(m: Msgs, s: State) {
    s.faults == {} && s.server.shown <= ServerPrints(m) && s.client.shown <= ClientPrints(m)
  }

  lemma AllIsRight(m: Msgs, s: State)
    requires Reachable(Program(Full(m)), s)
    ensures Right(m, s)
  {
    InvInEveryRun(m, s);
  }

  /** The server's SEND meets a queue pair that can receive and a posted receive: it needs no RNR retry. */
  lemma SendFindsReceive(m: Msgs, s: State)
    requires Reachable(Program(Full(m)), s) && s.server.sq == Queued(SendMsg)
    ensures s.client.qp == ReadyToSend && s.client.posted == 1 && s.client.cq == 0
  {
    InvInEveryRun(m, s);
    Barrier(s.server, s.client);
  }

  /** Each process is within one sync of the other, and the sockets hold exactly the bytes in between. */
  lemma SyncsInStep(m: Msgs, s: State)
    requires Reachable(Program(Full(m)), s)
    ensures -1 <= ServerReads(s.server.pc) - ClientReads(s.client.pc) <= 1
    ensures Channel(ServerReads(s.server.pc), ClientWrites(s.client.pc), s.server.socket)
    ensures Channel(ClientReads(s.client.pc), ServerWrites(s.server.pc), s.client.socket)
  {
    InvInEveryRun(m, s);
  }

  predicate TouchesBuffer(op: Op) { op.Copy? || op.Show? }

  /** Requests by which a network card may still read or write the buffer of a process. */
  predicate CardMayTouch(s: State, r: Role) {
    match r
    case Server => s.server.sq != Idle || s.client.sq != Idle
    case Client => s.client.sq != Idle || s.client.posted > 0
  }

  lemma ServerTouches(m: Msgs, s: Side, c: Side)
    requires ServerInv(m, s, c) && ClientInv(m, s, c)
    requires (s.pc <= 10 ==> c.pc <= 11) && (s.pc > 13 ==> c.pc > 18) && TouchesBuffer(ServerOp(m, s.pc))
    ensures s.sq == Idle && c.sq == Idle
  {
    assert s.pc == 9 || s.pc == 14;
  }

  lemma ClientTouches(m: Msgs, s: Side, c: Side)
    requires ClientInv(m, s, c) && TouchesBuffer(ClientOp(m, c.pc))
    ensures c.sq == Idle && c.posted == 0
  {
    assert c.pc == 9 || c.pc == 14 || c.pc == 15;
  }

  /** No process touches its buffer while a card may. */
  lemma NoRaces(m: Msgs, s: State, r: Role)
    requires Reachable(Program(Full(m)), s)
    ensures TouchesBuffer(OpOf(Full(m), r, Me(s, r).pc)) ==> !CardMayTouch(s, r)
  {
    if TouchesBuffer(OpOf(Full(m), r, Me(s, r).pc)) {
      assert Inv(m, s) by { InvInEveryRun(m, s); }
      Barrier(s.server, s.client);
      match r
      case Server => ServerTouches(m, s.server, s.client);
      case Client => ClientTouches(m, s.server, s.client);
    }
  }

  // ---------------------------------------------------------------- progress

  predicate BothDone(s: State) { s.server.pc >= 15 && s.client.pc >= 20 }

  lemma StuckMeansDone(m: Msgs, s: State)
    requires Reachable(Program(Full(m)), s)
    ensures Stuck(Program(Full(m)), s) <==> BothDone(s)
    ensures BothDone(s) ==> s.server.shown == ServerPrints(m) && s.client.shown == ClientPrints(m)
    ensures BothDone(s) ==> s.server.buf == m.write && s.server.socket == "" && s.client.socket == ""
  {
    InvInEveryRun(m, s);
    var p := Full(m);
    if BothDone(s) {
      forall a ensures !Enabled(p, s, a) { }
    } else {
      var a := SomeStep(m, s);
      assert Program(p).enabled(s, a);
    }
  }

  /** A server that has to wait waits for a sync that the client has not written. */
  lemma ServerWaits(m: Msgs, s: Side, c: Side)
    requires Sockets(s, c) && ServerInv(m, s, c) && s.sq == Idle && s.pc < 15
    requires !CpuEnabled(ServerOp(m, s.pc), s)
    ensures ServerOp(m, s.pc).SockRead? && ServerReads(s.pc) == ClientWrites(c.pc)
  {
  }

  lemma ClientWaits(m: Msgs, s: Side, c: Side)
    requires Sockets(s, c) && ClientInv(m, s, c) && c.sq == Idle && c.pc < 20 && s.sq == Idle
    requires !CpuEnabled(ClientOp(m, c.pc), c)
    ensures (ClientOp(m, c.pc).SockRead? && ClientReads(c.pc) == ServerWrites(s.pc)) || (c.pc == 8 && s.pc < 8)
  {
  }

  /** They do not wait for each other. */
  lemma NotBothWait(m: Msgs, s: Side, c: Side)
    requires s.pc < 15 ==> ServerOp(m, s.pc).SockRead? && ServerReads(s.pc) == ClientWrites(c.pc)
    requires c.pc < 20 ==>
      (ClientOp(m, c.pc).SockRead? && ClientReads(c.pc) == ServerWrites(s.pc)) || (c.pc == 8 && s.pc < 8)
    ensures s.pc >= 15 && c.pc >= 20
  {
  }

  /** A card with work works; otherwise a process that does not wait goes on. */
  lemma SomeStep(m: Msgs, s: State) returns (a: Step)
    requires Inv(m, s) && !BothDone(s)
    ensures Enabled(Full(m), s, a)
  {
    if s.server.sq.Queued? { a := Execute(Server); }
    else if s.server.sq.Executed? { a := Complete(Server); }
    else if s.client.sq.Queued? { a := Execute(Client); }
    else if s.client.sq.Executed? { a := Complete(Client); }
    else {
      var r := SomeProcess(m, s.server, s.client);
      CpuIsEnabled(Full(m), s, r);
      a := Cpu(r);
    }
  }

  lemma SomeProcess(m: Msgs, s: Side, c: Side) returns (r: Role)
    requires SidesInv(m, s, c) && s.sq == Idle && c.sq == Idle && !(s.pc >= 15 && c.pc >= 20)
    ensures r == Server ==> CpuEnabled(ServerOp(m, s.pc), s)
    ensures r == Client ==> CpuEnabled(ClientOp(m, c.pc), c)
  {
    if CpuEnabled(ServerOp(m, s.pc), s) {
      r := Server;
    } else {
      r := Client;
      if s.pc < 15 { ServerWaits(m, s, c); }
      if c.pc < 20 && !CpuEnabled(ClientOp(m, c.pc), c) { ClientWaits(m, s, c); }
      if c.pc >= 20 || !CpuEnabled(ClientOp(m, c.pc), c) { NotBothWait(m, s, c); }
    }
  }

  function Stages(posted: bool, q: Stage): nat {
    if !posted then 2 else match q case Queued(_) => 2 case Executed => 1 case Idle => 0
  }

  /** Statements left, and two steps of a card for each request. */
  function ServerLeft(x: Side): nat { (if x.pc <= 15 then 15 - x.pc else 0) + Stages(x.pc > 7, x.sq) }

  function ClientLeft(x: Side): nat {
    (if x.pc <= 20 then 20 - x.pc else 0) + Stages(x.pc > 16, x.sq)
    + (if x.pc > 16 then 0 else if x.pc <= 12 then 2 else Stages(true, x.sq))
  }

  function Left(s: State): nat { ServerLeft(s.server) + ClientLeft(s.client) }

  lemma ServerStatement(m: Msgs, s: Side)
    requires s.pc < 15 && (s.sq != Idle ==> s.pc == 8) && (s.pc == 8 && CpuEnabled(Poll, s) ==> s.sq == Idle)
    requires CpuEnabled(ServerOp(m, s.pc), s)
    ensures ServerLeft(CpuStep(ServerOp(m, s.pc), s)) == ServerLeft(s) - 1
  {
  }

  lemma ClientStatement(m: Msgs, c: Side)
    requires c.pc < 20 && (c.sq != Idle ==> c.pc == 13 || c.pc == 17)
    requires (c.pc == 13 || c.pc == 17) && CpuEnabled(Poll, c) ==> c.sq == Idle
    requires CpuEnabled(ClientOp(m, c.pc), c)
    ensures ClientLeft(CpuStep(ClientOp(m, c.pc), c)) == ClientLeft(c) - 1
  {
  }

  lemma PeerUnmoved(op: Op, x: Side)
    ensures ServerLeft(PeerStep(op, x)) == ServerLeft(x) && ClientLeft(PeerStep(op, x)) == ClientLeft(x)
  {
  }

  lemma ServerCardDrops(m: Msgs, s: Side, c: Side)
    requires SidesInv(m, s, c) && s.sq != Idle
    ensures s.sq.Queued? ==>
      && ServerLeft(ExecuteMe(s.sq.request, s, c)) == ServerLeft(s) - 1
      && ClientLeft(ExecutePeer(s.sq.request, s, c)) == ClientLeft(c)
    ensures s.sq.Executed? ==> ServerLeft(Completed(s)) == ServerLeft(s) - 1
  {
    assert s.pc == 8;
  }

  lemma ClientCardDrops(m: Msgs, s: Side, c: Side)
    requires SidesInv(m, s, c) && c.sq != Idle
    ensures c.sq.Queued? ==>
      && ClientLeft(ExecuteMe(c.sq.request, c, s)) == ClientLeft(c) - 1
      && ServerLeft(ExecutePeer(c.sq.request, c, s)) == ServerLeft(s)
    ensures c.sq.Executed? ==> ClientLeft(Completed(c)) == ClientLeft(c) - 1
  {
    assert c.pc == 13 || c.pc == 17;
  }

  lemma CpuDrops(p: Params, s: State, r: Role)
    requires p.without == {} && Inv(p.m, s) && Enabled(p, s, Cpu(r))
    ensures Left(Apply(p, s, Cpu(r))) == Left(s) - 1
  {
    match r
    case Server =>
      ServerCpuEffect(p, s);
      ServerStatement(p.m, s.server);
      PeerUnmoved(ServerOp(p.m, s.server.pc), s.client);
    case Client =>
      ClientCpuEffect(p, s);
      ClientStatement(p.m, s.client);
      PeerUnmoved(ClientOp(p.m, s.client.pc), s.server);
  }

  lemma ExecuteDrops(p: Params, s: State, r: Role)
    requires Inv(p.m, s) && Enabled(p, s, Execute(r))
    ensures Left(Apply(p, s, Execute(r))) == Left(s) - 1
  {
    ExecuteEffect(p, s, r);
    match r
    case Server => ServerCardDrops(p.m, s.server, s.client);
    case Client => ClientCardDrops(p.m, s.server, s.client);
  }

  lemma CompleteDrops(p: Params, s: State, r: Role)
    requires Inv(p.m, s) && Enabled(p, s, Complete(r))
    ensures Left(Apply(p, s, Complete(r))) == Left(s) - 1
  {
    match r
    case Server =>
      ServerCompletes(p.m, s.server, s.client);
      ServerCardDrops(p.m, s.server, s.client);
    case Client =>
      ClientCompletes(p.m, s.server, s.client);
      ClientCardDrops(p.m, s.server, s.client);
    CompleteEffect(p, s, r);
  }

  /** Every step does one unit of the work. */
  lemma LeftDrops(m: Msgs, s: State, a: Step)
    requires Inv(m, s) && Enabled(Full(m), s, a)
    ensures Left(Next(Full(m), s, a)) == Left(s) - 1
  {
    match a
    case Cpu(r) => CpuDrops(Full(m), s, r);
    case Execute(r) => ExecuteDrops(Full(m), s, r);
    case Complete(r) => CompleteDrops(Full(m), s, r);
  }

  ghost function LeftOf(): State -> nat { (s: State) => Left(s) }

  lemma LeftCounts(m: Msgs)
    ensures Counting(Program(Full(m)), InvOf(m), LeftOf())
  {
    forall s, a | InvOf(m)(s) && Program(Full(m)).enabled(s, a)
      ensures LeftOf()(Program(Full(m)).apply(s, a)) == LeftOf()(s) - 1
    {
      LeftDrops(m, s, a);
    }
  }

  lemma NothingLeft(m: Msgs, s: State)
    requires Inv(m, s)
    ensures Left(s) == 0 <==> BothDone(s)
  {
  }

  lemma CountRun(p: Machine<State, Step>, m: Msgs, s: State, run: seq<Step>, t: State)
    requires Inductive(p, InvOf(m)) && Counting(p, InvOf(m), LeftOf())
    requires Inv(m, s) && Leads(p, s, run, t)
    ensures |run| == Left(s) - Left(t)
  {
    RunCounts(p, InvOf(m), LeftOf(), s, run);
  }

  lemma AllLeft(s: State)
    requires s.server.pc == 0 && s.client.pc == 0 && s.server.sq == Idle && s.client.sq == Idle
    ensures Left(s) == 41
  {
  }

  lemma InitLeft(m: Msgs)
    ensures Left(Program(Full(m)).init) == 41
  {
    AllLeft(Init(m));
  }

  lemma CountAll(p: Machine<State, Step>, m: Msgs, run: seq<Step>, t: State)
    requires Inductive(p, InvOf(m)) && Counting(p, InvOf(m), LeftOf())
    requires Leads(p, p.init, run, t) && Left(p.init) == 41
    ensures |run| <= 41 && (|run| == 41 <==> BothDone(t))
  {
    CountRun(p, m, p.init, run, t);
    RunKeeps(p, InvOf(m), p.init, run);
    NothingLeft(m, t);
  }

  /** Every run to the end takes exactly 41 steps, in whatever order. */
  lemma CompleteRuns(p: Machine<State, Step>, m: Msgs, run: seq<Step>, t: State)
    requires p == Program(Full(m)) && Leads(p, p.init, run, t)
    ensures |run| <= 41 && (|run| == 41 <==> BothDone(t))
  {
    InvInductive(m);
    LeftCounts(m);
    InitLeft(m);
    CountAll(p, m, run, t);
  }
}
