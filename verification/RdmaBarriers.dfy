/**
 The two processes of RDMA/rdma1.cpp: their statements in order, the TCP socket on which they exchange the
 connection data and the one-byte syncs, and a network card that carries out posted requests at any later time.
 */
module RdmaBarriers {
  import opened Runs

  datatype Role = Server | Client

  /** The three strings: MSG, RDMAMSGR and RDMAMSGW. */
  datatype Msgs = Msgs(send: string, read: string, write: string)

  /** The program, and for comparison the programs without some of the syncs Q, R and W. */
  datatype Params = Params(m: Msgs, without: set<char>)

  datatype Request = SendMsg | RdmaRead | RdmaWrite

  datatype Op =
    | SockWrite(c: char) | SockRead(c: char)          // the two halves of sock_sync_data
    | ToInit | ToRtr | ToRts | PostRecv
    | Post(request: Request) | Poll
    | Copy(text: string) | Show                       // strcpy into the buffer, printing the buffer
    | Skip | Done

  /** main and connect_qp, as the server runs them. */
  function ServerOp(m: Msgs, pc: nat): Op {
    match pc
    case 0 => SockWrite('C') case 1 => SockRead('C')
    case 2 => ToInit case 3 => ToRtr case 4 => ToRts
    case 5 => SockWrite('Q') case 6 => SockRead('Q')
    case 7 => Post(SendMsg) case 8 => Poll
    case 9 => Copy(m.read)
    case 10 => SockWrite('R') case 11 => SockRead('R')
    case 12 => SockWrite('W') case 13 => SockRead('W')
    case 14 => Show
    case _ => Done
  }

  /** The same statements, as the client runs them. */
  function ClientOp(m: Msgs, pc: nat): Op {
    match pc
    case 0 => SockWrite('C') case 1 => SockRead('C')
    case 2 => ToInit case 3 => PostRecv case 4 => ToRtr case 5 => ToRts
    case 6 => SockWrite('Q') case 7 => SockRead('Q')
    case 8 => Poll case 9 => Show
    case 10 => SockWrite('R') case 11 => SockRead('R')
    case 12 => Post(RdmaRead) case 13 => Poll case 14 => Show
    case 15 => Copy(m.write)
    case 16 => Post(RdmaWrite) case 17 => Poll
    case 18 => SockWrite('W') case 19 => SockRead('W')
    case _ => Done
  }

  function OpOf(p: Params, r: Role, pc: nat): Op {
    var op := match r case Server => ServerOp(p.m, pc) case Client => ClientOp(p.m, pc);
    if (op.SockWrite? || op.SockRead?) && op.c in p.without then Skip else op
  }

  datatype QpState = Reset | Initial | ReadyToReceive | ReadyToSend

  /** A posted request is carried out at the other side and later completed. */
  datatype Stage = Idle | Queued(request: Request) | Executed

  /** `cq` counts completions; `socket` is what the other side has written and this one has not read. */
  datatype Side = Side(pc: nat, qp: QpState, knowsPeer: bool, buf: string, posted: nat, sq: Stage, cq: nat,
                       socket: string, shown: seq<string>)

  datatype Fault = WrongState | QueueFull | PeerUnknown | PeerNotReady | ReceiverNotReady | CqOverrun | WrongByte

  datatype State = State(server: Side, client: Side, faults: set<Fault>)

  datatype Step = Cpu(r: Role) | Execute(r: Role) | Complete(r: Role)

  function Me(s: State, r: Role): Side { match r case Server => s.server case Client => s.client }

  function Other(r: Role): Role { match r case Server => Client case Client => Server }

  function With(s: State, r: Role, me: Side, peer: Side, f: set<Fault>): State {
    match r case Server => State(me, peer, s.faults + f) case Client => State(peer, me, s.faults + f)
  }

  /** A sync waits for a byte and poll_completion for a completion. */
  function CpuEnabled(op: Op, me: Side): bool {
    match op
    case SockRead(_) => me.socket != ""
    case Poll => me.cq > 0
    case Done => false
    case _ => true
  }

  function Enabled(p: Params, s: State, a: Step): bool {
    var me := Me(s, a.r);
    match a
    case Cpu(r) => CpuEnabled(OpOf(p, r, me.pc), me)
    case Execute(_) => me.sq.Queued?
    case Complete(_) => me.sq.Executed?
  }

  /** What a statement does to the process that runs it. */
  function CpuStep(op: Op, me: Side): Side {
    var on := me.(pc := me.pc + 1);
    match op
    case SockWrite(_) => on
    case SockRead(c) => if me.socket == "" then on else on.(socket := me.socket[1..], knowsPeer := true)
    case ToInit => on.(qp := Initial)
    case ToRtr => on.(qp := ReadyToReceive)
    case ToRts => on.(qp := ReadyToSend)
    case PostRecv => on.(posted := me.posted + 1)
    case Post(request) => on.(sq := Queued(request))
    case Poll => if me.cq > 0 then on.(cq := me.cq - 1) else on
    case Copy(text) => on.(buf := text)
    case Show => on.(shown := me.shown + [me.buf])
    case Skip => on
    case Done => me
  }

  function PeerStep(op: Op, peer: Side): Side {
    match op case SockWrite(c) => peer.(socket := peer.socket + [c]) case _ => peer
  }

  /** What makes a statement fail: max_recv_wr and max_send_wr are 1, and the queue pair has to be set up. */
  function CpuFaults(op: Op, me: Side): set<Fault> {
    match op
    case SockRead(c) => if me.socket == "" || me.socket[0] == c then {} else {WrongByte}
    case ToInit => if me.qp == Reset then {} else {WrongState}
    case ToRtr => if me.qp == Initial && me.knowsPeer then {} else {WrongState}
    case ToRts => if me.qp == ReadyToReceive then {} else {WrongState}
    case PostRecv => if me.qp == Reset then {WrongState} else if me.posted >= 1 then {QueueFull} else {}
    case Post(request) =>
      (if me.qp != ReadyToSend then {WrongState} else {})
      + (if me.sq != Idle then {QueueFull} else {})
      + (if me.knowsPeer then {} else {PeerUnknown})
    case _ => {}
  }

  /** The queue pair on the other side has to be ready, and a SEND needs a receive: rnr_retry is 0. */
  function ExecuteFaults(request: Request, peer: Side): set<Fault> {
    (if peer.qp == ReadyToReceive || peer.qp == ReadyToSend then {} else {PeerNotReady})
    + (if request == SendMsg && peer.posted == 0 then {ReceiverNotReady} else {})
    + (if request == SendMsg && peer.cq >= 1 then {CqOverrun} else {})
  }

  function ExecuteMe(request: Request, me: Side, peer: Side): Side {
    me.(sq := Executed, buf := if request == RdmaRead then peer.buf else me.buf)
  }

  function ExecutePeer(request: Request, me: Side, peer: Side): Side {
    match request
    case SendMsg => peer.(buf := me.buf, posted := if peer.posted > 0 then peer.posted - 1 else 0, cq := peer.cq + 1)
    case RdmaRead => peer
    case RdmaWrite => peer.(buf := me.buf)
  }

  function Apply(p: Params, s: State, a: Step): State
    requires Enabled(p, s, a)
  {
    var me, peer := Me(s, a.r), Me(s, Other(a.r));
    match a
    case Cpu(r) =>
      var op := OpOf(p, r, me.pc);
      With(s, r, CpuStep(op, me), PeerStep(op, peer), CpuFaults(op, me))
    case Execute(r) =>
      With(s, r, ExecuteMe(me.sq.request, me, peer), ExecutePeer(me.sq.request, me, peer),
           ExecuteFaults(me.sq.request, peer))
    case Complete(r) =>
      // a completion queue of one entry
      With(s, r, me.(sq := Idle, cq := me.cq + 1), peer, if me.cq >= 1 then {CqOverrun} else {})
  }

  /** After resources_create: the server's buffer holds MSG, the client's is empty. */
  function Init(m: Msgs): State {
    State(Side(0, Reset, false, m.send, 0, Idle, 0, "", []), Side(0, Reset, false, "", 0, Idle, 0, "", []), {})
  }

  function Next(p: Params, s: State, a: Step): State { if Enabled(p, s, a) then Apply(p, s, a) else s }

  function Program(p: Params): Machine<State, Step> {
    Machine(Init(p.m), (s, a) => Enabled(p, s, a), (s, a) => Next(p, s, a))
  }

  // ---------------------------------------------------------------- invariant

  const SYNCS := "CQRW"

  function I(b: bool): nat { if b then 1 else 0 }

  /** How many syncs each process has written and read. */
  function ServerWrites(a: nat): nat { I(a > 0) + I(a > 5) + I(a > 10) + I(a > 12) }
  function ServerReads(a: nat): nat { I(a > 1) + I(a > 6) + I(a > 11) + I(a > 13) }
  function ClientWrites(b: nat): nat { I(b > 0) + I(b > 6) + I(b > 10) + I(b > 18) }
  function ClientReads(b: nat): nat { I(b > 1) + I(b > 7) + I(b > 11) + I(b > 19) }

  predicate Delivered(s: Side) { s.pc > 8 || (s.pc == 8 && !s.sq.Queued?) }
  predicate ReadDone(c: Side) { c.pc > 13 || (c.pc == 13 && !c.sq.Queued?) }
  predicate WriteDone(c: Side) { c.pc > 17 || (c.pc == 17 && !c.sq.Queued?) }

  /** While a process polls, its request is queued, carried out, or completed. */
  ghost predicate Polling(x: Side, request: Request) {
    (x.sq == Queued(request) || x.sq == Executed || x.sq == Idle) && x.cq == I(x.sq == Idle)
  }

  /** A socket holds the syncs that were written and not read. */
  ghost predicate Channel(from: nat, upto: nat, socket: string) {
    from <= upto <= 4 && socket == SYNCS[from..upto]
  }

  ghost predicate Sockets(s: Side, c: Side) {
    && s.pc <= 15 && c.pc <= 20
    && Channel(ServerReads(s.pc), ClientWrites(c.pc), s.socket)
    && Channel(ClientReads(c.pc), ServerWrites(s.pc), c.socket)
  }

  ghost predicate ServerInv(m: Msgs, s: Side, c: Side) {
    && s.qp == (if s.pc <= 2 then Reset else if s.pc == 3 then Initial
                else if s.pc == 4 then ReadyToReceive else ReadyToSend)
    && (s.knowsPeer <==> s.pc > 1)
    && s.posted == 0
    && (if s.pc == 8 then Polling(s, SendMsg) else s.sq == Idle && s.cq == 0)
    && s.buf == (if s.pc <= 9 then m.send else if WriteDone(c) then m.write else m.read)
    && s.shown == (if s.pc <= 14 then [] else [m.write])
  }

  ghost predicate ClientInv(m: Msgs, s: Side, c: Side) {
    && c.qp == (if c.pc <= 2 then Reset else if c.pc <= 4 then Initial
                else if c.pc == 5 then ReadyToReceive else ReadyToSend)
    && (c.knowsPeer <==> c.pc > 1)
    && c.posted == I(c.pc > 3 && !Delivered(s))
    && (c.pc > 8 ==> Delivered(s))
    && (if c.pc == 13 then Polling(c, RdmaRead) else if c.pc == 17 then Polling(c, RdmaWrite)
        else c.sq == Idle && c.cq == I(Delivered(s) && c.pc <= 8))
    && c.buf == (if !Delivered(s) then "" else if c.pc > 15 then m.write
                 else if ReadDone(c) then m.read else m.send)
    && c.shown == (if c.pc <= 9 then [] else if c.pc <= 14 then [m.send] else [m.send, m.read])
  }

  ghost predicate Inv(m: Msgs, s: State) {
    s.faults == {} && Sockets(s.server, s.client) && ServerInv(m, s.server, s.client) && ClientInv(m, s.server, s.client)
  }

  // ---------------------------------------------------------------- every step keeps it

  /** What the syncs say about the progress of one process at a point of the other. */
  lemma Barrier(s: Side, c: Side)
    requires Sockets(s, c)
    ensures (s.pc > 1 ==> c.pc > 0) && (s.pc > 6 ==> c.pc > 6) && (s.pc > 11 ==> c.pc > 10) && (s.pc > 13 ==> c.pc > 18)
    ensures (c.pc > 1 ==> s.pc > 0) && (c.pc > 7 ==> s.pc > 5) && (c.pc > 11 ==> s.pc > 10) && (c.pc > 19 ==> s.pc > 12)
  {
  }

  lemma ChannelWrite(from: nat, upto: nat, socket: string)
    requires Channel(from, upto, socket) && upto < 4
    ensures Channel(from, upto + 1, socket + [SYNCS[upto]])
  {
  }

  lemma ChannelRead(from: nat, upto: nat, socket: string)
    requires Channel(from, upto, socket) && socket != ""
    ensures Channel(from + 1, upto, socket[1..]) && socket[0] == SYNCS[from]
  {
  }

  lemma ServerCounts(m: Msgs, a: nat)
    requires a < 15
    ensures ServerWrites(a) <= 4 && ServerReads(a) <= 4
    ensures ServerOp(m, a).SockWrite? ==> ServerWrites(a) < 4 && ServerOp(m, a).c == SYNCS[ServerWrites(a)]
    ensures ServerOp(m, a).SockRead? ==> ServerReads(a) < 4 && ServerOp(m, a).c == SYNCS[ServerReads(a)]
    ensures ServerWrites(a + 1) == ServerWrites(a) + I(ServerOp(m, a).SockWrite?)
    ensures ServerReads(a + 1) == ServerReads(a) + I(ServerOp(m, a).SockRead?)
  {
  }

  lemma ClientCounts(m: Msgs, b: nat)
    requires b < 20
    ensures ClientWrites(b) <= 4 && ClientReads(b) <= 4
    ensures ClientOp(m, b).SockWrite? ==> ClientWrites(b) < 4 && ClientOp(m, b).c == SYNCS[ClientWrites(b)]
    ensures ClientOp(m, b).SockRead? ==> ClientReads(b) < 4 && ClientOp(m, b).c == SYNCS[ClientReads(b)]
    ensures ClientWrites(b + 1) == ClientWrites(b) + I(ClientOp(m, b).SockWrite?)
    ensures ClientReads(b + 1) == ClientReads(b) + I(ClientOp(m, b).SockRead?)
  {
  }

  /** One statement of one side keeps both channels and reads the byte it expects. */
  lemma ChannelsStep(op: Op, me: Side, peer: Side, got: nat, sent: nat, peerGot: nat, peerSent: nat)
    requires Channel(got, peerSent, me.socket) && Channel(peerGot, sent, peer.socket)
    requires CpuEnabled(op, me)
    requires op.SockWrite? ==> sent < 4 && op.c == SYNCS[sent]
    requires op.SockRead? ==> got < 4 && op.c == SYNCS[got]
    ensures Channel(got + I(op.SockRead?), peerSent, CpuStep(op, me).socket)
    ensures Channel(peerGot, sent + I(op.SockWrite?), PeerStep(op, peer).socket)
    ensures op.SockRead? ==> CpuFaults(op, me) == {}
  {
    if op.SockWrite? { ChannelWrite(peerGot, sent, peer.socket); }
    if op.SockRead? { ChannelRead(got, peerSent, me.socket); }
  }

  lemma ServerSockets(m: Msgs, s: Side, c: Side)
    requires Sockets(s, c) && s.pc < 15 && CpuEnabled(ServerOp(m, s.pc), s)
    ensures Sockets(CpuStep(ServerOp(m, s.pc), s), PeerStep(ServerOp(m, s.pc), c))
    ensures ServerOp(m, s.pc).SockRead? ==> CpuFaults(ServerOp(m, s.pc), s) == {}
  {
    ServerCounts(m, s.pc);
    ChannelsStep(ServerOp(m, s.pc), s, c, ServerReads(s.pc), ServerWrites(s.pc), ClientReads(c.pc), ClientWrites(c.pc));
  }

  lemma ClientSockets(m: Msgs, s: Side, c: Side)
    requires Sockets(s, c) && c.pc < 20 && CpuEnabled(ClientOp(m, c.pc), c)
    ensures Sockets(PeerStep(ClientOp(m, c.pc), s), CpuStep(ClientOp(m, c.pc), c))
    ensures ClientOp(m, c.pc).SockRead? ==> CpuFaults(ClientOp(m, c.pc), c) == {}
  {
    ClientCounts(m, c.pc);
    ChannelsStep(ClientOp(m, c.pc), c, s, ClientReads(c.pc), ClientWrites(c.pc), ServerReads(s.pc), ServerWrites(s.pc));
  }

  /** The two sides keep the invariant. */
  ghost predicate SidesInv(m: Msgs, s: Side, c: Side) { Sockets(s, c) && ServerInv(m, s, c) && ClientInv(m, s, c) }

  lemma MakeInv(m: Msgs, s: Side, c: Side, f: set<Fault>)
    requires f == {} && SidesInv(m, s, c)
    ensures Inv(m, State(s, c, f))
  {
  }

  lemma ServerCpuEffect(p: Params, s: State)
    requires p.without == {} && Enabled(p, s, Cpu(Server))
    ensures var op := ServerOp(p.m, s.server.pc);
      && CpuEnabled(op, s.server) && s.server.pc < 15
      && Apply(p, s, Cpu(Server))
         == State(CpuStep(op, s.server), PeerStep(op, s.client), s.faults + CpuFaults(op, s.server))
  {
    assert OpOf(p, Server, s.server.pc) == ServerOp(p.m, s.server.pc);
  }

  lemma ClientCpuEffect(p: Params, s: State)
    requires p.without == {} && Enabled(p, s, Cpu(Client))
    ensures var op := ClientOp(p.m, s.client.pc);
      && CpuEnabled(op, s.client) && s.client.pc < 20
      && Apply(p, s, Cpu(Client))
         == State(PeerStep(op, s.server), CpuStep(op, s.client), s.faults + CpuFaults(op, s.client))
  {
    assert OpOf(p, Client, s.client.pc) == ClientOp(p.m, s.client.pc);
  }

  lemma CpuIsEnabled(p: Params, s: State, r: Role)
    requires p.without == {}
    ensures Enabled(p, s, Cpu(r)) <==>
      match r
      case Server => CpuEnabled(ServerOp(p.m, s.server.pc), s.server)
      case Client => CpuEnabled(ClientOp(p.m, s.client.pc), s.client)
  {
    match r
    case Server => assert OpOf(p, Server, s.server.pc) == ServerOp(p.m, s.server.pc);
    case Client => assert OpOf(p, Client, s.client.pc) == ClientOp(p.m, s.client.pc);
  }

  lemma ServerCpu(p: Params, s: State)
    requires p.without == {} && Inv(p.m, s) && Enabled(p, s, Cpu(Server))
    ensures Inv(p.m, Apply(p, s, Cpu(Server)))
  {
    ServerCpuEffect(p, s);
    ServerCpuSides(p.m, s.server, s.client);
    var op := ServerOp(p.m, s.server.pc);
    MakeInv(p.m, CpuStep(op, s.server), PeerStep(op, s.client), s.faults + CpuFaults(op, s.server));
  }

  lemma ClientCpu(p: Params, s: State)
    requires p.without == {} && Inv(p.m, s) && Enabled(p, s, Cpu(Client))
    ensures Inv(p.m, Apply(p, s, Cpu(Client)))
  {
    ClientCpuEffect(p, s);
    ClientCpuSides(p.m, s.server, s.client);
    var op := ClientOp(p.m, s.client.pc);
    MakeInv(p.m, PeerStep(op, s.server), CpuStep(op, s.client), s.faults + CpuFaults(op, s.client));
  }

  lemma ServerCpuSides(m: Msgs, s: Side, c: Side)
    requires SidesInv(m, s, c) && s.pc < 15 && CpuEnabled(ServerOp(m, s.pc), s)
    ensures CpuFaults(ServerOp(m, s.pc), s) == {}
    ensures SidesInv(m, CpuStep(ServerOp(m, s.pc), s), PeerStep(ServerOp(m, s.pc), c))
  {
    ServerSockets(m, s, c);
    ServerCpuKeeps(m, s, c);
  }

  lemma ClientCpuSides(m: Msgs, s: Side, c: Side)
    requires SidesInv(m, s, c) && c.pc < 20 && CpuEnabled(ClientOp(m, c.pc), c)
    ensures CpuFaults(ClientOp(m, c.pc), c) == {}
    ensures SidesInv(m, PeerStep(ClientOp(m, c.pc), s), CpuStep(ClientOp(m, c.pc), c))
  {
    ClientSockets(m, s, c);
    ClientCpuKeeps(m, s, c);
  }

  lemma ServerCpuKeeps(m: Msgs, s: Side, c: Side)
    requires Sockets(s, c) && ServerInv(m, s, c) && ClientInv(m, s, c)
    requires s.pc < 15 && CpuEnabled(ServerOp(m, s.pc), s)
    ensures !ServerOp(m, s.pc).SockRead? ==> CpuFaults(ServerOp(m, s.pc), s) == {}
    ensures ServerInv(m, CpuStep(ServerOp(m, s.pc), s), PeerStep(ServerOp(m, s.pc), c))
    ensures ClientInv(m, CpuStep(ServerOp(m, s.pc), s), PeerStep(ServerOp(m, s.pc), c))
  {
    Barrier(s, c);
    if s.pc <= 6 { ServerSetUp(m, s, c); } else { ServerMain(m, s, c); }
  }

  lemma ServerSetUp(m: Msgs, s: Side, c: Side)
    requires ServerInv(m, s, c) && ClientInv(m, s, c)
    requires s.pc <= 6 && CpuEnabled(ServerOp(m, s.pc), s)
    ensures !ServerOp(m, s.pc).SockRead? ==> CpuFaults(ServerOp(m, s.pc), s) == {}
    ensures ServerInv(m, CpuStep(ServerOp(m, s.pc), s), PeerStep(ServerOp(m, s.pc), c))
    ensures ClientInv(m, CpuStep(ServerOp(m, s.pc), s), PeerStep(ServerOp(m, s.pc), c))
  {
  }

  lemma ServerMain(m: Msgs, s: Side, c: Side)
    requires ServerInv(m, s, c) && ClientInv(m, s, c) && (s.pc <= 10 ==> c.pc <= 11) && (s.pc > 13 ==> c.pc > 18)
    requires 7 <= s.pc < 15 && CpuEnabled(ServerOp(m, s.pc), s)
    ensures !ServerOp(m, s.pc).SockRead? ==> CpuFaults(ServerOp(m, s.pc), s) == {}
    ensures ServerInv(m, CpuStep(ServerOp(m, s.pc), s), PeerStep(ServerOp(m, s.pc), c))
    ensures ClientInv(m, CpuStep(ServerOp(m, s.pc), s), PeerStep(ServerOp(m, s.pc), c))
  {
  }

  lemma ClientCpuKeeps(m: Msgs, s: Side, c: Side)
    requires Sockets(s, c) && ServerInv(m, s, c) && ClientInv(m, s, c)
    requires c.pc < 20 && CpuEnabled(ClientOp(m, c.pc), c)
    ensures !ClientOp(m, c.pc).SockRead? ==> CpuFaults(ClientOp(m, c.pc), c) == {}
    ensures ServerInv(m, PeerStep(ClientOp(m, c.pc), s), CpuStep(ClientOp(m, c.pc), c))
    ensures ClientInv(m, PeerStep(ClientOp(m, c.pc), s), CpuStep(ClientOp(m, c.pc), c))
  {
    Barrier(s, c);
    if c.pc <= 7 { ClientSetUp(m, s, c); } else if c.pc <= 11 { ClientMain(m, s, c); } else { ClientOneSided(m, s, c); }
  }

  lemma ClientSetUp(m: Msgs, s: Side, c: Side)
    requires ServerInv(m, s, c) && ClientInv(m, s, c) && (s.pc > 6 ==> c.pc > 6)
    requires c.pc <= 7 && CpuEnabled(ClientOp(m, c.pc), c)
    ensures !ClientOp(m, c.pc).SockRead? ==> CpuFaults(ClientOp(m, c.pc), c) == {}
    ensures ServerInv(m, PeerStep(ClientOp(m, c.pc), s), CpuStep(ClientOp(m, c.pc), c))
    ensures ClientInv(m, PeerStep(ClientOp(m, c.pc), s), CpuStep(ClientOp(m, c.pc), c))
  {
  }

  lemma ClientMain(m: Msgs, s: Side, c: Side)
    requires ServerInv(m, s, c) && ClientInv(m, s, c)
    requires 8 <= c.pc <= 11 && CpuEnabled(ClientOp(m, c.pc), c)
    ensures !ClientOp(m, c.pc).SockRead? ==> CpuFaults(ClientOp(m, c.pc), c) == {}
    ensures ServerInv(m, PeerStep(ClientOp(m, c.pc), s), CpuStep(ClientOp(m, c.pc), c))
    ensures ClientInv(m, PeerStep(ClientOp(m, c.pc), s), CpuStep(ClientOp(m, c.pc), c))
  {
  }

  lemma ClientOneSided(m: Msgs, s: Side, c: Side)
    requires ServerInv(m, s, c) && ClientInv(m, s, c) && s.pc > 10
    requires 12 <= c.pc < 20 && CpuEnabled(ClientOp(m, c.pc), c)
    ensures !ClientOp(m, c.pc).SockRead? ==> CpuFaults(ClientOp(m, c.pc), c) == {}
    ensures ServerInv(m, PeerStep(ClientOp(m, c.pc), s), CpuStep(ClientOp(m, c.pc), c))
    ensures ClientInv(m, PeerStep(ClientOp(m, c.pc), s), CpuStep(ClientOp(m, c.pc), c))
  {
  }

  // What the cards do.

  lemma SameSockets(s: Side, c: Side, s': Side, c': Side)
    requires Sockets(s, c) && s'.pc == s.pc && c'.pc == c.pc && s'.socket == s.socket && c'.socket == c.socket
    ensures Sockets(s', c')
  {
  }

  /** The SEND finds the client ready. */
  lemma ServerExecutes(m: Msgs, s: Side, c: Side)
    requires SidesInv(m, s, c) && s.sq.Queued?
    ensures ExecuteFaults(s.sq.request, c) == {}
    ensures SidesInv(m, ExecuteMe(s.sq.request, s, c), ExecutePeer(s.sq.request, s, c))
  {
    Barrier(s, c);
    assert s.pc == 8 && s.sq.request == SendMsg;
    SameSockets(s, c, ExecuteMe(s.sq.request, s, c), ExecutePeer(s.sq.request, s, c));
  }

  /** The READ finds the second message, and the WRITE replaces it. */
  lemma ClientExecutes(m: Msgs, s: Side, c: Side)
    requires SidesInv(m, s, c) && c.sq.Queued?
    ensures ExecuteFaults(c.sq.request, s) == {}
    ensures SidesInv(m, ExecutePeer(c.sq.request, c, s), ExecuteMe(c.sq.request, c, s))
  {
    Barrier(s, c);
    assert (c.pc == 13 && c.sq.request == RdmaRead) || (c.pc == 17 && c.sq.request == RdmaWrite);
    SameSockets(s, c, ExecutePeer(c.sq.request, c, s), ExecuteMe(c.sq.request, c, s));
  }

  function Completed(x: Side): Side { x.(sq := Idle, cq := x.cq + 1) }

  lemma ServerCompletes(m: Msgs, s: Side, c: Side)
    requires SidesInv(m, s, c) && s.sq.Executed?
    ensures s.cq == 0 && SidesInv(m, Completed(s), c)
  {
    assert s.pc == 8;
    SameSockets(s, c, Completed(s), c);
  }

  lemma ClientCompletes(m: Msgs, s: Side, c: Side)
    requires SidesInv(m, s, c) && c.sq.Executed?
    ensures c.cq == 0 && SidesInv(m, s, Completed(c))
  {
    assert c.pc == 13 || c.pc == 17;
    SameSockets(s, c, s, Completed(c));
  }

  lemma ExecuteEffect(p: Params, s: State, r: Role)
    requires Enabled(p, s, Execute(r))
    ensures var me, peer := Me(s, r), Me(s, Other(r));
      && me.sq.Queued?
      && Apply(p, s, Execute(r)) == With(s, r, ExecuteMe(me.sq.request, me, peer), ExecutePeer(me.sq.request, me, peer),
                                         ExecuteFaults(me.sq.request, peer))
  {
  }

  lemma CompleteEffect(p: Params, s: State, r: Role)
    requires Enabled(p, s, Complete(r)) && Me(s, r).cq == 0
    ensures Me(s, r).sq.Executed?
    ensures Apply(p, s, Complete(r)) == With(s, r, Completed(Me(s, r)), Me(s, Other(r)), {})
  {
  }

  lemma ExecuteInv(p: Params, s: State, r: Role)
    requires Inv(p.m, s) && Enabled(p, s, Execute(r))
    ensures Inv(p.m, Apply(p, s, Execute(r)))
  {
    ExecuteEffect(p, s, r);
    match r
    case Server => ServerExecutes(p.m, s.server, s.client);
    case Client => ClientExecutes(p.m, s.server, s.client);
  }

  lemma CompleteInv(p: Params, s: State, r: Role)
    requires Inv(p.m, s) && Enabled(p, s, Complete(r))
    ensures Inv(p.m, Apply(p, s, Complete(r)))
  {
    match r
    case Server => ServerCompletes(p.m, s.server, s.client);
    case Client => ClientCompletes(p.m, s.server, s.client);
    CompleteEffect(p, s, r);
  }

  lemma StepInv(p: Params, s: State, a: Step)
    requires p.without == {} && Inv(p.m, s) && Enabled(p, s, a)
    ensures Inv(p.m, Apply(p, s, a))
  {
    match a
    case Cpu(Server) => ServerCpu(p, s);
    case Cpu(Client) => ClientCpu(p, s);
    case Execute(r) => ExecuteInv(p, s, r);
    case Complete(r) => CompleteInv(p, s, r);
  }
}
