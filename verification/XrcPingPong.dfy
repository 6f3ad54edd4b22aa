/**
 The XRC exchange of RDMA/examples/xsrq_pingpong.c: one server and `n` clients, `t` messages each way
 with every client.  A message to client `i` may travel through the target QP of another client, which
 is why the processes agree to terminate together.
 */
module XrcPingPong {
  import opened Runs

  datatype Params = Params(n: nat, t: nat)
  {
    ghost predicate Valid() { 1 <= n && 1 <= t }
  }

  /** A message to a client: the send QP that carries it, and whether its send is signalled. */
  datatype Msg = Msg(qp: nat, signalled: bool)

  datatype ClientPhase = Exchanging | Draining | AwaitingEnd | Closed
  datatype ServerPhase = Kicking | Serving | Emptying | Ending | Gone
  datatype Fault = NoFault | ReceiverNotReady | RecvCqOverrun | SendCqOverrun | SendQueueFull | TargetGone

  datatype Client = Client(
    ppCnt: nat, cnt: nat, drained: nat, phase: ClientPhase,
    posted: nat, rcq: nat, sendCq: nat,
    inbox: seq<Msg>,        // in flight to this client's shared receive queue
    outbox: seq<bool>,      // in flight to the server; true when signalled
    unacked: nat)           // signalled sends that were delivered and not acknowledged

  datatype Server = Server(
    ppCnt: seq<nat>, cnt: nat, phase: ServerPhase,
    kicked: nat,            // clients that were sent their first message
    ends: nat,              // END messages read, from clients 0, 1, ...
    released: nat,          // END messages written, to clients 0, 1, ...
    posted: nat, recvCq: seq<nat>,
    unacked: multiset<nat>, sendCq: multiset<nat>, drained: multiset<nat>,
    // history
    got: multiset<nat>,     // messages processed, by client
    load: multiset<nat>)    // sends posted, by send QP

  datatype System = System(server: Server, clients: seq<Client>, fault: Fault)

  // ---------------------------------------------------------------- the code

  /** Message number `k` to client `i`: round robin over the send QPs, the last send signalled. */
  function MessageTo(p: Params, i: nat, k: nat): Msg
    requires p.n >= 1
  {
    Msg((i + k) % p.n, k + 1 >= p.t)
  }

  /**
   Each send queue was created with n * t entries.  Sends without a completion keep theirs, so a slot is
   counted as used from the first post on.
   */
  predicate SlotFree(p: Params, v: Server, i: nat)
    requires p.n >= 1 && i < |v.ppCnt|
  {
    v.load[MessageTo(p, i, v.ppCnt[i]).qp] < p.n * p.t
  }

  /** pp_post_send on the server; main does not look at the result. */
  function ServerPost(p: Params, v: Server, i: nat): Server
    requires p.n >= 1 && i < |v.ppCnt|
  {
    v.(ppCnt := v.ppCnt[i := v.ppCnt[i] + 1],
       load := if SlotFree(p, v, i) then v.load + multiset{MessageTo(p, i, v.ppCnt[i]).qp} else v.load)
  }

  function ServerSend(p: Params, s: System, i: nat): System
    requires p.n >= 1 && i < |s.server.ppCnt| && i < |s.clients|
  {
    var msg := MessageTo(p, i, s.server.ppCnt[i]);
    var s' := s.(server := ServerPost(p, s.server, i));
    if SlotFree(p, s.server, i) then
      s'.(clients := s.clients[i := s.clients[i].(inbox := s.clients[i].inbox + [msg])])
    else s'.(fault := SendQueueFull)
  }

  /** pp_post_send on a client, which has one send QP with t entries and posts only while ppCnt < t. */
  function ClientSend(p: Params, c: Client): Client {
    c.(ppCnt := c.ppCnt + 1, outbox := c.outbox + [c.ppCnt + 1 >= p.t])
  }

  ghost predicate CanHandle(s: System) {
    s.server.recvCq != [] && s.server.recvCq[0] < |s.server.ppCnt| && s.server.recvCq[0] < |s.clients|
  }

  /** A receive completion is taken off the queue, replaced by a new receive, and counted. */
  function ServerTake(p: Params, v: Server): Server
    requires v.recvCq != []
  {
    v.(recvCq := v.recvCq[1..], posted := if v.posted < p.n then v.posted + 1 else v.posted,
       cnt := v.cnt + 1, got := v.got + multiset{v.recvCq[0]})
  }

  /** The body of the polling loop on the server: repost, answer, count. */
  function ServerLoop(p: Params, v: Server): Server
    requires p.n >= 1 && v.recvCq != [] && v.recvCq[0] < |v.ppCnt|
  {
    var i := v.recvCq[0];
    if v.ppCnt[i] < p.t then ServerPost(p, ServerTake(p, v), i) else ServerTake(p, v)
  }

  /** The same, with the message that is sent. */
  function ServerHandle(p: Params, s: System): System
    requires p.n >= 1 && CanHandle(s)
  {
    var i := s.server.recvCq[0];
    var s' := s.(server := ServerTake(p, s.server));
    if s.server.ppCnt[i] < p.t then ServerSend(p, s', i) else s'
  }

  /** The same loop on a client. */
  function ClientHandle(p: Params, c: Client): Client
    requires c.rcq > 0
  {
    var c' := c.(rcq := c.rcq - 1, posted := if c.posted < 1 then c.posted + 1 else c.posted, cnt := c.cnt + 1);
    if c.ppCnt < p.t then ClientSend(p, c') else c'
  }

  // ---------------------------------------------------------------- steps

  datatype Step =
    | Kick | ServerRecv | ServerLeave | ServerDrain(i: nat) | ServerDrained | ReadEnd | WriteEnd | ServerClose
    | ClientRecv(i: nat) | ClientLeave(i: nat) | ClientDrain(i: nat) | ClientEnd(i: nat) | ClientClose(i: nat)
    | DeliverDown(i: nat, m: nat) | DeliverUp(i: nat, m: nat) | AckDown(i: nat) | AckUp(i: nat)

  predicate Shaped(p: Params, s: System) { p.n >= 1 && |s.clients| == |s.server.ppCnt| == p.n }

  predicate Enabled(p: Params, s: System, a: Step) {
    s.fault == NoFault && Shaped(p, s) &&
    match a
    case Kick => s.server.phase == Kicking && s.server.kicked < p.n
    case ServerRecv => s.server.phase == Serving && s.server.recvCq != [] && s.server.recvCq[0] < p.n
    case ServerLeave => s.server.phase == Serving && s.server.recvCq == [] && s.server.cnt >= p.n * p.t
    case ServerDrain(i) => s.server.phase == Emptying && |s.server.drained| < p.n && i in s.server.sendCq
    case ServerDrained => s.server.phase == Emptying && |s.server.drained| >= p.n
    case ReadEnd =>
      s.server.phase == Ending && s.server.ends < p.n && s.clients[s.server.ends].phase in {AwaitingEnd, Closed}
    case WriteEnd => s.server.phase == Ending && s.server.ends >= p.n && s.server.released < p.n
    case ServerClose => s.server.phase == Ending && s.server.released >= p.n
    case ClientRecv(i) => i < p.n && s.clients[i].phase == Exchanging && s.clients[i].rcq > 0
    case ClientLeave(i) => i < p.n && s.clients[i].phase == Exchanging && s.clients[i].rcq == 0 && s.clients[i].cnt >= p.t
    case ClientDrain(i) => i < p.n && s.clients[i].phase == Draining && s.clients[i].drained < 1 && s.clients[i].sendCq > 0
    case ClientEnd(i) => i < p.n && s.clients[i].phase == Draining && s.clients[i].drained >= 1
    case ClientClose(i) => i < p.n && s.clients[i].phase == AwaitingEnd && i < s.server.released
    case DeliverDown(i, m) => i < p.n && m < |s.clients[i].inbox| && s.clients[i].inbox[m].qp < p.n
    case DeliverUp(i, m) => i < p.n && m < |s.clients[i].outbox|
    case AckDown(i) => i < p.n && i in s.server.unacked
    case AckUp(i) => i < p.n && s.clients[i].unacked > 0
  }

  function Without<T>(s: seq<T>, m: nat): seq<T>
    requires m < |s|
  {
    s[..m] + s[m + 1..]
  }

  /** A message to client `i` needs the target QP it is sent through and a receive in `i`'s queue. */
  function DeliverToClient(p: Params, s: System, i: nat, m: nat): System
    requires Enabled(p, s, DeliverDown(i, m))
  {
    var c := s.clients[i];
    var msg := c.inbox[m];
    if s.clients[msg.qp].phase == Closed || c.phase == Closed then s.(fault := TargetGone)
    else if c.posted == 0 then s.(fault := ReceiverNotReady)
    else if c.rcq >= 1 then s.(fault := RecvCqOverrun)
    else
      s.(clients := s.clients[i := c.(inbox := Without(c.inbox, m), posted := c.posted - 1, rcq := c.rcq + 1)],
         server := if msg.signalled then s.server.(unacked := s.server.unacked + multiset{i}) else s.server)
  }

  function DeliverToServer(p: Params, s: System, i: nat, m: nat): System
    requires Enabled(p, s, DeliverUp(i, m))
  {
    var c := s.clients[i];
    if s.server.phase == Gone then s.(fault := TargetGone)
    else if s.server.posted == 0 then s.(fault := ReceiverNotReady)
    else if |s.server.recvCq| >= p.n then s.(fault := RecvCqOverrun)
    else
      s.(clients := s.clients[i := c.(outbox := Without(c.outbox, m),
                                      unacked := if c.outbox[m] then c.unacked + 1 else c.unacked)],
         server := s.server.(posted := s.server.posted - 1, recvCq := s.server.recvCq + [i]))
  }

  function Apply(p: Params, s: System, a: Step): System
    requires Enabled(p, s, a)
  {
    var v := s.server;
    match a
    case Kick =>
      var s' := ServerSend(p, s, v.kicked);
      s'.(server := s'.server.(kicked := v.kicked + 1, phase := if v.kicked + 1 == p.n then Serving else Kicking))
    case ServerRecv => ServerHandle(p, s)
    case ServerLeave => s.(server := v.(phase := Emptying))
    case ServerDrain(i) =>
      s.(server := v.(sendCq := v.sendCq - multiset{i}, drained := v.drained + multiset{i}))
    case ServerDrained => s.(server := v.(phase := Ending))
    case ReadEnd => s.(server := v.(ends := v.ends + 1))
    case WriteEnd => s.(server := v.(released := v.released + 1))
    case ServerClose => s.(server := v.(phase := Gone))
    case ClientRecv(i) => s.(clients := s.clients[i := ClientHandle(p, s.clients[i])])
    case ClientLeave(i) => s.(clients := s.clients[i := s.clients[i].(phase := Draining)])
    case ClientDrain(i) =>
      var c := s.clients[i];
      s.(clients := s.clients[i := c.(sendCq := c.sendCq - 1, drained := c.drained + 1)])
    case ClientEnd(i) => s.(clients := s.clients[i := s.clients[i].(phase := AwaitingEnd)])
    case ClientClose(i) => s.(clients := s.clients[i := s.clients[i].(phase := Closed)])
    case DeliverDown(i, m) => DeliverToClient(p, s, i, m)
    case DeliverUp(i, m) => DeliverToServer(p, s, i, m)
    case AckDown(i) =>
      if |v.sendCq| >= p.n then s.(fault := SendCqOverrun)
      else s.(server := v.(unacked := v.unacked - multiset{i}, sendCq := v.sendCq + multiset{i}))
    case AckUp(i) =>
      var c := s.clients[i];
      if c.sendCq >= 1 then s.(fault := SendCqOverrun)
      else s.(clients := s.clients[i := c.(unacked := c.unacked - 1, sendCq := c.sendCq + 1)])
  }

  function Next(p: Params, s: System, a: Step): System {
    if Enabled(p, s, a) then Apply(p, s, a) else s
  }

  function InitClient(): Client {
    Client(0, 0, 0, Exchanging, 1, 0, 0, [], [], 0)
  }

  function Init(p: Params): System {
    System(Server(seq(p.n, _ => 0), 0, Kicking, 0, 0, 0, p.n, [], multiset{}, multiset{}, multiset{}, multiset{}, multiset{}),
           seq(p.n, _ => InitClient()), NoFault)
  }

  function Exchange(p: Params): Machine<System, Step> {
    Machine(Init(p), (s, a) => Enabled(p, s, a), (s, a) => Next(p, s, a))
  }
}
