/**
 The ping-pong exchange of RDMA/examples/srq_pingpong.c and, with one queue pair, rc_pingpong.c.

 Two hosts share `numQp` queue pairs.  Each host runs the completion loop of `main`: it polls a batch
 of completions, and processes them one by one, answering on a queue pair once both its send and its
 receive have completed.  The NIC is a set of steps that may interleave in any way with the hosts:
 delivering a message, acknowledging a send.  Everything that can go wrong sets `fault`.
 */
module PingPong {
  import opened Runs

  // ---------------------------------------------------------------- state

  /** `numWc` is the size of the array handed to ibv_poll_cq. */
  datatype Params = Params(numQp: nat, rxDepth: nat, iters: nat, numWc: nat)
  {
    /** The command-line check of main: at least one receive per queue pair. */
    ghost predicate Accepted() { numQp <= rxDepth && 1 <= numWc }

    /** Sends a host may post in a whole run. */
    ghost function Budget(): int { (if iters == 0 then 1 else iters) + numQp - 1 }
  }

  datatype Work = Recv | Send
  datatype Completion = Completion(qp: nat, work: Work)

  /** `ctx->pending[i]`: the work on a queue pair that has not completed yet. */
  datatype Mask = Mask(recv: bool, send: bool)
  {
    function Clear(w: Work): Mask {
      match w case Recv => this.(recv := false) case Send => this.(send := false)
    }
  }

  const NONE := Mask(false, false)
  const BOTH := Mask(true, true)
  const AWAIT := Mask(true, false)

  datatype Fault = NoFault | ReceiverNotReady | CqOverrun | SendQueueFull | ReceivePostFailed

  datatype Host = Host(
    // the variables of main
    routs: int, rcnt: nat, scnt: nat, pending: seq<Mask>,
    started: nat,                 // queue pairs already set up by the loop before the exchange
    batch: seq<Completion>,       // polled into wc[], not yet processed
    // the NIC
    posted: nat,                  // receives in the receive queue
    wire: multiset<nat>,          // messages sent and not delivered, by queue pair
    unacked: multiset<nat>,       // messages delivered and not acknowledged
    cq: seq<Completion>,
    fault: Fault,
    // history
    posts: multiset<nat>)         // every send ever posted, by queue pair
  {
    /** Completions that the host has not acted on. */
    ghost function Queue(): seq<Completion> { batch + cq }

    ghost function Pend(w: Work): multiset<nat> { Of(Queue(), w) }

    ghost predicate Done(p: Params) { rcnt >= p.iters && scnt >= p.iters }
  }

  datatype System = System(client: Host, server: Host)
  {
    function Get(side: Side): Host { if side == Client then client else server }
    function Put(side: Side, h: Host): System {
      if side == Client then this.(client := h) else this.(server := h)
    }
    ghost predicate Healthy() { client.fault == NoFault && server.fault == NoFault }
    ghost predicate Finished(p: Params) { client.Done(p) && server.Done(p) }
  }

  datatype Side = Client | Server
  {
    function Peer(): Side { if this == Client then Server else Client }
  }

  /** The queue pairs that have a completion of kind `w` in `cs`. */
  function Of(cs: seq<Completion>, w: Work): multiset<nat> {
    if cs == [] then multiset{}
    else (if cs[0].work == w then multiset{cs[0].qp} else multiset{}) + Of(cs[1..], w)
  }

  // ---------------------------------------------------------------- the host's code

  /** pp_post_recv: the receive queue holds at most `depth` receives. */
  function Fits(depth: nat, posted: nat, want: int): nat {
    if want <= 0 || depth <= posted then 0
    else if want <= depth - posted then want else depth - posted
  }

  /** A receive has completed: it is counted and the receive queue is refilled when credits run low. */
  function TakeReceive(p: Params, h: Host): Host {
    var r := h.routs - 1;
    if r <= p.numQp then
      var got := Fits(p.rxDepth, h.posted, p.rxDepth - r);
      var h' := h.(routs := r + got, posted := h.posted + got);
      if r + got < p.rxDepth then h'.(fault := ReceivePostFailed) else h'.(rcnt := h.rcnt + 1)
    else
      h.(routs := r, rcnt := h.rcnt + 1)
  }

  /** A send slot is in use until its completion has been polled. */
  predicate SlotBusy(h: Host, q: nat) {
    h.wire[q] + h.unacked[q] + Of(h.cq, Send)[q] >= 1
  }

  /** pp_post_send, then both bits of the mask. */
  function PostSend(h: Host, q: nat): Host
    requires q < |h.pending|
  {
    if SlotBusy(h, q) then h.(fault := SendQueueFull)
    else h.(wire := h.wire + multiset{q}, posts := h.posts + multiset{q}, pending := h.pending[q := BOTH])
  }

  /** Clears the completed work and answers when nothing is pending. */
  function Settle(p: Params, h: Host, c: Completion): Host
    requires c.qp < |h.pending|
  {
    var h' := h.(pending := h.pending[c.qp := h.pending[c.qp].Clear(c.work)]);
    if h'.scnt < p.iters && h'.pending[c.qp] == NONE then PostSend(h', c.qp) else h'
  }

  function CountOne(p: Params, h: Host, c: Completion): (r: Host)
    ensures |r.pending| == |h.pending|
  {
    if c.work == Send then h.(scnt := h.scnt + 1) else TakeReceive(p, h)
  }

  /** The body of the loop over wc[]. */
  function ProcessOne(p: Params, h: Host, c: Completion): Host
    requires c.qp < |h.pending|
  {
    var counted := CountOne(p, h, c);
    if counted.fault != NoFault then counted else Settle(p, counted, c)
  }

  /** One iteration of the client's loop before the exchange. */
  function StartOne(h: Host): Host
    requires h.started < |h.pending|
  {
    PostSend(h, h.started).(started := h.started + 1)
  }

  // ---------------------------------------------------------------- steps

  datatype Step =
    | Start                        // the client's first send on the next queue pair
    | Deliver(from: Side, qp: nat)
    | Ack(side: Side, qp: nat)
    | Poll(side: Side, k: nat)     // ibv_poll_cq returns k completions
    | Process(side: Side)

  predicate Enabled(p: Params, s: System, a: Step) {
    s.client.fault == NoFault && s.server.fault == NoFault &&
    match a
    case Start => s.client.started < p.numQp && s.client.started < |s.client.pending|
    case Deliver(from, q) => q in s.Get(from).wire
    case Ack(side, q) => q in s.Get(side).unacked
    case Poll(side, k) =>
      var h := s.Get(side);
      && h.started == p.numQp && h.batch == []
      && (h.rcnt < p.iters || h.scnt < p.iters)
      && 1 <= k <= |h.cq| && k <= p.numWc
    case Process(side) =>
      var h := s.Get(side);
      h.batch != [] && h.batch[0].qp < |h.pending|
  }

  /** A completion arrives; the queue was created with rxDepth + numQp entries. */
  function Complete(p: Params, h: Host, c: Completion): Host {
    if |h.cq| < p.rxDepth + p.numQp then h.(cq := h.cq + [c]) else h.(fault := CqOverrun)
  }

  function Apply(p: Params, s: System, a: Step): System
    requires Enabled(p, s, a)
  {
    match a
    case Start =>
      s.(client := StartOne(s.client))
    case Deliver(from, q) =>
      var sender, receiver := s.Get(from), s.Get(from.Peer());
      if receiver.posted == 0 then s.Put(from.Peer(), receiver.(fault := ReceiverNotReady))
      else
        s.Put(from, sender.(wire := sender.wire - multiset{q}, unacked := sender.unacked + multiset{q}))
        .Put(from.Peer(), Complete(p, receiver.(posted := receiver.posted - 1), Completion(q, Recv)))
    case Ack(side, q) =>
      var h := s.Get(side);
      s.Put(side, Complete(p, h.(unacked := h.unacked - multiset{q}), Completion(q, Send)))
    case Poll(side, k) =>
      var h := s.Get(side);
      s.Put(side, h.(batch := h.cq[..k], cq := h.cq[k..]))
    case Process(side) =>
      var h := s.Get(side);
      s.Put(side, ProcessOne(p, h.(batch := h.batch[1..]), h.batch[0]))
  }

  function Fresh(p: Params, started: nat, mask: Mask): Host {
    Host(p.rxDepth, 0, 0, seq(p.numQp, _ => mask), started, [],
         p.rxDepth, multiset{}, multiset{}, [], NoFault, multiset{})
  }

  /** Both sides have posted rxDepth receives; the server waits on every queue pair. */
  function Init(p: Params): System {
    System(Fresh(p, 0, NONE), Fresh(p, p.numQp, AWAIT))
  }

  function Next(p: Params, s: System, a: Step): System {
    if Enabled(p, s, a) then Apply(p, s, a) else s
  }

  /** The exchange as a step system. */
  function Exchange(p: Params): Machine<System, Step> {
    Machine(Init(p), (s, a) => Enabled(p, s, a), (s, a) => Next(p, s, a))
  }

  // ---------------------------------------------------------------- invariant

  function I(b: bool): nat { if b then 1 else 0 }

  /** One queue pair seen from one host. */
  ghost predicate QpInv(p: Params, h: Host, q: nat)
    requires q < |h.pending|
  {
    // the SEND bit marks exactly one unprocessed send
    && h.wire[q] + h.unacked[q] + h.Pend(Send)[q] == I(h.pending[q].send)
    // an idle queue pair means that the host has sent enough
    && (q < h.started && h.pending[q] == NONE ==> h.scnt >= p.iters)
    && (h.started <= q ==> h.pending[q] == NONE)
  }

  /** One queue pair seen from both ends: where is its token? */
  ghost predicate TokenInv(c: Host, s: Host, q: nat)
    requires q < |c.pending| && q < |s.pending|
  {
    && AtServer(c, s, q) + AtClient(c, s, q) == 1
    && c.posts[q] == s.posts[q] + AtServer(c, s, q)
  }

  /** A message that `h` has received on `q` and not answered: queued, or its RECV bit cleared. */
  ghost function Held(h: Host, q: nat): int
    requires q < |h.pending|
  {
    h.Pend(Recv)[q] + I(!h.pending[q].recv)
  }

  /** In flight to the server, or held there. */
  ghost function AtServer(c: Host, s: Host, q: nat): int
    requires q < |s.pending|
  {
    c.wire[q] + Held(s, q)
  }

  ghost function AtClient(c: Host, s: Host, q: nat): int
    requires q < |c.pending|
  {
    s.wire[q] + Held(c, q)
  }

  ghost predicate Bounded(m: multiset<nat>, n: nat) { forall q :: q in m ==> q < n }

  ghost predicate InRange(p: Params, h: Host) {
    && |h.pending| == p.numQp && h.started <= p.numQp
    && Bounded(h.wire, p.numQp) && Bounded(h.unacked, p.numQp) && Bounded(h.posts, p.numQp)
    && Bounded(h.Pend(Recv), p.numQp) && Bounded(h.Pend(Send), p.numQp)
    && (forall i :: 0 <= i < |h.batch| ==> h.batch[i].qp < p.numQp)
    && (forall i :: 0 <= i < |h.cq| ==> h.cq[i].qp < p.numQp)
  }

  /** Credits and totals of one host. */
  ghost predicate CountInv(p: Params, h: Host) {
    && h.posted + |h.Pend(Recv)| == h.routs
    && (p.numQp < h.routs <= p.rxDepth || h.routs == p.rxDepth)
    && h.scnt + |h.wire| + |h.unacked| + |h.Pend(Send)| == |h.posts|
    && |h.posts| <= p.Budget()
    && (h.started < p.numQp ==> h.batch == [] && h.scnt == h.rcnt == 0 && |h.posts| == h.started)
  }

  ghost predicate HostInv(p: Params, h: Host) {
    && h.fault == NoFault
    && InRange(p, h) && CountInv(p, h)
    && (forall q: nat :: q < p.numQp ==> QpInv(p, h, q))
  }

  /** Every message `a` ever sent is in flight to `b`, queued there, or counted there. */
  ghost predicate LinkInv(a: Host, b: Host) {
    |a.wire| + |b.Pend(Recv)| + b.rcnt == |a.posts|
  }

  /** What ties the two hosts together. */
  ghost predicate Linked(p: Params, s: System) {
    && |s.client.pending| == |s.server.pending| == p.numQp
    && LinkInv(s.client, s.server) && LinkInv(s.server, s.client)
    && (forall q: nat :: q < p.numQp ==> TokenInv(s.client, s.server, q))
  }

  ghost predicate Inv(p: Params, s: System) {
    && HostInv(p, s.client) && HostInv(p, s.server)
    && s.server.started == p.numQp
    && Linked(p, s)
  }
}
