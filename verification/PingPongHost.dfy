/** The code of one ping-pong host, proved against the steps of module PingPong. */
module PingPongHost {
  import opened PingPong
  import opened QueuePairs
  import opened Runs

  const MAX_QP := 256
  const PINGPONG_RECV_WRID := 1
  const PINGPONG_SEND_WRID := 2

  /** A work completion as ibv_poll_cq reports it; status 0 is success. */
  datatype Wc = Wc(status: int, qpNum: int, wrId: int)

  datatype Outcome = Ok | BadStatus | UnknownQp | UnknownWrId | PostFailed

  // ---------------------------------------------------------------- the pending mask

  function Decode(bits: bv8): Mask { Mask(bits & 1 != 0, bits & 2 != 0) }

  function DecodeAll(s: seq<bv8>): seq<Mask> { seq(|s|, i requires 0 <= i < |s| => Decode(s[i])) }

  predicate KnownWork(wrId: int) { wrId == PINGPONG_RECV_WRID || wrId == PINGPONG_SEND_WRID }

  function WorkOf(wrId: int): Work { if wrId == PINGPONG_SEND_WRID then Send else Recv }

  /** Clearing a bit of the integer mask is clearing that work; zero means that no work is pending. */
  lemma MaskBits(bits: bv8)
    requires bits < 4
    ensures bits & !1 < 4 && Decode(bits & !1) == Decode(bits).Clear(Recv)
    ensures bits & !2 < 4 && Decode(bits & !2) == Decode(bits).Clear(Send)
    ensures bits == 0 <==> Decode(bits) == NONE
  {
  }

  // ---------------------------------------------------------------- batches

  predicate Recognised(qpNums: seq<int>, wc: Wc) { wc.status == 0 && wc.qpNum in qpNums && KnownWork(wc.wrId) }

  /** What the loop reports for a completion that is not recognised. */
  function ErrorOf(qpNums: seq<int>, wc: Wc): Outcome
    requires !Recognised(qpNums, wc)
  {
    if wc.status != 0 then BadStatus else if wc.qpNum !in qpNums then UnknownQp else UnknownWrId
  }

  /** How many completions come before the first that is not recognised. */
  function GoodPrefix(qpNums: seq<int>, wcs: seq<Wc>): (k: nat)
    ensures k <= |wcs| && (forall i :: 0 <= i < k ==> Recognised(qpNums, wcs[i]))
    ensures k < |wcs| ==> !Recognised(qpNums, wcs[k])
  {
    if wcs == [] || !Recognised(qpNums, wcs[0]) then 0 else 1 + GoodPrefix(qpNums, wcs[1..])
  }

  function CompletionOf(qpNums: seq<int>, wc: Wc): Completion
    requires Recognised(qpNums, wc)
  {
    Completion(IndexOf(qpNums, wc.qpNum), WorkOf(wc.wrId))
  }

  function Completions(qpNums: seq<int>, wcs: seq<Wc>): seq<Completion>
    requires forall wc :: wc in wcs ==> Recognised(qpNums, wc)
  {
    seq(|wcs|, i requires 0 <= i < |wcs| => CompletionOf(qpNums, wcs[i]))
  }

  /** The loop over wc[] stops at the first failure. */
  ghost function ProcessAll(p: Params, h: Host, cs: seq<Completion>): Host
    requires forall c :: c in cs ==> c.qp < |h.pending|
    ensures |ProcessAll(p, h, cs).pending| == |h.pending|
    decreases |cs|
  {
    if cs == [] || h.fault != NoFault then h
    else
      var h' := ProcessOne(p, h, cs[0]);
      ProcessAll(p, h', cs[1..])
  }

  /** Adding a last completion to a batch that went well is one more step. */
  lemma {:induction false} ProcessAllSnoc(p: Params, h: Host, cs: seq<Completion>, c: Completion)
    requires forall d :: d in cs + [c] ==> d.qp < |h.pending|
    requires ProcessAll(p, h, cs).fault == NoFault
    ensures ProcessAll(p, h, cs + [c]) == ProcessOne(p, ProcessAll(p, h, cs), c)
    decreases |cs|
  {
    if cs != [] && h.fault == NoFault {
      assert (cs + [c])[1..] == cs[1..] + [c];
      ProcessAllSnoc(p, ProcessOne(p, h, cs[0]), cs[1..], c);
    }
  }

  /** After a failure the rest of the batch is not looked at. */
  lemma {:induction false} ProcessAllStops(p: Params, h: Host, cs: seq<Completion>, i: nat)
    requires i <= |cs| && forall d :: d in cs ==> d.qp < |h.pending|
    requires ProcessAll(p, h, cs[..i]).fault != NoFault
    ensures ProcessAll(p, h, cs) == ProcessAll(p, h, cs[..i])
    decreases |cs|
  {
    if i > 0 && h.fault == NoFault {
      assert cs[..i][1..] == cs[1..][..i - 1];
      ProcessAllStops(p, ProcessOne(p, h, cs[0]), cs[1..], i - 1);
    }
  }

  /** One iteration of the loop. */
  lemma ProcessAllNext(p: Params, h: Host, cs: seq<Completion>, i: nat)
    requires i < |cs| && forall d :: d in cs ==> d.qp < |h.pending|
    requires ProcessAll(p, h, cs[..i]).fault == NoFault
    ensures ProcessAll(p, h, cs[..i + 1]) == ProcessOne(p, ProcessAll(p, h, cs[..i]), cs[i])
  {
    assert cs[..i + 1] == cs[..i] + [cs[i]];
    ProcessAllSnoc(p, h, cs[..i], cs[i]);
  }

  /** The end of the loop: either the batch is used up, or it has failed. */
  lemma ProcessAllEnds(p: Params, h: Host, cs: seq<Completion>, i: nat)
    requires i <= |cs| && forall d :: d in cs ==> d.qp < |h.pending|
    requires i == |cs| || ProcessAll(p, h, cs[..i]).fault != NoFault
    ensures ProcessAll(p, h, cs) == ProcessAll(p, h, cs[..i])
  {
    if i == |cs| { assert cs[..i] == cs; } else { ProcessAllStops(p, h, cs, i); }
  }

  lemma SettleBatch(p: Params, h: Host, c: Completion, batch: seq<Completion>)
    requires c.qp < |h.pending|
    ensures Settle(p, h.(batch := batch), c) == Settle(p, h, c).(batch := batch)
  {
    assert SlotBusy(h.(batch := batch), c.qp) == SlotBusy(h, c.qp);
  }

  lemma TakeReceiveBatch(p: Params, h: Host, batch: seq<Completion>)
    ensures TakeReceive(p, h.(batch := batch)) == TakeReceive(p, h).(batch := batch)
  {
  }

  /** Handling a completion does not look at the rest of the batch. */
  lemma ProcessOneBatch(p: Params, h: Host, c: Completion, batch: seq<Completion>)
    requires c.qp < |h.pending|
    ensures ProcessOne(p, h.(batch := batch), c) == ProcessOne(p, h, c).(batch := batch)
  {
    CountBatch(p, h, c, batch);
    FinishBatch(p, CountOne(p, h, c), CountOne(p, h.(batch := batch), c), c, batch);
  }

  lemma CountBatch(p: Params, h: Host, c: Completion, batch: seq<Completion>)
    ensures CountOne(p, h.(batch := batch), c) == CountOne(p, h, c).(batch := batch)
  {
    TakeReceiveBatch(p, h, batch);
  }

  lemma FinishBatch(p: Params, h: Host, h': Host, c: Completion, batch: seq<Completion>)
    requires c.qp < |h.pending| && h' == h.(batch := batch)
    ensures (if h'.fault != NoFault then h' else Settle(p, h', c))
         == (if h.fault != NoFault then h else Settle(p, h, c)).(batch := batch)
  {
    SettleBatch(p, h, c, batch);
  }

  function Processes(side: Side, n: nat): seq<Step> {
    if n == 0 then [] else [Process(side)] + Processes(side, n - 1)
  }

  ghost predicate BatchInRange(h: Host) { forall c :: c in h.batch ==> c.qp < |h.pending| }

  lemma KeepsQps(p: Params, h: Host, c: Completion)
    requires c.qp < |h.pending|
    ensures |ProcessOne(p, h, c).pending| == |h.pending|
  {
  }

  lemma ProcessStep(p: Params, s: System, side: Side)
    requires s.Healthy() && s.Get(side).batch != [] && BatchInRange(s.Get(side))
    ensures var h := s.Get(side);
      Exchange(p).enabled(s, Process(side)) &&
      Exchange(p).apply(s, Process(side)) == s.Put(side, ProcessOne(p, h.(batch := h.batch[1..]), h.batch[0]))
  {
    assert s.Get(side).batch[0] in s.Get(side).batch;
  }

  /** One Process step, seen by the code that keeps wc[] in a local variable. */
  lemma OneProcessStep(p: Params, s: System, side: Side) returns (h': Host)
    requires s.Healthy() && s.Get(side).batch != [] && BatchInRange(s.Get(side))
    ensures Exchange(p).enabled(s, Process(side)) && Exchange(p).apply(s, Process(side)) == s.Put(side, h')
    ensures h'.batch == s.Get(side).batch[1..] && BatchInRange(h')
    ensures h'.(batch := []) == ProcessOne(p, s.Get(side).(batch := []), s.Get(side).batch[0])
  {
    var h := s.Get(side);
    var c, rest := h.batch[0], h.batch[1..];
    ProcessStep(p, s, side);
    h' := ProcessOne(p, h.(batch := rest), c);
    var plain := ProcessOne(p, h, c);
    assert h' == plain.(batch := rest) by { ProcessOneBatch(p, h, c, rest); }
    assert ProcessOne(p, h.(batch := []), c) == plain.(batch := []) by { ProcessOneBatch(p, h, c, []); }
    KeepsQps(p, h, c);
  }

  /** A batch that is handled without failure is what the same number of Process steps does. */
  lemma {:induction false} BatchIsProcessSteps(p: Params, s: System, side: Side)
    requires s.Healthy() && BatchInRange(s.Get(side))
    requires ProcessAll(p, s.Get(side).(batch := []), s.Get(side).batch).fault == NoFault
    ensures var h := s.Get(side);
      Leads(Exchange(p), s, Processes(side, |h.batch|), s.Put(side, ProcessAll(p, h.(batch := []), h.batch)))
    decreases |s.Get(side).batch|
  {
    var h := s.Get(side);
    if h.batch == [] {
      assert h.(batch := []) == h;
    } else {
      var h' := OneProcessStep(p, s, side);
      var s' := s.Put(side, h');
      assert ProcessAll(p, h.(batch := []), h.batch) == ProcessAll(p, h'.(batch := []), h'.batch);
      BatchIsProcessSteps(p, s', side);
      var t := s'.Put(side, ProcessAll(p, h'.(batch := []), h'.batch));
      Prepend(Exchange(p), s, Process(side), Processes(side, |h'.batch|), t);
    }
  }

  // ---------------------------------------------------------------- the host

  /** struct pingpong_context with the counters of main and the queues of the NIC. */
  /** Nothing is posted while more than numQp credits are left; then the queue is filled up. */
  lemma RefillsAtNumQp(p: Params, h: Host)
    ensures var h' := TakeReceive(p, h);
      && (h.routs - 1 > p.numQp ==> h'.routs == h.routs - 1 && h'.posted == h.posted && h'.rcnt == h.rcnt + 1)
      && (h.routs - 1 <= p.numQp && h.posted < h.routs <= p.rxDepth ==>
            && h'.routs == p.rxDepth && h'.posted == h.posted + (p.rxDepth - h.routs) + 1 && h'.rcnt == h.rcnt + 1)
  {
  }

  lemma {:induction false} OfContains(cs: seq<Completion>, q: nat, w: Work)
    ensures Of(cs, w)[q] >= 1 <==> Completion(q, w) in cs
  {
    if cs != [] {
      OfContains(cs[1..], q, w);
      assert Completion(q, w) in cs <==> cs[0] == Completion(q, w) || Completion(q, w) in cs[1..];
    }
  }

  class PingPongContext {
    const p: Params
    const qpNums: seq<int>
    const pending: array<bv8>
    var routs: int
    var rcnt: nat
    var scnt: nat
    var started: nat
    var posted: nat
    var wire: multiset<nat>
    var unacked: multiset<nat>
    var cq: seq<Completion>
    var fault: Fault
    ghost var posts: multiset<nat>

    ghost predicate Valid()
      reads this, pending
    {
      && |qpNums| == p.numQp <= MAX_QP == pending.Length
      && (forall i :: 0 <= i < MAX_QP ==> pending[i] < 4)
    }

    /** The state of module PingPong, with an empty batch: wc[] is a local of main. */
    ghost function State(): Host
      reads this, pending
      requires Valid()
    {
      Host(routs, rcnt, scnt, DecodeAll(pending[..p.numQp]), started, [],
           posted, wire, unacked, cq, fault, posts)
    }

    constructor (p: Params, qpNums: seq<int>, client: bool)
      requires |qpNums| == p.numQp <= MAX_QP
      ensures Valid() && fresh(pending) && this.p == p && this.qpNums == qpNums
      ensures State() == Fresh(p, if client then 0 else p.numQp, if client then NONE else AWAIT)
    {
      this.p, this.qpNums := p, qpNums;
      var mask: bv8 := if client then 0 else 1;
      pending := new bv8[MAX_QP](_ => mask);
      routs, rcnt, scnt, started := p.rxDepth, 0, 0, if client then 0 else p.numQp;
      posted, wire, unacked, cq, fault := p.rxDepth, multiset{}, multiset{}, [], NoFault;
      posts := multiset{};
    }

    /** ibv_post_srq_recv on a queue of rxDepth receives. */
    method PostSrqRecv() returns (failed: bool)
      modifies this`posted
      ensures failed <==> old(posted) >= p.rxDepth
      ensures posted == if failed then old(posted) else old(posted) + 1
    {
      failed := posted >= p.rxDepth;
      if !failed { posted := posted + 1; }
    }

    /** pp_post_recv: posts until the queue is full and says how many were posted. */
    method PostRecv(n: int) returns (i: nat)
      modifies this`posted
      ensures i == Fits(p.rxDepth, old(posted), n)
      ensures posted == old(posted) + i
      ensures n <= 0 ==> i == 0
      ensures n > 0 && old(posted) <= p.rxDepth ==> i <= n && posted <= p.rxDepth && (i == n || posted == p.rxDepth)
    {
      i := 0;
      while i < n
        invariant 0 <= i && (0 < i ==> i <= n) && posted == old(posted) + i
        invariant 0 < i ==> posted <= p.rxDepth
      {
        var failed := PostSrqRecv();
        if failed { break; }
        i := i + 1;
      }
    }

    /** pp_post_send: fails when the one slot of the send queue is taken. */
    method PostSendTo(q: nat) returns (failed: bool)
      modifies this`wire, this`posts
      requires Valid()
      ensures Valid()
      ensures failed <==> SlotBusy(old(State()), q)
      ensures failed <==> q in old(wire) || q in old(unacked) || Completion(q, Send) in old(cq)
      ensures wire == if failed then old(wire) else old(wire) + multiset{q}
      ensures posts == if failed then old(posts) else old(posts) + multiset{q}
    {
      OfContains(cq, q, Send);
      failed := wire[q] + unacked[q] + Of(cq, Send)[q] >= 1;
      if !failed {
        wire, posts := wire + multiset{q}, posts + multiset{q};
      }
    }

    /** find_qp: the index of the queue pair with that number, or -1. */
    method FindQp(qpn: int) returns (i: int)
      requires Valid()
      ensures qpn in qpNums ==> i == IndexOf(qpNums, qpn)
      ensures qpn !in qpNums ==> i == -1
    {
      i := 0;
      while i < p.numQp
        invariant 0 <= i <= p.numQp
        invariant forall k :: 0 <= k < i ==> qpNums[k] != qpn
      {
        if qpNums[i] == qpn {
          return;
        }
        i := i + 1;
      }
      i := -1;
    }

    /** A completed receive: count it, use up its credit and refill the queue when at most num_qp credits are left. */
    method TakeReceiveCredit() returns (failed: bool)
      requires Valid() && fault == NoFault
      modifies this`routs, this`posted, this`rcnt, this`fault
      ensures Valid() && State() == TakeReceive(p, old(State()))
      ensures failed <==> fault != NoFault
      ensures old(routs) - 1 > p.numQp ==> routs == old(routs) - 1 && posted == old(posted) && rcnt == old(rcnt) + 1
      ensures old(routs) - 1 <= p.numQp && old(posted) < old(routs) <= p.rxDepth ==>
        routs == p.rxDepth && posted == old(posted) + (p.rxDepth - old(routs)) + 1 && rcnt == old(rcnt) + 1
    {
      RefillsAtNumQp(p, State());
      failed := false;
      routs := routs - 1;
      if routs <= p.numQp {
        var got := PostRecv(p.rxDepth - routs);
        routs := routs + got;
        if routs < p.rxDepth {
          fault := ReceivePostFailed;
          return true;
        }
      }
      rcnt := rcnt + 1;
    }

    method CountSend()
      requires Valid()
      modifies this`scnt
      ensures Valid() && State() == old(State()).(scnt := old(scnt) + 1)
    {
      scnt := scnt + 1;
    }

    /** One completion of the batch, from its status test to the answer. */
    method HandleCompletion(wc: Wc) returns (out: Outcome)
      requires Valid() && fault == NoFault
      modifies this, pending
      ensures Valid()
      ensures Recognised(qpNums, wc) ==>
        && State() == ProcessOne(p, old(State()), CompletionOf(qpNums, wc))
        && out == if fault == NoFault then Ok else PostFailed
      ensures !Recognised(qpNums, wc) ==>
        && State() == old(State())
        && out == ErrorOf(qpNums, wc)
    {
      if wc.status != 0 { return BadStatus; }
      var q := FindQp(wc.qpNum);
      if q < 0 { return UnknownQp; }
      if !KnownWork(wc.wrId) { return UnknownWrId; }
      out := CountWork(wc.wrId, q);
      if out == Ok {
        out := SettleQp(q, wc.wrId);
      }
    }

    /** The switch over the kind of work. */
    method CountWork(wrId: int, ghost q: nat) returns (out: Outcome)
      requires Valid() && fault == NoFault && KnownWork(wrId) && q < p.numQp
      modifies this`scnt, this`routs, this`posted, this`rcnt, this`fault
      ensures Valid() && State() == CountOne(p, old(State()), Completion(q, WorkOf(wrId)))
      ensures out == if fault == NoFault then Ok else PostFailed
    {
      out := Ok;
      if wrId == PINGPONG_SEND_WRID {
        CountSend();
      } else {
        var failed := TakeReceiveCredit();
        if failed { return PostFailed; }
      }
    }

    method SetPending(q: nat, bits: bv8)
      requires Valid() && q < p.numQp && bits < 4
      modifies pending
      ensures Valid() && pending[q] == bits
      ensures State() == old(State()).(pending := old(State()).pending[q := Decode(bits)])
    {
      pending[q] := bits;
      assert DecodeAll(pending[..p.numQp]) == old(State()).pending[q := Decode(bits)];
    }

    /** Clears the finished work, and answers when nothing else is pending on the queue pair. */
    method SettleQp(q: nat, wrId: int) returns (out: Outcome)
      requires Valid() && fault == NoFault && q < p.numQp && KnownWork(wrId)
      modifies this`wire, this`posts, this`fault, pending
      ensures Valid() && State() == Settle(p, old(State()), Completion(q, WorkOf(wrId)))
      ensures out == if fault == NoFault then Ok else PostFailed
    {
      MaskBits(pending[q]);
      SetPending(q, if wrId == PINGPONG_SEND_WRID then pending[q] & !2 else pending[q] & !1);
      MaskBits(pending[q]);
      out := Ok;
      if scnt < p.iters && pending[q] == 0 {
        out := Answer(q);
      }
    }

    /** Posts the next send and marks both its completion and the reply as pending. */
    method Answer(q: nat) returns (out: Outcome)
      requires Valid() && fault == NoFault && q < p.numQp
      modifies this`wire, this`posts, this`fault, pending
      ensures Valid() && State() == PostSend(old(State()), q)
      ensures out == if fault == NoFault then Ok else PostFailed
    {
      var failed := PostSendTo(q);
      if failed {
        fault := SendQueueFull;
        return PostFailed;
      }
      SetPending(q, 3);
      out := Ok;
    }

    /** One iteration of the loop that starts the client; the NIC may act between iterations. */
    method StartNext() returns (out: Outcome)
      requires Valid() && fault == NoFault && started < p.numQp
      modifies this`wire, this`posts, this`fault, this`started, pending
      ensures Valid() && State() == StartOne(old(State()))
      ensures out == if fault == NoFault then Ok else PostFailed
    {
      out := Answer(started);
      started := started + 1;
    }

    /** One turn of the loop, seen from the start of the batch; `cs` are the completions before the first bad one. */
    method HandleNext(wc: Wc, ghost h: Host, ghost cs: seq<Completion>, ghost i: nat) returns (out: Outcome)
      requires Valid() && fault == NoFault && i <= |cs| && forall c :: c in cs ==> c.qp < |h.pending|
      requires i < |cs| ==> Recognised(qpNums, wc) && cs[i] == CompletionOf(qpNums, wc)
      requires i == |cs| ==> !Recognised(qpNums, wc)
      requires State() == ProcessAll(p, h, cs[..i])
      modifies this, pending
      ensures Valid()
      ensures i < |cs| ==>
        State() == ProcessAll(p, h, cs[..i + 1]) && out == if fault == NoFault then Ok else PostFailed
      ensures i == |cs| ==> State() == old(State()) && out == ErrorOf(qpNums, wc)
    {
      if i < |cs| { ProcessAllNext(p, h, cs, i); }
      out := HandleCompletion(wc);
    }

    /** The loop over the completions of one poll: it ends at the first bad completion and at the first failure. */
    method HandleBatch(wcs: seq<Wc>) returns (out: Outcome)
      requires Valid() && fault == NoFault
      modifies this, pending
      ensures var k := GoodPrefix(qpNums, wcs);
        && Valid() && State() == ProcessAll(p, old(State()), Completions(qpNums, wcs[..k]))
        && out == if fault != NoFault then PostFailed else if k < |wcs| then ErrorOf(qpNums, wcs[k]) else Ok
    {
      out := HandleAll(wcs, State(), Completions(qpNums, wcs[..GoodPrefix(qpNums, wcs)]));
    }

    method HandleAll(wcs: seq<Wc>, ghost h: Host, ghost cs: seq<Completion>) returns (out: Outcome)
      requires Valid() && fault == NoFault && h == State() && |cs| <= |wcs|
      requires forall i :: 0 <= i < |cs| ==> Recognised(qpNums, wcs[i]) && cs[i] == CompletionOf(qpNums, wcs[i])
      requires |cs| < |wcs| ==> !Recognised(qpNums, wcs[|cs|])
      requires forall c :: c in cs ==> c.qp < |h.pending|
      modifies this, pending
      ensures Valid() && State() == ProcessAll(p, h, cs)
      ensures out == if fault != NoFault then PostFailed else if |cs| < |wcs| then ErrorOf(qpNums, wcs[|cs|]) else Ok
    {
      out := Ok;
      var i := 0;
      ghost var done := 0;   // how many of `cs`
      while i < |wcs| && out == Ok
        invariant 0 <= done <= |cs| && done <= i <= |wcs| && Valid()
        invariant State() == ProcessAll(p, h, cs[..done])
        invariant i == done ==> out == if fault == NoFault then Ok else PostFailed
        invariant i > done ==> done == |cs| < |wcs| && fault == NoFault && out == ErrorOf(qpNums, wcs[done])
      {
        out := HandleNext(wcs[i], h, cs, i);
        if i < |cs| { done := done + 1; }
        i := i + 1;
      }
      ProcessAllEnds(p, h, cs, done);
    }
  }
}
