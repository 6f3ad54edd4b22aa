/**
 The completion handler of RDMA/examples/rc_pingpong.c.  It is the handler of srq_pingpong.c for one
 queue pair (refill threshold 1, batches of at most 2), with timestamps on receives.
 */
module RcPingPong {
  import opened PingPong
  import opened PingPongHost
  import opened PingPongSafety
  import opened PingPongTheorems
  import opened RcTimestamps
  import opened Runs

  /** rc_pingpong in terms of module PingPong: one queue pair, wc[2]. */
  function RcParams(rxDepth: nat, iters: nat): Params { Params(1, rxDepth, iters, 2) }

  /**
   The exchange of rc_pingpong: nothing fails, at most rxDepth + 1 completions are ever queued, a run that
   cannot go on has finished on both sides, and then both have sent and received exactly `iters` messages.
   */
  lemma RcExchange(rxDepth: nat, iters: nat, s: System, side: Side)
    requires rxDepth >= 1 && Reachable(Exchange(RcParams(rxDepth, iters)), s)
    ensures s.Healthy()
    ensures |s.Get(side).batch| + |s.Get(side).cq| <= rxDepth + 1
    ensures |s.Get(side).posts| <= if iters == 0 then 1 else iters
    ensures Stuck(Exchange(RcParams(rxDepth, iters)), s) ==> s.Finished(RcParams(rxDepth, iters))
    ensures iters >= 1 && s.Finished(RcParams(rxDepth, iters)) ==> Exact(iters, s.Get(side))
  {
    var p := RcParams(rxDepth, iters);
    NothingEverFails(p, s);
    CreditsInEveryRun(p, s, side);
    InvInEveryRun(p, s);
    if Stuck(Exchange(p), s) { StuckIsFinished(p, s); }
    if iters >= 1 && s.Finished(p) { SingleQpIsExact(p, s, side); }
  }

  predicate Exact(iters: nat, h: Host) { h.scnt == h.rcnt == |h.posts| == iters }

  /** rc_pingpong accepts a receive queue of size 0; then the first message finds it empty, and only then. */
  lemma RcNeedsAReceive(rxDepth: nat, iters: nat)
    ensures (forall s, side: Side :: Reachable(Exchange(RcParams(rxDepth, iters)), s) ==>
               s.Get(side).fault != ReceiverNotReady)
            <==> rxDepth >= 1
  {
    ReceiveQueueNeverEmptyIff(RcParams(rxDepth, iters));
  }

  /** It also accepts 0 iterations; the client sends one message all the same, and only then the counts are off. */
  lemma RcIsExactIff(rxDepth: nat, iters: nat)
    requires rxDepth >= 1
    ensures (forall s, side: Side ::
               Reachable(Exchange(RcParams(rxDepth, iters)), s) && s.Finished(RcParams(rxDepth, iters)) ==>
                 Exact(iters, s.Get(side)))
            <==> iters >= 1
  {
    var p := RcParams(rxDepth, iters);
    if iters >= 1 {
      forall s, side: Side | Reachable(Exchange(p), s) && s.Finished(p) ensures Exact(iters, s.Get(side)) {
        RcExchange(rxDepth, iters, s, side);
      }
    } else {
      var s := FirstPost(p);
      assert !Exact(iters, s.Get(Client));
    }
  }

  lemma FirstPost(p: Params) returns (s: System)
    requires p.numQp >= 1
    ensures Reachable(Exchange(p), s) && |s.client.posts| == 1
    ensures s.client.scnt == s.client.rcnt == s.server.scnt == s.server.rcnt == 0
  {
    var m := Exchange(p);
    InitReachable(m);
    StepReachable(m, m.init, Start);
    s := m.apply(m.init, Start);
  }

  class RcContext {
    const host: PingPongContext
    const useTs: bool
    const mask: nat             // completion_timestamp_mask
    var ts: TsParams
    ghost var readings: seq<nat>    // the timestamps of the receives

    /** Every counted receive has been recorded. */
    ghost predicate Valid()
      reads this, host, host.pending
    {
      && host.Valid() && host.p.numQp == 1
      && |readings| == host.rcnt && (useTs ==> ts == RecordAll(mask, START, readings))
    }

    constructor (host: PingPongContext, useTs: bool, mask: nat)
      requires host.Valid() && host.p.numQp == 1 && host.rcnt == 0
      ensures Valid() && this.host == host && this.useTs == useTs && this.mask == mask && ts == START
    {
      this.host, this.useTs, this.mask, ts, readings := host, useTs, mask, START, [];
    }

    /** Whenever main looks, in particular after its loop, one difference less than receives has been counted. */
    lemma OneLessThanReceives()
      requires Valid() && useTs
      ensures host.rcnt >= 1 ==> ts.count == (host.rcnt - 1) % TWO32
      ensures host.rcnt == 0 ==> ts.count == 0
    {
      CountOfReadings(mask, readings);
    }

    /** At the end of a run of the protocol that is iters - 1. */
    lemma CountAtExit(s: System, side: Side)
      requires Valid() && useTs && 1 <= host.p.rxDepth && 1 <= host.p.iters
      requires Reachable(Exchange(RcParams(host.p.rxDepth, host.p.iters)), s)
      requires s.Finished(RcParams(host.p.rxDepth, host.p.iters)) && host.rcnt == s.Get(side).rcnt
      ensures ts.count == (host.p.iters - 1) % TWO32
    {
      RcExchange(host.p.rxDepth, host.p.iters, s, side);
      OneLessThanReceives();
    }

    /** What main prints is about the whole run: from the first receive to the last. */
    lemma TotalOfTheRun(times: seq<nat>)
      requires Valid() && useTs && host.rcnt >= 1 && mask < TWO64
      requires readings == Readings(mask, times) && Ordered(times) && Close(mask, times)
      ensures |times| == host.rcnt && times[0] <= times[host.rcnt - 1]
      ensures ts.total == (times[host.rcnt - 1] - times[0]) % TWO64
    {
      TotalIsElapsedTime(mask, times);
    }

    /** What a completed receive does to the timestamps. */
    method RecordTimestamp(now: nat)
      modifies this
      ensures ts == if useTs then Record(mask, old(ts), now) else old(ts).(last := false)
      ensures readings == old(readings) + [now]
    {
      if useTs {
        if ts.last {
          var delta := if now >= ts.prev then now - ts.prev else (mask - ts.prev + now + 1) % TWO64;
          ts := ts.(maxDelta := if ts.maxDelta > delta then ts.maxDelta else delta,
                    minDelta := if ts.minDelta < delta then ts.minDelta else delta);
          ts := ts.(total := (ts.total + delta) % TWO64);
          ts := ts.(count := (ts.count + 1) % TWO32);
        }
        ts := ts.(prev := now, last := true);
      } else {
        ts := ts.(last := false);
      }
      readings := readings + [now];
    }

    /** The branch of parse_single_wc for a completed receive. */
    method ReceiveDone(now: nat) returns (failed: bool)
      requires Valid() && host.fault == NoFault
      modifies this, host`routs, host`posted, host`rcnt, host`fault
      ensures Valid() && host.State() == TakeReceive(host.p, old(host.State()))
      ensures failed <==> host.fault != NoFault
      ensures !failed ==> ts == if useTs then Record(mask, old(ts), now) else old(ts).(last := false)
    {
      failed := host.TakeReceiveCredit();
      if failed { return; }
      RecordTimestamp(now);
      assert readings[..|readings| - 1] == old(readings);
    }

    /** parse_single_wc. */
    method ParseSingleWc(wrId: int, status: int, now: nat) returns (out: Outcome)
      requires Valid() && host.fault == NoFault
      modifies this, host, host.pending
      ensures Valid()
      ensures status == 0 && KnownWork(wrId) ==>
        && host.State() == ProcessOne(host.p, old(host.State()), Completion(0, WorkOf(wrId)))
        && out == if host.fault == NoFault then Ok else PostFailed
      ensures status == 0 && wrId == PINGPONG_RECV_WRID && host.fault != ReceivePostFailed ==>
        ts == if useTs then Record(mask, old(ts), now) else old(ts).(last := false)
      ensures !(status == 0 && wrId == PINGPONG_RECV_WRID) ==> ts == old(ts) && readings == old(readings)
      ensures status != 0 || !KnownWork(wrId) ==>
        host.State() == old(host.State()) && out == if status != 0 then BadStatus else UnknownWrId
    {
      if status != 0 { return BadStatus; }
      if wrId == PINGPONG_SEND_WRID {
        host.CountSend();
      } else if wrId == PINGPONG_RECV_WRID {
        var failed := ReceiveDone(now);
        if failed { return PostFailed; }
      } else {
        return UnknownWrId;
      }
      out := host.SettleQp(0, wrId);
    }
  }
}
