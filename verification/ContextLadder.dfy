/**
 pp_init_ctx and pp_close_ctx of RDMA/examples/srq_pingpong.c.  That no handle is released twice, or before
 what uses it, is the precondition of every call of Library.Release.
 */
module ContextLadder {
  import opened Provider

  datatype Option<+T> = None | Some(value: T)

  const BASE := {Struct, Buffer, Device}

  /** What is live before the protection domain is allocated; the channel only with completion events. */
  function ToChannel(events: bool): set<Handle> { BASE + if events then {Channel} else {} }

  function ToSrq(events: bool): set<Handle> { ToChannel(events) + {Pd, Mr, Cq, Srq} }

  /** A complete context. */
  function Context(events: bool, numQp: nat): set<Handle> { ToSrq(events) + FirstQps(numQp) }

  ghost predicate For(v: Library, events: bool) { v.p == SrqPingPong(events) }

  predicate Creates(fails: set<Call>, i: nat) { forall j: nat :: j < i ==> Create(Qp(j)) !in fails }
  predicate Modifies(fails: set<Call>, i: nat) { forall j: nat :: j < i ==> Query(j) !in fails }
  predicate Destroys(fails: set<Call>, i: nat) { forall j: nat :: j < i ==> Destroy(Qp(j)) !in fails }

  const ODP := -1   // asking for on-demand paging

  // Queue pairs come on top of the rest, and nothing is created on them.

  lemma AddQp(base: set<Handle>, i: nat)
    requires forall h :: h in base ==> !h.Qp?
    ensures base + FirstQps(i) + {Qp(i)} == base + FirstQps(i + 1)
    ensures base + FirstQps(i + 1) - {Qp(i)} == base + FirstQps(i)
    ensures Qp(i) !in base + FirstQps(i) && base + FirstQps(0) == base
  {
  }

  lemma DropQp(base: set<Handle>, k: nat, i: nat)
    requires i <= k && forall h :: h in base ==> !h.Qp?
    ensures base + FirstQps(k) - FirstQps(i) - {Qp(i)} == base + FirstQps(k) - FirstQps(i + 1)
    ensures base + FirstQps(k) - FirstQps(k) == base && base + FirstQps(k) - FirstQps(0) == base + FirstQps(k)
    ensures i < k ==> Qp(i) in base + FirstQps(k) - FirstQps(i)
  {
  }

  lemma QpIsUnused(p: Program, live: set<Handle>, i: nat)
    ensures Unused(p, live, Qp(i))
  {
  }

  lemma ContextIsClosed(events: bool, live: set<Handle>)
    requires ToSrq(events) <= live
    requires forall h :: h in live ==> h in ToSrq(events) || h.Qp?
    ensures Closed(SrqPingPong(events), live)
  {
  }

  /** The loop at the label clean_qps. */
  method DestroyBack(v: Library, ghost base: set<Handle>, k: nat)
    requires v.live == base + FirstQps(k) && forall h :: h in base ==> !h.Qp?
    modifies v
    ensures v.live == base
  {
    var i := k;
    while i > 0
      invariant v.live == base + FirstQps(i)
    {
      i := i - 1;
      AddQp(base, i);
      QpIsUnused(v.p, v.live, i);
      v.Release(Qp(i));
    }
  }

  /** The loop that moves the queue pairs to INIT. */
  method QpsToInit(v: Library, numQp: nat) returns (ok: bool)
    ensures ok <==> Modifies(v.fails, numQp)
  {
    for i := 0 to numQp
      invariant Modifies(v.fails, i)
    {
      ok := v.Ask(i);
      if !ok { return; }
    }
    return true;
  }

  /** The loop that creates the queue pairs; `i` of them exist when it ends. */
  method CreateLoop(v: Library, ghost base: set<Handle>, numQp: nat) returns (ok: bool, i: nat)
    requires v.p.SrqPingPong? && v.live == base && {Pd, Cq, Srq} <= base && forall h :: h in base ==> !h.Qp?
    modifies v
    ensures i <= numQp && v.live == base + FirstQps(i)
    ensures ok <==> Creates(v.fails, numQp)
    ensures ok ==> i == numQp
  {
    i := 0;
    AddQp(base, 0);
    while i < numQp
      invariant i <= numQp && v.live == base + FirstQps(i) && Creates(v.fails, i)
    {
      AddQp(base, i);
      ok := v.Acquire(Qp(i));
      if !ok { return; }
      i := i + 1;
    }
    ok := true;
  }

  /** The queue pairs of pp_init_ctx; after a failure those that were created are destroyed, the last one first. */
  method CreateQps(v: Library, events: bool, numQp: nat) returns (ok: bool)
    requires For(v, events) && v.live == ToSrq(events)
    modifies v
    ensures ok <==> Creates(v.fails, numQp) && Modifies(v.fails, numQp)
    ensures v.live == if ok then Context(events, numQp) else ToSrq(events)
  {
    var i;
    label clean_qps: {
      ok, i := CreateLoop(v, ToSrq(events), numQp);
      if !ok { break clean_qps; }
      ok := QpsToInit(v, numQp);
      if ok { return; }
      i := numQp;
    }
    DestroyBack(v, ToSrq(events), i);
    return false;
  }

  /** pp_init_ctx: everything, or after a failure at any point nothing. */
  method InitCtx(v: Library, events: bool, odp: bool, numQp: nat) returns (ok: bool)
    requires For(v, events) && v.live == {}
    modifies v
    ensures ok <==>
      && (forall h :: h in ToSrq(events) ==> Create(h) !in v.fails)
      && (odp ==> Query(ODP) !in v.fails)
      && Creates(v.fails, numQp) && Modifies(v.fails, numQp)
    ensures v.live == if ok then Context(events, numQp) else {}
  {
    ok := v.Acquire(Struct);
    if !ok { return; }
    label clean_ctx: {
      ok := v.Acquire(Buffer);
      if !ok { break clean_ctx; }
      label clean_buffer: {
        ok := v.Acquire(Device);
        if !ok { break clean_buffer; }
        ok := InitOnDevice(v, events, odp, numQp);
        if ok { return; }
        v.Release(Device);
      }
      v.Release(Buffer);
    }
    v.Release(Struct);
    assert v.live == {};
    return false;
  }

  /** The inner part of pp_init_ctx, down to the label clean_device. */
  method InitOnDevice(v: Library, events: bool, odp: bool, numQp: nat) returns (ok: bool)
    requires For(v, events) && v.live == BASE
    modifies v
    ensures ok <==>
      && (forall h :: h in ToSrq(events) - BASE ==> Create(h) !in v.fails)
      && (odp ==> Query(ODP) !in v.fails)
      && Creates(v.fails, numQp) && Modifies(v.fails, numQp)
    ensures v.live == if ok then Context(events, numQp) else BASE
  {
    if odp {
      ok := v.Ask(ODP);
      if !ok { return; }
    }
    if events {
      ok := v.Acquire(Channel);
      if !ok { return; }
    }
    ok := InitOnChannel(v, events, numQp);
    if ok { return; }
    if events { v.Release(Channel); }
  }

  /** The inner part of pp_init_ctx, down to the label clean_comp_channel. */
  method InitOnChannel(v: Library, events: bool, numQp: nat) returns (ok: bool)
    requires For(v, events) && v.live == ToChannel(events)
    modifies v
    ensures ok <==>
      && (forall h :: h in {Pd, Mr, Cq, Srq} ==> Create(h) !in v.fails)
      && Creates(v.fails, numQp) && Modifies(v.fails, numQp)
    ensures v.live == if ok then Context(events, numQp) else ToChannel(events)
  {
    label clean_comp_channel: {
      ok := v.Acquire(Pd);
      if !ok { break clean_comp_channel; }
      label clean_pd: {
        ok := v.Acquire(Mr);
        if !ok { break clean_pd; }
        label clean_mr: {
          ok := v.Acquire(Cq);
          if !ok { break clean_mr; }
          label clean_cq: {
            ok := v.Acquire(Srq);
            if !ok { break clean_cq; }
            ok := CreateQps(v, events, numQp);
            if ok { return; }
            v.Release(Srq);
          }
          v.Release(Cq);
        }
        v.Release(Mr);
      }
      v.Release(Pd);
    }
    return false;
  }

  // What pp_close_ctx leaves.

  /** The first queue pair that is refused. */
  function FirstRefused(fails: set<Call>, numQp: nat): (k: nat)
    ensures k <= numQp && Destroys(fails, k) && (k < numQp ==> Destroy(Qp(k)) in fails)
  {
    if numQp == 0 then 0
    else
      var k := FirstRefused(fails, numQp - 1);
      if k < numQp - 1 || Destroy(Qp(k)) in fails then k else numQp
  }

  /** Without the queue pairs. */
  function MiddleLeft(events: bool, fails: set<Call>): set<Handle> {
    if Destroy(Srq) in fails then ToChannel(events) + {Pd, Mr, Cq, Srq}
    else if Destroy(Cq) in fails then ToChannel(events) + {Pd, Mr, Cq}
    else if Destroy(Mr) in fails then ToChannel(events) + {Pd, Mr}
    else if Destroy(Pd) in fails then ToChannel(events) + {Pd}
    else ToChannel(events)
  }

  function DeviceLeft(events: bool, fails: set<Call>): set<Handle> {
    if events && Destroy(Channel) in fails then BASE + {Channel} else if Destroy(Device) in fails then BASE else {}
  }

  function Left(events: bool, numQp: nat, fails: set<Call>): set<Handle> {
    if !Destroys(fails, numQp) then Context(events, numQp) - FirstQps(FirstRefused(fails, numQp))
    else if MiddleLeft(events, fails) != ToChannel(events) then MiddleLeft(events, fails)
    else DeviceLeft(events, fails)
  }

  /** When pp_close_ctx comes to a handle. */
  function Turn(h: Handle): int {
    match h
    case Qp(_) => 0
    case Srq => 1 case Cq => 2 case Mr => 3 case Pd => 4 case Channel => 5 case Device => 6
    case _ => 7
  }

  predicate NotAfter(g: Handle, h: Handle) { if g.Qp? && h.Qp? then g.i <= h.i else Turn(g) <= Turn(h) }

  predicate Refused(g: Handle, fails: set<Call>) { Destroy(g) in fails && Turn(g) < 7 }

  /** The handle, or one that comes before it, is refused. */
  ghost predicate Stays(events: bool, numQp: nat, fails: set<Call>, h: Handle) {
    h in Context(events, numQp) && exists g :: g in Context(events, numQp) && Refused(g, fails) && NotAfter(g, h)
  }

  /** A handle stays exactly if it, or one that comes before it, is refused. */
  lemma LeftIff(events: bool, numQp: nat, fails: set<Call>, h: Handle)
    ensures h in Left(events, numQp, fails) <==> Stays(events, numQp, fails, h)
  {
    var all := Context(events, numQp);
    if !Destroys(fails, numQp) {
      QpsLeftIff(events, numQp, fails, h);
    } else {
      forall g | g in all && Refused(g, fails) ensures !g.Qp? { }
      OthersLeftIff(events, numQp, fails, h);
    }
  }

  lemma QpsLeftIff(events: bool, numQp: nat, fails: set<Call>, h: Handle)
    requires !Destroys(fails, numQp)
    ensures h in Left(events, numQp, fails) <==> Stays(events, numQp, fails, h)
  {
    var k := FirstRefused(fails, numQp);
    assert Refused(Qp(k), fails) && Qp(k) in Context(events, numQp);
    if h in Context(events, numQp) {
      if h.Qp? && h.i < k {
        forall g | g in Context(events, numQp) && Refused(g, fails) ensures !NotAfter(g, h) { }
      } else {
        assert NotAfter(Qp(k), h);
      }
    }
  }

  /** The first refused handle that is no queue pair, or none. */
  function FirstOther(events: bool, fails: set<Call>): Option<Handle> {
    if Destroy(Srq) in fails then Some(Srq) else if Destroy(Cq) in fails then Some(Cq)
    else if Destroy(Mr) in fails then Some(Mr) else if Destroy(Pd) in fails then Some(Pd)
    else if events && Destroy(Channel) in fails then Some(Channel)
    else if Destroy(Device) in fails then Some(Device) else None
  }

  lemma FirstOtherIsFirst(events: bool, fails: set<Call>, g: Handle)
    requires g in ToSrq(events) && Refused(g, fails)
    ensures var f := FirstOther(events, fails);
      f.Some? && f.value in ToSrq(events) && Refused(f.value, fails) && !f.value.Qp? && Turn(f.value) <= Turn(g)
  {
  }

  lemma OthersLeft(events: bool, numQp: nat, fails: set<Call>, h: Handle)
    requires Destroys(fails, numQp)
    ensures var f := FirstOther(events, fails);
      h in Left(events, numQp, fails) <==> h in ToSrq(events) && f.Some? && Turn(f.value) <= Turn(h)
  {
    assert Srq in ToSrq(events) && Srq !in ToChannel(events) && Pd !in ToChannel(events);
  }

  lemma OthersLeftIff(events: bool, numQp: nat, fails: set<Call>, h: Handle)
    requires Destroys(fails, numQp)
    ensures h in Left(events, numQp, fails) <==> Stays(events, numQp, fails, h)
  {
    OthersLeft(events, numQp, fails, h);
    var f := FirstOther(events, fails);
    if h in Left(events, numQp, fails) {
      assert f.value in Context(events, numQp) && Refused(f.value, fails) && NotAfter(f.value, h);
    }
    forall g | h in Context(events, numQp) && g in Context(events, numQp) && Refused(g, fails) && NotAfter(g, h)
      ensures h in Left(events, numQp, fails)
    {
      assert !g.Qp?;
      FirstOtherIsFirst(events, fails, g);
      assert !h.Qp?;
    }
  }

  /** The first loop of pp_close_ctx destroys the queue pairs in the order of their creation. */
  method DestroyLoop(v: Library, ghost base: set<Handle>, numQp: nat) returns (ok: bool)
    requires v.live == base + FirstQps(numQp) && forall h :: h in base ==> !h.Qp?
    modifies v
    ensures ok <==> Destroys(v.fails, numQp)
    ensures v.live == base + FirstQps(numQp) - FirstQps(FirstRefused(v.fails, numQp))
    ensures ok ==> v.live == base
  {
    DropQp(base, numQp, 0);
    var j := 0;
    while j < numQp
      invariant j <= numQp && v.live == base + FirstQps(numQp) - FirstQps(j) && Destroys(v.fails, j)
    {
      DropQp(base, numQp, j);
      QpIsUnused(v.p, v.live, j);
      ok := v.TryRelease(Qp(j));
      if !ok {
        assert FirstRefused(v.fails, numQp) == j;
        return;
      }
      j := j + 1;
    }
    DropQp(base, numQp, numQp);
    return true;
  }

  method DestroyQps(v: Library, events: bool, numQp: nat) returns (ok: bool)
    requires For(v, events) && v.live == Context(events, numQp)
    modifies v
    ensures ok <==> Destroys(v.fails, numQp)
    ensures ok ==> v.live == ToSrq(events)
    ensures !ok ==> v.live == Context(events, numQp) - FirstQps(FirstRefused(v.fails, numQp))
    ensures !ok ==> Closed(v.p, v.live) && BASE <= v.live
  {
    ok := DestroyLoop(v, ToSrq(events), numQp);
    if !ok { ContextIsClosed(events, v.live); }
  }

  /**
   pp_close_ctx: nothing is live after a success; the first refusal ends it.  Then exactly the handles that come
   before the refused one are gone, and everything that the others need is still there.
   */
  method CloseCtx(v: Library, events: bool, numQp: nat) returns (rc: int)
    requires For(v, events) && v.live == Context(events, numQp)
    modifies v
    ensures rc == 0 || rc == 1
    ensures rc == 0 <==>
      && Destroys(v.fails, numQp)
      && forall h :: h in ToSrq(events) - {Struct, Buffer} ==> Destroy(h) !in v.fails
    ensures rc == 0 ==> v.live == {}
    ensures rc == 1 ==> Closed(v.p, v.live) && BASE <= v.live
    ensures v.live == Left(events, numQp, v.fails)
    ensures forall h :: h in v.live <==> Stays(events, numQp, v.fails, h)
  {
    forall h ensures h in Left(events, numQp, v.fails) <==> Stays(events, numQp, v.fails, h) {
      LeftIff(events, numQp, v.fails, h);
    }
    var ok := DestroyQps(v, events, numQp);
    if !ok { return 1; }
    ok := CloseToChannel(v, events);
    if !ok { return 1; }
    rc := CloseDevice(v, events);
  }

  /** The part of pp_close_ctx between the queue pairs and the channel. */
  method CloseToChannel(v: Library, events: bool) returns (ok: bool)
    requires For(v, events) && v.live == ToSrq(events)
    modifies v
    ensures ok <==> forall h :: h in {Srq, Cq, Mr, Pd} ==> Destroy(h) !in v.fails
    ensures ok <==> MiddleLeft(events, v.fails) == ToChannel(events)
    ensures v.live == MiddleLeft(events, v.fails)
    ensures !ok ==> Closed(v.p, v.live) && BASE <= v.live
  {
    ok := v.TryRelease(Srq);
    if !ok { return; }
    ok := v.TryRelease(Cq);
    if !ok { return; }
    ok := v.TryRelease(Mr);
    if !ok { return; }
    ok := v.TryRelease(Pd);
  }

  /** The rest of pp_close_ctx. */
  method CloseDevice(v: Library, events: bool) returns (rc: int)
    requires For(v, events) && v.live == ToChannel(events)
    modifies v
    ensures rc == 0 || rc == 1
    ensures rc == 0 <==> Destroy(Device) !in v.fails && (events ==> Destroy(Channel) !in v.fails)
    ensures v.live == DeviceLeft(events, v.fails)
    ensures rc == 1 ==> Closed(v.p, v.live) && BASE <= v.live
  {
    if events {
      var ok := v.TryRelease(Channel);
      if !ok { return 1; }
    }
    var ok := v.TryRelease(Device);
    if !ok { return 1; }
    v.Release(Buffer);
    v.Release(Struct);
    return 0;
  }

  /** main: a context that was initialised and then closed without a refusal leaves nothing behind. */
  method InitThenClose(events: bool, odp: bool, numQp: nat, fails: set<Call>) returns (v: Library, rc: int)
    ensures rc == 0 ==> v.live == {}
    ensures (forall c :: c in fails ==> !c.Destroy?) ==> v.live == {}
    ensures fails == {} ==> rc == 0
  {
    v := new Library(SrqPingPong(events), fails);
    var ok := InitCtx(v, events, odp, numQp);
    if !ok { return v, 1; }
    rc := CloseCtx(v, events, numQp);
  }
}
