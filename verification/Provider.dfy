/** What the programs acquire and release: the allocator, the socket layer and the verbs library. */
module Provider {

  datatype Handle = Struct | Buffer | Socket | DeviceList | Device | Channel | Pd | Mr | Cq | Srq | Qp(i: nat)

  datatype Program = SrqPingPong(events: bool) | Rdma1

  /** What a handle is created on, as the calls of the two programs name it. */
  function On(p: Program, h: Handle): set<Handle> {
    match h
    case Channel => {Device}
    case Pd => {Device}
    case Mr => {Pd, Buffer}
    case Cq => if p.SrqPingPong? && p.events then {Device, Channel} else {Device}
    case Srq => {Pd}
    case Qp(_) => if p.SrqPingPong? then {Pd, Cq, Srq} else {Pd, Cq}
    case _ => {}
  }

  predicate Unused(p: Program, live: set<Handle>, h: Handle) { forall g :: g in live ==> h !in On(p, g) }

  /** Everything that a live handle needs is live. */
  predicate Closed(p: Program, live: set<Handle>) { forall g :: g in live ==> On(p, g) <= live }

  /** The calls that can fail; `Query` stands for those that only ask or change a state. */
  datatype Call = Create(h: Handle) | Destroy(h: Handle) | Query(i: int)

  class Library {
    const p: Program
    const fails: set<Call>   // the calls that fail in this run
    var live: set<Handle>

    constructor (p: Program, fails: set<Call>)
      ensures live == {} && this.p == p && this.fails == fails
    {
      live := {};
      this.p, this.fails := p, fails;
    }

    method Acquire(h: Handle) returns (ok: bool)
      requires h !in live && On(p, h) <= live
      modifies this
      ensures ok <==> Create(h) !in fails
      ensures live == old(live) + if ok then {h} else {}
    {
      ok := Create(h) !in fails;
      if ok { live := live + {h}; }
    }

    method Ask(i: int) returns (ok: bool)
      ensures ok <==> Query(i) !in fails
    {
      ok := Query(i) !in fails;
    }

    /** Releasing takes a live handle that nothing uses any more. */
    method Release(h: Handle)
      requires h in live && Unused(p, live, h)
      modifies this
      ensures live == old(live) - {h}
    {
      live := live - {h};
    }

    /** free(3) does not ask whether something still uses the memory. */
    method Free(h: Handle)
      requires h in live
      modifies this
      ensures live == old(live) - {h}
    {
      live := live - {h};
    }

    /** Where the caller looks at the result: the library also refuses to release what is in use. */
    method TryRelease(h: Handle) returns (ok: bool)
      requires h in live
      modifies this
      ensures ok <==> Destroy(h) !in fails && Unused(p, old(live), h)
      ensures live == old(live) - if ok then {h} else {}
    {
      ok := Destroy(h) !in fails && Unused(p, live, h);
      if ok { live := live - {h}; }
    }
  }

  /** The first k queue pairs. */
  function FirstQps(k: nat): (qps: set<Handle>)
    ensures forall h :: h in qps <==> h.Qp? && h.i < k
  {
    if k == 0 then {} else FirstQps(k - 1) + {Qp(k - 1)}
  }
}
