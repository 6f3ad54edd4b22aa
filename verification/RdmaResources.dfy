/** The resources of RDMA/rdma1.cpp: resources_create with its common exit, and resources_destroy. */
module RdmaResources {
  import opened Provider

  const HANDLES := {Socket, DeviceList, Device, Pd, Cq, Buffer, Mr, Qp(0)}

  const DEVICES := 0    // ibv_get_device_list finds a device
  const MATCH := 1      // one of them has the name that was asked for
  const PORT := 2       // ibv_query_port

  /** struct resources; a field is true when the source's pointer is not null, or the socket not negative. */
  class Resources {
    const v: Library
    var sock: bool
    var ibCtx: bool
    var pd: bool
    var cq: bool
    var buf: bool
    var mr: bool
    var qp: bool

    /** resources_init */
    constructor (v: Library)
      requires v.p == Rdma1 && v.live == {}
      ensures this.v == v && Matches(false) && AllNull()
    {
      this.v := v;
      sock, ibCtx, pd, cq, buf, mr, qp := false, false, false, false, false, false, false;
    }

    ghost predicate AllNull()
      reads this
    {
      !sock && !ibCtx && !pd && !cq && !buf && !mr && !qp
    }

    /** The fields name exactly what is live. */
    ghost predicate Matches(devList: bool)
      reads this, v
    {
      && v.p == Rdma1 && v.live <= HANDLES
      && (Socket in v.live <==> sock) && (DeviceList in v.live <==> devList) && (Device in v.live <==> ibCtx)
      && (Pd in v.live <==> pd) && (Cq in v.live <==> cq) && (Buffer in v.live <==> buf)
      && (Mr in v.live <==> mr) && (Qp(0) in v.live <==> qp)
    }

    /** resources_create up to the point where the device list is freed. */
    method OpenDevice() returns (rc: int, devList: bool)
      requires Matches(false) && AllNull()
      modifies this`sock, this`ibCtx, v
      ensures Matches(devList)
      ensures rc == 0 <==>
        && (forall h :: h in {Socket, DeviceList, Device} ==> Create(h) !in v.fails)
        && Query(DEVICES) !in v.fails && Query(MATCH) !in v.fails
      ensures rc == 0 ==> sock && ibCtx && !devList
    {
      devList := false;
      sock := v.Acquire(Socket);
      if !sock { return -1, devList; }
      devList := v.Acquire(DeviceList);
      if !devList { return 1, devList; }
      var ok := v.Ask(DEVICES);
      if !ok { return 1, devList; }
      ok := v.Ask(MATCH);
      if !ok { return 1, devList; }
      ibCtx := v.Acquire(Device);
      if !ibCtx { return 1, devList; }
      v.Release(DeviceList);
      return 0, false;
    }

    /** resources_create: the port, the protection domain and the completion queue. */
    method CreateQueue() returns (rc: int)
      requires Matches(false) && ibCtx && !pd && !cq && !buf && !mr && !qp
      modifies this`pd, this`cq, v
      ensures Matches(false)
      ensures rc == 0 <==> Query(PORT) !in v.fails && Create(Pd) !in v.fails && Create(Cq) !in v.fails
      ensures rc == 0 ==> pd && cq
    {
      var ok := v.Ask(PORT);
      if !ok { return 1; }
      pd := v.Acquire(Pd);
      if !pd { return 1; }
      cq := v.Acquire(Cq);
      return if cq then 0 else 1;
    }

    /** resources_create: the buffer, its registration and the queue pair. */
    method CreateRegion() returns (rc: int)
      requires Matches(false) && pd && cq && !buf && !mr && !qp
      modifies this`buf, this`mr, this`qp, v
      ensures Matches(false)
      ensures rc == 0 <==> Create(Buffer) !in v.fails && Create(Mr) !in v.fails && Create(Qp(0)) !in v.fails
      ensures rc == 0 ==> buf && mr && qp
    {
      buf := v.Acquire(Buffer);
      if !buf { return 1; }
      mr := v.Acquire(Mr);
      if !mr { return 1; }
      qp := v.Acquire(Qp(0));
      return if qp then 0 else 1;
    }

    /** resources_create_exit: whatever is set is released and set to null. */
    method Undo(devList: bool)
      requires Matches(devList)
      modifies this, v
      ensures AllNull() && v.live == {}
    {
      UndoRegion(devList);
      UndoDevice(devList);
    }

    method UndoRegion(ghost devList: bool)
      requires Matches(devList)
      modifies this`qp, this`mr, this`buf, v
      ensures !qp && !mr && !buf && v.live == old(v.live) - {Qp(0), Mr, Buffer}
    {
      if qp {
        v.Release(Qp(0));
        qp := false;
      }
      if mr {
        v.Release(Mr);
        mr := false;
      }
      if buf {
        v.Release(Buffer);
        buf := false;
      }
    }

    method UndoDevice(devList: bool)
      requires Matches(devList) && !qp && !mr && !buf
      modifies this`cq, this`pd, this`ibCtx, this`sock, v
      ensures !cq && !pd && !ibCtx && !sock && v.live == {}
    {
      if cq {
        v.Release(Cq);
        cq := false;
      }
      if pd {
        v.Release(Pd);
        pd := false;
      }
      if ibCtx {
        v.Release(Device);
        ibCtx := false;
      }
      if devList { v.Release(DeviceList); }
      if sock {
        v.Release(Socket);
        sock := false;
      }
    }

    /** resources_create: all of it, or after a failure at any point nothing, with every field null again. */
    method CreateAll() returns (rc: int)
      requires Matches(false) && AllNull()
      modifies this, v
      ensures Matches(false)
      ensures rc == 0 <==>
        && (forall h :: h in HANDLES ==> Create(h) !in v.fails)
        && Query(DEVICES) !in v.fails && Query(MATCH) !in v.fails && Query(PORT) !in v.fails
      ensures rc == 0 ==> sock && ibCtx && pd && cq && buf && mr && qp
      ensures rc != 0 ==> AllNull() && v.live == {}
    {
      var devList;
      rc, devList := OpenDevice();
      if rc == 0 { rc := CreateQueue(); }
      if rc == 0 { rc := CreateRegion(); }
      if rc != 0 { Undo(devList); }
    }

    predicate Refused(h: Handle) { Destroy(h) in v.fails }

    // What resources_destroy leaves: a handle that the library refuses to release, and what it is created on.

    predicate KeepsQp() reads this { qp && Refused(Qp(0)) }
    predicate KeepsMr() reads this { mr && Refused(Mr) }
    predicate KeepsCq() reads this { cq && (Refused(Cq) || KeepsQp()) }
    predicate KeepsPd() reads this { pd && (Refused(Pd) || KeepsQp() || KeepsMr()) }
    predicate KeepsDevice() reads this { ibCtx && (Refused(Device) || KeepsCq() || KeepsPd()) }
    predicate KeepsSock() reads this { sock && Refused(Socket) }

    /** A field is set only if the fields that its handle is created on are. */
    predicate Nested()
      reads this
    {
      (qp ==> pd && cq) && (mr ==> pd && buf) && (pd ==> ibCtx) && (cq ==> ibCtx)
    }

    ghost predicate LeavesRegion()
      reads this, v
    {
      && v.p == Rdma1 && v.live <= HANDLES && DeviceList !in v.live && Buffer !in v.live
      && (Qp(0) in v.live <==> KeepsQp()) && (Mr in v.live <==> KeepsMr())
    }

    /** Exactly what is kept is live. */
    ghost predicate Leaves()
      reads this, v
    {
      && LeavesRegion()
      && (Cq in v.live <==> KeepsCq()) && (Pd in v.live <==> KeepsPd())
      && (Device in v.live <==> KeepsDevice()) && (Socket in v.live <==> KeepsSock())
    }

    /**
     The buffer is freed under a live registration if and only if the registration was there and could not be
     released; nothing else is ever missing under a live handle.
     */
    lemma FreedUnderRegistrationIff()
      requires Leaves() && Nested()
      ensures (Mr in v.live && Buffer !in v.live) <==> (mr && Refused(Mr))
      ensures Closed(v.p, v.live) <==> !(mr && Refused(Mr))
    {
      if KeepsMr() {
        assert Buffer in On(v.p, Mr);
      } else {
        forall g | g in v.live ensures On(v.p, g) <= v.live { assert g in HANDLES; }
      }
    }

    /** resources_destroy goes on after a refusal; it frees the buffer even if its registration stays. */
    method DestroyAll() returns (rc: int)
      requires Matches(false)
      modifies v
      ensures Leaves() && (rc == 0 || rc == 1)
      ensures rc == 0 <==> v.live == {}
    {
      var region := DestroyRegion();
      var queues := DestroyQueues();
      var others := DestroyOthers();
      rc := if region + queues + others > 0 then 1 else 0;
    }

    method DestroyQueues() returns (rc: int)
      requires LeavesRegion() && (cq <==> Cq in v.live) && (pd <==> Pd in v.live)
      modifies v
      ensures LeavesRegion() && (Cq in v.live <==> KeepsCq()) && (Pd in v.live <==> KeepsPd())
      ensures Device in v.live <==> Device in old(v.live)
      ensures Socket in v.live <==> Socket in old(v.live)
      ensures rc == if KeepsCq() || KeepsPd() then 1 else 0
    {
      rc := 0;
      if cq {
        var ok := v.TryRelease(Cq);
        if !ok { rc := 1; }
      }
      if pd {
        var ok := v.TryRelease(Pd);
        if !ok { rc := 1; }
      }
    }

    method DestroyOthers() returns (rc: int)
      requires LeavesRegion() && (Cq in v.live <==> KeepsCq()) && (Pd in v.live <==> KeepsPd())
      requires (ibCtx <==> Device in v.live) && (sock <==> Socket in v.live)
      modifies v
      ensures Leaves() && rc == if KeepsDevice() || KeepsSock() then 1 else 0
    {
      rc := 0;
      if ibCtx {
        var ok := v.TryRelease(Device);
        if !ok { rc := 1; }
      }
      if sock {
        var ok := v.TryRelease(Socket);
        if !ok { rc := 1; }
      }
    }

    method DestroyRegion() returns (rc: int)
      requires Matches(false)
      modifies v
      ensures LeavesRegion() && v.live >= old(v.live) - {Qp(0), Mr, Buffer}
      ensures rc == if KeepsQp() || KeepsMr() then 1 else 0
      ensures v.live <= old(v.live)
    {
      rc := 0;
      if qp {
        var ok := v.TryRelease(Qp(0));
        if !ok { rc := 1; }
      }
      if mr {
        var ok := v.TryRelease(Mr);
        if !ok { rc := 1; }
      }
      if buf { v.Free(Buffer); }
    }
  }

  /** main: resources_destroy is called also after a failed resources_create, which leaves it nothing to do. */
  method CreateAndDestroy(fails: set<Call>) returns (v: Library, created: int, destroyed: int)
    ensures created != 0 ==> destroyed == 0
    ensures destroyed == 0 ==> v.live == {}
    ensures (forall c :: c in fails ==> !c.Destroy?) ==> destroyed == 0
  {
    v := new Library(Rdma1, fails);
    var res := new Resources(v);
    created := res.CreateAll();
    destroyed := res.DestroyAll();
    assert destroyed == 0 ==> v.live == {};
  }

  /** One refused call: the registration stays live without its buffer. */
  method RefusedRegistration() returns (v: Library, rc: int)
    ensures v.fails == {Destroy(Mr)} && rc == 1
    ensures Mr in v.live && Buffer !in v.live && !Closed(v.p, v.live)
  {
    v := new Library(Rdma1, {Destroy(Mr)});
    var res := new Resources(v);
    var created := res.CreateAll();
    rc := res.DestroyAll();
    res.FreedUnderRegistrationIff();
  }
}
