/** Leaving out any of the three one-byte syncs of RDMA/rdma1.cpp lets some run go wrong. */
module RdmaSyncs {
  import opened Runs
  import opened RdmaBarriers
  import opened RdmaTheorems

  ghost function ReachableOf(p: Params): State -> bool { (s: State) => Reachable(Program(p), s) }

  lemma ReachableInductive(p: Params)
    ensures Inductive(Program(p), ReachableOf(p))
  {
    InitReachable(Program(p));
    forall s, a | Reachable(Program(p), s) && Enabled(p, s, a) ensures Reachable(Program(p), Next(p, s, a)) {
      StepReachable(Program(p), s, a);
    }
  }

  // The runs below are followed for any `inv` that starts true and is kept by every step.

  lemma Go(p: Params, inv: State -> bool, s: State, a: Step) returns (t: State)
    requires Inductive(Program(p), inv) && inv(s) && Enabled(p, s, a)
    ensures inv(t) && t == Apply(p, s, a)
  {
    t := Apply(p, s, a);
    assert Program(p).apply(s, a) == t;
  }

  ghost predicate Comparable(p: Params) { p.without <= {'Q', 'R', 'W'} }

  /** A server that waits for nothing and has printed nothing. */
  function Srv(pc: nat, buf: string, sq: Stage): Side { Side(pc, ReadyToSend, true, buf, 0, sq, 0, "", []) }

  /** A connected client. */
  function Cli(pc: nat, buf: string, posted: nat, sq: Stage, shown: seq<string>): Side {
    Side(pc, ReadyToSend, true, buf, posted, sq, 0, "", shown)
  }

  lemma ServerKnows(p: Params, inv: State -> bool) returns (s: State)
    requires Inductive(Program(p), inv) && Comparable(p)
    ensures inv(s)
    ensures s == State(Side(2, Reset, true, p.m.send, 0, Idle, 0, "", []),
                       Side(1, Reset, false, "", 0, Idle, 0, "C", []), {})
  {
    s := Init(p.m);
    assert Program(p).init == s;
    s := Go(p, inv, s, Cpu(Client));
    s := Go(p, inv, s, Cpu(Server));
    s := Go(p, inv, s, Cpu(Server));
  }

  lemma ServerReady(p: Params, inv: State -> bool) returns (s: State)
    requires Inductive(Program(p), inv) && Comparable(p)
    ensures inv(s)
    ensures s == State(Srv(5, p.m.send, Idle), Side(1, Reset, false, "", 0, Idle, 0, "C", []), {})
  {
    s := ServerKnows(p, inv);
    s := Go(p, inv, s, Cpu(Server));
    s := Go(p, inv, s, Cpu(Server));
    s := Go(p, inv, s, Cpu(Server));
  }

  /** Without Q the SEND can arrive before the client's queue pair is ready. */
  lemma WithoutQ(p: Params, inv: State -> bool) returns (s: State)
    requires Inductive(Program(p), inv) && Comparable(p) && 'Q' in p.without
    ensures inv(s) && PeerNotReady in s.faults && ReceiverNotReady in s.faults
  {
    s := ServerReady(p, inv);
    s := Go(p, inv, s, Cpu(Server));
    s := Go(p, inv, s, Cpu(Server));
    s := Go(p, inv, s, Cpu(Server));
    s := Go(p, inv, s, Execute(Server));
  }

  lemma ClientPosted(p: Params, inv: State -> bool) returns (s: State)
    requires Inductive(Program(p), inv) && Comparable(p)
    ensures inv(s)
    ensures s == State(Srv(5, p.m.send, Idle), Side(4, Initial, true, "", 1, Idle, 0, "", []), {})
  {
    s := ServerReady(p, inv);
    s := Go(p, inv, s, Cpu(Client));
    s := Go(p, inv, s, Cpu(Client));
    s := Go(p, inv, s, Cpu(Client));
  }

  lemma ClientWroteQ(p: Params, inv: State -> bool) returns (s: State)
    requires Inductive(Program(p), inv) && Comparable(p) && 'Q' !in p.without
    ensures inv(s)
    ensures s == State(Srv(5, p.m.send, Idle).(socket := "Q"), Cli(7, "", 1, Idle, []), {})
  {
    s := ClientPosted(p, inv);
    s := Go(p, inv, s, Cpu(Client));
    s := Go(p, inv, s, Cpu(Client));
    s := Go(p, inv, s, Cpu(Client));
  }

  lemma Connected(p: Params, inv: State -> bool) returns (s: State)
    requires Inductive(Program(p), inv) && Comparable(p) && 'Q' !in p.without
    ensures inv(s)
    ensures s == State(Srv(7, p.m.send, Idle), Cli(8, "", 1, Idle, []), {})
  {
    s := ClientWroteQ(p, inv);
    s := Go(p, inv, s, Cpu(Server));
    s := Go(p, inv, s, Cpu(Server));
    s := Go(p, inv, s, Cpu(Client));
  }

  lemma MessageShown(p: Params, inv: State -> bool) returns (s: State)
    requires Inductive(Program(p), inv) && Comparable(p) && 'Q' !in p.without
    ensures inv(s)
    ensures s == State(Srv(8, p.m.send, Executed), Cli(10, p.m.send, 0, Idle, [p.m.send]), {})
  {
    s := Connected(p, inv);
    s := Go(p, inv, s, Cpu(Server));
    s := Go(p, inv, s, Execute(Server));
    s := Go(p, inv, s, Cpu(Client));
    s := Go(p, inv, s, Cpu(Client));
  }

  lemma EarlyRead(p: Params, inv: State -> bool) returns (s: State)
    requires Inductive(Program(p), inv) && Comparable(p) && 'Q' !in p.without && 'R' in p.without
    ensures inv(s)
    ensures s == State(Srv(8, p.m.send, Executed), Cli(13, p.m.send, 0, Queued(RdmaRead), [p.m.send]), {})
  {
    s := MessageShown(p, inv);
    s := Go(p, inv, s, Cpu(Client));
    s := Go(p, inv, s, Cpu(Client));
    s := Go(p, inv, s, Cpu(Client));
  }

  /** Without R the client can read the server's buffer before the second message is in it. */
  lemma WithoutR(p: Params, inv: State -> bool) returns (s: State)
    requires Inductive(Program(p), inv) && Comparable(p) && 'Q' !in p.without && 'R' in p.without
    ensures inv(s) && s.client.shown == [p.m.send, p.m.send]
  {
    s := EarlyRead(p, inv);
    s := Go(p, inv, s, Execute(Client));
    s := Go(p, inv, s, Complete(Client));
    s := Go(p, inv, s, Cpu(Client));
    s := Go(p, inv, s, Cpu(Client));
  }

  lemma ServerCopied(p: Params, inv: State -> bool) returns (s: State)
    requires Inductive(Program(p), inv) && Comparable(p) && 'Q' !in p.without
    ensures inv(s)
    ensures s == State(Srv(10, p.m.read, Idle), Cli(10, p.m.send, 0, Idle, [p.m.send]), {})
  {
    s := MessageShown(p, inv);
    s := Go(p, inv, s, Complete(Server));
    s := Go(p, inv, s, Cpu(Server));
    s := Go(p, inv, s, Cpu(Server));
  }

  lemma ServerPassedR(p: Params, inv: State -> bool) returns (s: State)
    requires Inductive(Program(p), inv) && Comparable(p) && 'Q' !in p.without && 'R' !in p.without
    ensures inv(s)
    ensures s == State(Srv(12, p.m.read, Idle), Cli(11, p.m.send, 0, Idle, [p.m.send]).(socket := "R"), {})
  {
    s := ServerCopied(p, inv);
    s := Go(p, inv, s, Cpu(Client));
    s := Go(p, inv, s, Cpu(Server));
    s := Go(p, inv, s, Cpu(Server));
  }

  /** Without W the server can print its buffer before the client has written it. */
  lemma WithoutW(p: Params, inv: State -> bool) returns (s: State)
    requires Inductive(Program(p), inv) && Comparable(p) && 'Q' !in p.without && 'R' !in p.without && 'W' in p.without
    ensures inv(s) && s.server.shown == [p.m.read]
  {
    s := ServerPassedR(p, inv);
    s := Go(p, inv, s, Cpu(Server));
    s := Go(p, inv, s, Cpu(Server));
    s := Go(p, inv, s, Cpu(Server));
  }

  /** Three different messages, as in the source: then the program is right exactly if it has all three syncs. */
  lemma EverySyncIsNeeded(p: Params)
    requires Comparable(p) && p.m.send != p.m.read && p.m.read != p.m.write
    ensures (forall s :: Reachable(Program(p), s) ==> Right(p.m, s)) <==> p.without == {}
  {
    if p.without == {} {
      forall s | Reachable(Program(p), s) ensures Right(p.m, s) {
        assert p == Full(p.m);
        AllIsRight(p.m, s);
      }
    } else {
      var s := GoesWrong(p);
    }
  }

  lemma GoesWrong(p: Params) returns (s: State)
    requires Comparable(p) && p.m.send != p.m.read && p.m.read != p.m.write && p.without != {}
    ensures Reachable(Program(p), s) && !Right(p.m, s)
  {
    ReachableInductive(p);
    if 'Q' in p.without {
      s := WithoutQ(p, ReachableOf(p));
    } else if 'R' in p.without {
      s := WithoutR(p, ReachableOf(p));
      assert s.client.shown[1] != ClientPrints(p.m)[1];
    } else {
      assert 'W' in p.without;
      s := WithoutW(p, ReachableOf(p));
      assert s.server.shown[0] != ServerPrints(p.m)[0];
    }
  }
}
