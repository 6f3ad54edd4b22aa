/** The code of the XRC server, proved against the steps of module XrcPingPong. */
module XrcHost {
  import opened XrcPingPong
  import opened QueuePairs

  /** A receive completion; status 0 is success. */
  datatype Wc = Wc(qpNum: int, status: int)

  /** What the server's loop sends for a message from client `i`. */
  function Answer(p: Params, v: Server, i: nat): seq<(nat, Msg)>
    requires p.n >= 1 && i < |v.ppCnt|
  {
    if v.ppCnt[i] < p.t && SlotFree(p, v, i) then [(i, MessageTo(p, i, v.ppCnt[i]))] else []
  }

  /** The protocol's step runs the server's loop once, and what that sends is what the client gets. */
  lemma HandleIsTheStep(p: Params, s: System)
    requires Shaped(p, s) && CanHandle(s)
    ensures var i, s' := s.server.recvCq[0], ServerHandle(p, s);
      var sent := Answer(p, s.server, i);
      && s'.server == ServerLoop(p, s.server)
      && s'.clients == s.clients[i := s.clients[i].(inbox := s.clients[i].inbox + if sent == [] then [] else [sent[0].1])]
  {
    var i := s.server.recvCq[0];
    assert s.clients[i := s.clients[i].(inbox := s.clients[i].inbox + [])] == s.clients by {
      assert s.clients[i].inbox + [] == s.clients[i].inbox;
    }
  }

  // ---------------------------------------------------------------- a stretch of polling

  /** What happens to the server while it polls: a message arrives, or it handles one. */
  datatype Event = Arrive(i: nat) | Handle

  ghost predicate Possible(p: Params, v: Server, e: Event) {
    match e
    case Arrive(i) => v.posted > 0 && i < p.n
    case Handle => p.n >= 1 && v.recvCq != [] && v.recvCq[0] < |v.ppCnt|
  }

  ghost function After(p: Params, v: Server, e: Event): Server
    requires Possible(p, v, e)
  {
    match e
    case Arrive(i) => v.(posted := v.posted - 1, recvCq := v.recvCq + [i])
    case Handle => ServerLoop(p, v)
  }

  ghost function SentBy(p: Params, v: Server, e: Event): seq<(nat, Msg)>
    requires Possible(p, v, e)
  {
    match e case Arrive(_) => [] case Handle => Answer(p, v, v.recvCq[0])
  }

  /** The server after some events, with what it has sent; none if they are not possible. */
  datatype Played = Played(v: Server, sent: seq<(nat, Msg)>) | Impossible

  ghost function Play(p: Params, v: Server, events: seq<Event>): Played {
    if events == [] then Played(v, [])
    else
      var r, e := Play(p, v, events[..|events| - 1]), events[|events| - 1];
      if r.Played? && Possible(p, r.v, e) then Played(After(p, r.v, e), r.sent + SentBy(p, r.v, e)) else Impossible
  }

  lemma OneMore(p: Params, v: Server, events: seq<Event>, r: Played, e: Event)
    requires Play(p, v, events) == r && r.Played? && Possible(p, r.v, e)
    ensures Play(p, v, events + [e]) == Played(After(p, r.v, e), r.sent + SentBy(p, r.v, e))
  {
    assert (events + [e])[..|events|] == events;
  }

  // ---------------------------------------------------------------- find_qp

  /** With one client no search is made, and an unknown number is taken for client 0. */
  function ClientOf(p: Params, recvQpNums: seq<int>, qpn: int): (i: nat)
    requires |recvQpNums| == p.n >= 1
    ensures i < p.n
  {
    if p.n == 1 || qpn !in recvQpNums then 0 else IndexOf(recvQpNums, qpn)
  }

  /** With distinct QP numbers a completion is attributed to the client that sent the message. */
  lemma RightClient(p: Params, recvQpNums: seq<int>, i: nat)
    requires i < |recvQpNums| == p.n
    requires Distinct(recvQpNums)
    ensures ClientOf(p, recvQpNums, recvQpNums[i]) == i
  {
    FindsTheQp(recvQpNums, i);
  }

  ghost predicate Distinct(nums: seq<int>) { forall j, k :: 0 <= j < k < |nums| ==> nums[j] != nums[k] }

  /** Every client's messages are attributed to that client if and only if the numbers are distinct. */
  lemma AttributionIsRightIff(p: Params, recvQpNums: seq<int>)
    requires |recvQpNums| == p.n >= 1
    ensures (forall i: nat :: i < p.n ==> ClientOf(p, recvQpNums, recvQpNums[i]) == i) <==> Distinct(recvQpNums)
  {
    if Distinct(recvQpNums) {
      forall i: nat | i < p.n ensures ClientOf(p, recvQpNums, recvQpNums[i]) == i { RightClient(p, recvQpNums, i); }
    } else {
      var j: nat, k: nat :| j < k < p.n && recvQpNums[j] == recvQpNums[k];
      assert !(ClientOf(p, recvQpNums, recvQpNums[j]) == j && ClientOf(p, recvQpNums, recvQpNums[k]) == k);
    }
  }

  /** The client found has that number if and only if some client has; for any other number it is client 0. */
  lemma FoundIffKnown(p: Params, recvQpNums: seq<int>, qpn: int)
    requires |recvQpNums| == p.n >= 1
    ensures recvQpNums[ClientOf(p, recvQpNums, qpn)] == qpn <==> qpn in recvQpNums
    ensures qpn !in recvQpNums ==> ClientOf(p, recvQpNums, qpn) == 0
  {
    if p.n == 1 && qpn in recvQpNums { assert recvQpNums == [recvQpNums[0]]; }
  }

  function ClientsOf(p: Params, recvQpNums: seq<int>, wcs: seq<Wc>): seq<nat>
    requires |recvQpNums| == p.n >= 1
  {
    seq(|wcs|, k requires 0 <= k < |wcs| => ClientOf(p, recvQpNums, wcs[k].qpNum))
  }

  // ---------------------------------------------------------------- the server's code

  class XrcContext {
    const p: Params
    const recvQpNums: seq<int>
    const ppCnt: array<nat>
    var cnt: nat
    var posted: nat
    var recvCq: seq<Wc>
    var load: multiset<nat>           // entries used in the send queues
    var outgoing: seq<(nat, Msg)>     // messages handed to the NIC, with their destination
    ghost var got: multiset<nat>
    ghost const rest: Server          // what the loop does not touch

    ghost predicate Valid()
      reads this
    {
      |recvQpNums| == p.n == ppCnt.Length && p.n >= 1
    }

    /** The server of module XrcPingPong. */
    ghost function State(): Server
      reads this, ppCnt
      requires Valid()
    {
      rest.(ppCnt := ppCnt[..], cnt := cnt, posted := posted, recvCq := ClientsOf(p, recvQpNums, recvCq),
            got := got, load := load)
    }

    /** ibv_post_srq_recv on a queue of `n` receives. */
    method PostSrqRecv() returns (failed: bool)
      modifies this`posted
      ensures failed <==> old(posted) >= p.n
      ensures posted == if failed then old(posted) else old(posted) + 1
    {
      failed := posted >= p.n;
      if !failed { posted := posted + 1; }
    }

    /** pp_post_recv: gives up at the first failure. */
    method PostRecv(want: nat) returns (failed: bool)
      modifies this`posted
      ensures failed <==> old(posted) + want > p.n && want > 0
      ensures posted == if !failed then old(posted) + want else if old(posted) < p.n then p.n else old(posted)
    {
      var left := want;
      while left > 0
        invariant 0 <= left <= want && posted == old(posted) + (want - left)
        invariant left < want ==> posted <= p.n
      {
        failed := PostSrqRecv();
        if failed { return true; }
        left := left - 1;
      }
      failed := false;
    }

    /** ibv_post_send on the queue of QP `qpi`. */
    method IbvPostSend(qpi: nat, index: nat, signalled: bool) returns (failed: bool)
      modifies this`outgoing, this`load
      ensures failed <==> old(load)[qpi] >= p.n * p.t
      ensures load == if failed then old(load) else old(load) + multiset{qpi}
      ensures outgoing == if failed then old(outgoing) else old(outgoing) + [(index, Msg(qpi, signalled))]
    {
      failed := load[qpi] >= p.n * p.t;
      if !failed {
        load := load + multiset{qpi};
        outgoing := outgoing + [(index, Msg(qpi, signalled))];
      }
    }

    /** pp_post_send counts the message even if it cannot be posted. */
    method PostSend(index: nat) returns (failed: bool)
      requires Valid() && index < p.n
      modifies this`outgoing, this`load, ppCnt
      ensures State() == ServerPost(p, old(State()), index)
      ensures failed <==> !SlotFree(p, old(State()), index)
      ensures outgoing == if failed then old(outgoing)
                          else old(outgoing) + [(index, MessageTo(p, index, old(ppCnt[index])))]
    {
      var qpi := (index + ppCnt[index]) % p.n;
      ppCnt[index] := ppCnt[index] + 1;
      failed := IbvPostSend(qpi, index, ppCnt[index] >= p.t);
      assert ppCnt[..] == old(ppCnt[..])[index := old(ppCnt[index]) + 1];
    }

    /** find_qp. */
    method FindQp(qpn: int) returns (i: nat)
      requires Valid()
      ensures i == ClientOf(p, recvQpNums, qpn)
    {
      if p.n == 1 { return 0; }
      i := 0;
      while i < p.n
        invariant 0 <= i <= p.n
        invariant forall k :: 0 <= k < i ==> recvQpNums[k] != qpn
      {
        if recvQpNums[i] == qpn { return; }
        i := i + 1;
      }
      i := 0;
    }

    /** ibv_poll_cq for one completion: takes it off the queue. */
    method Take() returns (wc: Wc)
      requires Valid() && recvCq != []
      modifies this`recvCq
      ensures wc == old(recvCq[0]) && recvCq == old(recvCq[1..])
      ensures old(State()).recvCq != [] && old(State()).recvCq[0] == ClientOf(p, recvQpNums, wc.qpNum)
      ensures State() == old(State()).(recvCq := old(State()).recvCq[1..])
    {
      wc := recvCq[0];
      recvCq := recvCq[1..];
      assert State().recvCq == old(State()).recvCq[1..];
    }

    /** What the loop does with a completion that it has taken: repost, answer, count. */
    method HandleOne(wc: Wc)
      requires Valid()
      modifies this`posted, this`cnt, this`outgoing, this`load, this`got, ppCnt
      ensures var i := ClientOf(p, recvQpNums, wc.qpNum);
        var before := old(State()).(recvCq := [i] + old(State()).recvCq);
        State() == ServerLoop(p, before) && outgoing == old(outgoing) + Answer(p, before, i)
    {
      var failed := PostRecv(1);
      var qpi := FindQp(wc.qpNum);
      cnt := cnt + 1;
      got := got + multiset{qpi};
      ghost var taken := State();
      assert ([qpi] + old(State()).recvCq)[1..] == old(State()).recvCq;
      assert taken == ServerTake(p, old(State()).(recvCq := [qpi] + old(State()).recvCq));
      if ppCnt[qpi] < p.t { failed := PostSend(qpi); }
    }

    /** The NIC: a message arrives, if a receive is posted. */
    method Arrives(wc: Wc) returns (arrived: bool)
      requires Valid()
      modifies this`recvCq, this`posted
      ensures arrived <==> old(posted) > 0
      ensures !arrived ==> State() == old(State()) && recvCq == old(recvCq)
      ensures arrived ==> recvCq == old(recvCq) + [wc]
      ensures arrived ==> var e := Arrive(ClientOf(p, recvQpNums, wc.qpNum));
                          Possible(p, old(State()), e) && State() == After(p, old(State()), e)
    {
      arrived := posted > 0;
      if arrived {
        posted := posted - 1;
        recvCq := recvCq + [wc];
        assert State().recvCq == old(State()).recvCq + [ClientOf(p, recvQpNums, wc.qpNum)];
      }
    }

    /** Any number of messages arrive between two polls. */
    method ArriveSome(later: seq<Wc>, k: nat, ghost start: Server, ghost events: seq<Event>, ghost sent: seq<(nat, Msg)>)
      returns (k': nat, ghost events': seq<Event>)
      requires Valid() && k <= |later| && Play(p, start, events) == Played(State(), sent)
      modifies this`recvCq, this`posted
      ensures Valid() && k <= k' <= |later| && Play(p, start, events') == Played(State(), sent)
      ensures forall wc :: wc in recvCq ==> wc in old(recvCq) || wc in later
      ensures k' == k ==> recvCq == old(recvCq)
    {
      k', events' := k, events;
      var n: nat :| k <= n <= |later|;
      while k' < n
        invariant Valid() && k <= k' <= |later| && Play(p, start, events') == Played(State(), sent)
        invariant forall wc :: wc in recvCq ==> wc in old(recvCq) || wc in later
        invariant k' == k ==> recvCq == old(recvCq)
      {
        ghost var before := State();
        var arrived := Arrives(later[k']);
        if arrived {
          ghost var e := Arrive(ClientOf(p, recvQpNums, later[k'].qpNum));
          OneMore(p, start, events', Played(before, sent), e);
          assert sent + [] == sent;
          events' := events' + [e];
        }
        k' := k' + 1;
      }
    }

    /** A poll that finds a completion, and what the loop does then. */
    method HandleNext() returns (failed: bool)
      requires Valid() && recvCq != []
      modifies this, ppCnt
      ensures Valid() && recvCq == old(recvCq[1..]) && failed == (old(recvCq[0]).status != 0)
      ensures Possible(p, old(State()), Handle)
      ensures failed ==> State() == old(State()).(recvCq := old(State()).recvCq[1..]) && outgoing == old(outgoing)
      ensures !failed ==>
        State() == After(p, old(State()), Handle) && outgoing == old(outgoing) + SentBy(p, old(State()), Handle)
    {
      ghost var before := State();
      var wc := Take();
      if wc.status != 0 { return true; }
      assert before == State().(recvCq := [before.recvCq[0]] + State().recvCq) by {
        assert before.recvCq == [before.recvCq[0]] + before.recvCq[1..];
      }
      HandleOne(wc);
      return false;
    }

    /**
     The inner loop of main: polls until nothing has arrived, or a completion has a bad status, which is then
     taken off the queue and not handled.  Between the polls messages from `later` may arrive.
     */
    method DrainReceives(later: seq<Wc>)
      returns (failed: bool, ghost events: seq<Event>, ghost r: Played)
      requires Valid()
      modifies this, ppCnt
      ensures Valid() && r == Play(p, old(State()), events) && r.Played? && outgoing == old(outgoing) + r.sent
      ensures !failed ==> recvCq == [] && State() == r.v
      ensures failed ==> r.v.recvCq != [] && State() == r.v.(recvCq := r.v.recvCq[1..])
      ensures (forall wc :: wc in old(recvCq) || wc in later ==> wc.status == 0) ==> !failed
    {
      ghost var start, sent := State(), [];
      events, r := [], Played(start, []);
      var k := 0;
      while true
        invariant Valid() && 0 <= k <= |later|
        invariant r == Played(State(), sent) == Play(p, start, events) && outgoing == old(outgoing) + sent
        invariant forall wc :: wc in recvCq ==> wc in old(recvCq) || wc in later
        decreases |later| - k, |recvCq|
      {
        k, events := ArriveSome(later, k, start, events, sent);
        r := Played(State(), sent);
        if recvCq == [] { return false, events, r; }
        ghost var before := State();
        failed := HandleNext();
        if failed { return; }
        OneMore(p, start, events, r, Handle);
        events, sent := events + [Handle], sent + SentBy(p, before, Handle);
        r := Played(State(), sent);
      }
    }
  }
}
