/** The class of RDMA/udp1/udp_server.cpp, proved against module Neighbours, with the text of its hellos. */
module UdpServer {
  import opened DestFormat
  import opened Neighbours
  import opened Runs

  /** get_dest reads into a zeroed app_dest; `gidBuf` and `v0` are what tmp_gid and v32 happen to hold. */
  function GetDest(e: Endian, text: string, gidBuf: string, v0: nat): Dest
    requires Readable(text) && |gidBuf| == GID_TEXT
  {
    ParseText(e, text, Dest(0, 0, 0, []), gidBuf, v0).dest
  }

  const ZEROES: string := seq(GID_TEXT, _ => '\0')

  /** A network of nodes that announce `dests` and have these byte orders. */
  function Network(dests: seq<Dest>, order: Addr -> Endian, lossy: bool): Params {
    Params(dests, (d: Dest) => Record(d),
           (b: Addr, text: string) => if Readable(text) then GetDest(order(b), text, ZEROES, 0) else Dest(0, 0, 0, []),
           lossy)
  }

  /** A hello read on any machine, whatever its variables held, announces what its sender printed. */
  lemma HelloIsRead(e: Endian, d: Dest, gidBuf: string, v0: nat)
    requires |d.gid| == 16 && |gidBuf| == GID_TEXT
    ensures Readable(Record(d)) && GetDest(e, Record(d), gidBuf, v0) == d
  {
    assert Record(d) + "" == Record(d);
    RecordRoundTrip(e, d, "", Dest(0, 0, 0, []), gidBuf, v0);
  }

  /**
   In every run, what a node has stored about a neighbour, read from the text of a hello, is what that
   neighbour announces, whatever the byte orders of the two.
   */
  lemma NeighbourEntriesAreRight(dests: seq<Dest>, order: Addr -> Endian, lossy: bool, s: Net, a: Addr, b: Addr)
    requires (forall d <- dests :: |d.gid| == 16) && a < |dests|
    requires Reachable(Discovery(Network(dests, order, lossy)), s)
    ensures |s.nodes| == |dests|
    ensures b in s.nodes[a].neighbours ==> b < |dests| && s.nodes[a].neighbours[b].dest == dests[b]
  {
    EntriesAreRead(Network(dests, order, lossy), s, a, b);
    if b in s.nodes[a].neighbours {
      assert dests[b] in dests;
      HelloIsRead(order(a), dests[b], ZEROES, 0);
    }
  }

  class ConnectionServer {
    const order: Endian                     // the byte order of the machine
    const helloMsg: string                  // the text of the own destination
    var neighborMap: map<Addr, Neighbour>
    var pendingHello: set<Addr>
    var sent: seq<(Addr, string)>           // datagrams handed to sendto

    ghost function State(): Node
      reads this
    {
      Node(neighborMap, pendingHello)
    }

    constructor (order: Endian, localDest: Dest)
      ensures State() == Node(map[], {}) && sent == [] && this.order == order && helloMsg == Record(localDest)
    {
      this.order, helloMsg := order, Record(localDest);
      neighborMap, pendingHello, sent := map[], {}, [];
    }

    /** send_hello to an address. */
    method SendHello(dest: Addr)
      modifies this`sent
      ensures sent == old(sent) + [(dest, helloMsg)]
    {
      sent := sent + [(dest, helloMsg)];
    }

    /** send_hello(char*): the first hello of an initiator. */
    method SendFirstHello(dest: Addr)
      modifies this`pendingHello, this`sent
      ensures State() == Greet(old(State()), dest)
      ensures sent == old(sent) + [(dest, helloMsg)]
    {
      pendingHello := pendingHello + {dest};
      SendHello(dest);
    }

    method CheckSendingHello(client: Addr)
      modifies this`pendingHello, this`sent
      ensures State() == Toggle(old(State()), client)
      ensures sent == if Answers(old(State()), client) then old(sent) + [(client, helloMsg)] else old(sent)
    {
      if client !in pendingHello {
        pendingHello := pendingHello + {client};
        SendHello(client);
        return;
      }
      pendingHello := pendingHello - {client};
    }

    method AddNeighbor(client: Addr, remDest: Dest, now: nat)
      modifies this
      ensures neighborMap.Keys == old(neighborMap.Keys) + {client}
      ensures neighborMap[client].lastHello == now
      ensures neighborMap[client].dest == if client in old(neighborMap) then old(neighborMap[client].dest) else remDest
      ensures forall a :: a in neighborMap && a != client ==> neighborMap[a] == old(neighborMap)[a]
      ensures State() == Hear(old(State()), client, remDest, now)
      ensures sent == if Answers(old(State()), client) then old(sent) + [(client, helloMsg)] else old(sent)
    {
      if client !in neighborMap {
        neighborMap := neighborMap[client := Neighbour(remDest, now)];
        CheckSendingHello(client);
      } else {
        neighborMap := neighborMap[client := neighborMap[client].(lastHello := now)];
        CheckSendingHello(client);
      }
    }

    /** A datagram is parsed and heard; an empty or failed read changes nothing. */
    method ServerReceiveEvent(len: int, client: Addr, text: string, now: nat, gidBuf: string, v0: nat)
      requires |gidBuf| == GID_TEXT && (len > 0 ==> Readable(text))
      modifies this
      ensures len > 0 ==> State() == Hear(old(State()), client, GetDest(order, text, gidBuf, v0), now)
      ensures len > 0 ==>
        sent == if Answers(old(State()), client) then old(sent) + [(client, helloMsg)] else old(sent)
      ensures len <= 0 ==> State() == old(State()) && sent == old(sent)
    {
      if len > 0 {
        var remDest := GetDest(order, text, gidBuf, v0);
        AddNeighbor(client, remDest, now);
      }
    }
  }
}
