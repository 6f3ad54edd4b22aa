/**
 Neighbour discovery of RDMA/udp1/udp_server.cpp.  Nodes greet each other with hello datagrams; a node
 that hears from an address either answers or, if it has a hello of its own pending there, absorbs the
 greeting.  The network may deliver hellos in any order, duplicate them and, when `lossy`, drop them.
 */
module Neighbours {
  import opened DestFormat
  import opened Runs

  type Addr = nat

  datatype Neighbour = Neighbour(dest: Dest, lastHello: nat)

  /** The fields of ConnectionServer. */
  datatype Node = Node(neighbours: map<Addr, Neighbour>, pending: set<Addr>)

  // ---------------------------------------------------------------- the node's code

  /** add_neighbor: a known address keeps its destination and gets a new time. */
  function Learn(x: Node, from: Addr, dest: Dest, now: nat): Node {
    if from in x.neighbours then x.(neighbours := x.neighbours[from := x.neighbours[from].(lastHello := now)])
    else x.(neighbours := x.neighbours[from := Neighbour(dest, now)])
  }

  /** check_sending_hello. */
  function Toggle(x: Node, from: Addr): Node {
    x.(pending := if from in x.pending then x.pending - {from} else x.pending + {from})
  }

  /** server_receive_event, without the answer. */
  function Hear(x: Node, from: Addr, dest: Dest, now: nat): Node { Toggle(Learn(x, from, dest, now), from) }

  predicate Answers(x: Node, from: Addr) { from !in x.pending }

  /** send_hello(char*): the first hello to an address. */
  function Greet(x: Node, to: Addr): Node { x.(pending := x.pending + {to}) }

  // ---------------------------------------------------------------- the network

  datatype Hello = Hello(from: Addr, to: Addr, text: string)

  /**
   `dests[a]` is the destination that node `a` announces; `show` makes the text of a hello and `parse(b, text)`
   is what node `b` makes of it.
   */
  datatype Params = Params(dests: seq<Dest>, show: Dest -> string, parse: (Addr, string) -> Dest, lossy: bool)

  /** hello_msg, which a node puts into all its hellos. */
  function HelloOf(p: Params, a: Addr, b: Addr): Hello
    requires a < |p.dests|
  {
    Hello(a, b, p.show(p.dests[a]))
  }

  datatype Net = Net(
    nodes: seq<Node>, flight: multiset<Hello>, clock: nat,
    initiated: set<(Addr, Addr)>,   // history: who has greeted whom of its own accord
    heard: seq<Hello>)              // history: the hellos delivered, one at each tick of the clock

  datatype Step = Initiate(a: Addr, b: Addr) | Deliver(h: Hello) | Lose(h: Hello) | Duplicate(h: Hello)

  predicate Enabled(p: Params, s: Net, x: Step) {
    |s.nodes| == |p.dests| &&
    match x
    case Initiate(a, b) => a < |p.dests| && b < |p.dests|
    case Deliver(h) => h in s.flight && h.from < |p.dests| && h.to < |p.dests|
    case Lose(h) => p.lossy && h in s.flight
    case Duplicate(h) => h in s.flight
  }

  function Apply(p: Params, s: Net, x: Step): Net
    requires Enabled(p, s, x)
  {
    match x
    case Initiate(a, b) =>
      s.(nodes := s.nodes[a := Greet(s.nodes[a], b)], flight := s.flight + multiset{HelloOf(p, a, b)},
         initiated := s.initiated + {(a, b)})
    case Deliver(h) =>
      var node := s.nodes[h.to];
      var left := s.flight - multiset{h};
      s.(nodes := s.nodes[h.to := Hear(node, h.from, p.parse(h.to, h.text), s.clock)],
         flight := if Answers(node, h.from) then left + multiset{HelloOf(p, h.to, h.from)} else left,
         clock := s.clock + 1, heard := s.heard + [h])
    case Lose(h) => s.(flight := s.flight - multiset{h})
    case Duplicate(h) => s.(flight := s.flight + multiset{h})
  }

  function Next(p: Params, s: Net, x: Step): Net { if Enabled(p, s, x) then Apply(p, s, x) else s }

  function Init(p: Params): Net {
    Net(seq(|p.dests|, _ => Node(map[], {})), multiset{}, 0, {}, [])
  }

  function Discovery(p: Params): Machine<Net, Step> {
    Machine(Init(p), (s, x) => Enabled(p, s, x), (s, x) => Next(p, s, x))
  }

  /** The same network once nobody initiates any more. */
  function Settling(p: Params, s: Net): Machine<Net, Step> {
    Machine(s, (t: Net, x: Step) => !x.Initiate? && Enabled(p, t, x), (t, x) => Next(p, t, x))
  }

  // ---------------------------------------------------------------- neighbours are mutual

  predicate Quiet(s: Net) { s.flight == multiset{} }

  ghost predicate Mutual(s: Net) {
    forall a: Addr, b: Addr :: a < |s.nodes| && b < |s.nodes| ==>
      (b in s.nodes[a].neighbours <==> a in s.nodes[b].neighbours)
  }

  ghost predicate Shaped(p: Params, s: Net) {
    && |s.nodes| == |p.dests|
    && (forall h :: h in s.flight ==> h.from < |p.dests| && h.to < |p.dests| && h == HelloOf(p, h.from, h.to))
    && (forall a: Addr :: a < |p.dests| ==> NodeShaped(p, a, s.nodes[a]))
  }

  ghost predicate NodeShaped(p: Params, a: Addr, x: Node) {
    && (forall b :: b in x.pending ==> b < |p.dests|)
    && (forall b :: b in x.neighbours ==>
          b < |p.dests| && x.neighbours[b].dest == p.parse(a, p.show(p.dests[b])))
  }

  ghost predicate Arrived(p: Params, s: Net, a: Addr, b: Addr)
    requires a < |p.dests| && b < |s.nodes|
  {
    HelloOf(p, a, b) in s.flight || a in s.nodes[b].neighbours
  }

  /** Whoever is pending at, known to or greeted by a node has been sent a hello that is in flight or arrived. */
  ghost predicate HasSent(p: Params, s: Net, a: Addr, b: Addr)
    requires a < |p.dests| == |s.nodes| && b < |s.nodes|
  {
    b in s.nodes[a].pending || b in s.nodes[a].neighbours || (a, b) in s.initiated ==> Arrived(p, s, a, b)
  }

  predicate Introduced(s: Net, a: Addr, b: Addr) { (a, b) in s.initiated || (b, a) in s.initiated }

  /** Nobody hears of anybody without an initiation. */
  ghost predicate NoStrangers(s: Net) {
    && (forall h :: h in s.flight ==> Introduced(s, h.from, h.to))
    && (forall a: Addr, b: Addr :: a < |s.nodes| && (b in s.nodes[a].pending || b in s.nodes[a].neighbours) ==>
          Introduced(s, a, b))
  }

  ghost predicate Inv(p: Params, s: Net) {
    && Shaped(p, s) && NoStrangers(s)
    && (!p.lossy ==> forall a: Addr, b: Addr :: a < |p.dests| && b < |p.dests| ==> HasSent(p, s, a, b))
  }

  /** A hello in flight was in flight before, or was just sent. */
  lemma NewHellos(p: Params, s: Net, x: Step, h: Hello)
    requires Enabled(p, s, x) && h in Apply(p, s, x).flight
    ensures h in s.flight || (x.Initiate? && h == HelloOf(p, x.a, x.b))
            || (x.Deliver? && h == HelloOf(p, x.h.to, x.h.from))
  {
  }

  lemma NodeShapedStep(p: Params, s: Net, x: Step, a: Addr)
    requires Shaped(p, s) && Enabled(p, s, x) && a < |p.dests|
    ensures NodeShaped(p, a, Apply(p, s, x).nodes[a])
  {
    assert NodeShaped(p, a, s.nodes[a]);
  }

  lemma ShapedStep(p: Params, s: Net, x: Step)
    requires Shaped(p, s) && Enabled(p, s, x)
    ensures Shaped(p, Apply(p, s, x))
  {
    var s' := Apply(p, s, x);
    forall h | h in s'.flight ensures h.from < |p.dests| && h.to < |p.dests| && h == HelloOf(p, h.from, h.to) {
      NewHellos(p, s, x, h);
    }
    forall a: Addr | a < |p.dests| ensures NodeShaped(p, a, s'.nodes[a]) { NodeShapedStep(p, s, x, a); }
  }

  lemma NoStrangerHellos(p: Params, s: Net, x: Step, h: Hello)
    requires Shaped(p, s) && NoStrangers(s) && Enabled(p, s, x) && h in Apply(p, s, x).flight
    ensures Introduced(Apply(p, s, x), h.from, h.to)
  {
    NewHellos(p, s, x, h);
  }

  /** A node gets new entries only by greeting and by hearing. */
  lemma NewEntries(p: Params, s: Net, x: Step, a: Addr, b: Addr)
    requires Enabled(p, s, x) && a < |s.nodes|
    requires var node := Apply(p, s, x).nodes[a]; b in node.pending || b in node.neighbours
    ensures b in s.nodes[a].pending || b in s.nodes[a].neighbours || x == Initiate(a, b)
            || (x.Deliver? && x.h.to == a && x.h.from == b)
  {
  }

  lemma NoStrangersStep(p: Params, s: Net, x: Step)
    requires Shaped(p, s) && NoStrangers(s) && Enabled(p, s, x)
    ensures NoStrangers(Apply(p, s, x))
  {
    var s' := Apply(p, s, x);
    assert s.initiated <= s'.initiated;
    forall h | h in s'.flight ensures Introduced(s', h.from, h.to) { NoStrangerHellos(p, s, x, h); }
    forall a: Addr, b: Addr | a < |s'.nodes| && (b in s'.nodes[a].pending || b in s'.nodes[a].neighbours)
      ensures Introduced(s', a, b)
    {
      NewEntries(p, s, x, a, b);
    }
  }

  /** A hello that is in flight or arrived stays so. */
  lemma ArrivedStep(p: Params, s: Net, x: Step, a: Addr, b: Addr)
    requires Shaped(p, s) && !p.lossy && Enabled(p, s, x) && a < |p.dests| && b < |p.dests|
    ensures Arrived(p, s, a, b) ==> Arrived(p, Apply(p, s, x), a, b)
  {
  }

  /** Whoever hears a hello answers it, or has greeted before. */
  lemma AnswerIsSent(p: Params, s: Net, a: Addr, b: Addr)
    requires Inv(p, s) && !p.lossy && a < |p.dests| && b < |p.dests| && HelloOf(p, b, a) in s.flight
    ensures Arrived(p, Apply(p, s, Deliver(HelloOf(p, b, a))), a, b)
  {
    assert HasSent(p, s, a, b);
    ArrivedStep(p, s, Deliver(HelloOf(p, b, a)), a, b);
  }

  lemma GreetingIsSent(p: Params, s: Net, a: Addr, b: Addr)
    requires Enabled(p, s, Initiate(a, b))
    ensures Arrived(p, Apply(p, s, Initiate(a, b)), a, b)
  {
  }

  lemma HasSentStep(p: Params, s: Net, x: Step, a: Addr, b: Addr)
    requires Inv(p, s) && !p.lossy && Enabled(p, s, x) && a < |p.dests| && b < |p.dests|
    ensures HasSent(p, Apply(p, s, x), a, b)
  {
    var s' := Apply(p, s, x);
    if x == Initiate(a, b) {
      GreetingIsSent(p, s, a, b);
    } else if x.Deliver? && x.h.to == a && x.h.from == b {
      assert x.h == HelloOf(p, b, a);
      AnswerIsSent(p, s, a, b);
    } else {
      assert HasSent(p, s, a, b);
      ArrivedStep(p, s, x, a, b);
      if b in s'.nodes[a].pending || b in s'.nodes[a].neighbours { NewEntries(p, s, x, a, b); }
    }
  }

  lemma StepInv(p: Params, s: Net, x: Step)
    requires Inv(p, s) && Enabled(p, s, x)
    ensures Inv(p, Apply(p, s, x))
  {
    ShapedStep(p, s, x);
    NoStrangersStep(p, s, x);
    if !p.lossy {
      forall a: Addr, b: Addr | a < |p.dests| && b < |p.dests| ensures HasSent(p, Apply(p, s, x), a, b) {
        HasSentStep(p, s, x, a, b);
      }
    }
  }

  ghost function InvOf(p: Params): Net -> bool { s => Inv(p, s) }

  lemma InvInEveryRun(p: Params, s: Net)
    requires Reachable(Discovery(p), s)
    ensures Inv(p, s)
  {
    var m := Discovery(p);
    forall s, x | InvOf(p)(s) && m.enabled(s, x) ensures InvOf(p)(m.apply(s, x)) { StepInv(p, s, x); }
    ReachableKeeps(m, InvOf(p), s);
  }

  lemma QuietIsMutual(p: Params, s: Net)
    requires Inv(p, s) && !p.lossy && Quiet(s)
    ensures Mutual(s)
  {
    forall a: Addr, b: Addr | a < |s.nodes| && b < |s.nodes|
      ensures b in s.nodes[a].neighbours <==> a in s.nodes[b].neighbours
    {
      assert HasSent(p, s, a, b) && HasSent(p, s, b, a);
    }
  }

  /**
   Whenever no hello is in flight, `a` knows `b` exactly when `b` knows `a`: on a network that loses
   nothing, and with two or more nodes only there.  Duplicates do no harm.
   */
  lemma NeighboursAreMutualIff(p: Params)
    requires |p.dests| >= 2
    ensures (forall s :: Reachable(Discovery(p), s) && Quiet(s) ==> Mutual(s)) <==> !p.lossy
  {
    var m := Discovery(p);
    if !p.lossy {
      forall s | Reachable(m, s) && Quiet(s) ensures Mutual(s) {
        InvInEveryRun(p, s);
        QuietIsMutual(p, s);
      }
    } else {
      LostAnswer(p);
    }
  }

  /** The answer to a first hello is lost: only one side knows the other. */
  lemma LostAnswer(p: Params)
    requires |p.dests| >= 2 && p.lossy
    ensures exists s :: Reachable(Discovery(p), s) && Quiet(s) && !Mutual(s)
  {
    var m := Discovery(p);
    InitReachable(m);
    StepReachable(m, m.init, Initiate(0, 1));
    var s1 := m.apply(m.init, Initiate(0, 1));
    var greeting, answer := HelloOf(p, 0, 1), HelloOf(p, 1, 0);
    assert s1.flight == multiset{greeting};
    StepReachable(m, s1, Deliver(greeting));
    var s2 := m.apply(s1, Deliver(greeting));
    assert s2.flight == multiset{answer};
    StepReachable(m, s2, Lose(answer));
    var s3 := m.apply(s2, Lose(answer));
    assert Quiet(s3);
    assert 0 in s3.nodes[1].neighbours && 1 !in s3.nodes[0].neighbours;
  }

  /** Without loss, and with nothing in flight, two nodes are neighbours if and only if one of them ever greeted. */
  lemma NeighboursAreTheIntroduced(p: Params, s: Net, a: Addr, b: Addr)
    requires Reachable(Discovery(p), s) && !p.lossy && Quiet(s) && a < |p.dests| && b < |p.dests|
    ensures |s.nodes| == |p.dests|
    ensures b in s.nodes[a].neighbours <==> Introduced(s, a, b)
  {
    InvInEveryRun(p, s);
    assert HasSent(p, s, a, b) && HasSent(p, s, b, a);
  }

  /** What a node records about a neighbour is what it reads from the text that the neighbour prints. */
  lemma EntriesAreRead(p: Params, s: Net, a: Addr, b: Addr)
    requires Reachable(Discovery(p), s) && a < |p.dests|
    ensures |s.nodes| == |p.dests|
    ensures b in s.nodes[a].neighbours ==>
      b < |p.dests| && s.nodes[a].neighbours[b].dest == p.parse(a, p.show(p.dests[b]))
  {
    InvInEveryRun(p, s);
    assert NodeShaped(p, a, s.nodes[a]);
  }

  // ---------------------------------------------------------------- what the entries say

  predicate FromTo(h: Hello, from: Addr, to: Addr) { h.from == from && h.to == to }

  ghost predicate NeverHeard(heard: seq<Hello>, from: Addr, to: Addr) {
    forall i :: 0 <= i < |heard| ==> !FromTo(heard[i], from, to)
  }

  ghost predicate LastHeard(heard: seq<Hello>, n: nat, from: Addr, to: Addr) {
    n < |heard| && FromTo(heard[n], from, to) && forall i :: n < i < |heard| ==> !FromTo(heard[i], from, to)
  }

  ghost predicate FirstHeard(heard: seq<Hello>, n: nat, from: Addr, to: Addr) {
    n < |heard| && FromTo(heard[n], from, to) && forall i :: 0 <= i < n ==> !FromTo(heard[i], from, to)
  }

  /** An entry has the time of the last hello and the destination of the first. */
  ghost predicate EntryInv(p: Params, heard: seq<Hello>, a: Addr, x: Node, b: Addr) {
    if b !in x.neighbours then NeverHeard(heard, b, a)
    else
      && LastHeard(heard, x.neighbours[b].lastHello, b, a)
      && exists n: nat :: FirstHeard(heard, n, b, a) && x.neighbours[b].dest == p.parse(a, heard[n].text)
  }

  ghost predicate HeardInv(p: Params, s: Net) {
    && |s.nodes| == |p.dests| && s.clock == |s.heard|
    && forall a: Addr, b: Addr :: a < |s.nodes| ==> EntryInv(p, s.heard, a, s.nodes[a], b)
  }

  /** A hello of others changes nothing. */
  lemma OtherHello(p: Params, heard: seq<Hello>, a: Addr, x: Node, b: Addr, h: Hello)
    requires EntryInv(p, heard, a, x, b) && !FromTo(h, b, a)
    ensures EntryInv(p, heard + [h], a, x, b)
  {
    if b in x.neighbours {
      var n: nat :| FirstHeard(heard, n, b, a) && x.neighbours[b].dest == p.parse(a, heard[n].text);
      assert FirstHeard(heard + [h], n, b, a);
    }
  }

  lemma OwnHello(p: Params, heard: seq<Hello>, a: Addr, x: Node, b: Addr, h: Hello)
    requires EntryInv(p, heard, a, x, b) && FromTo(h, b, a)
    ensures EntryInv(p, heard + [h], a, Hear(x, b, p.parse(a, h.text), |heard|), b)
  {
    var now := heard + [h];
    if b in x.neighbours {
      var n: nat :| FirstHeard(heard, n, b, a) && x.neighbours[b].dest == p.parse(a, heard[n].text);
      assert FirstHeard(now, n, b, a);
    } else {
      assert FirstHeard(now, |heard|, b, a);
    }
  }

  lemma OtherEntry(p: Params, heard: seq<Hello>, a: Addr, x: Node, b: Addr, from: Addr, dest: Dest, now: nat)
    requires EntryInv(p, heard, a, x, b) && b != from
    ensures EntryInv(p, heard, a, Hear(x, from, dest, now), b)
  {
  }

  lemma HeardStep(p: Params, s: Net, x: Step)
    requires HeardInv(p, s) && Enabled(p, s, x)
    ensures HeardInv(p, Apply(p, s, x))
  {
    var s' := Apply(p, s, x);
    forall a: Addr, b: Addr | a < |s'.nodes| ensures EntryInv(p, s'.heard, a, s'.nodes[a], b) {
      assert EntryInv(p, s.heard, a, s.nodes[a], b);
      if x.Deliver? {
        if FromTo(x.h, b, a) {
          OwnHello(p, s.heard, a, s.nodes[a], b, x.h);
        } else {
          OtherHello(p, s.heard, a, s.nodes[a], b, x.h);
          if x.h.to == a {
            OtherEntry(p, s'.heard, a, s.nodes[a], b, x.h.from, p.parse(a, x.h.text), s.clock);
          }
        }
      }
    }
  }

  /**
   In every run a node knows exactly those it has heard from, with the time of the last hello, and the
   destination of the first.
   */
  lemma EntriesAreHeard(p: Params, s: Net, a: Addr, b: Addr)
    requires Reachable(Discovery(p), s) && a < |p.dests|
    ensures |s.nodes| == |p.dests| && s.clock == |s.heard|
    ensures b in s.nodes[a].neighbours <==> exists i :: 0 <= i < |s.heard| && FromTo(s.heard[i], b, a)
    ensures b in s.nodes[a].neighbours ==>
      && LastHeard(s.heard, s.nodes[a].neighbours[b].lastHello, b, a)
      && exists n: nat :: FirstHeard(s.heard, n, b, a) && s.nodes[a].neighbours[b].dest == p.parse(a, s.heard[n].text)
  {
    var m := Discovery(p);
    var inv := (s: Net) => HeardInv(p, s);
    assert inv(m.init);
    forall s, x | inv(s) && m.enabled(s, x) ensures inv(m.apply(s, x)) { HeardStep(p, s, x); }
    ReachableKeeps(m, inv, s);
    assert EntryInv(p, s.heard, a, s.nodes[a], b);
  }
}
