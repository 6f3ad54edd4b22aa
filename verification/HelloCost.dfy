/** How many hellos an exchange costs, and why it always dies out. */
module HelloCost {
  import opened Neighbours
  import opened Runs

  // ---------------------------------------------------------------- the potential

  /** Pairs (a, b) such that `b` is pending at `a`. */
  ghost function PendingPairs(nodes: seq<Node>): nat {
    if nodes == [] then 0 else PendingPairs(nodes[..|nodes| - 1]) + |nodes[|nodes| - 1].pending|
  }

  lemma {:induction false} PendingUpdate(nodes: seq<Node>, a: nat, x: Node)
    requires a < |nodes|
    ensures PendingPairs(nodes[a := x]) == PendingPairs(nodes) - |nodes[a].pending| + |x.pending|
  {
    var last := |nodes| - 1;
    if a == last {
      assert nodes[a := x][..last] == nodes[..last];
    } else {
      assert nodes[a := x][..last] == nodes[..last][a := x];
      PendingUpdate(nodes[..last], a, x);
    }
  }

  lemma {:induction false} SetBelow(s: set<nat>, n: nat)
    requires forall x :: x in s ==> x < n
    ensures |s| <= n
  {
    if n == 0 {
      assert s == {};
    } else {
      SetBelow(s - {n - 1}, n - 1);
      assert |s| <= |s - {n - 1}| + 1;
    }
  }

  lemma {:induction false} PendingBelow(nodes: seq<Node>, n: nat)
    requires forall i :: 0 <= i < |nodes| ==> forall b :: b in nodes[i].pending ==> b < n
    ensures PendingPairs(nodes) <= |nodes| * n
  {
    if nodes != [] {
      var last := |nodes| - 1;
      PendingBelow(nodes[..last], n);
      SetBelow(nodes[last].pending, n);
      assert last * n + n == |nodes| * n;
    }
  }

  /** Twice the hellos in flight plus the pairs that are not pending. */
  ghost function Potential(p: Params, s: Net): int {
    2 * |s.flight| + |p.dests| * |p.dests| - PendingPairs(s.nodes)
  }

  lemma PotentialNat(p: Params, s: Net)
    requires Inv(p, s)
    ensures Potential(p, s) >= 0
  {
    forall i | 0 <= i < |s.nodes| ensures forall b :: b in s.nodes[i].pending ==> b < |p.dests| {
      assert NodeShaped(p, i, s.nodes[i]);
    }
    PendingBelow(s.nodes, |p.dests|);
  }

  /** A delivery costs exactly one, whether it is answered or absorbed; a loss costs two. */
  lemma DeliveryCostsOne(p: Params, s: Net, h: Hello)
    requires Enabled(p, s, Deliver(h))
    ensures Potential(p, Apply(p, s, Deliver(h))) == Potential(p, s) - 1
  {
    var node := s.nodes[h.to];
    var node' := Hear(node, h.from, p.parse(h.to, h.text), s.clock);
    PendingUpdate(s.nodes, h.to, node');
    if h.from in node.pending { assert node.pending == node'.pending + {h.from}; }
  }

  lemma LossCostsTwo(p: Params, s: Net, h: Hello)
    requires Enabled(p, s, Lose(h))
    ensures Potential(p, Apply(p, s, Lose(h))) == Potential(p, s) - 2
  {
  }

  lemma DuplicateAddsTwo(p: Params, s: Net, h: Hello)
    requires Enabled(p, s, Duplicate(h))
    ensures Potential(p, Apply(p, s, Duplicate(h))) == Potential(p, s) + 2
  {
  }

  /** What an initiation adds: two for the hello, less one if the address was not pending yet. */
  ghost function Credit(s: Net, a: Addr, b: Addr): int
    requires a < |s.nodes|
  {
    if b in s.nodes[a].pending then 2 else 1
  }

  lemma InitiationCredit(p: Params, s: Net, a: Addr, b: Addr)
    requires Enabled(p, s, Initiate(a, b))
    ensures Potential(p, Apply(p, s, Initiate(a, b))) == Potential(p, s) + Credit(s, a, b)
  {
    PendingUpdate(s.nodes, a, Greet(s.nodes[a], b));
    if b in s.nodes[a].pending { assert s.nodes[a].pending + {b} == s.nodes[a].pending; }
  }

  // ---------------------------------------------------------------- conservation over whole runs

  ghost function Delivered(run: seq<Step>): nat {
    if run == [] then 0 else Delivered(run[1..]) + (if run[0].Deliver? then 1 else 0)
  }

  ghost function Lost(run: seq<Step>): nat {
    if run == [] then 0 else Lost(run[1..]) + (if run[0].Lose? then 1 else 0)
  }

  ghost function Duplicated(run: seq<Step>): nat {
    if run == [] then 0 else Duplicated(run[1..]) + (if run[0].Duplicate? then 1 else 0)
  }

  ghost function Credits(p: Params, s: Net, run: seq<Step>): int
    requires ValidRun(Discovery(p), s, run)
    decreases |run|
  {
    if run == [] then 0
    else
      (match run[0]
       case Initiate(a, b) => Credit(s, a, b)
       case _ => 0) + Credits(p, Next(p, s, run[0]), run[1..])
  }

  /** The books balance: every delivery and every loss is paid for by an initiation or a duplicate. */
  lemma {:induction false} Conservation(p: Params, s: Net, run: seq<Step>)
    requires ValidRun(Discovery(p), s, run)
    ensures Delivered(run) + 2 * Lost(run) + Potential(p, Exec(Discovery(p), s, run))
         == Potential(p, s) + Credits(p, s, run) + 2 * Duplicated(run)
    decreases |run|
  {
    if run != [] {
      var s' := Next(p, s, run[0]);
      match run[0] {
        case Initiate(a, b) => InitiationCredit(p, s, a, b);
        case Deliver(h) => DeliveryCostsOne(p, s, h);
        case Lose(h) => LossCostsTwo(p, s, h);
        case Duplicate(h) => DuplicateAddsTwo(p, s, h);
      }
      Conservation(p, s', run[1..]);
    }
  }

  /** After the last initiation the number of hellos delivered and lost is bounded, up to two for each duplicate. */
  lemma HellosDieOut(p: Params, s: Net, run: seq<Step>)
    requires Reachable(Discovery(p), s) && ValidRun(Settling(p, s), s, run)
    ensures |run| <= 2 * |s.flight| + |p.dests| * |p.dests| + 3 * Duplicated(run)
    ensures Delivered(run) + 2 * Lost(run)
         <= 2 * |s.flight| + |p.dests| * |p.dests| - PendingPairs(s.nodes) + 2 * Duplicated(run)
  {
    InvInEveryRun(p, s);
    SettlingRun(p, s, s, run);
    PotentialNat(p, s);
  }

  lemma SettlingStep(p: Params, s: Net, x: Step)
    requires Inv(p, s) && Enabled(p, s, x) && !x.Initiate?
    ensures Inv(p, Next(p, s, x))
    ensures Potential(p, Next(p, s, x)) == Potential(p, s) + if x.Deliver? then -1 else if x.Lose? then -2 else 2
  {
    StepInv(p, s, x);
    match x
    case Deliver(h) => DeliveryCostsOne(p, s, h);
    case Lose(h) => LossCostsTwo(p, s, h);
    case Duplicate(h) => DuplicateAddsTwo(p, s, h);
  }

  lemma {:induction false} SettlingRun(p: Params, s0: Net, s: Net, run: seq<Step>)
    requires Inv(p, s) && ValidRun(Settling(p, s0), s, run)
    ensures |run| == Delivered(run) + Lost(run) + Duplicated(run)
    ensures Inv(p, Exec(Settling(p, s0), s, run))
    ensures Delivered(run) + 2 * Lost(run) + Potential(p, Exec(Settling(p, s0), s, run))
         == Potential(p, s) + 2 * Duplicated(run)
    ensures Potential(p, Exec(Settling(p, s0), s, run)) >= 0
    decreases |run|
  {
    if run == [] {
      PotentialNat(p, s);
    } else {
      SettlingStep(p, s, run[0]);
      SettlingRun(p, s0, Next(p, s, run[0]), run[1..]);
    }
  }

  /** When nobody initiates, a network that cannot go on is quiet. */
  lemma SettledIsQuiet(p: Params, s0: Net, s: Net)
    requires Reachable(Discovery(p), s) && Stuck(Settling(p, s0), s)
    ensures Quiet(s)
  {
    InvInEveryRun(p, s);
    forall h ensures h !in s.flight { assert !Settling(p, s0).enabled(s, Deliver(h)); }
  }

  // ---------------------------------------------------------------- the cost of one exchange

  /** `run` only delivers hellos, and leaves none in flight. */
  ghost predicate Settles(p: Params, s: Net, run: seq<Step>) {
    && ValidRun(Discovery(p), s, run)
    && (forall i :: 0 <= i < |run| ==> run[i].Deliver?)
    && Quiet(Exec(Discovery(p), s, run))
  }

  /** With nothing in flight no hello can be delivered. */
  lemma QuietStays(p: Params, s: Net, run: seq<Step>)
    requires Settles(p, s, run) && Quiet(s)
    ensures run == []
  {
  }

  /** With one hello in flight, that one is delivered next. */
  lemma OnlyOne(p: Params, s: Net, run: seq<Step>, h: Hello)
    requires Settles(p, s, run) && s.flight == multiset{h}
    ensures run != [] && run[0] == Deliver(h)
    ensures Settles(p, Next(p, s, run[0]), run[1..])
  {
    assert run != [];
    forall i | 0 <= i < |run[1..]| ensures run[1..][i].Deliver? { assert run[1..][i] == run[i + 1]; }
  }

  /**
   An initiation on a quiet network costs two hellos, unless the peer still has the initiator pending
   (or is the initiator itself): then the greeting is absorbed and costs one.  A node that answered
   keeps the initiator pending, so the next initiation from the same side costs one.
   */
  lemma InitiationCost(p: Params, s: Net, a: Addr, b: Addr, run: seq<Step>)
    requires |s.nodes| == |p.dests| && a < |p.dests| && b < |p.dests| && Quiet(s)
    requires Settles(p, Apply(p, s, Initiate(a, b)), run)
    ensures |run| == if a == b || a in s.nodes[b].pending then 1 else 2
    ensures var t := Exec(Discovery(p), Apply(p, s, Initiate(a, b)), run);
      |t.nodes| == |s.nodes| &&
      (a != b && a !in s.nodes[b].pending ==> a in t.nodes[b].pending && b !in t.nodes[a].pending) &&
      (a != b && a in s.nodes[b].pending ==> a !in t.nodes[b].pending && b in t.nodes[a].pending)
  {
    var s1 := Apply(p, s, Initiate(a, b));
    assert s1.flight == multiset{HelloOf(p, a, b)};
    OnlyOne(p, s1, run, HelloOf(p, a, b));
    var s2 := Next(p, s1, run[0]);
    if a == b || a in s.nodes[b].pending {
      assert s2.flight == multiset{};
      QuietStays(p, s2, run[1..]);
    } else {
      assert s2.flight == multiset{HelloOf(p, b, a)};
      OnlyOne(p, s2, run[1..], HelloOf(p, b, a));
      var s3 := Next(p, s2, run[1]);
      assert s3.flight == multiset{};
      QuietStays(p, s3, run[1..][1..]);
    }
  }

  /** With two hellos in flight, one of them is delivered next. */
  lemma OneOfTwo(p: Params, s: Net, run: seq<Step>, g: Hello, h: Hello)
    requires Settles(p, s, run) && s.flight == multiset{g, h}
    ensures run != [] && (run[0] == Deliver(g) || run[0] == Deliver(h))
    ensures Settles(p, Next(p, s, run[0]), run[1..])
  {
    assert run != [];
    assert run[0].h in s.flight;
    forall i | 0 <= i < |run[1..]| ensures run[1..][i].Deliver? { assert run[1..][i] == run[i + 1]; }
  }

  /** A hello that meets a pending entry is absorbed. */
  lemma Absorbed(p: Params, s: Net, a: Addr, b: Addr, rest: multiset<Hello>)
    requires |s.nodes| == |p.dests| && a < |p.dests| && b < |p.dests| && a != b
    requires s.flight == rest + multiset{HelloOf(p, a, b)} && a in s.nodes[b].pending
    ensures var t := Next(p, s, Deliver(HelloOf(p, a, b)));
      && t.flight == rest && |t.nodes| == |s.nodes|
      && t.nodes[b].pending == s.nodes[b].pending - {a}
      && (forall x: Addr :: x < |s.nodes| && x != b ==> t.nodes[x] == s.nodes[x])
  {
    assert HelloOf(p, a, b) in s.flight;
  }

  /** The order in which the crossing hellos arrive: `a`'s first. */
  lemma CrossedInOrder(p: Params, s: Net, a: Addr, b: Addr, run: seq<Step>)
    requires |s.nodes| == |p.dests| && a < |p.dests| && b < |p.dests| && a != b
    requires s.flight == multiset{HelloOf(p, b, a), HelloOf(p, a, b)} && b in s.nodes[a].pending && a in s.nodes[b].pending
    requires Settles(p, s, run) && run != [] && run[0] == Deliver(HelloOf(p, a, b))
    requires Settles(p, Next(p, s, run[0]), run[1..])
    ensures |run| == 2
    ensures var t := Exec(Discovery(p), s, run);
      |t.nodes| == |s.nodes| && b !in t.nodes[a].pending && a !in t.nodes[b].pending
  {
    Absorbed(p, s, a, b, multiset{HelloOf(p, b, a)});
    var s2 := Next(p, s, run[0]);
    OnlyOne(p, s2, run[1..], HelloOf(p, b, a));
    Absorbed(p, s2, b, a, multiset{});
    QuietStays(p, Next(p, s2, run[1]), run[1..][1..]);
  }

  /** Two hellos that cross cost exactly two, in either order of delivery, and leave nothing pending. */
  lemma CrossingCost(p: Params, s: Net, a: Addr, b: Addr, run: seq<Step>)
    requires |s.nodes| == |p.dests| && a < |p.dests| && b < |p.dests| && a != b && Quiet(s)
    requires Settles(p, Apply(p, Apply(p, s, Initiate(a, b)), Initiate(b, a)), run)
    ensures |run| == 2
    ensures var t := Exec(Discovery(p), Apply(p, Apply(p, s, Initiate(a, b)), Initiate(b, a)), run);
      |t.nodes| == |s.nodes| && b !in t.nodes[a].pending && a !in t.nodes[b].pending
  {
    var s1 := Apply(p, Apply(p, s, Initiate(a, b)), Initiate(b, a));
    assert s1.flight == multiset{HelloOf(p, a, b), HelloOf(p, b, a)};
    OneOfTwo(p, s1, run, HelloOf(p, a, b), HelloOf(p, b, a));
    if run[0] == Deliver(HelloOf(p, a, b)) {
      CrossedInOrder(p, s1, a, b, run);
    } else {
      CrossedInOrder(p, s1, b, a, run);
    }
  }
}
