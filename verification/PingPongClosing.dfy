/**
 The ping-pong with its end: a host that has left its loop closes, which destroys its queue pairs
 and what it has in flight.  A message that has not reached a host when it closes is never acknowledged; its
 sender gets an error completion and, if it still polls, gives up.
 */
module PingPongClosing {
  import opened PingPong
  import opened PingPongSafety
  import opened PingPongTheorems
  import opened PingPongClose
  import opened Runs

  /** How many good completions are polled before the error. */
  datatype ErrorAt = NoError | ErrorAfter(ahead: nat)

  datatype End = End(closed: bool, failed: bool, error: ErrorAt)
  {
    /** The process has left main, so its queue pairs are gone. */
    predicate Gone() { closed || failed }
  }

  const OPEN := End(false, false, NoError)

  datatype Pair = Pair(s: System, client: End, server: End)
  {
    function Get(side: Side): End { if side == Client then client else server }
    function Put(side: Side, e: End): Pair { if side == Client then this.(client := e) else this.(server := e) }
  }

  datatype Event =
    | Move(a: Step)
    | Close(side: Side)
    | Bounce(from: Side, qp: nat)     // the card gives up on a message to a host that is gone
    | SeeError(side: Side)            // main polls the error completion and returns 1

  /** A step needs the hosts that it concerns; no poll goes past an error. */
  predicate Alive(t: Pair, a: Step) {
    match a
    case Start => !t.client.Gone()
    case Deliver(from, q) => !t.client.Gone() && !t.server.Gone()
    case Ack(side, q) => !t.Get(side).Gone()
    case Poll(side, k) => !t.Get(side).Gone() && (t.Get(side).error.ErrorAfter? ==> k <= t.Get(side).error.ahead)
    case Process(side) => !t.Get(side).Gone()
  }

  ghost predicate Can(p: Params, t: Pair, x: Event) {
    match x
    case Move(a) => Enabled(p, t.s, a) && Alive(t, a)
    case Close(side) => !t.Get(side).Gone() && Exited(p, t.s.Get(side))
    case Bounce(from, q) =>
      && !t.Get(from).Gone() && t.Get(from.Peer()).Gone()
      && q in t.s.Get(from).wire && t.Get(from).error == NoError
    case SeeError(side) =>
      var h, e := t.s.Get(side), t.Get(side);
      && !e.Gone() && e.error == ErrorAfter(0)
      && h.started == p.numQp && h.batch == [] && !h.Done(p)
  }

  /** The error stays behind the completions that were queued before it. */
  function Polled(t: Pair, a: Step): Pair {
    if a.Poll? && t.Get(a.side).error.ErrorAfter? then
      var e := t.Get(a.side);
      t.Put(a.side, e.(error := ErrorAfter(if e.error.ahead >= a.k then e.error.ahead - a.k else 0)))
    else t
  }

  ghost function After(p: Params, t: Pair, x: Event): Pair {
    if !Can(p, t, x) then t
    else
      match x
      case Move(a) => Polled(t, a).(s := Apply(p, t.s, a))
      case Close(side) => t.Put(side, t.Get(side).(closed := true))
      case Bounce(from, q) => t.Put(from, t.Get(from).(error := ErrorAfter(|t.s.Get(from).cq|)))
      case SeeError(side) => t.Put(side, t.Get(side).(failed := true))
  }

  ghost function Closing(p: Params): Machine<Pair, Event> {
    Machine(Pair(Init(p), OPEN, OPEN), (t, x) => Can(p, t, x), (t, x) => After(p, t, x))
  }

  // ---------------------------------------------------------------- every run ends

  function Open(e: End): nat {
    (if e.closed then 0 else 1) + (if e.failed then 0 else 1) + (if e.error == NoError then 1 else 0)
  }

  ghost function LeftToDo(p: Params, t: Pair): nat { WorkLeft(p)(t.s) + Open(t.client) + Open(t.server) }

  ghost function ClosingWork(p: Params): Pair -> nat { (t: Pair) => LeftToDo(p, t) }

  ghost function BaseInv(p: Params): Pair -> bool { (t: Pair) => Inv(p, t.s) }

  lemma PolledOpen(t: Pair, a: Step)
    ensures Open(Polled(t, a).client) == Open(t.client) && Open(Polled(t, a).server) == Open(t.server)
  {
  }

  lemma MoveWork(p: Params, t: Pair, a: Step)
    requires p.Accepted() && Inv(p, t.s) && Can(p, t, Move(a))
    ensures Inv(p, After(p, t, Move(a)).s) && LeftToDo(p, After(p, t, Move(a))) < LeftToDo(p, t)
  {
    StepInv(p, t.s, a);
    StepWork(p, t.s, a);
    PolledOpen(t, a);
  }

  /** Closing, giving up and failing happen at most once on each side. */
  lemma EndWork(p: Params, t: Pair, x: Event)
    requires Can(p, t, x) && !x.Move?
    ensures After(p, t, x).s == t.s
    ensures Open(After(p, t, x).client) + Open(After(p, t, x).server) < Open(t.client) + Open(t.server)
  {
    match x
    case Close(side) => assert !t.Get(side).closed;
    case Bounce(from, q) => assert t.Get(from).error == NoError;
    case SeeError(side) => assert !t.Get(side).failed;
  }

  lemma ClosingKeeps(p: Params)
    requires p.Accepted()
    ensures Inductive(Closing(p), BaseInv(p)) && Decreasing(Closing(p), BaseInv(p), ClosingWork(p))
  {
    InitInv(p);
    forall t, x | BaseInv(p)(t) && Closing(p).enabled(t, x)
      ensures BaseInv(p)(Closing(p).apply(t, x)) && ClosingWork(p)(Closing(p).apply(t, x)) < ClosingWork(p)(t)
    {
      if x.Move? { MoveWork(p, t, x.a); } else { EndWork(p, t, x); }
    }
  }

  /** The exchange and what follows it end, whoever closes when. */
  lemma EveryClosingIsBounded(p: Params, run: seq<Event>)
    requires p.Accepted() && ValidRun(Closing(p), Closing(p).init, run)
    ensures |run| <= 12 * p.Budget() + p.numQp + 6
  {
    ClosingKeeps(p);
    RunLength(Closing(p), BaseInv(p), ClosingWork(p), Closing(p).init, run);
    assert LeftToDo(p, Closing(p).init) == 12 * p.Budget() + p.numQp + 6 by {
      assert Measure(p, Init(p)) == 12 * p.Budget() + p.numQp;
    }
  }

  // ---------------------------------------------------------------- when an error is seen

  /** The completions that main has polled on one side. */
  ghost function PolledIn(run: seq<Event>, side: Side): nat {
    if run == [] then 0
    else PolledIn(run[1..], side) + if run[0].Move? && run[0].a.Poll? && run[0].a.side == side then run[0].a.k else 0
  }

  lemma ErrorMoves(p: Params, t: Pair, x: Event, side: Side, n: nat)
    requires Can(p, t, x) && t.Get(side).error == ErrorAfter(n)
    ensures PolledIn([x], side) <= n && After(p, t, x).Get(side).error == ErrorAfter(n - PolledIn([x], side))
    ensures x == SeeError(side) ==> n == 0
    ensures After(p, t, x).Get(side).failed ==> t.Get(side).failed || x == SeeError(side)
  {
    assert PolledIn([x][1..], side) == 0;
  }

  lemma {:induction false} ErrorComesLast(p: Params, t: Pair, run: seq<Event>, side: Side, n: nat)
    requires ValidRun(Closing(p), t, run) && t.Get(side).error == ErrorAfter(n) && !t.Get(side).failed
    ensures var u := Exec(Closing(p), t, run);
      && PolledIn(run, side) <= n && u.Get(side).error == ErrorAfter(n - PolledIn(run, side))
      && (u.Get(side).failed ==> PolledIn(run, side) == n)
    decreases |run|
  {
    if run != [] {
      ErrorMoves(p, t, run[0], side, n);
      assert PolledIn([run[0]][1..], side) == 0;
      var u := After(p, t, run[0]);
      if u.Get(side).failed {
        FailedStays(p, u, run[1..], side);
      } else {
        ErrorComesLast(p, u, run[1..], side, n - PolledIn([run[0]], side));
      }
    }
  }

  /** A process that has returned does nothing more. */
  lemma {:induction false} FailedStays(p: Params, t: Pair, run: seq<Event>, side: Side)
    requires ValidRun(Closing(p), t, run) && t.Get(side).failed
    ensures PolledIn(run, side) == 0 && Exec(Closing(p), t, run).Get(side) == t.Get(side)
    decreases |run|
  {
    if run != [] {
      GoneIsStill(p, t, run[0], side);
      FailedStays(p, After(p, t, run[0]), run[1..], side);
    }
  }

  lemma GoneIsStill(p: Params, t: Pair, x: Event, side: Side)
    requires Can(p, t, x) && t.Get(side).Gone()
    ensures After(p, t, x).Get(side) == t.Get(side)
    ensures !(x.Move? && x.a.Poll? && x.a.side == side)
  {
  }

  /**
   A host fails for an undeliverable message only after it has polled exactly the completions that were queued when
   the card gave up.
   */
  lemma FailsAfterTheOthers(p: Params, t: Pair, run: seq<Event>, side: Side, q: nat)
    requires Can(p, t, Bounce(side, q)) && ValidRun(Closing(p), After(p, t, Bounce(side, q)), run)
    ensures PolledIn(run, side) <= |t.s.Get(side).cq|
    ensures Exec(Closing(p), After(p, t, Bounce(side, q)), run).Get(side).failed ==>
      PolledIn(run, side) == |t.s.Get(side).cq|
  {
    ErrorComesLast(p, After(p, t, Bounce(side, q)), run, side, |t.s.Get(side).cq|);
  }

  // ---------------------------------------------------------------- do both hosts finish?

  ghost predicate Fine(p: Params, t: Pair) {
    && !t.client.failed && !t.server.failed
    && (Stuck(Closing(p), t) ==> t.client.closed && t.server.closed)
  }

  /**
   Nobody fails, and a run that cannot go on has closed both hosts, if and only if there is one queue pair, or
   nothing to do.
   */
  lemma BothFinishIff(p: Params)
    requires p.Accepted()
    ensures (forall t :: Reachable(Closing(p), t) ==> Fine(p, t)) <==> p.numQp == 1 || p.iters == 0
  {
    if p.iters == 0 {
      forall t | Reachable(Closing(p), t) ensures Fine(p, t) { NothingToDoIsFine(p, t); }
    } else if p.numQp == 1 {
      forall t | Reachable(Closing(p), t) ensures Fine(p, t) { OneQpIsFine(p, t); }
    } else if p.numQp == 0 {
      InitReachable(Closing(p));
      WithoutQps(p);
    } else {
      var t := ClientFails(p);
    }
  }

  lemma CannotWhenStuck(p: Params, t: Pair, x: Event)
    requires Stuck(Closing(p), t)
    ensures !Can(p, t, x)
  {
    assert !Closing(p).enabled(t, x);
  }

  /** With no queue pair and something to do, the hosts poll for ever. */
  lemma WithoutQps(p: Params)
    requires p.numQp == 0 && p.iters >= 1
    ensures Stuck(Closing(p), Closing(p).init)
  {
    forall x ensures !Can(p, Closing(p).init, x) { }
  }

  // ---------------------------------------------------------------- one queue pair

  ghost predicate Clean(p: Params, t: Pair, side: Side) {
    var e := t.Get(side);
    !e.failed && e.error == NoError && (e.closed ==> Exited(p, t.s.Get(side)))
  }

  ghost predicate AllClean(p: Params, t: Pair) { Inv(p, t.s) && Clean(p, t, Client) && Clean(p, t, Server) }

  /** Nothing happens to a host that is gone. */
  lemma GoneStays(p: Params, t: Pair, a: Step, side: Side)
    requires Can(p, t, Move(a)) && t.Get(side).Gone()
    ensures Apply(p, t.s, a).Get(side) == t.s.Get(side)
  {
  }

  lemma NoBounce(p: Params, t: Pair, from: Side, q: nat)
    requires p.numQp == 1 && p.iters >= 1 && AllClean(p, t)
    ensures !Can(p, t, Bounce(from, q))
  {
    var peer := from.Peer();
    assert Clean(p, t, peer);
    if t.Get(peer).closed { NothingComes(p, t.s, peer); }
  }

  lemma CleanMove(p: Params, t: Pair, a: Step, side: Side)
    requires AllClean(p, t) && Can(p, t, Move(a))
    ensures Clean(p, After(p, t, Move(a)), side)
  {
    assert Clean(p, t, side);
    if t.Get(side).closed { GoneStays(p, t, a, side); }
  }

  lemma StaysClean(p: Params, t: Pair, x: Event)
    requires p.Accepted() && p.numQp == 1 && p.iters >= 1 && AllClean(p, t) && Can(p, t, x)
    ensures AllClean(p, After(p, t, x))
  {
    match x
    case Move(a) =>
      StepInv(p, t.s, a);
      CleanMove(p, t, a, Client);
      CleanMove(p, t, a, Server);
    case Close(side) =>
    case Bounce(from, q) => NoBounce(p, t, from, q);
    case SeeError(side) => NoErrorSeen(p, t, side);
  }

  lemma NoErrorSeen(p: Params, t: Pair, side: Side)
    requires AllClean(p, t)
    ensures !Can(p, t, SeeError(side))
  {
    assert Clean(p, t, Client) && Clean(p, t, Server);
  }

  /** A host that is not gone has nothing left to do, if no event is possible. */
  lemma LastHostHalts(p: Params, t: Pair, side: Side)
    requires p.Accepted() && AllClean(p, t) && Stuck(Closing(p), t) && !t.Get(side).Gone()
    requires t.s.client.started == p.numQp || side == Client
    ensures t.s.Get(side).started == p.numQp && Halted(p, t.s.Get(side)) && t.s.Get(side).unacked == multiset{}
  {
    assert Clean(p, t, side);
    forall q: nat ensures q !in t.s.Get(side).unacked { CannotWhenStuck(p, t, Move(Ack(side, q))); }
    CannotWhenStuck(p, t, Move(Start));
    CannotWhenStuck(p, t, Move(Process(side)));
    CannotWhenStuck(p, t, Move(Poll(side, 1)));
    StuckHost(p, t.s, side);
  }

  lemma LastHostIsDone(p: Params, s: System, side: Side)
    requires p.numQp == 1 && p.iters >= 1 && Inv(p, s) && Exited(p, s.Get(side.Peer()))
    requires s.Get(side).started == p.numQp && Halted(p, s.Get(side)) && s.Get(side).unacked == multiset{}
    ensures Exited(p, s.Get(side))
  {
    NothingComes(p, s, side.Peer());
    if !s.Get(side).Done(p) { IdleFollowsDone(p, s, side); }
  }

  lemma LastHost(p: Params, t: Pair, side: Side)
    requires p.Accepted() && p.numQp == 1 && p.iters >= 1 && AllClean(p, t) && Stuck(Closing(p), t)
    requires !t.Get(side).Gone() && t.Get(side.Peer()).closed
    ensures Exited(p, t.s.Get(side))
  {
    assert Clean(p, t, side.Peer());
    LastHostHalts(p, t, side);
    LastHostIsDone(p, t.s, side);
  }

  /** If neither host is gone, both have left their loops. */
  lemma BothHosts(p: Params, t: Pair)
    requires p.Accepted() && p.numQp == 1 && AllClean(p, t) && Stuck(Closing(p), t)
    requires !t.client.Gone() && !t.server.Gone()
    ensures Exited(p, t.s.client) && Exited(p, t.s.server)
  {
    var s := t.s;
    forall a ensures !Exchange(p).enabled(s, a) {
      CannotWhenStuck(p, t, Move(a));
      assert Alive(t, a);
    }
    StuckIsFinished(p, s);
    NotEnabled(p, s, Start);
    forall side: Side ensures s.Get(side).started == p.numQp && Halted(p, s.Get(side)) {
      NotEnabled(p, s, Process(side));
      NotEnabled(p, s, Poll(side, 1));
      StuckHost(p, s, side);
    }
    assert Halted(p, s.Get(Client)) && Halted(p, s.Get(Server)) && s.Get(Client).started == p.numQp;
  }

  lemma CleanEnds(p: Params, t: Pair)
    requires p.Accepted() && p.numQp == 1 && p.iters >= 1 && AllClean(p, t) && Stuck(Closing(p), t)
    ensures t.client.closed && t.server.closed
  {
    CannotWhenStuck(p, t, Close(Client));
    CannotWhenStuck(p, t, Close(Server));
    if !t.client.closed && !t.server.closed {
      BothHosts(p, t);
    } else if !t.client.closed {
      LastHost(p, t, Client);
    } else if !t.server.closed {
      LastHost(p, t, Server);
    }
  }

  lemma OneQpIsFine(p: Params, t: Pair)
    requires p.Accepted() && p.numQp == 1 && p.iters >= 1 && Reachable(Closing(p), t)
    ensures Fine(p, t)
  {
    var m := Closing(p);
    var inv := (t: Pair) => AllClean(p, t);
    InitInv(p);
    forall t, x | inv(t) && m.enabled(t, x) ensures inv(m.apply(t, x)) { StaysClean(p, t, x); }
    ReachableKeeps(m, inv, t);
    if Stuck(m, t) { CleanEnds(p, t); }
  }

  // ---------------------------------------------------------------- nothing to do

  /** Nobody ever polls. */
  ghost predicate Unpolled(p: Params, t: Pair) {
    && Inv(p, t.s) && t.s.client.batch == [] && t.s.server.batch == []
    && !t.client.failed && !t.server.failed
  }

  lemma StaysUnpolled(p: Params, t: Pair, x: Event)
    requires p.Accepted() && p.iters == 0 && Unpolled(p, t) && Can(p, t, x)
    ensures Unpolled(p, After(p, t, x))
  {
    if x.Move? {
      StepInv(p, t.s, x.a);
      BatchesStay(p, t.s, x.a);
    }
  }

  lemma BatchesStay(p: Params, s: System, a: Step)
    requires p.iters == 0 && Enabled(p, s, a) && s.client.batch == [] && s.server.batch == []
    ensures Apply(p, s, a).client.batch == [] && Apply(p, s, a).server.batch == []
  {
  }

  lemma NothingToDoIsFine(p: Params, t: Pair)
    requires p.Accepted() && p.iters == 0 && Reachable(Closing(p), t)
    ensures Fine(p, t)
  {
    var m := Closing(p);
    var inv := (t: Pair) => Unpolled(p, t);
    InitInv(p);
    forall t, x | inv(t) && m.enabled(t, x) ensures inv(m.apply(t, x)) { StaysUnpolled(p, t, x); }
    ReachableKeeps(m, inv, t);
    if Stuck(m, t) { UnpolledEnds(p, t); }
  }

  lemma UnpolledEnds(p: Params, t: Pair)
    requires p.iters == 0 && Unpolled(p, t) && Stuck(Closing(p), t)
    ensures t.client.closed && t.server.closed
  {
    CannotWhenStuck(p, t, Move(Start));
    CannotWhenStuck(p, t, Close(Client));
    CannotWhenStuck(p, t, Close(Server));
  }

  // ---------------------------------------------------------------- two or more queue pairs

  ghost function StillOpen(p: Params): System -> bool { s => Reachable(Closing(p), Pair(s, OPEN, OPEN)) }

  /** As long as nobody closes, everything is as in the exchange. */
  lemma ExchangeFirst(p: Params, s: System)
    requires Reachable(Exchange(p), s)
    ensures Reachable(Closing(p), Pair(s, OPEN, OPEN))
  {
    var m := Exchange(p);
    InitReachable(Closing(p));
    forall s, a | StillOpen(p)(s) && m.enabled(s, a) ensures StillOpen(p)(m.apply(s, a)) {
      StepReachable(Closing(p), Pair(s, OPEN, OPEN), Move(a));
    }
    ReachableKeeps(m, StillOpen(p), s);
  }

  /** The server closes while a message to it is in flight, and the client, which is not done, fails. */
  lemma ClientFails(p: Params) returns (t: Pair)
    requires p.Accepted() && p.numQp >= 2 && p.iters >= 1
    ensures Reachable(Closing(p), t) && t.client.failed && t.server.closed
  {
    var m := Closing(p);
    var s := LateMessage(p);
    ExchangeFirst(p, s);
    var t0 := Pair(s, OPEN, OPEN);
    StepReachable(m, t0, Close(Server));
    var t1 := Pair(s, OPEN, OPEN.(closed := true));
    assert m.apply(t0, Close(Server)) == t1;
    StepReachable(m, t1, Bounce(Client, 1));
    var t2 := Pair(s, OPEN.(error := ErrorAfter(0)), OPEN.(closed := true));
    assert m.apply(t1, Bounce(Client, 1)) == t2;
    StepReachable(m, t2, SeeError(Client));
    t := m.apply(t2, SeeError(Client));
  }
}
