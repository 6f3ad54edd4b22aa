/**
 Completion hand-off of Libfabric/test2.c: `n` reader threads post one-sided reads and wait, each on its
 own mutex, condition variable and `ready` flag, for one completion-queue thread.  The main thread joins
 the readers, clears `run` and joins the completion-queue thread.
 */
module FabricReaders {
  import opened Runs

  /** `readFails`: fi_cq_sread may report an error. */
  datatype Params = Params(n: nat, count: nat, readFails: bool)

  /** Where a reader stands in client_thread. */
  datatype ReaderPc =
    | Loop        // at the test of the for loop
    | Posted      // fi_read succeeded, lock not yet taken
    | Testing     // holds the lock, at while (!ready)
    | Waiting     // inside pthread_cond_wait, lock released
    | Woken       // woken up, must take the lock again
    | Consumed    // holds the lock, ready cleared
    | Exited      // left the loop after `count` reads
    | Failed      // fi_read failed

  datatype Holder = Free | ByReader | ByCq

  datatype Reader = Reader(
    pc: ReaderPc, i: nat, ready: bool, lock: Holder,
    atNic: nat,                   // reads the NIC has not completed
    posted: nat, consumed: nat)   // history

  /** Where the completion-queue thread stands in cq_thread. */
  datatype CqPc =
    | CheckRun                    // while (run)
    | Sread                       // blocked in fi_cq_sread
    | Empty                       // the read timed out; next: if (!run)
    | Error                       // the read failed; next: if (!run), and out of the loop
    | Got(t: nat)                 // the read returned a completion; next: if (!run)
    | ToLock(t: nat) | ToSet(t: nat) | ToSignal(t: nat) | ToUnlock(t: nat)
    | Stopped

  datatype MainPc = Joining(k: nat) | JoiningCq | Finished

  datatype State = State(readers: seq<Reader>, cq: seq<nat>, cqPc: CqPc, main: MainPc, run: bool)

  datatype Step =
    | Read(t: nat) | ReadFails(t: nat) | Finish(t: nat) | Lock(t: nat) | Test(t: nat) | Unlock(t: nat)
    | WakeSpuriously(t: nat) | NicDone(t: nat)
    | CqCheck | CqRead | CqTimeout | CqReadFails | CqTest | CqLock | CqSet | CqSignal | CqUnlock
    | Join | StopRun | JoinCq

  predicate Enabled(p: Params, s: State, a: Step) {
    |s.readers| == p.n &&
    match a
    case Read(t) => t < p.n && s.readers[t].pc == Loop && s.readers[t].i < p.count
    case ReadFails(t) => t < p.n && s.readers[t].pc == Loop && s.readers[t].i < p.count
    case Finish(t) => t < p.n && s.readers[t].pc == Loop && s.readers[t].i >= p.count
    case Lock(t) => t < p.n && (s.readers[t].pc == Posted || s.readers[t].pc == Woken) && s.readers[t].lock == Free
    case Test(t) => t < p.n && s.readers[t].pc == Testing
    case Unlock(t) => t < p.n && s.readers[t].pc == Consumed
    case WakeSpuriously(t) => t < p.n && s.readers[t].pc == Waiting
    case NicDone(t) => t < p.n && s.readers[t].atNic > 0
    case CqCheck => s.cqPc == CheckRun
    case CqRead => s.cqPc == Sread && s.cq != []
    case CqTimeout => s.cqPc == Sread && s.cq == []
    case CqReadFails => p.readFails && s.cqPc == Sread
    case CqTest => s.cqPc == Empty || s.cqPc == Error || s.cqPc.Got?
    case CqLock => s.cqPc.ToLock? && s.cqPc.t < p.n && s.readers[s.cqPc.t].lock == Free
    case CqSet => s.cqPc.ToSet? && s.cqPc.t < p.n
    case CqSignal => s.cqPc.ToSignal? && s.cqPc.t < p.n
    case CqUnlock => s.cqPc.ToUnlock? && s.cqPc.t < p.n
    case Join => s.main.Joining? && s.main.k < p.n && s.readers[s.main.k].pc in {Exited, Failed}
    case StopRun => s.main.Joining? && s.main.k >= p.n
    case JoinCq => s.main == JoiningCq && s.cqPc == Stopped
  }

  /** What a step does to the reader it concerns. */
  function ReaderStep(r: Reader, a: Step): Reader {
    match a
    case Read(t) => r.(pc := Posted, atNic := r.atNic + 1, posted := r.posted + 1)
    case ReadFails(t) => r.(pc := Failed)
    case Finish(t) => r.(pc := Exited)
    case Lock(t) => r.(pc := Testing, lock := ByReader)
    case Test(t) =>
      if r.ready then r.(pc := Consumed, ready := false, consumed := r.consumed + 1)
      else r.(pc := Waiting, lock := Free)
    case Unlock(t) => r.(pc := Loop, i := r.i + 1, lock := Free)
    case WakeSpuriously(t) => r.(pc := Woken)
    case NicDone(t) => if r.atNic > 0 then r.(atNic := r.atNic - 1) else r
    case CqLock => r.(lock := ByCq)
    case CqSet => r.(ready := true)
    case CqSignal => if r.pc == Waiting then r.(pc := Woken) else r
    case CqUnlock => r.(lock := Free)
    case _ => r
  }

  /** What a step does to the completion-queue thread. */
  function CqStep(s: State, a: Step): CqPc {
    match a
    case CqCheck => if s.run then Sread else Stopped
    case CqRead => if s.cq != [] then Got(s.cq[0]) else s.cqPc
    case CqTimeout => Empty
    case CqReadFails => Error
    case CqTest =>
      if !s.run || s.cqPc == Error then Stopped
      else if s.cqPc.Got? then ToLock(s.cqPc.t) else CheckRun
    case CqLock => if s.cqPc.ToLock? then ToSet(s.cqPc.t) else s.cqPc
    case CqSet => if s.cqPc.ToSet? then ToSignal(s.cqPc.t) else s.cqPc
    case CqSignal => if s.cqPc.ToSignal? then ToUnlock(s.cqPc.t) else s.cqPc
    case CqUnlock => CheckRun
    case _ => s.cqPc
  }

  /** The reader that a step concerns. */
  function Touched(s: State, a: Step): nat {
    match a
    case Read(t) => t
    case ReadFails(t) => t
    case Finish(t) => t
    case Lock(t) => t
    case Test(t) => t
    case Unlock(t) => t
    case WakeSpuriously(t) => t
    case NicDone(t) => t
    case CqRead => if s.cq != [] then s.cq[0] else 0
    case CqTest => if s.cqPc.Got? then s.cqPc.t else 0
    case CqLock => if s.cqPc.ToLock? then s.cqPc.t else 0
    case CqSet => if s.cqPc.ToSet? then s.cqPc.t else 0
    case CqSignal => if s.cqPc.ToSignal? then s.cqPc.t else 0
    case CqUnlock => if s.cqPc.ToUnlock? then s.cqPc.t else 0
    case _ => 0
  }

  function MainStep(s: State, a: Step): MainPc {
    match a
    case Join => if s.main.Joining? then Joining(s.main.k + 1) else s.main
    case StopRun => JoiningCq
    case JoinCq => Finished
    case _ => s.main
  }

  function Apply(p: Params, s: State, a: Step): State
    requires Enabled(p, s, a)
  {
    var t := Touched(s, a);
    State(if t < p.n then s.readers[t := ReaderStep(s.readers[t], a)] else s.readers,
          if a.NicDone? then s.cq + [t] else if a.CqRead? then s.cq[1..] else s.cq,
          CqStep(s, a), MainStep(s, a), s.run && a != StopRun)
  }

  function Next(p: Params, s: State, a: Step): State { if Enabled(p, s, a) then Apply(p, s, a) else s }

  function Init(p: Params): State {
    State(seq(p.n, _ => Reader(Loop, 0, false, Free, 0, 0, 0)), [], CheckRun, Joining(0), true)
  }

  function Program(p: Params): Machine<State, Step> {
    Machine(Init(p), (s, a) => Enabled(p, s, a), (s, a) => Next(p, s, a))
  }

  // ---------------------------------------------------------------- invariant

  function I(b: bool): nat { if b then 1 else 0 }

  /** The completion that the completion-queue thread holds and has not handed over. */
  function InHand(c: CqPc, t: nat): nat {
    I((c.Got? || c.ToLock? || c.ToSet?) && c.t == t)
  }

  /** Completions on their way to reader `t`, or announced to it. */
  ghost function Coming(cq: multiset<nat>, c: CqPc, t: nat, r: Reader): nat {
    r.atNic + cq[t] + InHand(c, t) + I(r.ready)
  }

  ghost predicate ReaderInv(p: Params, cq: multiset<nat>, c: CqPc, t: nat, r: Reader) {
    // no completion is lost or duplicated
    && r.posted == r.consumed + Coming(cq, c, t, r)
    && Coming(cq, c, t, r) == I(r.pc in {Posted, Testing, Waiting, Woken})
    && r.consumed == r.i + I(r.pc == Consumed)
    && r.i + I(r.pc !in {Loop, Exited, Failed}) <= p.count
    && (r.pc == Exited ==> r.i == p.count)
    // mutual exclusion
    && (r.lock == ByReader <==> r.pc in {Testing, Consumed})
    && (r.lock == ByCq <==> (c.ToSet? || c.ToSignal? || c.ToUnlock?) && c.t == t)
    // no wakeup is lost
    && (r.pc == Waiting && r.ready ==> c == ToSignal(t))
    && (c == ToSignal(t) ==> r.ready)
  }

  ghost predicate Inv(p: Params, s: State) {
    && |s.readers| == p.n
    && (forall t: nat :: t < p.n ==> ReaderInv(p, multiset(s.cq), s.cqPc, t, s.readers[t]))
    && (forall t :: t in multiset(s.cq) ==> t < p.n)
    && (s.cqPc.Got? || s.cqPc.ToLock? || s.cqPc.ToSet? || s.cqPc.ToSignal? || s.cqPc.ToUnlock? ==> s.cqPc.t < p.n)
    && (s.run <==> s.main.Joining?)
    && (s.main.Joining? ==> s.main.k <= p.n)
    && (forall t: nat :: t < (if s.main.Joining? then s.main.k else p.n) ==> s.readers[t].pc in {Exited, Failed})
    && (s.cqPc == Error || (s.cqPc == Stopped && s.run) ==> p.readFails)
    && (s.main == Finished ==> s.cqPc == Stopped)
  }

  lemma InitInv(p: Params)
    ensures Inv(p, Init(p))
  {
  }

  /** A step of reader `t` leaves the completion queue and its thread alone. */
  lemma OwnStepInv(p: Params, s: State, a: Step, t: nat)
    requires Inv(p, s) && Enabled(p, s, a) && t < p.n
    requires a in {Read(t), ReadFails(t), Finish(t), Lock(t), Test(t), Unlock(t), WakeSpuriously(t)}
    ensures ReaderInv(p, multiset(s.cq), s.cqPc, t, ReaderStep(s.readers[t], a))
  {
    assert ReaderInv(p, multiset(s.cq), s.cqPc, t, s.readers[t]);
  }

  lemma NicDoneInv(p: Params, s: State, t: nat)
    requires Inv(p, s) && Enabled(p, s, NicDone(t))
    ensures ReaderInv(p, multiset(s.cq + [t]), s.cqPc, t, ReaderStep(s.readers[t], NicDone(t)))
  {
    assert ReaderInv(p, multiset(s.cq), s.cqPc, t, s.readers[t]);
  }

  /** Taking a completion, and testing `run` with it in hand. */
  lemma CqTakesInv(p: Params, s: State, a: Step)
    requires Inv(p, s) && Enabled(p, s, a) && (a == CqRead || (a == CqTest && s.cqPc.Got?))
    ensures Touched(s, a) < p.n
    ensures ReaderInv(p, multiset(Apply(p, s, a).cq), CqStep(s, a), Touched(s, a), s.readers[Touched(s, a)])
  {
    if a == CqRead {
      assert s.cq == [s.cq[0]] + s.cq[1..];
      assert s.cq[0] in multiset(s.cq);
    }
    assert ReaderInv(p, multiset(s.cq), s.cqPc, Touched(s, a), s.readers[Touched(s, a)]);
  }

  /** The critical section of the completion-queue thread. */
  lemma CqHandsOverInv(p: Params, s: State, a: Step)
    requires Inv(p, s) && Enabled(p, s, a) && a in {CqLock, CqSet, CqSignal, CqUnlock}
    ensures Touched(s, a) < p.n
    ensures ReaderInv(p, multiset(s.cq), CqStep(s, a), Touched(s, a), ReaderStep(s.readers[Touched(s, a)], a))
  {
    assert ReaderInv(p, multiset(s.cq), s.cqPc, Touched(s, a), s.readers[Touched(s, a)]);
  }

  /** The step, for the reader it concerns. */
  lemma TouchedInv(p: Params, s: State, a: Step)
    requires Inv(p, s) && Enabled(p, s, a) && Touched(s, a) < p.n
    ensures var t, s' := Touched(s, a), Apply(p, s, a);
      ReaderInv(p, multiset(s'.cq), s'.cqPc, t, s'.readers[t])
  {
    var t := Touched(s, a);
    assert ReaderInv(p, multiset(s.cq), s.cqPc, t, s.readers[t]);
    if a in {Read(t), ReadFails(t), Finish(t), Lock(t), Test(t), Unlock(t), WakeSpuriously(t)} {
      OwnStepInv(p, s, a, t);
    } else if a.NicDone? {
      NicDoneInv(p, s, t);
    } else if a == CqRead || (a == CqTest && s.cqPc.Got?) {
      CqTakesInv(p, s, a);
    } else if a in {CqLock, CqSet, CqSignal, CqUnlock} {
      CqHandsOverInv(p, s, a);
    } else {
      IdleInv(p, s, a, t);
    }
  }

  /** The remaining steps concern no reader. */
  lemma IdleInv(p: Params, s: State, a: Step, t: nat)
    requires Inv(p, s) && Enabled(p, s, a) && t < p.n
    requires a in {CqCheck, CqTimeout, CqReadFails, Join, StopRun, JoinCq} || (a == CqTest && !s.cqPc.Got?)
    ensures ReaderInv(p, multiset(s.cq), CqStep(s, a), t, ReaderStep(s.readers[t], a))
  {
    assert ReaderInv(p, multiset(s.cq), s.cqPc, t, s.readers[t]);
  }

  /** What reader `t` can notice of the completion-queue thread. */
  ghost predicate SameFor(c: CqPc, c': CqPc, t: nat) {
    && InHand(c', t) == InHand(c, t)
    && ((c'.ToSet? || c'.ToSignal? || c'.ToUnlock?) && c'.t == t <==> (c.ToSet? || c.ToSignal? || c.ToUnlock?) && c.t == t)
    && (c' == ToSignal(t) <==> c == ToSignal(t))
  }

  lemma OtherQueue(p: Params, s: State, a: Step, t: nat)
    requires Enabled(p, s, a) && t != Touched(s, a)
    ensures multiset(Apply(p, s, a).cq)[t] == multiset(s.cq)[t]
  {
    if a.CqRead? { assert s.cq == [s.cq[0]] + s.cq[1..]; }
  }

  lemma OtherThread(p: Params, s: State, a: Step, t: nat)
    requires Enabled(p, s, a) && t != Touched(s, a)
    ensures SameFor(s.cqPc, CqStep(s, a), t)
  {
  }

  lemma OtherReader(p: Params, cq: multiset<nat>, cq': multiset<nat>, c: CqPc, c': CqPc, t: nat, r: Reader)
    requires ReaderInv(p, cq, c, t, r) && cq'[t] == cq[t] && SameFor(c, c', t)
    ensures ReaderInv(p, cq', c', t, r)
  {
  }

  /** The step, for another reader. */
  lemma OtherInv(p: Params, s: State, a: Step, t: nat)
    requires Inv(p, s) && Enabled(p, s, a) && t < p.n && t != Touched(s, a)
    ensures var s' := Apply(p, s, a);
      s'.readers[t] == s.readers[t] && ReaderInv(p, multiset(s'.cq), s'.cqPc, t, s'.readers[t])
  {
    OtherQueue(p, s, a, t);
    OtherThread(p, s, a, t);
    OtherReader(p, multiset(s.cq), multiset(Apply(p, s, a).cq), s.cqPc, CqStep(s, a), t, s.readers[t]);
  }

  /** What the threads and the main thread agree on. */
  lemma GlobalInv(p: Params, s: State, a: Step)
    requires Inv(p, s) && Enabled(p, s, a)
    ensures var s' := Apply(p, s, a);
      && |s'.readers| == p.n
      && (s'.cqPc.Got? || s'.cqPc.ToLock? || s'.cqPc.ToSet? || s'.cqPc.ToSignal? || s'.cqPc.ToUnlock? ==> s'.cqPc.t < p.n)
      && (s'.run <==> s'.main.Joining?)
      && (s'.main.Joining? ==> s'.main.k <= p.n)
      && (s'.cqPc == Error || (s'.cqPc == Stopped && s'.run) ==> p.readFails)
      && (s'.main == Finished ==> s'.cqPc == Stopped)
  {
    if a == CqRead { assert s.cq[0] in multiset(s.cq); }
  }

  lemma CqInRange(p: Params, s: State, a: Step)
    requires Inv(p, s) && Enabled(p, s, a)
    ensures forall t :: t in multiset(Apply(p, s, a).cq) ==> t < p.n
  {
    var s' := Apply(p, s, a);
    forall t | t in multiset(s'.cq) ensures t < p.n {
      if !(a.NicDone? && t == a.t) { assert t in multiset(s.cq); }
    }
  }

  lemma JoinedInv(p: Params, s: State, a: Step, t: nat)
    requires Inv(p, s) && Enabled(p, s, a)
    requires var m := Apply(p, s, a).main; t < (if m.Joining? then m.k else p.n) && t < p.n
    ensures Apply(p, s, a).readers[t].pc in {Exited, Failed}
  {
    assert a == Join || t < (if s.main.Joining? then s.main.k else p.n);
  }

  lemma StepInv(p: Params, s: State, a: Step)
    requires Inv(p, s) && Enabled(p, s, a)
    ensures Inv(p, Apply(p, s, a))
  {
    var s' := Apply(p, s, a);
    GlobalInv(p, s, a);
    CqInRange(p, s, a);
    forall t: nat | t < p.n ensures ReaderInv(p, multiset(s'.cq), s'.cqPc, t, s'.readers[t]) {
      if t == Touched(s, a) { TouchedInv(p, s, a); } else { OtherInv(p, s, a, t); }
    }
    forall t: nat | t < (if s'.main.Joining? then s'.main.k else p.n) ensures s'.readers[t].pc in {Exited, Failed} {
      JoinedInv(p, s, a, t);
    }
  }

  ghost function InvOf(p: Params): State -> bool { s => Inv(p, s) }

  lemma InvInductive(p: Params)
    ensures Inductive(Program(p), InvOf(p))
  {
    InitInv(p);
    var m := Program(p);
    forall s, a | InvOf(p)(s) && m.enabled(s, a) ensures InvOf(p)(m.apply(s, a)) { StepInv(p, s, a); }
  }

  lemma InvInEveryRun(p: Params, s: State)
    requires Reachable(Program(p), s)
    ensures Inv(p, s)
  {
    InvInductive(p);
    ReachableKeeps(Program(p), InvOf(p), s);
  }
}
