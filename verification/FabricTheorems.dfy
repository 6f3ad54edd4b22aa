/** What every run of the reader threads guarantees. */
module FabricTheorems {
  import opened FabricReaders
  import opened Runs
  import opened Sums

  // ---------------------------------------------------------------- safety

  /** Each reader has at most one read outstanding, and it is always somewhere on its way back. */
  lemma NoLostCompletion(p: Params, s: State, t: nat)
    requires Reachable(Program(p), s) && t < p.n
    ensures |s.readers| == p.n
    ensures var r := s.readers[t];
      && r.posted == r.consumed + r.atNic + multiset(s.cq)[t] + InHand(s.cqPc, t) + I(r.ready)
      && r.consumed <= r.posted <= r.consumed + 1
      && (r.posted == r.consumed + 1 <==> r.pc in {Posted, Testing, Waiting, Woken})
  {
    InvInEveryRun(p, s);
    assert ReaderInv(p, multiset(s.cq), s.cqPc, t, s.readers[t]);
  }

  /**
   A reader that waits is waiting for something: its completion is still coming, or it is announced and
   the completion-queue thread, holding the reader's lock, is about to signal.
   */
  lemma NoLostWakeup(p: Params, s: State, t: nat)
    requires Reachable(Program(p), s) && t < p.n
    ensures |s.readers| == p.n
    ensures s.readers[t].pc == Waiting ==>
      (!s.readers[t].ready && s.readers[t].atNic + multiset(s.cq)[t] + InHand(s.cqPc, t) == 1)
      || (s.readers[t].ready && s.cqPc == ToSignal(t) && s.readers[t].lock == ByCq)
  {
    InvInEveryRun(p, s);
    assert ReaderInv(p, multiset(s.cq), s.cqPc, t, s.readers[t]);
  }

  /**
   After the main thread has cleared `run`, no completion is in the queue or in hand: the early exit of
   the completion-queue thread discards nothing.  Every reader without an error consumed `count` reads.
   */
  lemma ShutdownDiscardsNothing(p: Params, s: State)
    requires Reachable(Program(p), s) && !s.run
    ensures s.cq == [] && !s.cqPc.Got? && !s.cqPc.ToLock? && !s.cqPc.ToSet?
    ensures |s.readers| == p.n
    ensures forall t: nat :: t < p.n ==>
      && s.readers[t].pc in {Exited, Failed}
      && s.readers[t].posted == s.readers[t].consumed <= p.count
      && (s.readers[t].pc == Exited ==> s.readers[t].consumed == p.count)
  {
    InvInEveryRun(p, s);
    forall t: nat | t < p.n
      ensures multiset(s.cq)[t] == 0 && InHand(s.cqPc, t) == 0
      ensures s.readers[t].pc in {Exited, Failed} && s.readers[t].posted == s.readers[t].consumed <= p.count
      ensures s.readers[t].pc == Exited ==> s.readers[t].consumed == p.count
    {
      assert ReaderInv(p, multiset(s.cq), s.cqPc, t, s.readers[t]);
    }
    assert s.cqPc.Got? || s.cqPc.ToLock? || s.cqPc.ToSet? ==> InHand(s.cqPc, s.cqPc.t) == 1;
    assert multiset(s.cq) == multiset{};
    assert |s.cq| == |multiset(s.cq)|;
  }

  /** Once `run` is cleared the completion-queue thread begins no further read. */
  lemma {:induction false} NoReadAfterStop(p: Params, s: State, run: seq<Step>)
    requires ValidRun(Program(p), s, run) && !s.run && s.cqPc != Sread
    ensures var t := Exec(Program(p), s, run); !t.run && t.cqPc != Sread
    decreases |run|
  {
    if run != [] { NoReadAfterStop(p, Next(p, s, run[0]), run[1..]); }
  }

  // ---------------------------------------------------------------- progress

  /** Steps that the program does not depend on: spurious wakeups, and timeouts while it runs. */
  predicate Noise(s: State, a: Step) { a.WakeSpuriously? || (a == CqTimeout && s.run) }

  ghost predicate CanWork(p: Params, s: State) { exists a :: Enabled(p, s, a) && !Noise(s, a) }

  /** A reader that has not ended can move, unless it waits for something that the card has finished. */
  lemma ReaderCanWork(p: Params, s: State, t: nat)
    requires Inv(p, s) && t < p.n && s.readers[t].pc !in {Exited, Failed}
    requires s.cqPc == Stopped || (s.cqPc == Sread && s.cq == [])
    requires s.readers[t].pc == Waiting ==> s.readers[t].atNic > 0 || s.cqPc == Sread
    ensures CanWork(p, s)
  {
    var r := s.readers[t];
    assert ReaderInv(p, multiset(s.cq), s.cqPc, t, r);
    match r.pc
    case Loop => assert Enabled(p, s, if r.i < p.count then Read(t) else Finish(t));
    case Posted => assert Enabled(p, s, Lock(t));
    case Testing => assert Enabled(p, s, Test(t));
    case Waiting => assert Enabled(p, s, NicDone(t));
    case Woken => assert Enabled(p, s, Lock(t));
    case Consumed => assert Enabled(p, s, Unlock(t));
  }

  /** The completion-queue thread only ever waits for a lock, or for something to read. */
  lemma CqCanWork(p: Params, s: State)
    requires Inv(p, s) && s.cqPc != Stopped && !(s.cqPc == Sread && s.cq == [] && s.run)
    ensures CanWork(p, s)
  {
    match s.cqPc
    case CheckRun => assert Enabled(p, s, CqCheck);
    case Sread => assert Enabled(p, s, if s.cq != [] then CqRead else CqTimeout);
    case Empty => assert Enabled(p, s, CqTest);
    case Error => assert Enabled(p, s, CqTest);
    case Got(t) => assert Enabled(p, s, CqTest);
    case ToLock(t) =>
      assert ReaderInv(p, multiset(s.cq), s.cqPc, t, s.readers[t]);
      assert Enabled(p, s, if s.readers[t].lock == Free then CqLock else Test(t));
    case ToSet(t) => assert Enabled(p, s, CqSet);
    case ToSignal(t) => assert Enabled(p, s, CqSignal);
    case ToUnlock(t) => assert Enabled(p, s, CqUnlock);
  }

  /**
   The completion-queue thread has given up, every reader has ended or waits for a completion that nobody will
   hand over, and the main thread joins one that waits.
   */
  ghost predicate Stranded(p: Params, s: State)
    requires |s.readers| == p.n
  {
    && s.cqPc == Stopped && s.run
    && s.main.Joining? && s.main.k < p.n && s.readers[s.main.k].pc == Waiting
    && forall t: nat :: t < p.n ==> s.readers[t].pc in {Waiting, Exited, Failed} && s.readers[t].atNic == 0
  }

  /** The main thread and the readers, when the completion-queue thread cannot move. */
  lemma OthersCanWork(p: Params, s: State)
    requires Inv(p, s) && s.run && (s.cqPc == Stopped || (s.cqPc == Sread && s.cq == [])) && !Stranded(p, s)
    ensures CanWork(p, s)
  {
    if s.main.k >= p.n {
      assert Enabled(p, s, StopRun);
    } else if s.readers[s.main.k].pc in {Exited, Failed} {
      assert Enabled(p, s, Join);
    } else if s.cqPc == Sread || s.readers[s.main.k].pc != Waiting {
      ReaderCanWork(p, s, s.main.k);
    } else {
      var t: nat :| t < p.n && !(s.readers[t].pc in {Waiting, Exited, Failed} && s.readers[t].atNic == 0);
      if s.readers[t].atNic > 0 { assert Enabled(p, s, NicDone(t)); } else { ReaderCanWork(p, s, t); }
    }
  }

  /** Until the program ends some step other than noise is possible, unless everybody is stranded. */
  lemma CanWorkIff(p: Params, s: State)
    requires Reachable(Program(p), s) && s.main != Finished
    ensures |s.readers| == p.n
    ensures CanWork(p, s) <==> !Stranded(p, s)
  {
    InvInEveryRun(p, s);
    if Stranded(p, s) {
      forall a ensures !(Enabled(p, s, a) && !Noise(s, a)) { StrandedIsStuck(p, s, a); }
    } else if s.cqPc == Stopped && !s.run {
      assert Enabled(p, s, JoinCq);
    } else if s.cqPc == Stopped || (s.cqPc == Sread && s.cq == [] && s.run) {
      OthersCanWork(p, s);
    } else {
      CqCanWork(p, s);
    }
  }

  lemma StrandedIsStuck(p: Params, s: State, a: Step)
    requires |s.readers| == p.n && Stranded(p, s)
    ensures !(Enabled(p, s, a) && !Noise(s, a))
  {
  }

  // ---------------------------------------------------------------- termination

  ghost function PcWork(r: Reader): int {
    match r.pc
    case Exited => 0
    case Failed => 0
    case Loop => 1
    case Consumed => 2
    case Testing => if r.ready then 3 else 7
    case Posted => if r.ready then 4 else 8
    case Woken => if r.ready then 4 else 8
    case Waiting => if r.ready then 5 else 6
  }

  /** What is left to do for reader `t`. */
  ghost function Work(p: Params, s: State, t: nat): int {
    if t >= |s.readers| then 0
    else
      var r := s.readers[t];
      17 * (p.count - r.posted) + PcWork(r) + 8 * r.atNic + 7 * multiset(s.cq)[t]
  }

  ghost function WorkOf(p: Params, s: State): nat -> int { (t: nat) => Work(p, s, t) }

  ghost function CqWork(c: CqPc, run: bool): int {
    match c
    case Stopped => 0
    case Empty => if run then 4 else 1
    case Error => 1
    case Sread => 2
    case CheckRun => 3
    case ToUnlock(_) => 4
    case ToSignal(_) => 5
    case ToSet(_) => 6
    case ToLock(_) => 7
    case Got(_) => 8
  }

  ghost function MainWork(p: Params, m: MainPc): int {
    match m case Joining(k) => p.n - k + 2 case JoiningCq => 1 case Finished => 0
  }

  ghost function Measure(p: Params, s: State): int {
    Sum(WorkOf(p, s), p.n) + CqWork(s.cqPc, s.run) + MainWork(p, s.main)
  }

  /** The change in the work of the reader that a step concerns. */
  ghost function Change(p: Params, s: State, a: Step, s': State): int {
    var t := Touched(s, a);
    if t < p.n then Work(p, s', t) - Work(p, s, t) else 0
  }

  /** With the completion-queue and main threads. */
  ghost predicate Costs(p: Params, s: State, a: Step, s': State) {
    Change(p, s, a, s') + CqWork(s'.cqPc, s'.run) + MainWork(p, s'.main)
      <= CqWork(s.cqPc, s.run) + MainWork(p, s.main) + (if Noise(s, a) then 2 else -1)
  }

  lemma OtherWork(p: Params, s: State, a: Step, t: nat)
    requires Enabled(p, s, a) && t < p.n && t != Touched(s, a)
    ensures Work(p, Apply(p, s, a), t) == Work(p, s, t)
  {
    OtherQueue(p, s, a, t);
  }

  lemma ReaderCosts(p: Params, s: State, a: Step, t: nat)
    requires Enabled(p, s, a) && t < p.n
    requires a in {Read(t), ReadFails(t), Finish(t), Lock(t), Test(t), Unlock(t), WakeSpuriously(t)}
    ensures Costs(p, s, a, Apply(p, s, a))
  {
  }

  lemma NicDoneCosts(p: Params, s: State, t: nat)
    requires Enabled(p, s, NicDone(t))
    ensures Costs(p, s, NicDone(t), Apply(p, s, NicDone(t)))
  {
  }

  lemma CqReadCosts(p: Params, s: State)
    requires Enabled(p, s, CqRead) && s.cq[0] < p.n
    ensures Costs(p, s, CqRead, Apply(p, s, CqRead))
  {
    assert s.cq == [s.cq[0]] + s.cq[1..];
  }

  lemma CqLockCosts(p: Params, s: State, a: Step)
    requires Enabled(p, s, a) && (a == CqLock || a == CqUnlock)
    ensures Costs(p, s, a, Apply(p, s, a))
  {
  }

  lemma CqSetCosts(p: Params, s: State)
    requires Enabled(p, s, CqSet)
    ensures Costs(p, s, CqSet, Apply(p, s, CqSet))
  {
  }

  /** The wakeup of a waiting reader is paid for by its completion. */
  lemma CqSignalCosts(p: Params, s: State)
    requires Inv(p, s) && Enabled(p, s, CqSignal)
    ensures Costs(p, s, CqSignal, Apply(p, s, CqSignal))
  {
    assert ReaderInv(p, multiset(s.cq), s.cqPc, s.cqPc.t, s.readers[s.cqPc.t]);
  }

  lemma CqLoopCosts(p: Params, s: State, a: Step)
    requires Enabled(p, s, a) && a in {CqCheck, CqTimeout, CqReadFails, CqTest}
    ensures Costs(p, s, a, Apply(p, s, a))
  {
    assert Change(p, s, a, Apply(p, s, a)) == 0;
  }

  lemma MainCosts(p: Params, s: State, a: Step)
    requires Inv(p, s) && Enabled(p, s, a) && a in {Join, StopRun, JoinCq}
    ensures Costs(p, s, a, Apply(p, s, a))
  {
    assert Change(p, s, a, Apply(p, s, a)) == 0;
  }

  lemma StepCosts(p: Params, s: State, a: Step)
    requires Inv(p, s) && Enabled(p, s, a)
    ensures Costs(p, s, a, Apply(p, s, a))
  {
    match a
    case Read(t) => ReaderCosts(p, s, a, t);
    case ReadFails(t) => ReaderCosts(p, s, a, t);
    case Finish(t) => ReaderCosts(p, s, a, t);
    case Lock(t) => ReaderCosts(p, s, a, t);
    case Test(t) => ReaderCosts(p, s, a, t);
    case Unlock(t) => ReaderCosts(p, s, a, t);
    case WakeSpuriously(t) => ReaderCosts(p, s, a, t);
    case NicDone(t) => NicDoneCosts(p, s, t);
    case CqRead =>
      assert s.cq[0] in multiset(s.cq);
      CqReadCosts(p, s);
    case CqLock => CqLockCosts(p, s, a);
    case CqUnlock => CqLockCosts(p, s, a);
    case CqSet => CqSetCosts(p, s);
    case CqSignal => CqSignalCosts(p, s);
    case CqCheck => CqLoopCosts(p, s, a);
    case CqTimeout => CqLoopCosts(p, s, a);
    case CqReadFails => CqLoopCosts(p, s, a);
    case CqTest => CqLoopCosts(p, s, a);
    case Join => MainCosts(p, s, a);
    case StopRun => MainCosts(p, s, a);
    case JoinCq => MainCosts(p, s, a);
  }

  lemma MeasureStep(p: Params, s: State, a: Step)
    requires Inv(p, s) && Enabled(p, s, a)
    ensures Measure(p, Apply(p, s, a)) <= Measure(p, s) + (if Noise(s, a) then 2 else -1)
  {
    var f, g := WorkOf(p, s), WorkOf(p, Apply(p, s, a));
    StepCosts(p, s, a);
    forall j: nat | j < p.n && j != Touched(s, a) ensures f(j) == g(j) { OtherWork(p, s, a, j); }
    SumDiffers(f, g, p.n, Touched(s, a));
  }

  lemma MeasureNat(p: Params, s: State)
    requires Inv(p, s)
    ensures Measure(p, s) >= 0
  {
    forall t: nat | t < p.n ensures WorkOf(p, s)(t) >= 0 {
      assert ReaderInv(p, multiset(s.cq), s.cqPc, t, s.readers[t]);
    }
    SumNat(WorkOf(p, s), p.n);
  }

  lemma InitMeasure(p: Params)
    ensures Measure(p, Init(p)) == p.n * (17 * p.count + 1) + p.n + 5
  {
    var s := Init(p);
    forall t: nat | t < p.n ensures WorkOf(p, s)(t) == 17 * p.count + 1 { }
    SumConst(WorkOf(p, s), p.n, 17 * p.count + 1);
  }

  /** Noise steps of a run. */
  ghost function NoiseIn(p: Params, s: State, run: seq<Step>): nat
    decreases |run|
  {
    if run == [] then 0 else (if Noise(s, run[0]) then 1 else 0) + NoiseIn(p, Next(p, s, run[0]), run[1..])
  }

  lemma {:induction false} RunCosts(p: Params, s: State, run: seq<Step>)
    requires Inv(p, s) && ValidRun(Program(p), s, run)
    ensures |run| + Measure(p, Exec(Program(p), s, run)) <= Measure(p, s) + 3 * NoiseIn(p, s, run)
    ensures Inv(p, Exec(Program(p), s, run))
    decreases |run|
  {
    if run != [] {
      StepInv(p, s, run[0]);
      MeasureStep(p, s, run[0]);
      RunCosts(p, Next(p, s, run[0]), run[1..]);
    }
  }

  /** The program ends: apart from spurious wakeups and idle timeouts, a run has boundedly many steps. */
  lemma EveryRunIsBounded(p: Params, run: seq<Step>)
    requires ValidRun(Program(p), Init(p), run)
    ensures |run| <= p.n * (17 * p.count + 1) + p.n + 5 + 3 * NoiseIn(p, Init(p), run)
  {
    InitInv(p);
    RunCosts(p, Init(p), run);
    MeasureNat(p, Exec(Program(p), Init(p), run));
    InitMeasure(p);
  }

  // ---------------------------------------------------------------- when nobody is ever stranded

  predicate Quietly(s: State, a: Step) { !a.WakeSpuriously? }

  /** The completion-queue thread is gone and reader 0 waits. */
  ghost predicate Abandoned(p: Params, s: State) {
    Inv(p, s) && p.n >= 1 && s.cqPc == Stopped && s.run && s.readers[0].pc == Waiting
  }

  lemma StaysAbandoned(p: Params, s: State, a: Step)
    requires Abandoned(p, s) && Enabled(p, s, a) && Quietly(s, a)
    ensures Abandoned(p, Apply(p, s, a)) && 0 <= Measure(p, Apply(p, s, a)) < Measure(p, s)
  {
    StepInv(p, s, a);
    MeasureStep(p, s, a);
    MeasureNat(p, Apply(p, s, a));
    KeepsWaiting(p, s, a);
  }

  lemma JoinsFirst(p: Params, s: State)
    requires Inv(p, s) && p.n >= 1 && s.run && s.readers[0].pc == Waiting
    ensures s.main == Joining(0)
  {
  }

  lemma KeepsWaiting(p: Params, s: State, a: Step)
    requires Abandoned(p, s) && Enabled(p, s, a) && Quietly(s, a)
    ensures var s' := Apply(p, s, a);
      s'.cqPc == Stopped && s'.run && |s'.readers| == p.n && s'.readers[0].pc == Waiting
  {
    JoinsFirst(p, s);
  }

  lemma CqStepReachable(p: Params, s: State, a: Step, c: CqPc) returns (s': State)
    requires Reachable(Program(p), s) && Enabled(p, s, a) && !s.cqPc.Got?
    requires (a == CqCheck || a == CqReadFails || a == CqTest) && c == CqStep(s, a)
    ensures Reachable(Program(p), s') && s' == s.(cqPc := c)
  {
    CqStepEffect(p, s, a);
    StepReachable(Program(p), s, a);
    s' := s.(cqPc := c);
  }

  lemma CqStepEffect(p: Params, s: State, a: Step)
    requires Enabled(p, s, a) && !s.cqPc.Got? && (a == CqCheck || a == CqReadFails || a == CqTest)
    ensures Next(p, s, a) == s.(cqPc := CqStep(s, a))
  {
    assert p.n > 0 ==> ReaderStep(s.readers[0], a) == s.readers[0];
  }

  /** The read fails at once. */
  lemma CqDies(p: Params) returns (s: State)
    requires p.readFails
    ensures Reachable(Program(p), s) && s == Init(p).(cqPc := Stopped)
  {
    InitReachable(Program(p));
    var s1 := CqStepReachable(p, Init(p), CqCheck, Sread);
    var s2 := CqStepReachable(p, s1, CqReadFails, Error);
    s := CqStepReachable(p, s2, CqTest, Stopped);
  }

  lemma ReaderStepReachable(p: Params, s: State, a: Step, r: Reader) returns (s': State)
    requires Reachable(Program(p), s) && Enabled(p, s, a) && (a == Read(0) || a == Lock(0) || a == Test(0))
    requires r == ReaderStep(s.readers[0], a)
    ensures Reachable(Program(p), s') && s' == s.(readers := s.readers[0 := r])
  {
    StepReachable(Program(p), s, a);
    s' := Program(p).apply(s, a);
  }

  /** Then the first reader posts and waits. */
  lemma Abandon(p: Params) returns (s: State)
    requires p.readFails && p.n >= 1 && p.count >= 1
    ensures Reachable(Program(p), s) && Abandoned(p, s)
  {
    var s1 := CqDies(p);
    var s2 := ReaderStepReachable(p, s1, Read(0), Reader(Posted, 0, false, Free, 1, 1, 0));
    var s3 := ReaderStepReachable(p, s2, Lock(0), Reader(Testing, 0, false, ByReader, 1, 1, 0));
    s := ReaderStepReachable(p, s3, Test(0), Reader(Waiting, 0, false, Free, 1, 1, 0));
    InvInEveryRun(p, s);
  }

  ghost function AbandonedIn(p: Params): State -> bool { s => Abandoned(p, s) }

  ghost function WorkLeft(p: Params): State -> nat { s => if Measure(p, s) < 0 then 0 else Measure(p, s) }

  lemma AbandonedRuns(p: Params)
    ensures Kept(Only(Program(p), Quietly), AbandonedIn(p))
    ensures Decreasing(Only(Program(p), Quietly), AbandonedIn(p), WorkLeft(p))
  {
    var m := Only(Program(p), Quietly);
    forall s, a | AbandonedIn(p)(s) && m.enabled(s, a)
      ensures AbandonedIn(p)(m.apply(s, a)) && WorkLeft(p)(m.apply(s, a)) < WorkLeft(p)(s)
    {
      StaysAbandoned(p, s, a);
    }
  }

  lemma AbandonedEnds(p: Params, s: State) returns (t: State)
    requires Reachable(Program(p), s) && Abandoned(p, s)
    ensures Reachable(Program(p), t) && t.main != Finished && !CanWork(p, t)
  {
    AbandonedRuns(p);
    var run := RunOn(Only(Program(p), Quietly), AbandonedIn(p), WorkLeft(p), s);
    t := Exec(Only(Program(p), Quietly), s, run);
    RunOfOnly(Program(p), Quietly, s, run);
    ReachOn(Program(p), s, run);
    StuckCannotWork(p, t);
  }

  lemma StuckCannotWork(p: Params, s: State)
    requires Stuck(Only(Program(p), Quietly), s) && Abandoned(p, s)
    ensures s.main != Finished && !CanWork(p, s)
  {
    forall a ensures !(Enabled(p, s, a) && !Noise(s, a)) {
      NotEnabledQuietly(p, s, a);
    }
  }

  lemma NotEnabledQuietly(p: Params, s: State, a: Step)
    requires Stuck(Only(Program(p), Quietly), s)
    ensures !(Enabled(p, s, a) && Quietly(s, a))
  {
    assert !Only(Program(p), Quietly).enabled(s, a);
  }

  lemma NobodyStranded(p: Params, s: State)
    requires Inv(p, s) && (!p.readFails || p.n == 0 || p.count == 0)
    ensures !Stranded(p, s)
  {
    if p.readFails && s.main.Joining? && s.main.k < p.n {
      assert ReaderInv(p, multiset(s.cq), s.cqPc, s.main.k, s.readers[s.main.k]);
    }
  }

  /** There is no deadlock in any run if and only if the read cannot fail, or there is nothing to read. */
  lemma NoDeadlockIff(p: Params)
    ensures (forall s :: Reachable(Program(p), s) && s.main != Finished ==> CanWork(p, s))
            <==> !p.readFails || p.n == 0 || p.count == 0
  {
    if !p.readFails || p.n == 0 || p.count == 0 {
      forall s | Reachable(Program(p), s) && s.main != Finished ensures CanWork(p, s) {
        InvInEveryRun(p, s);
        NobodyStranded(p, s);
        CanWorkIff(p, s);
      }
    } else {
      var s := Abandon(p);
      var t := AbandonedEnds(p, s);
    }
  }
}
