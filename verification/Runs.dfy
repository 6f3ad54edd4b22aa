/**
 Runs of a step system: the induction principles that the protocols share.  A machine may have any
 number of steps enabled in a state; a run takes any one of them at a time.
 */
module Runs {

  datatype Machine<!S(!new), !A(!new)> = Machine(init: S, enabled: (S, A) -> bool, apply: (S, A) -> S)

  ghost predicate ValidRun<S(!new), A(!new)>(m: Machine<S, A>, s: S, run: seq<A>)
    decreases |run|
  {
    run == [] || (m.enabled(s, run[0]) && ValidRun(m, m.apply(s, run[0]), run[1..]))
  }

  ghost function Exec<S(!new), A(!new)>(m: Machine<S, A>, s: S, run: seq<A>): S
    decreases |run|
  {
    if run == [] then s else Exec(m, m.apply(s, run[0]), run[1..])
  }

  ghost predicate Leads<S(!new), A(!new)>(m: Machine<S, A>, s: S, run: seq<A>, t: S) {
    ValidRun(m, s, run) && Exec(m, s, run) == t
  }

  ghost predicate Reachable<S(!new), A(!new)>(m: Machine<S, A>, t: S) {
    exists run :: Leads(m, m.init, run, t)
  }

  /** `t` can still be reached from `s`. */
  ghost predicate CanReach<S(!new), A(!new)>(m: Machine<S, A>, s: S, t: S) {
    exists run :: Leads(m, s, run, t)
  }

  ghost predicate Stuck<S(!new), A(!new)>(m: Machine<S, A>, s: S) {
    forall a :: !m.enabled(s, a)
  }

  ghost predicate Kept<S(!new), A(!new)>(m: Machine<S, A>, inv: S -> bool) {
    forall s, a :: inv(s) && m.enabled(s, a) ==> inv(m.apply(s, a))
  }

  ghost predicate Inductive<S(!new), A(!new)>(m: Machine<S, A>, inv: S -> bool) { inv(m.init) && Kept(m, inv) }

  /** Each step lowers `measure`, as long as `inv` holds. */
  ghost predicate Decreasing<S(!new), A(!new)>(m: Machine<S, A>, inv: S -> bool, measure: S -> nat) {
    forall s, a :: inv(s) && m.enabled(s, a) ==> measure(m.apply(s, a)) < measure(s)
  }

  /** Each step lowers `measure` by exactly one, as long as `inv` holds. */
  ghost predicate Counting<S(!new), A(!new)>(m: Machine<S, A>, inv: S -> bool, measure: S -> nat) {
    forall s, a :: inv(s) && m.enabled(s, a) ==> measure(m.apply(s, a)) == measure(s) - 1
  }

  lemma {:induction false} RunKeeps<S(!new), A(!new)>(m: Machine<S, A>, inv: S -> bool, s: S, run: seq<A>)
    requires Inductive(m, inv) && inv(s) && ValidRun(m, s, run)
    ensures inv(Exec(m, s, run))
    decreases |run|
  {
    if run != [] { RunKeeps(m, inv, m.apply(s, run[0]), run[1..]); }
  }

  /** What holds initially and is kept by every step holds in every reachable state. */
  lemma ReachableKeeps<S(!new), A(!new)>(m: Machine<S, A>, inv: S -> bool, t: S)
    requires Inductive(m, inv) && Reachable(m, t)
    ensures inv(t)
  {
    var run :| Leads(m, m.init, run, t);
    RunKeeps(m, inv, m.init, run);
  }

  /** A run is never longer than the drop of the measure. */
  lemma {:induction false} RunLength<S(!new), A(!new)>(m: Machine<S, A>, inv: S -> bool, measure: S -> nat,
                                                       s: S, run: seq<A>)
    requires Inductive(m, inv) && Decreasing(m, inv, measure) && inv(s) && ValidRun(m, s, run)
    ensures |run| <= measure(s) - measure(Exec(m, s, run))
    decreases |run|
  {
    if run != [] { RunLength(m, inv, measure, m.apply(s, run[0]), run[1..]); }
  }

  /** If each step lowers the measure by exactly one, the measure counts the steps. */
  lemma {:induction false} RunCounts<S(!new), A(!new)>(m: Machine<S, A>, inv: S -> bool, measure: S -> nat,
                                                       s: S, run: seq<A>)
    requires Inductive(m, inv) && Counting(m, inv, measure) && inv(s) && ValidRun(m, s, run)
    ensures |run| == measure(s) - measure(Exec(m, s, run))
    decreases |run|
  {
    if run != [] { RunCounts(m, inv, measure, m.apply(s, run[0]), run[1..]); }
  }

  lemma {:induction false} RunConcat<S(!new), A(!new)>(m: Machine<S, A>, s: S, run: seq<A>, more: seq<A>)
    requires ValidRun(m, s, run) && ValidRun(m, Exec(m, s, run), more)
    ensures ValidRun(m, s, run + more) && Exec(m, s, run + more) == Exec(m, Exec(m, s, run), more)
    decreases |run|
  {
    if run == [] {
      assert run + more == more;
    } else {
      assert (run + more)[1..] == run[1..] + more;
      RunConcat(m, m.apply(s, run[0]), run[1..], more);
    }
  }

  lemma Prepend<S(!new), A(!new)>(m: Machine<S, A>, s: S, a: A, run: seq<A>, t: S)
    requires m.enabled(s, a) && Leads(m, m.apply(s, a), run, t)
    ensures Leads(m, s, [a] + run, t)
  {
    assert ([a] + run)[1..] == run;
  }

  lemma ReachOn<S(!new), A(!new)>(m: Machine<S, A>, s: S, run: seq<A>)
    requires Reachable(m, s) && ValidRun(m, s, run)
    ensures Reachable(m, Exec(m, s, run))
  {
    var first :| Leads(m, m.init, first, s);
    RunConcat(m, m.init, first, run);
    assert Leads(m, m.init, first + run, Exec(m, s, run));
  }

  lemma InitReachable<S(!new), A(!new)>(m: Machine<S, A>)
    ensures Reachable(m, m.init)
  {
    assert Leads(m, m.init, [], m.init);
  }

  lemma StepReachable<S(!new), A(!new)>(m: Machine<S, A>, s: S, a: A)
    requires Reachable(m, s) && m.enabled(s, a)
    ensures Reachable(m, m.apply(s, a))
  {
    assert Exec(m, s, [a]) == m.apply(s, a);
    ReachOn(m, s, [a]);
  }

  /** With a decreasing measure a run can always be continued until no step is enabled. */
  lemma {:induction false} RunOn<S(!new), A(!new)>(m: Machine<S, A>, inv: S -> bool, measure: S -> nat, s: S)
    returns (run: seq<A>)
    requires Kept(m, inv) && Decreasing(m, inv, measure) && inv(s)
    ensures ValidRun(m, s, run) && inv(Exec(m, s, run)) && Stuck(m, Exec(m, s, run))
    decreases measure(s)
  {
    if a :| m.enabled(s, a) {
      var rest := RunOn(m, inv, measure, m.apply(s, a));
      run := [a] + rest;
      assert run[1..] == rest;
    } else {
      run := [];
    }
  }

  /** So some state without enabled steps can be reached from every reachable state. */
  lemma CanAlwaysStop<S(!new), A(!new)>(m: Machine<S, A>, inv: S -> bool, measure: S -> nat, s: S)
    requires Inductive(m, inv) && Decreasing(m, inv, measure) && Reachable(m, s)
    ensures exists t :: CanReach(m, s, t) && Stuck(m, t) && Reachable(m, t)
  {
    ReachableKeeps(m, inv, s);
    var run := RunOn(m, inv, measure, s);
    ReachOn(m, s, run);
    assert Leads(m, s, run, Exec(m, s, run));
  }

  /** The same machine, taking only the steps that `allowed` admits. */
  ghost function Only<S(!new), A(!new)>(m: Machine<S, A>, allowed: (S, A) -> bool): Machine<S, A> {
    Machine(m.init, (s, a) => m.enabled(s, a) && allowed(s, a), m.apply)
  }

  /** Its runs are runs of the machine. */
  lemma {:induction false} RunOfOnly<S(!new), A(!new)>(m: Machine<S, A>, allowed: (S, A) -> bool, s: S, run: seq<A>)
    requires ValidRun(Only(m, allowed), s, run)
    ensures Leads(m, s, run, Exec(Only(m, allowed), s, run))
    decreases |run|
  {
    if run != [] { RunOfOnly(m, allowed, m.apply(s, run[0]), run[1..]); }
  }
}
