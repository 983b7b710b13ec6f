/** How many slots of the pool are used up: a lock of a mutex that is bound takes none, and no thread takes
    more than one for the same mutex, so that a large enough pool never runs out. */
module SlotUse {
  import opened Counting
  import opened ShadowMutex

  /** The mutex for which a step takes a slot. */
  function TakesFor(s: State, a: Action): Option<nat> {
    if a.Step? && a.t < |s.pcs| && s.pcs[a.t].Alloc? then Some(s.pcs[a.t].m) else None
  }

  /** A step takes one slot or none, and ends the program exactly when it takes one that is not there. */
  lemma SlotsOf(s: State, a: Action)
    requires Enabled(s, a)
    ensures Apply(s, a).next == s.next + if TakesFor(s, a).Some? then 1 else 0
    ensures Apply(s, a).aborted <==> TakesFor(s, a).Some? && s.next >= s.total
    ensures Apply(s, a).total == s.total
  {
  }

  // ----- Calls on a bound mutex ----------------------------------------------------------------

  /** Where a lock of a bound mutex may stand. */
  predicate OnlyLoads(pc: Pc, m: nat) {
    pc == FirstCheck(m) || pc == Fetch(m) || (pc.Bound? && pc.m == m)
  }

  lemma BoundCallGoesOn(s: State, a: Action, t: nat, m: nat)
    requires Inv(s) && Enabled(s, a) && t < |s.pcs| && m < |s.bindings| && s.bindings[m] != 0
    requires OnlyLoads(s.pcs[t], m)
    ensures var s' := Apply(s, a);
      && t < |s'.pcs| && m < |s'.bindings| && s'.bindings[m] != 0
      && (OnlyLoads(s'.pcs[t], m) || (a == Return(t) && s'.pcs[t] == Outside))
      && (a.t == t ==> TakesFor(s, a) == None)
  {
    SharedFieldsOf(s, a);
  }

  /** `t` is in the call that it began at step `i`. */
  predicate InCall(run: seq<State>, acts: seq<Action>, t: nat, i: nat, j: nat) {
    i < j <= |acts| < |run| && forall k :: i < k <= j ==> t < |run[k].pcs| && run[k].pcs[t] != Outside
  }

  /** Once a mutex is bound, a lock or trylock of it does nothing but test and load its first word: from
      the call to the return, its thread takes no slot. */
  lemma {:induction false} BoundLocksTakeNoSlot(run: seq<State>, acts: seq<Action>, start: State,
                                                t: nat, m: nat, i: nat, j: nat)
    requires IsRun(run, acts, start) && Inv(start) && InCall(run, acts, t, i, j)
    requires acts[i] == CallLock(t, m) && m < |run[i].bindings| && run[i].bindings[m] != 0
    ensures m < |run[j].bindings| && run[j].bindings[m] == run[i].bindings[m]
    ensures OnlyLoads(run[j].pcs[t], m)
    ensures forall k :: i <= k < j && acts[k].t == t ==> TakesFor(run[k], acts[k]) == None
    decreases j
  {
    hide Apply, Inv;
    BindingIsUniqueAndFinal(run, acts, start, i, j);
    BindingIsUniqueAndFinal(run, acts, start, i, j - 1);
    if j == i + 1 {
      CallStarts(run[i], t, m);
    } else {
      BoundLocksTakeNoSlot(run, acts, start, t, m, i, j - 1);
      BoundCallGoesOn(run[j - 1], acts[j - 1], t, m);
    }
  }

  lemma CallStarts(s: State, t: nat, m: nat)
    requires Enabled(s, CallLock(t, m))
    ensures Apply(s, CallLock(t, m)).pcs[t] == FirstCheck(m) && TakesFor(s, CallLock(t, m)) == None
  {
  }

  /** Step `k` is the test that found mutex `m` unbound. */
  predicate SawUnbound(run: seq<State>, acts: seq<Action>, t: nat, m: nat, k: nat) {
    && k < |acts| < |run| && t < |run[k].pcs| && acts[k] == Step(t)
    && run[k].pcs[t] == FirstCheck(m) && m < |run[k].bindings| && run[k].bindings[m] == 0
  }

  lemma OnlyTestsLeadToAlloc(s: State, a: Action, t: nat)
    requires Enabled(s, a) && t < |s.pcs| && Apply(s, a).pcs[t].Alloc?
    ensures var m := Apply(s, a).pcs[t].m;
      || s.pcs[t] == Alloc(m)
      || (a == Step(t) && s.pcs[t] == FirstCheck(m) && m < |s.bindings| && s.bindings[m] == 0)
  {
  }

  /** From step `k`, the test, thread `t` is about to take a slot up to point `n`. */
  predicate SawUnboundSince(run: seq<State>, acts: seq<Action>, t: nat, m: nat, k: nat, n: nat) {
    && k < n < |run| && SawUnbound(run, acts, t, m, k)
    && forall l :: k < l <= n ==> t < |run[l].pcs| && run[l].pcs[t] == Alloc(m)
  }

  /** Whoever takes a slot has seen its mutex unbound in the same call, by its last access. */
  lemma {:induction false} TakersSawUnbound(run: seq<State>, acts: seq<Action>, start: State, t: nat, n: nat)
    requires IsRun(run, acts, start) && n <= |acts| && t < |run[n].pcs| && run[n].pcs[t].Alloc?
    requires forall u :: 0 <= u < |start.pcs| ==> start.pcs[u] == Outside
    ensures exists k :: SawUnboundSince(run, acts, t, run[n].pcs[t].m, k, n)
  {
    if n > 0 {
      OnlyTestsLeadToAlloc(run[n - 1], acts[n - 1], t);
      hide Apply, Enabled;
      var m := run[n].pcs[t].m;
      if SawUnbound(run, acts, t, m, n - 1) {
        assert SawUnboundSince(run, acts, t, m, n - 1, n);
      } else {
        TakersSawUnbound(run, acts, start, t, n - 1);
        var k :| SawUnboundSince(run, acts, t, m, k, n - 1);
        assert SawUnboundSince(run, acts, t, m, k, n);
      }
    }
  }

  // ----- How long a call takes ---------------------------------------------------------------

  /** How many accesses a call has still to make before its thread has the shadow. */
  function Left(pc: Pc): nat {
    match pc
    case FirstCheck(_) => 6
    case Alloc(_) => 5
    case ReadExpected(_, _) => 4
    case DoubleCheck(_, _, _) => 3
    case Install(_, _, _) => 2
    case Fetch(_) => 1
    case _ => 0
  }

  lemma StepsGetOn(s: State, a: Action, t: nat)
    requires Enabled(s, a) && t < |s.pcs| && s.pcs[t] != Outside && (Apply(s, a).pcs[t] != Outside)
    ensures a == Step(t) ==> Left(Apply(s, a).pcs[t]) < Left(s.pcs[t]) || Apply(s, a).aborted
    ensures a.t == t ==> a == Step(t)
    ensures a.t != t ==> Apply(s, a).pcs[t] == s.pcs[t]
  {
  }

  /** The accesses of `t` in the steps from `i` to `j`. */
  function Steps(acts: seq<Action>, t: nat, i: nat, j: nat): nat
    requires i <= j <= |acts|
    decreases j
  {
    if i == j then 0 else Steps(acts, t, i, j - 1) + if acts[j - 1] == Step(t) then 1 else 0
  }

  /** Binding waits for nobody: whatever the others do, a lock or trylock has its shadow after at most six
      accesses, and an unlock or destroy after one. */
  lemma {:induction false} CallsAreShort(run: seq<State>, acts: seq<Action>, start: State, t: nat, i: nat, j: nat)
    requires IsRun(run, acts, start) && InCall(run, acts, t, i, j) && !run[j].aborted
    requires (acts[i].CallLock? || acts[i].CallUnlock?) && acts[i].t == t
    ensures Steps(acts, t, i + 1, j) + Left(run[j].pcs[t]) <= if acts[i].CallLock? then 6 else 1
    decreases j
  {
    if j == i + 1 {
      assert run[j] == Apply(run[i], acts[i]);
    } else {
      hide Apply, Left;
      CallsAreShort(run, acts, start, t, i, j - 1);
      StepsGetOn(run[j - 1], acts[j - 1], t);
    }
  }

  // ----- One slot per thread and mutex --------------------------------------------------------

  function Size(): set<nat> -> int {
    (ms: set<nat>) => |ms|
  }

  /** A thread has its slot for a mutex in hand, or the mutex is bound; it is not about to take another. */
  predicate TakenOnce(s: State, t: nat, ms: set<nat>) {
    && t < |s.pcs|
    && forall m :: m in ms ==>
         && m < |s.bindings|
         && (s.bindings[m] != 0 || (InHand(s.pcs[t]).Some? && s.pcs[t].m == m))
         && s.pcs[t] != Alloc(m)
  }

  ghost predicate TakenFits(s: State, taken: seq<set<nat>>) {
    && |taken| == |s.pcs|
    && s.next == Total(taken, Size())
    && (forall t, m :: 0 <= t < |taken| && m in taken[t] ==> m < |s.bindings|)
    && (s.aborted ==> s.next > s.total)
    && (!s.aborted ==> forall t :: 0 <= t < |taken| ==> TakenOnce(s, t, taken[t]))
  }

  lemma OneMoreTaken(taken: seq<set<nat>>, t: nat, m: nat)
    requires t < |taken| && m !in taken[t]
    ensures Total(taken[t := taken[t] + {m}], Size()) == Total(taken, Size()) + 1
  {
    TotalUpdate(taken, t, taken[t] + {m}, Size());
  }

  lemma TakerStaysOk(s: State, a: Action, ms: set<nat>)
    requires Inv(s) && Enabled(s, a) && TakenOnce(s, a.t, ms)
    ensures var m := TakesFor(s, a);
      && (m.Some? ==> m.value !in ms && m.value < |s.bindings|)
      && (!Apply(s, a).aborted ==> TakenOnce(Apply(s, a), a.t, if m.Some? then ms + {m.value} else ms))
  {
    SharedFieldsOf(s, a);
    assert PcOk(s, s.pcs[a.t]);
  }

  lemma OthersStayOk(s: State, a: Action, u: nat, ms: set<nat>)
    requires Inv(s) && Enabled(s, a) && TakenOnce(s, u, ms) && u != a.t
    ensures TakenOnce(Apply(s, a), u, ms)
  {
    SharedFieldsOf(s, a);
  }

  function TakenAfter(s: State, a: Action, taken: seq<set<nat>>): seq<set<nat>>
    requires a.t < |taken|
  {
    var m := TakesFor(s, a);
    if m.Some? then taken[a.t := taken[a.t] + {m.value}] else taken
  }

  lemma StepKeepsTaken(s: State, a: Action, taken: seq<set<nat>>)
    requires Inv(s) && Enabled(s, a) && TakenFits(s, taken)
    ensures TakenFits(Apply(s, a), TakenAfter(s, a, taken))
  {
    var s', m, t := Apply(s, a), TakesFor(s, a), a.t;
    SharedFieldsOf(s, a);
    SlotsOf(s, a);
    TakerStaysOk(s, a, taken[t]);
    if m.Some? {
      OneMoreTaken(taken, t, m.value);
    }
    hide Apply, Enabled, Inv, Size, TakesFor;
    if !s'.aborted {
      forall u | 0 <= u < |taken| && u != t ensures TakenOnce(s', u, taken[u]) {
        OthersStayOk(s, a, u, taken[u]);
      }
    }
  }

  lemma {:induction false} BoundedBelow(ms: set<nat>, n: nat)
    requires forall m :: m in ms ==> m < n
    ensures |ms| <= n
  {
    if n == 0 {
      assert ms == {};
    } else {
      BoundedBelow(ms - {n - 1}, n - 1);
    }
  }

  lemma {:induction false} TakenSoFar(run: seq<State>, acts: seq<Action>, mutexes: nat, threads: nat, total: nat,
                                      n: nat)
    returns (taken: seq<set<nat>>)
    requires IsRun(run, acts, Initial(mutexes, threads, total)) && n <= |acts|
    ensures Inv(run[n]) && TakenFits(run[n], taken)
    ensures |run[n].pcs| == threads && |run[n].bindings| == mutexes && run[n].total == total
  {
    if n == 0 {
      taken := seq(threads, _ => {});
      EmptySets(taken);
    } else {
      taken := TakenSoFar(run, acts, mutexes, threads, total, n - 1);
      hide Apply, Enabled, Inv, TakenFits;
      StepKeepsInv(run[n - 1], acts[n - 1]);
      SharedFieldsOf(run[n - 1], acts[n - 1]);
      SlotsOf(run[n - 1], acts[n - 1]);
      StepKeepsTaken(run[n - 1], acts[n - 1], taken);
      ActorIsThread(run[n - 1], acts[n - 1], taken);
      taken := TakenAfter(run[n - 1], acts[n - 1], taken);
    }
  }

  lemma ActorIsThread(s: State, a: Action, taken: seq<set<nat>>)
    requires Enabled(s, a) && TakenFits(s, taken)
    ensures a.t < |taken|
  {
  }

  lemma {:induction false} EmptySets(taken: seq<set<nat>>)
    requires forall t :: 0 <= t < |taken| ==> taken[t] == {}
    ensures Total(taken, Size()) == 0
  {
    if taken != [] {
      EmptySets(taken[1..]);
    }
  }

  /** However the threads race, each takes at most one slot for each mutex in the whole run; a pool with
      that many slots never runs out. */
  lemma PoolLasts(run: seq<State>, acts: seq<Action>, mutexes: nat, threads: nat, total: nat, n: nat)
    requires IsRun(run, acts, Initial(mutexes, threads, total)) && n <= |acts|
    ensures run[n].next <= mutexes * threads
    ensures total >= mutexes * threads ==> !run[n].aborted
  {
    var taken := TakenSoFar(run, acts, mutexes, threads, total, n);
    hide Inv;
    forall t | 0 <= t < |taken| ensures 0 <= Size()(taken[t]) <= mutexes {
      BoundedBelow(taken[t], mutexes);
    }
    TotalBounds(taken, Size(), 0, mutexes);
  }
}
