/** How the calls on a priority-protect lock word end, over whole runs: a lock only with the mutex, a
    trylock without ever waiting, and an unlock with a wake exactly when somebody may be waiting. */
module PPResults {
  import opened PPLock

  // ----- Trylock never waits -------------------------------------------------------------------

  /** In the inner loop, where lock goes when its first exchange fails. */
  predicate InInnerLoop(pc: Pc) {
    pc.MarkCas? || pc.WaitCall? || pc.Asleep? || pc.RetryCas?
  }

  predicate NoTryWaits(s: State) {
    forall t :: 0 <= t < |s.pcs| && InInnerLoop(s.pcs[t]) ==> s.pcs[t].call != TryCall
  }

  lemma StepKeepsTriesOut(s: State, a: Action)
    requires NoTryWaits(s) && Enabled(s, a)
    ensures NoTryWaits(Apply(s, a))
  {
  }

  /** No trylock is ever in the inner loop, where it would mark the word and sleep. */
  lemma {:induction false} TriesNeverWait(run: seq<State>, acts: seq<Action>, ceiling: nat, threads: nat, i: nat)
    requires IsRun(run, acts, ceiling, threads) && i <= |acts|
    ensures NoTryWaits(run[i])
  {
    if i > 0 {
      hide Apply, Enabled;
      TriesNeverWait(run, acts, ceiling, threads, i - 1);
      StepKeepsTriesOut(run[i - 1], acts[i - 1]);
    }
  }

  /** What a trylock's exchange comes to: the mutex exactly when nobody owns it, and otherwise the end of
      the call, with the word as it was. */
  lemma TryEndsAtOnce(s: State, ceilval: nat, t: nat)
    requires Safe(s, ceilval) && Enabled(s, Step(t)) && s.pcs[t].FirstCas? && s.pcs[t].call == TryCall
    ensures var s' := Apply(s, Step(t));
      && (s'.pcs[t] == Holding <==> !Somewhere(s, Owner()))
      && (s'.pcs[t] == Idle <==> Somewhere(s, Owner()))
      && s'.word == if Somewhere(s, Owner()) then s.word else ceilval + 1
  {
    assert PcOk(s, ceilval, s.pcs[t]);
    SplitWord(ceilval, s.word - ceilval);
  }

  /** `t` is in a call that it began at step `i`. */
  predicate InCall(run: seq<State>, acts: seq<Action>, t: nat, i: nat, j: nat) {
    && i < j <= |acts| < |run| && acts[i].Begin? && acts[i].t == t
    && (forall k :: i < k <= j ==> t < |run[k].pcs|)
    && (forall k :: i < k < j ==> run[k].pcs[t] != Idle && run[k].pcs[t] != Holding)
  }

  /** Where a thread in a call may stand, with the call it is in. */
  predicate CallOk(call: Call, pc: Pc) {
    match pc
    case Idle => call == TryCall
    case Holding => true
    case FirstCas(c, _) => c == call
    case MarkCas(c, _) => c == call != TryCall
    case WaitCall(c, _) => c == call != TryCall
    case Asleep(c, _) => c == call != TryCall
    case RetryCas(c, _) => c == call != TryCall
    case _ => false
  }

  lemma CallGoesOn(s: State, a: Action, t: nat, call: Call)
    requires Enabled(s, a) && t < |s.pcs| && CallOk(call, s.pcs[t]) && s.pcs[t] != Idle && s.pcs[t] != Holding
    ensures t < |Apply(s, a).pcs| && CallOk(call, Apply(s, a).pcs[t])
  {
  }

  lemma {:induction false} CallSoFar(run: seq<State>, acts: seq<Action>, ceiling: nat, threads: nat,
                                     t: nat, i: nat, j: nat)
    requires IsRun(run, acts, ceiling, threads) && InCall(run, acts, t, i, j)
    ensures CallOk(acts[i].call, run[j].pcs[t])
    decreases j
  {
    if j == i + 1 {
      assert run[j] == Apply(run[i], acts[i]);
    } else {
      hide Apply, Enabled;
      CallSoFar(run, acts, ceiling, threads, t, i, j - 1);
      CallGoesOn(run[j - 1], acts[j - 1], t, acts[i].call);
    }
  }

  /** The only steps with which a call on the word ends. */
  lemma CallsEnd(s: State, ceilval: nat, a: Action, t: nat, call: Call)
    requires Safe(s, ceilval) && Enabled(s, a) && t < |s.pcs| && CallOk(call, s.pcs[t])
    requires s.pcs[t] != Idle && s.pcs[t] != Holding
    ensures var s' := Apply(s, a);
      && (s'.pcs[t] == Holding ==> a == Step(t) && !Somewhere(s, Owner()))
      && (s'.pcs[t] == Holding ==> s'.word == ceilval + if call == CondLockCall || s.pcs[t].RetryCas? then 2 else 1)
      && (s'.pcs[t] == Idle ==> a == Step(t) && call == TryCall && Somewhere(s, Owner()) && s'.word == s.word)
      && (call == TryCall && a == Step(t) ==> s'.pcs[t] == Holding || s'.pcs[t] == Idle)
  {
    assert PcOk(s, ceilval, s.pcs[t]);
    SplitWord(ceilval, s.word - ceilval);
  }

  lemma CallBegins(run: seq<State>, acts: seq<Action>, ceiling: nat, threads: nat, t: nat, i: nat)
    requires IsRun(run, acts, ceiling, threads) && i < |acts| && acts[i].Begin? && acts[i].t == t
    ensures t < |run[i + 1].pcs| && run[i + 1].pcs[t].FirstCas?
  {
    assert run[i + 1] == Apply(run[i], acts[i]);
  }

  lemma LowBitsOf(ceiling: nat, low: nat)
    requires low < UNIT
    ensures LowBits(ceiling * UNIT + low) == low
  {
    assert (ceiling * UNIT) % UNIT == 0;
    SplitWord(ceiling * UNIT, low);
  }

  lemma TryStepsOnce(run: seq<State>, acts: seq<Action>, ceiling: nat, threads: nat, t: nat, i: nat, j: nat)
    requires IsRun(run, acts, ceiling, threads) && InCall(run, acts, t, i, j) && acts[i].call == TryCall
    ensures forall k :: i < k < j - 1 ==> acts[k] != Step(t)
  {
    hide Safe, Owner, Apply, Enabled, CallOk;
    forall k | i < k < j - 1 ensures acts[k] != Step(t) {
      RunsAreSafe(run, acts, ceiling, threads, k);
      CallSoFar(run, acts, ceiling, threads, t, i, k);
      CallsEnd(run[k], ceiling * UNIT, acts[k], t, TryCall);
      assert run[k + 1].pcs[t] != Idle && run[k + 1].pcs[t] != Holding;
    }
  }

  /** How every call ends, at the first point `j` at which its thread is out of it. A lock, plain or of
      the condvar build, ends only with the mutex. A trylock makes exactly one step: it gets the mutex
      exactly when nobody owns it, and otherwise leaves the word as it was. The word then tells whether
      its owner has to wake anybody: 2 in the condvar build and after waiting, otherwise 1. */
  lemma CallReturns(run: seq<State>, acts: seq<Action>, ceiling: nat, threads: nat, t: nat, i: nat, j: nat)
    requires IsRun(run, acts, ceiling, threads) && InCall(run, acts, t, i, j)
    requires run[j].pcs[t] == Idle || run[j].pcs[t] == Holding
    ensures acts[j - 1] == Step(t) && i < j - 1
    ensures run[j].pcs[t] == Idle ==> acts[i].call == TryCall && run[j].word == run[j - 1].word
    ensures run[j].pcs[t] == Holding <==> !Somewhere(run[j - 1], Owner())
    ensures run[j].pcs[t] == Holding ==>
      LowBits(run[j].word) == if acts[i].call == CondLockCall || run[j - 1].pcs[t].RetryCas? then 2 else 1
    ensures acts[i].call == TryCall ==> forall k :: i < k < j - 1 ==> acts[k] != Step(t)
  {
    hide Safe, Owner, LowBits, Apply, Enabled, CallOk;
    CallBegins(run, acts, ceiling, threads, t, i);
    RunsAreSafe(run, acts, ceiling, threads, j - 1);
    CallSoFar(run, acts, ceiling, threads, t, i, j - 1);
    CallsEnd(run[j - 1], ceiling * UNIT, acts[j - 1], t, acts[i].call);
    if acts[i].call == TryCall {
      TryStepsOnce(run, acts, ceiling, threads, t, i, j);
    }
    LowBitsOf(ceiling, 1);
    LowBitsOf(ceiling, 2);
  }

  /** A thread that comes out of the futex call, woken, interrupted or refused, always tries for the mutex
      before it does anything else. */
  lemma WaitersRetry(s: State, a: Action, t: nat)
    requires Enabled(s, a) && t < |s.pcs| && (s.pcs[t].Asleep? || (s.pcs[t].WaitCall? && a == Step(t)))
    ensures t < |Apply(s, a).pcs|
    ensures Apply(s, a).pcs[t].Asleep? || Apply(s, a).pcs[t].RetryCas?
    ensures s.pcs[t].Asleep? && a != Interrupt(t) && !a.FutexWake? ==> Apply(s, a).pcs[t].Asleep?
  {
  }

  // ----- When an unlock has somebody to wake -------------------------------------------------

  /** Somebody marks the word: a waiter does before it sleeps. */
  predicate Marks(s: State, ceilval: nat, a: Action) {
    a.Step? && a.t < |s.pcs| && s.pcs[a.t].MarkCas? && s.word == ceilval + 1
  }

  predicate MarkedBetween(run: seq<State>, acts: seq<Action>, ceilval: nat, i: nat, j: nat) {
    exists k :: i <= k < j <= |acts| < |run| && Marks(run[k], ceilval, acts[k])
  }

  /** While its owner has the mutex, the word goes from 1 to 2 when it is marked, and changes in no other way. */
  lemma OwnedWordMoves(s: State, ceilval: nat, a: Action, t: nat)
    requires Safe(s, ceilval) && Enabled(s, a) && t < |s.pcs| && Owner()(s.pcs[t])
    ensures t < |Apply(s, a).pcs|
    ensures Owner()(Apply(s, a).pcs[t]) ==> Apply(s, a).word == if Marks(s, ceilval, a) then ceilval + 2 else s.word
  {
    assert PcOk(s, ceilval, s.pcs[a.t]) && PcOk(s, ceilval, s.pcs[t]);
    assert Somewhere(s, Owner());
  }

  lemma {:induction false} OwnedSoFar(run: seq<State>, acts: seq<Action>, ceiling: nat, threads: nat,
                                      t: nat, i: nat, j: nat)
    requires IsRun(run, acts, ceiling, threads) && i <= j <= |acts|
    requires forall k :: i <= k <= j ==> t < |run[k].pcs| && Owner()(run[k].pcs[t])
    ensures run[i].word > ceiling * UNIT
    ensures run[j].word == if MarkedBetween(run, acts, ceiling * UNIT, i, j) then ceiling * UNIT + 2 else run[i].word
    decreases j
  {
    hide Apply, Enabled, Marks, PcOk;
    RunsAreSafe(run, acts, ceiling, threads, i);
    assert Somewhere(run[i], Owner());
    if j > i {
      OwnedSoFar(run, acts, ceiling, threads, t, i, j - 1);
      RunsAreSafe(run, acts, ceiling, threads, j - 1);
      OwnedWordMoves(run[j - 1], ceiling * UNIT, acts[j - 1], t);
    }
  }

  /** The exchange that gives the mutex up goes on to a wake exactly on a marked word. */
  lemma GivesUp(s: State, ceilval: nat, a: Action, t: nat)
    requires Safe(s, ceilval) && Enabled(s, a) && t < |s.pcs| && Owner()(s.pcs[t]) && !Owner()(Apply(s, a).pcs[t])
    ensures Apply(s, a).pcs[t] == if s.word == ceilval + 2 then WakeOne else Idle
  {
    assert PcOk(s, ceilval, s.pcs[a.t]) && PcOk(s, ceilval, s.pcs[t]);
    SplitWord(ceilval, s.word - ceilval);
    assert Somewhere(s, Owner());
  }

  /** A thread that has the mutex from point `i` until it gives it up at step `j` wakes somebody exactly
      when the word was stored as 2 at its acquisition or marked by a waiter since. */
  lemma WakesOnlyIfMarked(run: seq<State>, acts: seq<Action>, ceiling: nat, threads: nat, t: nat, i: nat, j: nat)
    requires IsRun(run, acts, ceiling, threads) && i <= j < |acts|
    requires forall k :: i <= k <= j ==> t < |run[k].pcs| && Owner()(run[k].pcs[t])
    requires t < |run[j + 1].pcs| && !Owner()(run[j + 1].pcs[t])
    ensures run[j + 1].pcs[t] == WakeOne || run[j + 1].pcs[t] == Idle
    ensures run[j + 1].pcs[t] == WakeOne <==>
      LowBits(run[i].word) == 2 || MarkedBetween(run, acts, ceiling * UNIT, i, j)
  {
    hide Apply, Enabled, MarkedBetween, PcOk;
    OwnedSoFar(run, acts, ceiling, threads, t, i, j);
    RunsAreSafe(run, acts, ceiling, threads, i);
    RunsAreSafe(run, acts, ceiling, threads, j);
    GivesUp(run[j], ceiling * UNIT, acts[j], t);
    LowBitsOf(ceiling, run[i].word - ceiling * UNIT);
  }
}
