/** When the futex lock goes to the kernel, over whole runs: an unlock exactly when somebody may be waiting,
    and a lock before it stores into a word that already announces waiters. */
module FutexResults {
  import opened Counting
  import opened FutexLock

  /** What the word is after an acquisition tells whether its owner will look for waiters. */
  lemma AcquisitionMarks(s: State, a: Action)
    requires Safe(s) && Enabled(s, a) && Holder(s) == None && Holder(Apply(s, a)).Some?
    ensures a.Lock? || a.TryLock? || a.ExchangeTwo?
    ensures Holder(Apply(s, a)) == Some(a.t) && Apply(s, a).pcs[a.t] == Holding
    ensures Apply(s, a).word == if (a.Lock? || a.TryLock?) && a.mark == Plain then 1 else 2
  {
    RefinesAtomicLock(s, a);
    StepIsSafe(s, a);
    HolderOwns(s);
    HolderOwns(Apply(s, a));
  }

  lemma HolderOwns(s: State)
    requires Safe(s)
    ensures Holder(s) == None <==> s.word == 0
    ensures Holder(s).Some? ==> Holder(s).value < |s.pcs| && s.pcs[Holder(s).value] in OWNING
  {
  }

  /** Somebody exchanges 2 into the word in [i, j). */
  predicate MarkedBetween(acts: seq<Action>, i: nat, j: nat) {
    exists k :: i <= k < j <= |acts| && acts[k].ExchangeTwo?
  }

  /** While a thread has the lock, the word changes only when a waiter exchanges 2 into it. */
  lemma HeldWordMoves(s: State, a: Action, t: nat)
    requires Safe(s) && Enabled(s, a) && t < |s.pcs| && s.pcs[t] == Holding
    ensures t < |Apply(s, a).pcs|
    ensures Apply(s, a).pcs[t] == Holding ==> Apply(s, a).word == if a.ExchangeTwo? then 2 else s.word
  {
    assert Somewhere(s, OWNING);
  }

  lemma {:induction false} HeldSoFar(run: seq<State>, acts: seq<Action>, threads: nat, t: nat, i: nat, j: nat)
    requires IsRun(run, acts, threads) && i <= j <= |acts|
    requires forall k :: i <= k <= j ==> At(run[k], t, Holding)
    ensures 1 <= run[i].word <= 2
    ensures run[j].word == if MarkedBetween(acts, i, j) then 2 else run[i].word
    decreases j
  {
    hide Apply, Enabled;
    RunsAreSafe(run, acts, threads, i);
    assert Somewhere(run[i], OWNING);
    if j > i {
      HeldSoFar(run, acts, threads, t, i, j - 1);
      RunsAreSafe(run, acts, threads, j - 1);
      hide Safe;
      HeldWordMoves(run[j - 1], acts[j - 1], t);
    }
  }

  /** An unlock goes into the kernel exactly when the lock was taken with a contended mark or a waiter has
      announced itself since. A plain lock and unlock that nobody disturbs makes no futex call. */
  lemma UnlockIsQuietIff(run: seq<State>, acts: seq<Action>, threads: nat, t: nat, i: nat, j: nat)
    requires IsRun(run, acts, threads) && i <= j < |acts| && acts[j] == Decrement(t)
    requires forall k :: i <= k <= j ==> At(run[k], t, Holding)
    ensures At(run[j + 1], t, Idle) || At(run[j + 1], t, StoreZero)
    ensures At(run[j + 1], t, Idle) <==> run[i].word == 1 && !MarkedBetween(acts, i, j)
  {
    hide MarkedBetween;
    HeldSoFar(run, acts, threads, t, i, j);
    assert run[j + 1] == Apply(run[j], acts[j]);
  }

  /** A thread that is about to wait, or in the kernel, does not come to its exchange otherwise than through
      the futex call. */
  lemma LeavesWaitByKernel(s: State, a: Action, t: nat)
    requires Enabled(s, a) && At(s, t, WaitCall) && a != FutexWait(t)
    ensures At(Apply(s, a), t, WaitCall) && a != ExchangeTwo(t)
  {
  }

  /** A lock that finds the word at 2 asks the kernel before it stores anything: every exchange of the
      thread comes after a futex wait of its own. */
  lemma {:induction false} AsksKernelFirst(run: seq<State>, acts: seq<Action>, threads: nat, mark: Mark,
                                           t: nat, i: nat, j: nat)
    requires IsRun(run, acts, threads) && i < j <= |acts| && acts[i] == Lock(t, mark) && run[i].word == 2
    requires forall k :: i < k < j ==> acts[k] != FutexWait(t)
    ensures At(run[j], t, WaitCall) && forall k :: i < k < j ==> acts[k] != ExchangeTwo(t)
    decreases j
  {
    assert run[j] == Apply(run[j - 1], acts[j - 1]);
    if j > i + 1 {
      AsksKernelFirst(run, acts, threads, mark, t, i, j - 1);
      hide Apply, Enabled;
      LeavesWaitByKernel(run[j - 1], acts[j - 1], t);
    }
  }
}
