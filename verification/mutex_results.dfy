/** What the calls on a mutex return, over whole runs: the result of a lock or unlock is decided by the
    kind and by how deep the caller held the mutex at the call, that of a trylock also by the lock word
    at the one moment at which it looks. */
module MutexResults {
  import opened Counting
  import opened MutexKinds

  /** From a call at step `i`, `t` is inside that call up to point `j`. */
  predicate InCall(run: seq<State>, acts: seq<Action>, t: nat, i: nat, j: nat) {
    && i < j <= |acts| < |run|
    && (forall k :: i < k < j ==> t < |run[k].threads| && run[k].threads[t].pc != Idle)
  }

  /** The call returns at point `j`. */
  predicate Returns(run: seq<State>, acts: seq<Action>, t: nat, i: nat, j: nat) {
    InCall(run, acts, t, i, j) && t < |run[j].threads| && run[j].threads[t].pc == Idle
  }

  /** A call that takes the mutex one level deeper, or fails and leaves it as deep as it was. */
  predicate Deeper(th: Thread, depth: nat) {
    th.depth == if th.ret == Success then depth + 1 else depth
  }

  // ----- Lock --------------------------------------------------------------------------------

  predicate LockResult(kind: Kind, depth: nat, ret: Result) {
    && (ret == Success || ret == EDEADLK || ret == EAGAIN)
    && (ret == EDEADLK <==> kind == ErrorCheck && depth > 0)
    && (ret == EAGAIN <==> kind == Recursive && depth == UINT_MAX)
  }

  /** On the way through a lock that began at the given depth, or just back from it. */
  predicate LockOk(kind: Kind, depth: nat, th: Thread) {
    match th.pc
    case Idle => LockResult(kind, depth, th.ret) && Deeper(th, depth)
    case LockCheck(cond) => !cond && th.depth == depth
    case Acquire(cond) => !cond && th.depth == depth && (Checks(kind) ==> depth == 0)
    case SetCount(cond) => !cond && th.depth == depth == 0
    case SetOwner(cond) => !cond && th.depth == depth == 0
    case AddUser => th.depth == depth == 0
    case _ => false
  }

  lemma LockGoesOn(s: State, a: Action, t: nat, depth: nat)
    requires Inv(s) && Enabled(s, a) && t < |s.threads|
    requires LockOk(s.kind, depth, s.threads[t]) && s.threads[t].pc != Idle
    ensures t < |Apply(s, a).threads| && LockOk(s.kind, depth, Apply(s, a).threads[t])
  {
    assert ThreadOk(s, t, s.threads[t]);
    SharedFieldsOf(s, a);
  }

  lemma LockStarts(s: State, t: nat)
    requires Inv(s) && Enabled(s, CallLock(t))
    ensures LockOk(s.kind, s.threads[t].depth, Apply(s, CallLock(t)).threads[t])
    ensures Apply(s, CallLock(t)).threads[t].pc != Idle
  {
  }

  lemma {:induction false} LockSoFar(run: seq<State>, acts: seq<Action>, kind: Kind, threads: nat,
                                     t: nat, i: nat, j: nat)
    requires IsRun(run, acts, kind, threads) && InCall(run, acts, t, i, j) && acts[i] == CallLock(t)
    ensures |run[i].threads| == |run[j].threads| == threads > t
    ensures LockOk(kind, run[i].threads[t].depth, run[j].threads[t])
    decreases j
  {
    hide Apply, Inv, LockOk;
    RunsKeepInv(run, acts, kind, threads, i);
    RunsKeepInv(run, acts, kind, threads, j - 1);
    RunsKeepInv(run, acts, kind, threads, j);
    if j == i + 1 {
      LockStarts(run[i], t);
    } else {
      LockSoFar(run, acts, kind, threads, t, i, j - 1);
      LockGoesOn(run[j - 1], acts[j - 1], t, run[i].threads[t].depth);
    }
  }

  /** A lock succeeds exactly when it leaves its caller one level deeper, and otherwise leaves it as deep
      as it was. It reports EDEADLK exactly to the owner of an ERRORCHECK mutex, EAGAIN exactly to the
      owner of a RECURSIVE mutex at a full counter, and nothing else. */
  lemma LockReturns(run: seq<State>, acts: seq<Action>, kind: Kind, threads: nat, t: nat, i: nat, j: nat)
    requires IsRun(run, acts, kind, threads) && Returns(run, acts, t, i, j) && acts[i] == CallLock(t)
    ensures t < |run[i].threads|
    ensures var before, after := run[i].threads[t], run[j].threads[t];
      && (after.ret == Success <==> after.depth == before.depth + 1)
      && (after.ret != Success ==> after.depth == before.depth)
      && (after.ret == EDEADLK <==> kind == ErrorCheck && before.depth > 0)
      && (after.ret == EAGAIN <==> kind == Recursive && before.depth == UINT_MAX)
      && (after.ret == Success ==> run[j].holder == Some(t))
      && after.ret in {Success, EDEADLK, EAGAIN}
  {
    LockSoFar(run, acts, kind, threads, t, i, j);
    RunsKeepInv(run, acts, kind, threads, j);
    assert ThreadOk(run[j], t, run[j].threads[t]);
    hide Inv, Apply;
  }

  // ----- Trylock -----------------------------------------------------------------------------

  /** Step `k` is the moment at which `t` tries the lock word in a trylock. */
  predicate Tries(run: seq<State>, acts: seq<Action>, t: nat, k: nat) {
    k < |acts| < |run| && t < |run[k].threads| && acts[k] == Step(t) && run[k].threads[t].pc == TryAcquire
  }

  predicate Refused(run: seq<State>, acts: seq<Action>, t: nat, i: nat, j: nat) {
    exists k :: i < k < j && Tries(run, acts, t, k) && run[k].holder.Some?
  }

  predicate Granted(run: seq<State>, acts: seq<Action>, t: nat, i: nat, j: nat) {
    exists k :: i < k < j && Tries(run, acts, t, k) && run[k].holder == None
  }

  predicate TryResult(kind: Kind, depth: nat, ret: Result, refused: bool, granted: bool) {
    && (ret == Success || ret == EBUSY || ret == EAGAIN)
    && (ret == EBUSY <==> refused)
    && (ret == EAGAIN <==> kind == Recursive && depth == UINT_MAX)
    && (ret == Success <==> granted || (kind == Recursive && 0 < depth < UINT_MAX))
  }

  /** On the way through a trylock that began at the given depth, or just back from it. */
  predicate TryOk(kind: Kind, depth: nat, th: Thread, refused: bool, granted: bool) {
    match th.pc
    case Idle => TryResult(kind, depth, th.ret, refused, granted) && Deeper(th, depth)
    case TryCheck => th.depth == depth && !refused && !granted
    case TryAcquire => th.depth == depth && !refused && !granted && (kind == Recursive ==> depth == 0)
    case TryOwner => th.depth == depth == 0 && !refused && granted
    case TryCount => th.depth == depth == 0 && !refused && granted
    case AddUser => th.depth == depth == 0 && !refused && granted
    case _ => false
  }

  lemma TryGoesOn(s: State, a: Action, t: nat, depth: nat, refused: bool, granted: bool)
    requires Inv(s) && Enabled(s, a) && t < |s.threads|
    requires TryOk(s.kind, depth, s.threads[t], refused, granted) && s.threads[t].pc != Idle
    ensures t < |Apply(s, a).threads|
    ensures var tries := a == Step(t) && s.threads[t].pc == TryAcquire;
      TryOk(s.kind, depth, Apply(s, a).threads[t],
            refused || (tries && s.holder.Some?), granted || (tries && s.holder == None))
  {
    assert ThreadOk(s, t, s.threads[t]);
    SharedFieldsOf(s, a);
  }

  lemma TryStarts(s: State, t: nat)
    requires Inv(s) && Enabled(s, CallTryLock(t))
    ensures TryOk(s.kind, s.threads[t].depth, Apply(s, CallTryLock(t)).threads[t], false, false)
  {
    assert ThreadOk(s, t, s.threads[t]);
  }

  /** One more step adds its own attempt to those so far. */
  lemma AttemptsGrow(run: seq<State>, acts: seq<Action>, t: nat, i: nat, j: nat)
    requires i < j < |acts| < |run|
    ensures Refused(run, acts, t, i, j + 1) <==>
      Refused(run, acts, t, i, j) || (Tries(run, acts, t, j) && run[j].holder.Some?)
    ensures Granted(run, acts, t, i, j + 1) <==>
      Granted(run, acts, t, i, j) || (Tries(run, acts, t, j) && run[j].holder == None)
  {
    hide Tries;
  }

  lemma {:induction false} TrySoFar(run: seq<State>, acts: seq<Action>, kind: Kind, threads: nat,
                                    t: nat, i: nat, j: nat)
    requires IsRun(run, acts, kind, threads) && InCall(run, acts, t, i, j) && acts[i] == CallTryLock(t)
    ensures |run[i].threads| == |run[j].threads| == threads > t
    ensures TryOk(kind, run[i].threads[t].depth, run[j].threads[t],
                  Refused(run, acts, t, i, j), Granted(run, acts, t, i, j))
    decreases j
  {
    hide Apply, Inv, TryOk;
    RunsKeepInv(run, acts, kind, threads, i);
    RunsKeepInv(run, acts, kind, threads, j - 1);
    RunsKeepInv(run, acts, kind, threads, j);
    if j == i + 1 {
      TryStarts(run[i], t);
    } else {
      TrySoFar(run, acts, kind, threads, t, i, j - 1);
      AttemptsGrow(run, acts, t, i, j - 1);
      hide Refused, Granted;
      TryGoesOn(run[j - 1], acts[j - 1], t, run[i].threads[t].depth,
                Refused(run, acts, t, i, j - 1), Granted(run, acts, t, i, j - 1));
    }
  }

  /** A trylock returns EBUSY exactly when the word was held, by whomever, at the moment at which it
      tried, and EAGAIN exactly to the owner of a RECURSIVE mutex at a full counter. It succeeds exactly
      when it found the word free, or its caller as the owner of a RECURSIVE mutex with room in the
      counter; then the caller is one level deeper, and otherwise as deep as before. */
  lemma TryLockReturns(run: seq<State>, acts: seq<Action>, kind: Kind, threads: nat, t: nat, i: nat, j: nat)
    requires IsRun(run, acts, kind, threads) && Returns(run, acts, t, i, j) && acts[i] == CallTryLock(t)
    ensures t < |run[i].threads|
    ensures var before, after := run[i].threads[t], run[j].threads[t];
      && (after.ret == Success <==> after.depth == before.depth + 1)
      && (after.ret != Success ==> after.depth == before.depth)
      && (after.ret == EBUSY <==> Refused(run, acts, t, i, j))
      && (after.ret == EAGAIN <==> kind == Recursive && before.depth == UINT_MAX)
      && (after.ret == Success <==>
           Granted(run, acts, t, i, j) || (kind == Recursive && 0 < before.depth < UINT_MAX))
      && (after.ret == Success ==> run[j].holder == Some(t))
      && after.ret in {Success, EBUSY, EAGAIN}
  {
    TrySoFar(run, acts, kind, threads, t, i, j);
    RunsKeepInv(run, acts, kind, threads, j);
    assert ThreadOk(run[j], t, run[j].threads[t]);
    hide Inv, Apply, Refused, Granted;
  }

  // ----- Unlock ------------------------------------------------------------------------------

  /** On the way through an unlock that began at the given depth, or just back from it. */
  predicate UnlockOk(kind: Kind, depth: nat, th: Thread) {
    match th.pc
    case Idle => if depth == 0 then th.ret == EPERM && th.depth == 0 else th.ret == Success && th.depth == depth - 1
    case UnlockCheck(cond) => !cond && th.depth == depth
    case ClearOwner(cond) => !cond && th.depth == depth == 1
    case DropUser => th.depth == depth == 1
    case Release(cond) => !cond && th.depth == depth == 1
    case _ => false
  }

  lemma UnlockGoesOn(s: State, a: Action, t: nat, depth: nat)
    requires Inv(s) && Enabled(s, a) && t < |s.threads|
    requires UnlockOk(s.kind, depth, s.threads[t]) && s.threads[t].pc != Idle
    ensures t < |Apply(s, a).threads| && UnlockOk(s.kind, depth, Apply(s, a).threads[t])
  {
    assert ThreadOk(s, t, s.threads[t]);
    SharedFieldsOf(s, a);
  }

  lemma UnlockStarts(s: State, t: nat)
    requires Inv(s) && Enabled(s, CallUnlock(t))
    ensures UnlockOk(s.kind, s.threads[t].depth, Apply(s, CallUnlock(t)).threads[t])
  {
    assert ThreadOk(s, t, s.threads[t]);
  }

  lemma {:induction false} UnlockSoFar(run: seq<State>, acts: seq<Action>, kind: Kind, threads: nat,
                                       t: nat, i: nat, j: nat)
    requires IsRun(run, acts, kind, threads) && InCall(run, acts, t, i, j) && acts[i] == CallUnlock(t)
    ensures |run[i].threads| == |run[j].threads| == threads > t
    ensures UnlockOk(kind, run[i].threads[t].depth, run[j].threads[t])
    decreases j
  {
    hide Apply, Inv, UnlockOk;
    RunsKeepInv(run, acts, kind, threads, i);
    RunsKeepInv(run, acts, kind, threads, j - 1);
    RunsKeepInv(run, acts, kind, threads, j);
    if j == i + 1 {
      UnlockStarts(run[i], t);
    } else {
      UnlockSoFar(run, acts, kind, threads, t, i, j - 1);
      UnlockGoesOn(run[j - 1], acts[j - 1], t, run[i].threads[t].depth);
    }
  }

  /** An unlock succeeds exactly for a caller that held the mutex, which it leaves one level less deep,
      and with the last level without the lock word; to anybody else it reports EPERM. */
  lemma UnlockReturns(run: seq<State>, acts: seq<Action>, kind: Kind, threads: nat, t: nat, i: nat, j: nat)
    requires IsRun(run, acts, kind, threads) && Returns(run, acts, t, i, j) && acts[i] == CallUnlock(t)
    ensures t < |run[i].threads|
    ensures var before, after := run[i].threads[t], run[j].threads[t];
      && (after.ret == Success <==> before.depth > 0)
      && (after.ret == Success <==> after.depth == before.depth - 1)
      && (after.ret == EPERM <==> before.depth == 0 == after.depth)
      && (run[j].holder == Some(t) <==> before.depth > 1)
      && after.ret in {Success, EPERM}
  {
    UnlockSoFar(run, acts, kind, threads, t, i, j);
    RunsKeepInv(run, acts, kind, threads, j);
    assert ThreadOk(run[j], t, run[j].threads[t]);
    hide Inv, Apply;
  }

  // ----- Waiting on a condvar ----------------------------------------------------------------

  /** The condvar let `t` go on between `i` and `j`. */
  predicate WasSignalled(acts: seq<Action>, t: nat, i: nat, j: nat) {
    exists k :: i < k < j <= |acts| && acts[k] == Signalled(t)
  }

  /** A thread in a condvar wait has given the mutex up as far as one unlock does, and comes to the second
      half of the call, or to its end, only once signalled. */
  predicate WaitOk(th: Thread, depth: nat, signalled: bool) {
    && (th.pc == CondWaiting ==> th.depth + 1 == depth && !signalled)
    && (InCondWait(th.pc) && th.pc != CondWaiting ==> signalled)
    && (InCondCall(th.pc) && !InCondWait(th.pc) ==> !signalled)
    && (th.pc == Idle ==> (signalled <==> depth > 0))
  }

  lemma WaitGoesOn(s: State, a: Action, t: nat, depth: nat, signalled: bool)
    requires Inv(s) && Enabled(s, a) && t < |s.threads| && InCondCall(s.threads[t].pc)
    requires s.threads[t].saved == depth && WaitOk(s.threads[t], depth, signalled)
    ensures t < |Apply(s, a).threads|
    ensures WaitOk(Apply(s, a).threads[t], depth, signalled || a == Signalled(t))
  {
    assert ThreadOk(s, t, s.threads[t]);
    SharedFieldsOf(s, a);
  }

  lemma WaitStarts(s: State, t: nat)
    requires Inv(s) && Enabled(s, CallCondWait(t))
    ensures WaitOk(Apply(s, CallCondWait(t)).threads[t], s.threads[t].depth, false)
  {
  }

  lemma {:induction false} WaitSoFar(run: seq<State>, acts: seq<Action>, kind: Kind, threads: nat,
                                     t: nat, i: nat, j: nat)
    requires IsRun(run, acts, kind, threads) && InCall(run, acts, t, i, j) && acts[i] == CallCondWait(t)
    ensures |run[i].threads| == |run[j].threads| == threads > t
    ensures WaitOk(run[j].threads[t], run[i].threads[t].depth, WasSignalled(acts, t, i, j))
    decreases j
  {
    hide Apply, Inv, WaitOk;
    RunsKeepInv(run, acts, kind, threads, i);
    RunsKeepInv(run, acts, kind, threads, j - 1);
    RunsKeepInv(run, acts, kind, threads, j);
    if j == i + 1 {
      WaitStarts(run[i], t);
    } else {
      WaitSoFar(run, acts, kind, threads, t, i, j - 1);
      CondCallSoFar(run, acts, kind, threads, t, i, j - 1);
      WaitGoesOn(run[j - 1], acts[j - 1], t, run[i].threads[t].depth, WasSignalled(acts, t, i, j - 1));
    }
  }

  /** A condvar wait of a holder does not come back before the condvar has let it go on, and then with the
      lock word; while it waits it is one level less deep than at the call. */
  lemma CondWaitReturnsSignalled(run: seq<State>, acts: seq<Action>, kind: Kind, threads: nat, t: nat, i: nat, j: nat)
    requires IsRun(run, acts, kind, threads) && InCall(run, acts, t, i, j) && acts[i] == CallCondWait(t)
    ensures |run[i].threads| == |run[j].threads| == threads > t
    ensures var depth, th := run[i].threads[t].depth, run[j].threads[t];
      && (th.pc == CondWaiting ==> th.depth + 1 == depth && (run[j].holder == Some(t) <==> depth > 1))
      && (th.pc == Idle ==> (WasSignalled(acts, t, i, j) <==> depth > 0) && (run[j].holder == Some(t) <==> depth > 0))
  {
    WaitSoFar(run, acts, kind, threads, t, i, j);
    RunsKeepInv(run, acts, kind, threads, j);
    CondCallSoFar(run, acts, kind, threads, t, i, j);
    assert ThreadOk(run[j], t, run[j].threads[t]);
    hide Inv, Apply, WasSignalled;
  }
}
