/** The NORMAL, ERRORCHECK, RECURSIVE and ADAPTIVE mutexes on top of the lock word: owner, recursion
    count and user count, as `pthread_mutex_lock`, `pthread_mutex_trylock`, `pthread_mutex_unlock` and
    the two halves of `pthread_cond_wait` update them.

    The lock word is an atomic lock here, which `MutexOnFutex.RunsRefine` justifies. Every store to
    `owner`, `count` or `nusers` and every unlocked test of `owner` is a step of its own, so that test
    races with every other thread. What follows a test that finds the caller itself, on `count` and on
    the word, is in the step of the test: nobody but the owner changes `count` or gives up the word. */
module MutexKinds {
  import opened Counting

  datatype Kind = Normal | ErrorCheck | Recursive | Adaptive

  datatype Result = Success | EAGAIN | EDEADLK | EBUSY | EPERM

  /** Positions in the four calls. `cond` marks the calls made on behalf of `pthread_cond_wait`: an
      unlock with `decr` 0 and a lock from the NO_INCR build. */
  datatype Pc =
    | Idle
    | LockCheck(cond: bool)    // about to compare owner with the caller
    | Acquire(cond: bool)      // waiting for the lock word
    | SetCount(cond: bool)     // acquired; RECURSIVE only
    | SetOwner(cond: bool)     // acquired
    | TryCheck
    | TryAcquire
    | TryOwner
    | TryCount
    | AddUser
    | UnlockCheck(cond: bool)  // about to compare owner with the caller
    | ClearOwner(cond: bool)
    | DropUser
    | Release(cond: bool)
    | CondWaiting              // between the two halves of pthread_cond_wait

  /** `depth` counts the caller's completed locks less its completed unlocks, `saved` is the depth
      at which its last condvar wait began, `ret` the value its last call returned. */
  datatype Thread = Thread(pc: Pc, depth: nat, saved: nat, ret: Result)

  datatype State = State(kind: Kind, holder: Option<nat>, owner: Option<nat>, count: nat, nusers: int,
                         threads: seq<Thread>)

  datatype Action =
    | CallLock(t: nat)
    | CallTryLock(t: nat)
    | CallUnlock(t: nat)
    | CallCondWait(t: nat)
    | Signalled(t: nat)  // the condvar lets the waiter go on
    | Step(t: nat)

  const UINT_MAX: nat := 0xffff_ffff

  predicate Checks(kind: Kind) {
    kind == Recursive || kind == ErrorCheck
  }

  predicate Enabled(s: State, a: Action) {
    && a.t < |s.threads|
    && var th := s.threads[a.t];
       match a
       case CallLock(_) => th.pc == Idle
       case CallTryLock(_) => th.pc == Idle
       // NORMAL and ADAPTIVE mutexes are unlocked only by their holder.
       case CallUnlock(_) => th.pc == Idle && (Checks(s.kind) || th.depth > 0)
       case CallCondWait(_) => th.pc == Idle && (Checks(s.kind) || th.depth > 0)
       case Signalled(_) => th.pc == CondWaiting
       case Step(_) => th.pc != Idle && th.pc != CondWaiting && (th.pc.Acquire? ==> s.holder == None)
  }

  function Goto(s: State, t: nat, pc: Pc): State
    requires t < |s.threads|
  {
    s.(threads := s.threads[t := s.threads[t].(pc := pc)])
  }

  /** The call returns; a success changes the caller's depth. */
  function Return(s: State, t: nat, ret: Result, depth: nat): State
    requires t < |s.threads|
  {
    s.(threads := s.threads[t := s.threads[t].(pc := Idle, ret := ret, depth := depth)])
  }

  function Less(n: nat): nat {
    if n == 0 then 0 else n - 1
  }

  function Apply(s: State, a: Action): State
    requires Enabled(s, a)
  {
    match a
    case CallLock(t) => Goto(s, t, if Checks(s.kind) then LockCheck(false) else Acquire(false))
    case CallTryLock(t) => Goto(s, t, if s.kind == Recursive then TryCheck else TryAcquire)
    case CallUnlock(t) => Goto(s, t, if Checks(s.kind) then UnlockCheck(false) else ClearOwner(false))
    case CallCondWait(t) =>
      var saving := s.(threads := s.threads[t := s.threads[t].(saved := s.threads[t].depth)]);
      Goto(saving, t, if Checks(s.kind) then UnlockCheck(true) else ClearOwner(true))
    case Signalled(t) => Goto(s, t, if Checks(s.kind) then LockCheck(true) else Acquire(true))
    case Step(t) => Stepped(s, t)
  }

  /** A lock attempt by the owner of a RECURSIVE mutex. */
  function Relocked(s: State, t: nat): State
    requires t < |s.threads|
  {
    var depth := s.threads[t].depth;
    if s.count == UINT_MAX then Return(s, t, EAGAIN, depth)
    else Return(s.(count := s.count + 1), t, Success, depth + 1)
  }

  function Stepped(s: State, t: nat): State
    requires Enabled(s, Step(t))
  {
    var depth := s.threads[t].depth;
    match s.threads[t].pc
    case LockCheck(cond) =>
      if s.owner != Some(t) then Goto(s, t, Acquire(cond))
      else if s.kind == Recursive then Relocked(s, t)
      else Return(s, t, EDEADLK, depth)
    case Acquire(cond) => Goto(s.(holder := Some(t)), t, if s.kind == Recursive then SetCount(cond) else SetOwner(cond))
    case SetCount(cond) => Goto(s.(count := 1), t, SetOwner(cond))
    case SetOwner(cond) =>
      var owned := s.(owner := Some(t));
      if cond then Return(owned, t, Success, depth + 1) else Goto(owned, t, AddUser)
    case AddUser => Return(s.(nusers := s.nusers + 1), t, Success, depth + 1)
    case TryCheck => if s.owner == Some(t) then Relocked(s, t) else Goto(s, t, TryAcquire)
    case TryAcquire =>
      if s.holder == None then Goto(s.(holder := Some(t)), t, TryOwner) else Return(s, t, EBUSY, depth)
    case TryOwner => Goto(s.(owner := Some(t)), t, if s.kind == Recursive then TryCount else AddUser)
    case TryCount => Goto(s.(count := 1), t, AddUser)
    case UnlockCheck(cond) =>
      if s.owner != Some(t) || (s.kind == ErrorCheck && s.holder == None) then Return(s, t, EPERM, depth)
      else if s.kind != Recursive then Goto(s, t, ClearOwner(cond))
      else
        var s' := s.(count := Less(s.count));
        if s'.count == 0 then Goto(s', t, ClearOwner(cond))
        else Left(s', t, cond)
    case ClearOwner(cond) => Goto(s.(owner := None), t, if cond then Release(true) else DropUser)
    case DropUser => Goto(s.(nusers := s.nusers - 1), t, Release(false))
    case Release(cond) => Left(s.(holder := None), t, cond)
    case _ => s
  }

  /** A successful unlock is complete: return, or go on to wait on the condvar. */
  function Left(s: State, t: nat, cond: bool): State
    requires t < |s.threads|
  {
    var done := Return(s, t, Success, Less(s.threads[t].depth));
    if cond then Goto(done, t, CondWaiting) else done
  }

  function Initial(kind: Kind, threads: nat): State {
    State(kind, None, None, 0, 0, seq(threads, _ => Thread(Idle, 0, 0, Success)))
  }

  // ----- The invariant --------------------------------------------------------------------

  /** Acquired the word, but the lock call has not returned. */
  predicate Acquiring(pc: Pc) {
    pc.SetCount? || pc.SetOwner? || pc.TryOwner? || pc.TryCount? || pc.AddUser?
  }

  /** Waiting on the condvar or taking the mutex back after it. */
  predicate InCondWait(pc: Pc) {
    pc == CondWaiting || ((pc.LockCheck? || pc.Acquire? || pc.SetCount? || pc.SetOwner?) && pc.cond)
  }

  predicate Releasing(pc: Pc) {
    pc.ClearOwner? || pc.DropUser? || pc.Release?
  }

  /** A user of the mutex as `nusers` counts it. */
  function IsUser(): Thread -> bool {
    (th: Thread) => (th.depth > 0 && th.pc != Release(false)) || InCondWait(th.pc)
  }

  predicate ThreadOk(s: State, t: nat, th: Thread) {
    && (s.holder == Some(t) <==> th.depth > 0 || Acquiring(th.pc))
    && (Acquiring(th.pc) ==> th.depth == 0)
    && (Releasing(th.pc) ==> th.depth == 1)
    && (s.kind != Recursive ==> th.depth <= 1)
    && OwnerOk(s, t, th)
    && CountOk(s, th)
    && CondOk(s, th)
  }

  /** Where a thread that holds the lock word has or has not recorded itself as owner. */
  predicate OwnerOk(s: State, t: nat, th: Thread) {
    && (th.pc.SetCount? || th.pc.SetOwner? || th.pc.TryOwner? || th.pc.DropUser? || th.pc.Release? ==> s.owner == None)
    && (th.pc.TryCount? || th.pc.AddUser? || th.pc.ClearOwner? ==> s.owner == Some(t))
    && (th.depth > 0 && !Releasing(th.pc) ==> s.owner == Some(t))
  }

  predicate CountOk(s: State, th: Thread) {
    && (th.pc.SetCount? || th.pc.TryCheck? || th.pc.TryCount? ==> s.kind == Recursive)
    && (th.pc.LockCheck? || th.pc.UnlockCheck? ==> Checks(s.kind))
    && (s.kind == Recursive ==>
         && (th.depth > 0 && !Releasing(th.pc) ==> s.count == th.depth)
         && ((th.pc.SetOwner? || th.pc.AddUser?) ==> s.count == 1))
  }

  predicate CondOk(s: State, th: Thread) {
    && (InCondWait(th.pc) ==> th.saved == th.depth + 1 && th.saved <= (if s.kind == Recursive then UINT_MAX else 1))
    && ((th.pc.UnlockCheck? || Releasing(th.pc)) && !th.pc.DropUser? && th.pc.cond ==> th.saved == th.depth)
    && (Checks(s.kind) && th.pc.Acquire? ==> th.depth == 0)
  }

  predicate Inv(s: State) {
    && (forall t :: 0 <= t < |s.threads| ==> ThreadOk(s, t, s.threads[t]))
    && (s.owner.Some? ==> s.holder == s.owner)
    && (s.holder.Some? ==> s.holder.value < |s.threads|)
    && s.nusers == Count(s.threads, IsUser())
    && s.count <= UINT_MAX
  }

  lemma ActorStaysOk(s: State, a: Action)
    requires Inv(s) && Enabled(s, a)
    ensures ActorOk(Apply(s, a), a.t)
  {
    var th := s.threads[a.t];
    if !a.Step? {
      assert ThreadOk(s, a.t, th);
    } else if th.pc.UnlockCheck? {
      UnlockingActorStaysOk(s, a.t);
    } else if Releasing(th.pc) {
      ReleasingActorStaysOk(s, a.t);
    } else if th.pc.TryCheck? || th.pc.TryAcquire? || th.pc.TryOwner? || th.pc.TryCount? {
      TryingActorStaysOk(s, a.t);
    } else {
      LockingActorStaysOk(s, a.t);
    }
  }

  predicate ActorOk(s: State, t: nat) {
    && t < |s.threads|
    && ThreadOk(s, t, s.threads[t])
    && (s.owner.Some? ==> s.holder == s.owner)
    && s.count <= UINT_MAX
  }

  lemma LockingActorStaysOk(s: State, t: nat)
    requires Inv(s) && Enabled(s, Step(t))
    requires var pc := s.threads[t].pc; pc.LockCheck? || pc.Acquire? || pc.SetCount? || pc.SetOwner? || pc.AddUser?
    ensures ActorOk(Stepped(s, t), t)
  {
    assert ThreadOk(s, t, s.threads[t]);
  }

  lemma TryingActorStaysOk(s: State, t: nat)
    requires Inv(s) && Enabled(s, Step(t))
    requires var pc := s.threads[t].pc; pc.TryCheck? || pc.TryAcquire? || pc.TryOwner? || pc.TryCount?
    ensures ActorOk(Stepped(s, t), t)
  {
    assert ThreadOk(s, t, s.threads[t]);
  }

  lemma UnlockingActorStaysOk(s: State, t: nat)
    requires Inv(s) && Enabled(s, Step(t)) && s.threads[t].pc.UnlockCheck?
    ensures ActorOk(Stepped(s, t), t)
  {
    assert ThreadOk(s, t, s.threads[t]);
  }

  lemma ReleasingActorStaysOk(s: State, t: nat)
    requires Inv(s) && Enabled(s, Step(t)) && Releasing(s.threads[t].pc)
    ensures ActorOk(Stepped(s, t), t)
  {
    assert ThreadOk(s, t, s.threads[t]);
  }

  /** What a step may do to the shared fields: unless the actor holds the word or takes it, they
      keep their values. */
  lemma SharedFieldsOf(s: State, a: Action)
    requires Inv(s) && Enabled(s, a)
    ensures ChangesOnlyOwn(s, Apply(s, a), a.t)
  {
    if a.Step? {
      SteppingChangesOnlyOwn(s, a.t);
    }
  }

  predicate ChangesOnlyOwn(s: State, s': State, t: nat) {
    && t < |s.threads| == |s'.threads|
    && s'.kind == s.kind
    && s'.threads == s.threads[t := s'.threads[t]]
    && (s'.holder == s.holder || s.holder == None || s.holder == Some(t))
    && (s'.owner != s.owner || s'.count != s.count ==> s.holder == Some(t))
    && (s'.holder == None || s'.holder == Some(t) || s'.holder == s.holder)
  }

  lemma SteppingChangesOnlyOwn(s: State, t: nat)
    requires Inv(s) && Enabled(s, Step(t))
    ensures ChangesOnlyOwn(s, Stepped(s, t), t)
  {
    assert ThreadOk(s, t, s.threads[t]);
  }

  /** Interference: a step of one thread leaves what every other thread relies on intact. */
  lemma OthersStayOk(s: State, a: Action, u: nat)
    requires Inv(s) && Enabled(s, a) && u < |s.threads| && u != a.t
    ensures ThreadOk(Apply(s, a), u, Apply(s, a).threads[u])
  {
    assert ThreadOk(s, a.t, s.threads[a.t]) && ThreadOk(s, u, s.threads[u]);
    SharedFieldsOf(s, a);
  }

  /** `nusers` moves exactly when the actor becomes a user or stops being one. */
  lemma UserMoves(s: State, a: Action)
    requires Inv(s) && Enabled(s, a)
    ensures Apply(s, a).nusers == s.nusers + Delta(s.threads[a.t], Apply(s, a).threads[a.t], IsUser())
  {
    assert ThreadOk(s, a.t, s.threads[a.t]);
    if a.Step? {
      SteppingUserMoves(s, a.t);
    }
  }

  lemma SteppingUserMoves(s: State, t: nat)
    requires Inv(s) && Enabled(s, Step(t))
    ensures Stepped(s, t).nusers == s.nusers + Delta(s.threads[t], Stepped(s, t).threads[t], IsUser())
  {
    assert ThreadOk(s, t, s.threads[t]);
    var pc := s.threads[t].pc;
    if pc.UnlockCheck? || Releasing(pc) {
    } else if pc.LockCheck? || pc.TryCheck? {
    } else {
    }
  }

  lemma UsersStayCounted(s: State, a: Action)
    requires Inv(s) && Enabled(s, a)
    ensures Apply(s, a).nusers == Count(Apply(s, a).threads, IsUser())
  {
    SharedFieldsOf(s, a);
    UserMoves(s, a);
    CountUpdate(s.threads, a.t, Apply(s, a).threads[a.t], IsUser());
  }

  lemma StepKeepsInv(s: State, a: Action)
    requires Inv(s) && Enabled(s, a)
    ensures Inv(Apply(s, a))
  {
    var s' := Apply(s, a);
    ActorStaysOk(s, a);
    SharedFieldsOf(s, a);
    UsersStayCounted(s, a);
    forall u | 0 <= u < |s'.threads| && u != a.t ensures ThreadOk(s', u, s'.threads[u]) {
      OthersStayOk(s, a, u);
    }
  }

  ghost predicate IsRun(run: seq<State>, acts: seq<Action>, kind: Kind, threads: nat) {
    && |run| == |acts| + 1
    && run[0] == Initial(kind, threads)
    && forall i :: 0 <= i < |acts| ==> Enabled(run[i], acts[i]) && run[i + 1] == Apply(run[i], acts[i])
  }

  lemma {:induction false} RunsKeepInv(run: seq<State>, acts: seq<Action>, kind: Kind, threads: nat, i: nat)
    requires IsRun(run, acts, kind, threads) && i <= |acts|
    ensures Inv(run[i]) && |run[i].threads| == threads && run[i].kind == kind
  {
    if i == 0 {
      InitialInv(kind, threads);
    } else {
      RunsKeepInv(run, acts, kind, threads, i - 1);
      StepKeepsInv(run[i - 1], acts[i - 1]);
      SharedFieldsOf(run[i - 1], acts[i - 1]);
    }
  }

  lemma InitialInv(kind: Kind, threads: nat)
    ensures Inv(Initial(kind, threads))
  {
    CountZero(Initial(kind, threads).threads, IsUser());
  }

  // ----- What the fields mean --------------------------------------------------------------

  /** In every reachable state at most one thread is inside the mutex, the owner field names it or
      nobody, the post-acquire assertions hold, and a RECURSIVE mutex counts its owner's depth. */
  lemma ReachableFields(run: seq<State>, acts: seq<Action>, kind: Kind, threads: nat, i: nat, t: nat, u: nat)
    requires IsRun(run, acts, kind, threads) && i <= |acts| && t < threads && u < threads
    ensures |run[i].threads| == threads
    ensures var s := run[i]; var th := s.threads[t];
      && (th.depth > 0 && s.threads[u].depth > 0 ==> t == u)
      && (s.owner == Some(t) ==> s.holder == Some(t))
      && (th.pc.SetCount? || th.pc.SetOwner? || th.pc.TryOwner? ==> s.owner == None)
      && (th.pc == Idle && th.depth > 0 ==> s.owner == Some(t))
      && (th.pc == Idle && th.depth > 0 && kind == Recursive ==> s.count == th.depth)
  {
    RunsKeepInv(run, acts, kind, threads, i);
    var s := run[i];
    assert ThreadOk(s, t, s.threads[t]) && ThreadOk(s, u, s.threads[u]);
  }

  /** The unlocked self-ownership test is stable: no step of another thread changes its outcome. */
  lemma SelfTestIsStable(s: State, a: Action, u: nat)
    requires Inv(s) && Enabled(s, a) && u < |s.threads| && u != a.t
    ensures Apply(s, a).owner == Some(u) <==> s.owner == Some(u)
  {
    SharedFieldsOf(s, a);
    StepKeepsInv(s, a);
    assert ThreadOk(s, u, s.threads[u]) && ThreadOk(Apply(s, a), u, Apply(s, a).threads[u]);
  }

  /** Inside `pthread_cond_wait`, from its call to its return. */
  predicate InCondCall(pc: Pc) {
    InCondWait(pc) || ((pc.UnlockCheck? || pc.ClearOwner? || pc.Release?) && pc.cond)
  }

  lemma CondCallStarts(s: State, t: nat)
    requires Inv(s) && Enabled(s, CallCondWait(t))
    ensures var th := Apply(s, CallCondWait(t)).threads[t]; InCondCall(th.pc) && th.saved == s.threads[t].depth
  {
    assert ThreadOk(s, t, s.threads[t]);
  }

  /** On the way through a condvar call that began at depth `saved`, or just returned from it. */
  predicate CondCallOk(th: Thread, saved: nat) {
    && th.saved == saved
    && (|| InCondCall(th.pc)
        || (th.pc == Idle && th.depth == saved && th.ret == if saved == 0 then EPERM else Success))
  }

  lemma CondCallGoesOn(s: State, a: Action, t: nat)
    requires Inv(s) && Enabled(s, a) && t < |s.threads| && InCondCall(s.threads[t].pc)
    ensures CondCallOk(Apply(s, a).threads[t], s.threads[t].saved)
  {
    assert ThreadOk(s, t, s.threads[t]);
    SharedFieldsOf(s, a);
  }

  lemma {:induction false} CondCallSoFar(run: seq<State>, acts: seq<Action>, kind: Kind, threads: nat,
                                         t: nat, i: nat, j: nat)
    requires IsRun(run, acts, kind, threads) && i < j <= |acts| && acts[i] == CallCondWait(t)
    requires forall k :: i < k < j ==> t < |run[k].threads| && run[k].threads[t].pc != Idle
    ensures |run[i].threads| == |run[j].threads| == threads > t
    ensures CondCallOk(run[j].threads[t], run[i].threads[t].depth)
  {
    hide Apply, Inv;
    RunsKeepInv(run, acts, kind, threads, i);
    RunsKeepInv(run, acts, kind, threads, j - 1);
    RunsKeepInv(run, acts, kind, threads, j);
    assert Enabled(run[i], acts[i]);
    if j == i + 1 {
      CondCallStarts(run[i], t);
    } else {
      CondCallSoFar(run, acts, kind, threads, t, i, j - 1);
      CondCallGoesOn(run[j - 1], acts[j - 1], t);
    }
  }

  /** A condvar wait gives the mutex back as deep as it found it: when the call returns, the
      caller's depth is what it was at the call; the only error is EPERM, and exactly for a caller that
      did not hold the mutex. */
  lemma CondWaitRestoresDepth(run: seq<State>, acts: seq<Action>, kind: Kind, threads: nat, t: nat, i: nat, j: nat)
    requires IsRun(run, acts, kind, threads) && i < j <= |acts| && acts[i] == CallCondWait(t)
    requires forall k :: i < k < j ==> t < |run[k].threads| && run[k].threads[t].pc != Idle
    requires t < |run[j].threads| && run[j].threads[t].pc == Idle
    ensures t < |run[i].threads|
    ensures run[j].threads[t].depth == run[i].threads[t].depth
    ensures run[j].threads[t].ret == if run[i].threads[t].depth == 0 then EPERM else Success
  {
    CondCallSoFar(run, acts, kind, threads, t, i, j);
  }

  // ----- Destruction -----------------------------------------------------------------------

  function DestroyResult(s: State): Result {
    if s.nusers != 0 then EBUSY else Success
  }

  /** Holds the mutex, or waits on a condvar with it. */
  function UsesMutex(): Thread -> bool {
    (th: Thread) => th.depth > 0 || th.pc == CondWaiting
  }

  /** No call is in progress, but for condvar waits. */
  predicate BetweenCalls(s: State) {
    forall t :: 0 <= t < |s.threads| ==> s.threads[t].pc == Idle || s.threads[t].pc == CondWaiting
  }

  lemma UsersBetweenCalls(s: State)
    requires Inv(s) && BetweenCalls(s)
    ensures s.nusers == Count(s.threads, UsesMutex())
    ensures DestroyResult(s) == Success <==>
      forall t :: 0 <= t < |s.threads| ==> s.threads[t].depth == 0 && s.threads[t].pc != CondWaiting
  {
    CountAgree(s.threads, IsUser(), s.threads, UsesMutex());
    CountZero(s.threads, UsesMutex());
  }

  /** Between calls, `nusers` is the number of threads that hold the mutex or wait on a condvar with
      it, and `pthread_mutex_destroy` succeeds exactly when there is none. */
  lemma DestroyOnlyWhenUnused(run: seq<State>, acts: seq<Action>, kind: Kind, threads: nat, i: nat)
    requires IsRun(run, acts, kind, threads) && i <= |acts| && BetweenCalls(run[i])
    ensures run[i].nusers == Count(run[i].threads, UsesMutex())
    ensures DestroyResult(run[i]) == Success <==>
      forall t :: 0 <= t < |run[i].threads| ==> run[i].threads[t].depth == 0 && run[i].threads[t].pc != CondWaiting
  {
    RunsKeepInv(run, acts, kind, threads, i);
    UsersBetweenCalls(run[i]);
  }

  /** The positions between taking the word and `++nusers`, and between `--nusers` and giving it up. */
  predicate Uncounted(pc: Pc) {
    || pc in {SetCount(false), SetOwner(false), TryOwner, TryCount, AddUser}
    || pc == Release(false)
  }

  /** What the test of `nusers` decides in any state, calls in progress included. */
  predicate NobodyCounted(s: State) {
    && (forall t :: 0 <= t < |s.threads| ==> !InCondWait(s.threads[t].pc))
    && (forall t :: 0 <= t < |s.threads| && s.holder == Some(t) ==> Uncounted(s.threads[t].pc))
  }

  /** Destroying succeeds exactly when nobody is in a condvar wait and a thread that has the lock word,
      if there is one, is at one of those positions. */
  lemma DestroySucceedsIff(s: State)
    requires Inv(s)
    ensures DestroyResult(s) == Success <==> NobodyCounted(s)
  {
    CountZero(s.threads, IsUser());
    forall t | 0 <= t < |s.threads|
      ensures !IsUser()(s.threads[t]) <==>
        !InCondWait(s.threads[t].pc) && (s.holder == Some(t) ==> Uncounted(s.threads[t].pc))
    {
      assert ThreadOk(s, t, s.threads[t]);
    }
  }

  /** Over whole runs, a destroy succeeds although a thread has the lock word exactly when that thread
      is on its way in and not yet counted, or on its way out and counted no more, and nobody else waits
      with the mutex. */
  lemma DestroyOvertakesIff(run: seq<State>, acts: seq<Action>, kind: Kind, threads: nat, i: nat)
    requires IsRun(run, acts, kind, threads) && i <= |acts|
    ensures var s := run[i];
      DestroyResult(s) == Success && s.holder.Some? <==>
        exists h :: 0 <= h < |s.threads| && s.holder == Some(h) && Uncounted(s.threads[h].pc)
          && forall t :: 0 <= t < |s.threads| ==> !InCondWait(s.threads[t].pc)
  {
    RunsKeepInv(run, acts, kind, threads, i);
    DestroySucceedsIff(run[i]);
  }

  /** A NORMAL mutex and its only thread. */
  function Alone(holder: Option<nat>, owner: Option<nat>, nusers: int, pc: Pc, depth: nat): State {
    State(Normal, holder, owner, 0, nusers, [Thread(pc, depth, 0, Success)])
  }

  /** Both happen: under a thread that has just taken the word, and under one about to give it up. */
  lemma DestroyCanOvertake() returns (run: seq<State>, acts: seq<Action>)
    ensures IsRun(run, acts, Normal, 1) && |acts| == 7
    ensures run[2] == Alone(Some(0), None, 0, SetOwner(false), 0) && DestroyResult(run[2]) == Success
    ensures run[7] == Alone(Some(0), None, 0, Release(false), 1) && DestroyResult(run[7]) == Success
  {
    acts := [CallLock(0), Step(0), Step(0), Step(0), CallUnlock(0), Step(0), Step(0)];
    run := [Alone(None, None, 0, Idle, 0), Alone(None, None, 0, Acquire(false), 0),
            Alone(Some(0), None, 0, SetOwner(false), 0), Alone(Some(0), Some(0), 0, AddUser, 0),
            Alone(Some(0), Some(0), 1, Idle, 1), Alone(Some(0), Some(0), 1, ClearOwner(false), 1),
            Alone(Some(0), None, 1, DropUser, 1), Alone(Some(0), None, 0, Release(false), 1)];
    assert run[0].threads == Initial(Normal, 1).threads;
    forall i | 0 <= i < 7 ensures Enabled(run[i], acts[i]) && run[i + 1] == Apply(run[i], acts[i]) {
      assert Apply(run[i], acts[i]).threads == run[i + 1].threads;
    }
  }
}
