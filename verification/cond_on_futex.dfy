/** The condition variable code running on the futex lock itself. The protocol of `CondVar` takes each
    region under the condvar's own lock as one step; here a region is a sequence of single accesses to
    the counters, inside the many steps of `FutexLock`, with the mutex given up in the middle, and the
    futex word is compared by threads that do not have the lock. Every run of all this is a run of
    `CondVar`. */
module CondOnFutex {
  import opened Counting
  import Lock = FutexLock
  import Cond = CondVar

  /** The shared fields of the condition variable. */
  datatype Mem = Mem(total: nat, wakeup: nat, woken: nat, broadcasts: nat, futex: nat, nwaiters: nat)

  datatype Pc =
    // Outside the lock; `Enter...` is inside `lll_lock`.
    | Outside
    | EnterBegin
    | FutexCall
    | Sleeping
    | EnterRecheck
    | EnterCleanup
    | WakeCall
    | EnterSignal
    // The first region of `pthread_cond_wait`, up to its unlock.
    | UnlockMutex
    | IncTotal
    | IncFutex
    | IncWaiters
    | SaveSeq
    | SaveEpoch
    | SaveFutex
    | LeaveToWait
    | LeaveError
    // The region after each futex wait.
    | CheckEpoch
    | ReadWakeup
    | CheckWoken
    | SaveFutexAgain
    | IncWoken
    | DecWaiters
    | LeaveReturn
    // The region of the cleanup handler.
    | CleanEpoch
    | CleanCompare
    | CleanIncWakeup
    | CleanIncFutex
    | CleanIncWoken(sent: bool)
    | CleanDecWaiters
    | LeaveCleanup
    // A signal or a broadcast.
    | Deliver
    | LeaveSignal

  /** A thread's position and its local variables `seq`, `bc_seq`, `futex_val` and `val`. */
  datatype Local = Local(pc: Pc, seen: nat, epoch: nat, futexVal: nat, val: nat)

  datatype State = State(mem: Mem, locals: seq<Local>, lock: Lock.State)

  datatype Action =
    | CallWait(t: nat)
    | CallSignal(t: nat)
    | Word(b: Lock.Action)                 // a step of the lock code
    | Access(t: nat)                       // one access inside a region
    | MutexUnlocked(t: nat, error: int)    // `__pthread_mutex_unlock_usercnt` returns
    | FutexWait(t: nat)
    | Interrupt(t: nat)
    | Cancel(t: nat)
    | WakeAll(t: nat)
    | Signal(t: nat, victim: Option<nat>)
    | Broadcast(t: nat)

  predicate Entering(pc: Pc) {
    pc.EnterBegin? || pc.EnterRecheck? || pc.EnterCleanup? || pc.EnterSignal?
  }

  predicate Leaving(pc: Pc) {
    pc.LeaveToWait? || pc.LeaveError? || pc.LeaveReturn? || pc.LeaveCleanup? || pc.LeaveSignal?
  }

  predicate InRegion(pc: Pc) {
    !Entering(pc) && !pc.Outside? && !pc.FutexCall? && !pc.Sleeping? && !pc.WakeCall?
  }

  /** The first position of a region, and the position after it. */
  function Entered(pc: Pc): Pc {
    match pc
    case EnterBegin => UnlockMutex
    case EnterRecheck => CheckEpoch
    case EnterCleanup => CleanEpoch
    case EnterSignal => Deliver
    case _ => pc
  }

  function Left(pc: Pc): Pc {
    match pc
    case LeaveToWait => FutexCall
    case LeaveCleanup => WakeCall
    case LeaveError | LeaveReturn | LeaveSignal => Outside
    case _ => pc
  }

  predicate At(c: State, t: nat, pc: Pc) {
    t < |c.locals| == |c.lock.pcs| && c.locals[t].pc == pc
  }

  predicate OffLock(c: State, t: nat) {
    t < |c.lock.pcs| && c.lock.pcs[t] == Lock.Idle
  }

  predicate Enabled(c: State, a: Action) {
    && |c.locals| == |c.lock.pcs|
    && match a
       case CallWait(t) => At(c, t, Outside) && OffLock(c, t)
       case CallSignal(t) => At(c, t, Outside) && OffLock(c, t)
       case Word(b) =>
         && Lock.Enabled(c.lock, b)
         && (match b
             case Lock(t, mark) => mark == Lock.Plain && Entering(c.locals[t].pc)
             case TryLock(_, _) => false
             case Decrement(t) => Leaving(c.locals[t].pc)
             case _ => true)
       case Access(t) =>
         && t < |c.locals|
         && var pc := c.locals[t].pc;
            InRegion(pc) && !Leaving(pc) && !pc.UnlockMutex? && !pc.Deliver?
       case MutexUnlocked(t, _) => At(c, t, UnlockMutex)
       case FutexWait(t) => At(c, t, FutexCall) && OffLock(c, t)
       case Interrupt(t) => At(c, t, Sleeping)
       case Cancel(t) =>
         (At(c, t, FutexCall) || At(c, t, Sleeping) || At(c, t, EnterRecheck)) && OffLock(c, t)
       case WakeAll(t) => At(c, t, WakeCall) && OffLock(c, t)
       case Signal(t, victim) =>
         && At(c, t, Deliver)
         && (match victim
             case Some(v) => c.mem.total > c.mem.wakeup && At(c, v, Sleeping)
             case None => c.mem.total > c.mem.wakeup ==> forall v :: 0 <= v < |c.locals| ==> !At(c, v, Sleeping))
       case Broadcast(t) => At(c, t, Deliver)
  }

  function Goto(c: State, t: nat, pc: Pc): State
    requires t < |c.locals|
  {
    c.(locals := c.locals[t := c.locals[t].(pc := pc)])
  }

  /** `futex_wake` of all sleepers. */
  function Awakened(locals: seq<Local>): (r: seq<Local>)
    ensures |r| == |locals|
    ensures forall i :: 0 <= i < |r| ==>
      r[i] == if locals[i].pc.Sleeping? then locals[i].(pc := EnterRecheck) else locals[i]
  {
    seq(|locals|, i requires 0 <= i < |locals| =>
      if locals[i].pc.Sleeping? then locals[i].(pc := EnterRecheck) else locals[i])
  }

  /** The code goes on with its region when it gets the lock, and behind it when the lock is free. */
  function AfterWord(lock: Lock.State, b: Lock.Action, pc: Pc): Pc
    requires Lock.Enabled(lock, b)
  {
    var lock' := Lock.Apply(lock, b);
    if lock'.pcs[b.t] == Lock.Holding && lock.pcs[b.t] != Lock.Holding then Entered(pc)
    else if lock'.word == 0 && (b.Decrement? || b.Store?) then Left(pc)
    else pc
  }

  function Apply(c: State, a: Action): State
    requires Enabled(c, a)
  {
    match a
    case CallWait(t) => Goto(c, t, EnterBegin)
    case CallSignal(t) => Goto(c, t, EnterSignal)
    case Word(b) =>
      var lock := Lock.Apply(c.lock, b);
      Goto(c, b.t, AfterWord(c.lock, b, c.locals[b.t].pc)).(lock := lock)
    case Access(t) => Accessed(c, t)
    case MutexUnlocked(t, error) => Goto(c, t, if error != 0 then LeaveError else IncTotal)
    case FutexWait(t) => Goto(c, t, if c.mem.futex == c.locals[t].futexVal then Sleeping else EnterRecheck)
    case Interrupt(t) => Goto(c, t, EnterRecheck)
    case Cancel(t) => Goto(c, t, EnterCleanup)
    case WakeAll(t) => Goto(c.(locals := Awakened(c.locals)), t, Outside)
    case Signal(t, victim) =>
      if c.mem.total <= c.mem.wakeup then Goto(c, t, LeaveSignal)
      else
        var sent := Goto(c.(mem := c.mem.(wakeup := c.mem.wakeup + 1, futex := c.mem.futex + 1)), t, LeaveSignal);
        if victim.Some? then Goto(sent, victim.value, EnterRecheck) else sent
    case Broadcast(t) =>
      if c.mem.total <= c.mem.wakeup then Goto(c, t, LeaveSignal)
      else
        var m := c.mem;
        var sent := m.(wakeup := m.total, woken := m.total, futex := 2 * m.total, broadcasts := m.broadcasts + 1);
        Goto(c.(mem := sent, locals := Awakened(c.locals)), t, LeaveSignal)
  }

  function Less(n: nat): nat {
    if n < Cond.ONE_WAITER then 0 else n - Cond.ONE_WAITER
  }

  function Accessed(c: State, t: nat): State
    requires Enabled(c, Access(t))
  {
    var m, l := c.mem, c.locals[t];
    match l.pc
    case IncTotal => Goto(c.(mem := m.(total := m.total + 1)), t, IncFutex)
    case IncFutex => Goto(c.(mem := m.(futex := m.futex + 1)), t, IncWaiters)
    case IncWaiters => Goto(c.(mem := m.(nwaiters := m.nwaiters + Cond.ONE_WAITER)), t, SaveSeq)
    case SaveSeq => c.(locals := c.locals[t := l.(seen := m.wakeup, pc := SaveEpoch)])
    case SaveEpoch => c.(locals := c.locals[t := l.(epoch := m.broadcasts, pc := SaveFutex)])
    case SaveFutex => c.(locals := c.locals[t := l.(futexVal := m.futex, pc := LeaveToWait)])
    case CheckEpoch => Goto(c, t, if l.epoch != m.broadcasts then DecWaiters else ReadWakeup)
    case ReadWakeup =>
      c.(locals := c.locals[t := l.(val := m.wakeup, pc := if m.wakeup == l.seen then SaveFutexAgain else CheckWoken)])
    case CheckWoken => Goto(c, t, if m.woken == l.val then SaveFutexAgain else IncWoken)
    case SaveFutexAgain => c.(locals := c.locals[t := l.(futexVal := m.futex, pc := LeaveToWait)])
    case IncWoken => Goto(c.(mem := m.(woken := m.woken + 1)), t, DecWaiters)
    case DecWaiters => Goto(c.(mem := m.(nwaiters := Less(m.nwaiters))), t, LeaveReturn)
    case CleanEpoch => Goto(c, t, if l.epoch == m.broadcasts then CleanCompare else CleanDecWaiters)
    case CleanCompare => Goto(c, t, if m.wakeup < m.total then CleanIncWakeup else CleanIncWoken(false))
    case CleanIncWakeup => Goto(c.(mem := m.(wakeup := m.wakeup + 1)), t, CleanIncFutex)
    case CleanIncFutex => Goto(c.(mem := m.(futex := m.futex + 1)), t, CleanIncWoken(true))
    case CleanIncWoken(_) => Goto(c.(mem := m.(woken := m.woken + 1)), t, CleanDecWaiters)
    case CleanDecWaiters => Goto(c.(mem := m.(nwaiters := Less(m.nwaiters))), t, LeaveCleanup)
    case _ => c
  }

  // ----- What the code is to the protocol ----------------------------------------------------

  /** The step of the protocol that a step of the code completes. In a region that writes the futex word
      it is that write, which others can see; elsewhere it is the access that decides. */
  function Seen(c: State, a: Action): Option<Cond.Action>
    requires Enabled(c, a)
  {
    match a
    case Access(t) =>
      (match c.locals[t].pc
       case IncFutex => Some(Cond.BeginWait(t, 0))
       case CheckEpoch => if c.locals[t].epoch != c.mem.broadcasts then Some(Cond.Recheck(t)) else None
       case SaveFutexAgain => Some(Cond.Recheck(t))
       case IncWoken => Some(Cond.Recheck(t))
       case CleanEpoch => if c.locals[t].epoch != c.mem.broadcasts then Some(Cond.Cleanup(t)) else None
       case CleanIncFutex => Some(Cond.Cleanup(t))
       case CleanIncWoken(sent) => if sent then None else Some(Cond.Cleanup(t))
       case _ => None)
    case MutexUnlocked(t, error) => if error != 0 then Some(Cond.BeginWait(t, error)) else None
    case FutexWait(t) => Some(Cond.FutexWait(t))
    case Interrupt(t) => Some(Cond.Interrupt(t))
    case Cancel(t) => Some(Cond.Cancel(t))
    case WakeAll(t) => Some(Cond.WakeAll(t))
    case Signal(_, victim) => Some(Cond.Signal(victim))
    case Broadcast(_) => Some(Cond.Broadcast)
    case _ => None
  }

  /** A thread of the code and the same thread of the protocol. */
  predicate Matches(l: Local, w: Cond.Local) {
    match l.pc
    case IncWaiters | SaveSeq | SaveEpoch | SaveFutex => w.Waiting? && w.phase == Cond.BeforeWait
    case LeaveToWait | FutexCall => w == Cond.Waiting(l.seen, l.epoch, l.futexVal, Cond.BeforeWait)
    case Sleeping => w == Cond.Waiting(l.seen, l.epoch, l.futexVal, Cond.Asleep)
    case EnterRecheck | CheckEpoch | ReadWakeup | CheckWoken | SaveFutexAgain | IncWoken =>
      w == Cond.Waiting(l.seen, l.epoch, l.futexVal, Cond.AfterWait)
    case EnterCleanup | CleanEpoch | CleanCompare | CleanIncWakeup | CleanIncFutex =>
      w == Cond.Waiting(l.seen, l.epoch, l.futexVal, Cond.Cancelling)
    case CleanIncWoken(sent) =>
      if sent then w == Cond.WakingAll else w == Cond.Waiting(l.seen, l.epoch, l.futexVal, Cond.Cancelling)
    case CleanDecWaiters | LeaveCleanup | WakeCall => w == Cond.WakingAll
    case _ => w == Cond.Outside
  }

  /** What the thread inside a region has found out so far still holds. */
  predicate Knows(l: Local, w: Cond.Local, s: Cond.State) {
    match l.pc
    case IncWaiters | SaveSeq => w.Waiting? && w.seen == s.wakeup && w.epoch == s.broadcasts && w.futexVal == s.futex
    case SaveEpoch => w.Waiting? && w.seen == s.wakeup == l.seen && w.epoch == s.broadcasts && w.futexVal == s.futex
    case SaveFutex =>
      w.Waiting? && w.seen == s.wakeup == l.seen && w.epoch == s.broadcasts == l.epoch && w.futexVal == s.futex
    case ReadWakeup => l.epoch == s.broadcasts
    case CheckWoken => l.epoch == s.broadcasts && l.val == s.wakeup != l.seen
    case SaveFutexAgain => l.epoch == s.broadcasts && (s.wakeup == l.seen || s.woken == s.wakeup)
    case IncWoken => l.epoch == s.broadcasts && s.wakeup != l.seen && s.woken != s.wakeup
    case CleanCompare => l.epoch == s.broadcasts
    case CleanIncWakeup | CleanIncFutex => l.epoch == s.broadcasts && s.wakeup < s.total
    case CleanIncWoken(sent) => !sent ==> l.epoch == s.broadcasts && s.wakeup >= s.total
    case _ => true
  }

  /** The fields as they are in memory, while the thread that has the lock is at `pc`. */
  predicate MemFits(m: Mem, s: Cond.State, pc: Pc) {
    && m.total == s.total + (if pc.IncFutex? then 1 else 0)
    && m.wakeup == s.wakeup + (if pc.CleanIncFutex? then 1 else 0)
    && m.woken + (if pc == CleanIncWoken(true) then 1 else 0) == s.woken
    && m.broadcasts == s.broadcasts
    && m.futex == s.futex
    && m.nwaiters + (if pc.IncWaiters? then Cond.ONE_WAITER else 0) ==
       s.nwaiters + (if pc.DecWaiters? || pc.CleanDecWaiters? || pc == CleanIncWoken(true) then Cond.ONE_WAITER else 0)
  }

  /** Where the lock code is and where the condvar code is. */
  predicate Coupled(lock: Lock.Pc, pc: Pc) {
    && (lock in {Lock.Exchange, Lock.WaitCall, Lock.Asleep} ==> Entering(pc))
    && (lock == Lock.Holding ==> InRegion(pc))
    && (lock == Lock.StoreZero ==> Leaving(pc))
    && (lock == Lock.WakeOne ==> pc in {Outside, FutexCall, WakeCall})
    && (InRegion(pc) ==> lock in Lock.OWNING)
  }

  predicate AllCoupled(c: State) {
    |c.locals| == |c.lock.pcs| && forall t :: 0 <= t < |c.locals| ==> Coupled(c.lock.pcs[t], c.locals[t].pc)
  }

  predicate AllMatch(locals: seq<Local>, s: Cond.State) {
    |locals| == |s.locals| && forall t :: 0 <= t < |locals| ==> Matches(locals[t], s.locals[t])
  }

  predicate NobodyInside(locals: seq<Local>) {
    forall t :: 0 <= t < |locals| ==> !InRegion(locals[t].pc)
  }

  /** The thread inside a region, if there is one, decides how memory fits. */
  predicate RegionFits(m: Mem, locals: seq<Local>, s: Cond.State) {
    && |locals| == |s.locals|
    && (forall t :: 0 <= t < |locals| && InRegion(locals[t].pc) ==>
          Knows(locals[t], s.locals[t], s) && MemFits(m, s, locals[t].pc))
    && (NobodyInside(locals) ==> MemFits(m, s, Outside))
  }

  predicate Fits(c: State, s: Cond.State) {
    && Lock.Safe(c.lock)
    && AllCoupled(c)
    && AllMatch(c.locals, s)
    && RegionFits(c.mem, c.locals, s)
  }

  predicate Refines(c: State, s: Cond.State) {
    Fits(c, s) && Cond.Inv(s)
  }

  // ----- Steps of the lock code --------------------------------------------------------------

  /** Where a step of the lock code takes the acting thread. */
  predicate Moves(b: Lock.Action, pc: Lock.Pc, pc': Lock.Pc, word': int) {
    match b
    case Lock(_, _) => pc == Lock.Idle && pc' in {Lock.Holding, Lock.Exchange, Lock.WaitCall}
    case TryLock(_, _) => true
    case ExchangeTwo(_) => pc == Lock.Exchange && pc' in {Lock.Holding, Lock.WaitCall}
    case FutexWait(_) => pc == Lock.WaitCall && pc' in {Lock.Asleep, Lock.Exchange}
    case Interrupt(_) => pc == Lock.Asleep && pc' == Lock.Exchange
    case Decrement(_) => pc == Lock.Holding && pc' == if word' == 0 then Lock.Idle else Lock.StoreZero
    case Store(_) => pc == Lock.StoreZero && pc' == Lock.WakeOne && word' == 0
    case FutexWake(_, _) => pc == Lock.WakeOne && pc' == Lock.Idle
  }

  lemma LockPositions(lock: Lock.State, b: Lock.Action)
    requires Lock.Safe(lock) && Lock.Enabled(lock, b)
    ensures var lock' := Lock.Apply(lock, b);
      && Lock.Safe(lock') && |lock'.pcs| == |lock.pcs|
      && Moves(b, lock.pcs[b.t], lock'.pcs[b.t], lock'.word)
      && (forall u :: 0 <= u < |lock.pcs| && u != b.t ==>
            lock'.pcs[u] == lock.pcs[u] || (lock.pcs[u] == Lock.Asleep && lock'.pcs[u] == Lock.Exchange))
      && (lock'.pcs[b.t] == Lock.Holding && lock.pcs[b.t] != Lock.Holding ==>
            b.TryLock? || forall u :: 0 <= u < |lock.pcs| ==> lock.pcs[u] !in Lock.OWNING)
  {
    Lock.StepIsSafe(lock, b);
    Lock.RefinesAtomicLock(lock, b);
  }

  /** Taking the lock begins a region that nobody else is in, giving it up ends one, and nothing else
      moves the condvar code. */
  lemma WordMoves(lock: Lock.State, b: Lock.Action, pc: Pc)
    requires Lock.Safe(lock) && Lock.Enabled(lock, b) && !b.TryLock? && Coupled(lock.pcs[b.t], pc)
    requires (b.Lock? ==> Entering(pc)) && (b.Decrement? ==> Leaving(pc))
    ensures |Lock.Apply(lock, b).pcs| == |lock.pcs|
    ensures var pc' := AfterWord(lock, b, pc);
      && Coupled(Lock.Apply(lock, b).pcs[b.t], pc')
      && (|| pc' == pc
          || (Entering(pc) && pc' == Entered(pc) && forall u :: 0 <= u < |lock.pcs| ==> lock.pcs[u] !in Lock.OWNING)
          || (Leaving(pc) && pc' == Left(pc)))
  {
    LockPositions(lock, b);
    hide Lock.Safe, Lock.Apply, Lock.Enabled;
  }

  lemma WordStaysCoupled(c: State, b: Lock.Action)
    requires Lock.Safe(c.lock) && AllCoupled(c) && Enabled(c, Word(b))
    ensures Lock.Safe(Lock.Apply(c.lock, b)) && AllCoupled(Apply(c, Word(b)))
  {
    var c' := Apply(c, Word(b));
    LockPositions(c.lock, b);
    assert Coupled(c.lock.pcs[b.t], c.locals[b.t].pc);
    WordMoves(c.lock, b, c.locals[b.t].pc);
    hide Lock.Safe, Lock.Apply, Lock.Enabled, AfterWord, Moves;
    forall u | 0 <= u < |c.locals| && u != b.t ensures Coupled(c'.lock.pcs[u], c'.locals[u].pc) {
      assert Coupled(c.lock.pcs[u], c.locals[u].pc);
    }
  }

  lemma WordIsUnseen(c: State, b: Lock.Action, s: Cond.State)
    requires Refines(c, s) && Enabled(c, Word(b))
    ensures Refines(Apply(c, Word(b)), s)
  {
    assert Coupled(c.lock.pcs[b.t], c.locals[b.t].pc);
    WordStaysCoupled(c, b);
    WordMoves(c.lock, b, c.locals[b.t].pc);
    OthersOutside(c, b.t);
    hide Lock.Safe, Lock.Apply, Lock.Enabled, Cond.Inv, AfterWord, RegionFits, AllMatch, AllCoupled, Coupled;
    RegionBeginsOrEnds(c.mem, c.locals, s, b.t, AfterWord(c.lock, b, c.locals[b.t].pc));
  }

  /** Whoever is inside a region keeps everybody else out, and has the lock. */
  lemma OthersOutside(c: State, t: nat)
    requires Lock.Safe(c.lock) && AllCoupled(c) && t < |c.locals|
    ensures InRegion(c.locals[t].pc) ==> forall u :: 0 <= u < |c.locals| && u != t ==> !InRegion(c.locals[u].pc)
    ensures (forall u :: 0 <= u < |c.lock.pcs| ==> c.lock.pcs[u] !in Lock.OWNING) ==> NobodyInside(c.locals)
  {
    forall u | 0 <= u < |c.locals| && InRegion(c.locals[u].pc) ensures c.lock.pcs[u] in Lock.OWNING {
      assert Coupled(c.lock.pcs[u], c.locals[u].pc);
    }
  }

  /** Beginning and ending a region changes nothing that the protocol speaks of. */
  lemma RegionBeginsOrEnds(m: Mem, locals: seq<Local>, s: Cond.State, t: nat, pc: Pc)
    requires AllMatch(locals, s) && RegionFits(m, locals, s) && t < |locals|
    requires
      || pc == locals[t].pc
      || (Entering(locals[t].pc) && pc == Entered(locals[t].pc) && NobodyInside(locals))
      || (Leaving(locals[t].pc) && pc == Left(locals[t].pc)
          && forall u :: 0 <= u < |locals| && u != t ==> !InRegion(locals[u].pc))
    ensures AllMatch(locals[t := locals[t].(pc := pc)], s) && RegionFits(m, locals[t := locals[t].(pc := pc)], s)
  {
    var locals' := locals[t := locals[t].(pc := pc)];
    assert Matches(locals[t], s.locals[t]) && Matches(locals'[t], s.locals[t]);
    if pc == locals[t].pc {
      assert locals' == locals;
    }
  }

  // ----- Accesses inside a region ------------------------------------------------------------

  /** What an access does, apart from the other threads. */
  predicate AccessFits(c: State, t: nat, s: Cond.State, s': Cond.State)
    requires Enabled(c, Access(t))
  {
    var c' := Accessed(c, t);
    && t < |s.locals| == |s'.locals| && s'.locals == s.locals[t := s'.locals[t]]
    && Matches(c'.locals[t], s'.locals[t])
    && Knows(c'.locals[t], s'.locals[t], s')
    && MemFits(c'.mem, s', c'.locals[t].pc)
    && InRegion(c'.locals[t].pc)
  }

  /** The three regions. */
  predicate Beginning(pc: Pc) {
    pc in {IncTotal, IncFutex, IncWaiters, SaveSeq, SaveEpoch, SaveFutex}
  }

  predicate Rechecking(pc: Pc) {
    pc in {CheckEpoch, ReadWakeup, CheckWoken, SaveFutexAgain, IncWoken, DecWaiters}
  }

  lemma SilentBeginning(c: State, t: nat, s: Cond.State)
    requires Enabled(c, Access(t)) && Seen(c, Access(t)) == None && t < |s.locals| && Beginning(c.locals[t].pc)
    requires Matches(c.locals[t], s.locals[t]) && Knows(c.locals[t], s.locals[t], s)
    requires MemFits(c.mem, s, c.locals[t].pc)
    ensures AccessFits(c, t, s, s)
  {
  }

  lemma SilentRechecking(c: State, t: nat, s: Cond.State)
    requires Enabled(c, Access(t)) && Seen(c, Access(t)) == None && t < |s.locals| && Rechecking(c.locals[t].pc)
    requires Matches(c.locals[t], s.locals[t]) && Knows(c.locals[t], s.locals[t], s)
    requires MemFits(c.mem, s, c.locals[t].pc)
    ensures AccessFits(c, t, s, s)
  {
  }

  lemma SilentCleaning(c: State, t: nat, s: Cond.State)
    requires Enabled(c, Access(t)) && Seen(c, Access(t)) == None && t < |s.locals|
    requires !Beginning(c.locals[t].pc) && !Rechecking(c.locals[t].pc)
    requires Matches(c.locals[t], s.locals[t]) && Knows(c.locals[t], s.locals[t], s)
    requires MemFits(c.mem, s, c.locals[t].pc)
    ensures AccessFits(c, t, s, s)
  {
  }

  lemma SilentAccess(c: State, t: nat, s: Cond.State)
    requires Enabled(c, Access(t)) && Seen(c, Access(t)) == None && t < |s.locals|
    requires Matches(c.locals[t], s.locals[t]) && Knows(c.locals[t], s.locals[t], s)
    requires MemFits(c.mem, s, c.locals[t].pc)
    ensures AccessFits(c, t, s, s)
  {
    var pc := c.locals[t].pc;
    hide *;
    if Beginning(pc) {
      SilentBeginning(c, t, s);
    } else if Rechecking(pc) {
      SilentRechecking(c, t, s);
    } else {
      SilentCleaning(c, t, s);
    }
  }

  lemma WaiterIsCounted(s: Cond.State, t: nat)
    requires Cond.Inv(s) && t < |s.locals| && s.locals[t].Waiting?
    ensures s.nwaiters >= Cond.ONE_WAITER
  {
    CountZero(s.locals, Cond.AnyWaiter());
    assert Cond.AnyWaiter()(s.locals[t]);
  }

  lemma SeenBeginning(c: State, t: nat, s: Cond.State)
    requires Enabled(c, Access(t)) && Seen(c, Access(t)).Some? && t < |s.locals| && Beginning(c.locals[t].pc)
    requires Matches(c.locals[t], s.locals[t]) && Knows(c.locals[t], s.locals[t], s)
    requires MemFits(c.mem, s, c.locals[t].pc)
    requires s.locals[t].Waiting? ==> s.nwaiters >= Cond.ONE_WAITER
    ensures var b := Seen(c, Access(t)).value; Cond.Enabled(s, b) && AccessFits(c, t, s, Cond.Apply(s, b))
  {
  }

  lemma SeenRechecking(c: State, t: nat, s: Cond.State)
    requires Enabled(c, Access(t)) && Seen(c, Access(t)).Some? && t < |s.locals| && Rechecking(c.locals[t].pc)
    requires Matches(c.locals[t], s.locals[t]) && Knows(c.locals[t], s.locals[t], s)
    requires MemFits(c.mem, s, c.locals[t].pc)
    requires s.locals[t].Waiting? ==> s.nwaiters >= Cond.ONE_WAITER
    ensures var b := Seen(c, Access(t)).value; Cond.Enabled(s, b) && AccessFits(c, t, s, Cond.Apply(s, b))
  {
  }

  lemma SeenCleaning(c: State, t: nat, s: Cond.State)
    requires Enabled(c, Access(t)) && Seen(c, Access(t)).Some? && t < |s.locals|
    requires !Beginning(c.locals[t].pc) && !Rechecking(c.locals[t].pc)
    requires Matches(c.locals[t], s.locals[t]) && Knows(c.locals[t], s.locals[t], s)
    requires MemFits(c.mem, s, c.locals[t].pc)
    requires s.locals[t].Waiting? ==> s.nwaiters >= Cond.ONE_WAITER
    ensures var b := Seen(c, Access(t)).value; Cond.Enabled(s, b) && AccessFits(c, t, s, Cond.Apply(s, b))
  {
  }

  lemma SeenAccess(c: State, t: nat, s: Cond.State)
    requires Enabled(c, Access(t)) && Seen(c, Access(t)).Some? && t < |s.locals|
    requires Matches(c.locals[t], s.locals[t]) && Knows(c.locals[t], s.locals[t], s)
    requires MemFits(c.mem, s, c.locals[t].pc)
    requires s.locals[t].Waiting? ==> s.nwaiters >= Cond.ONE_WAITER
    ensures var b := Seen(c, Access(t)).value; Cond.Enabled(s, b) && AccessFits(c, t, s, Cond.Apply(s, b))
  {
    var pc := c.locals[t].pc;
    hide *;
    if Beginning(pc) {
      SeenBeginning(c, t, s);
    } else if Rechecking(pc) {
      SeenRechecking(c, t, s);
    } else {
      SeenCleaning(c, t, s);
    }
  }

  /** With everybody else outside, that is all there is to it. */
  lemma InsideStaysFitting(c: State, s: Cond.State, c': State, s': Cond.State, t: nat)
    requires Fits(c, s) && t < |c.locals| && InRegion(c.locals[t].pc)
    requires |c'.locals| == |c.locals| == |s.locals| == |s'.locals|
    requires c'.lock == c.lock && c'.locals == c.locals[t := c'.locals[t]] && s'.locals == s.locals[t := s'.locals[t]]
    requires Matches(c'.locals[t], s'.locals[t]) && InRegion(c'.locals[t].pc)
    requires Knows(c'.locals[t], s'.locals[t], s') && MemFits(c'.mem, s', c'.locals[t].pc)
    requires Leaving(c.locals[t].pc) ==> Leaving(c'.locals[t].pc)
    ensures Fits(c', s')
  {
    OthersOutside(c, t);
    assert Coupled(c.lock.pcs[t], c.locals[t].pc);
    assert Coupled(c'.lock.pcs[t], c'.locals[t].pc);
    hide Lock.Safe, Cond.Inv, Knows, MemFits, Matches, Coupled, InRegion, Leaving;
    forall u | 0 <= u < |c.locals| && u != t
      ensures c'.locals[u] == c.locals[u] && Matches(c'.locals[u], s'.locals[u])
    {
    }
  }

  lemma AccessRefines(c: State, t: nat, s: Cond.State)
    requires Refines(c, s) && Enabled(c, Access(t))
    ensures match Seen(c, Access(t))
      case None => Refines(Apply(c, Access(t)), s)
      case Some(b) => Cond.Enabled(s, b) && Refines(Apply(c, Access(t)), Cond.Apply(s, b))
  {
    assert Matches(c.locals[t], s.locals[t]);
    if s.locals[t].Waiting? {
      WaiterIsCounted(s, t);
    }
    match Seen(c, Access(t)) {
      case None =>
        SilentAccess(c, t, s);
        AccessKeepsShape(c, t);
        hide Accessed, Matches, Knows, MemFits, Cond.Inv, Fits;
        InsideStaysFitting(c, s, Accessed(c, t), s, t);
      case Some(b) =>
        SeenAccess(c, t, s);
        Cond.StepKeepsInv(s, b);
        AccessKeepsShape(c, t);
        hide Accessed, Matches, Knows, MemFits, Cond.Inv, Cond.Apply, Cond.Enabled, Fits;
        InsideStaysFitting(c, s, Accessed(c, t), Cond.Apply(s, b), t);
    }
  }

  lemma AccessKeepsShape(c: State, t: nat)
    requires Enabled(c, Access(t))
    ensures var c' := Accessed(c, t);
      c'.lock == c.lock && |c'.locals| == |c.locals| && c'.locals == c.locals[t := c'.locals[t]]
  {
  }

  lemma MutexUnlockedFits(c: State, t: nat, error: int, s: Cond.State)
    requires Enabled(c, MutexUnlocked(t, error)) && t < |s.locals|
    requires Matches(c.locals[t], s.locals[t]) && MemFits(c.mem, s, c.locals[t].pc)
    ensures var c' := Apply(c, MutexUnlocked(t, error));
      && c'.lock == c.lock && |c'.locals| == |c.locals| && c'.locals == c.locals[t := c'.locals[t]]
      && InRegion(c.locals[t].pc)
      && Matches(c'.locals[t], s.locals[t]) && Knows(c'.locals[t], s.locals[t], s)
      && MemFits(c'.mem, s, c'.locals[t].pc) && InRegion(c'.locals[t].pc) && !Leaving(c.locals[t].pc)
    ensures Cond.Enabled(s, Cond.BeginWait(t, error))
    ensures error != 0 ==> Cond.Apply(s, Cond.BeginWait(t, error)) == s
  {
  }

  lemma MutexUnlockedRefines(c: State, t: nat, error: int, s: Cond.State)
    requires Refines(c, s) && Enabled(c, MutexUnlocked(t, error))
    ensures Refines(Apply(c, MutexUnlocked(t, error)), s) && Cond.Enabled(s, Cond.BeginWait(t, error))
    ensures error != 0 ==> Cond.Apply(s, Cond.BeginWait(t, error)) == s
  {
    assert Matches(c.locals[t], s.locals[t]);
    MutexUnlockedFits(c, t, error, s);
    assert s.locals == s.locals[t := s.locals[t]];
    hide Apply, Matches, Knows, MemFits, Cond.Inv, Cond.Apply, Cond.Enabled, Fits, Enabled;
    InsideStaysFitting(c, s, Apply(c, MutexUnlocked(t, error)), s, t);
  }

  // ----- Steps outside the regions -----------------------------------------------------------

  lemma FutexWordFits(c: State, s: Cond.State)
    requires Refines(c, s)
    ensures c.mem.futex == s.futex
  {
  }

  /** A step of a thread that has not got the lock leaves memory and whoever has it alone. */
  lemma OutsideStaysFitting(c: State, s: Cond.State, c': State, s': Cond.State, t: nat)
    requires Fits(c, s) && OutsideFits(c, c', s, s', t)
    ensures Fits(c', s')
  {
    hide Lock.Safe, Cond.Inv, Matches, Coupled, InRegion;
    forall u | 0 <= u < |c.locals| && u != t
      ensures c'.locals[u] == c.locals[u] && s'.locals[u] == s.locals[u]
      ensures Knows(c.locals[u], s.locals[u], s) ==> Knows(c.locals[u], s.locals[u], s')
    {
    }
    assert forall pc :: MemFits(c.mem, s, pc) ==> MemFits(c.mem, s', pc);
    hide Knows, MemFits;
    assert NobodyInside(c'.locals) ==> NobodyInside(c.locals) by {
      assert forall u :: 0 <= u < |c.locals| && u != t ==> c'.locals[u] == c.locals[u];
    }
  }

  /** What such a step does, apart from the other threads. */
  predicate OutsideFits(c: State, c': State, s: Cond.State, s': Cond.State, t: nat) {
    && t < |c.locals| == |c'.locals| == |c.lock.pcs| == |s.locals| == |s'.locals|
    && !InRegion(c.locals[t].pc) && !InRegion(c'.locals[t].pc)
    && c'.lock == c.lock && c'.mem == c.mem && c'.locals == c.locals[t := c'.locals[t]]
    && s' == s.(locals := s.locals[t := s'.locals[t]])
    && Matches(c'.locals[t], s'.locals[t]) && Coupled(c.lock.pcs[t], c'.locals[t].pc)
  }

  lemma OutsideStepFits(c: State, a: Action, s: Cond.State)
    requires Enabled(c, a) && (a.FutexWait? || a.Interrupt? || a.Cancel?) && a.t < |c.locals| == |s.locals|
    requires Matches(c.locals[a.t], s.locals[a.t]) && Coupled(c.lock.pcs[a.t], c.locals[a.t].pc)
    requires c.mem.futex == s.futex
    ensures Seen(c, a).Some? && Cond.Enabled(s, Seen(c, a).value)
    ensures OutsideFits(c, Apply(c, a), s, Cond.Apply(s, Seen(c, a).value), a.t)
  {
  }

  lemma CallFits(c: State, a: Action, s: Cond.State)
    requires Enabled(c, a) && (a.CallWait? || a.CallSignal?) && a.t < |c.locals| == |s.locals|
    requires Matches(c.locals[a.t], s.locals[a.t])
    ensures OutsideFits(c, Apply(c, a), s, s, a.t)
  {
  }

  lemma OutsideRefines(c: State, a: Action, s: Cond.State)
    requires Refines(c, s) && Enabled(c, a) && (a.FutexWait? || a.Interrupt? || a.Cancel?)
    ensures Seen(c, a).Some? && Cond.Enabled(s, Seen(c, a).value)
    ensures Refines(Apply(c, a), Cond.Apply(s, Seen(c, a).value))
  {
    assert Matches(c.locals[a.t], s.locals[a.t]) && Coupled(c.lock.pcs[a.t], c.locals[a.t].pc);
    FutexWordFits(c, s);
    OutsideStepFits(c, a, s);
    Cond.StepKeepsInv(s, Seen(c, a).value);
    hide Apply, Matches, Coupled, Enabled, Seen, Cond.Inv, Cond.Apply, Cond.Enabled, Fits;
    OutsideStaysFitting(c, s, Apply(c, a), Cond.Apply(s, Seen(c, a).value), a.t);
  }

  lemma CallRefines(c: State, a: Action, s: Cond.State)
    requires Refines(c, s) && Enabled(c, a) && (a.CallWait? || a.CallSignal?)
    ensures Refines(Apply(c, a), s)
  {
    assert Matches(c.locals[a.t], s.locals[a.t]);
    CallFits(c, a, s);
    hide Apply, Matches, Coupled, Enabled, Cond.Inv, Fits;
    OutsideStaysFitting(c, s, Apply(c, a), s, a.t);
  }

  // ----- Wakes -------------------------------------------------------------------------------

  lemma AwakenedMatches(l: Local, w: Cond.Local, s: Cond.State)
    requires Matches(l, w)
    ensures var l' := if l.pc.Sleeping? then l.(pc := EnterRecheck) else l;
      var w' := if w.Waiting? && w.phase == Cond.Asleep then w.(phase := Cond.AfterWait) else w;
      && Matches(l', w')
      && (InRegion(l.pc) <==> InRegion(l'.pc)) && (InRegion(l.pc) ==> l' == l && w' == w)
  {
  }

  /** Waking everybody at once changes nothing else. */
  lemma AwakenedStaysFitting(c: State, s: Cond.State)
    requires Fits(c, s)
    ensures Fits(c.(locals := Awakened(c.locals)), s.(locals := Cond.Awakened(s.locals)))
  {
    var c', s' := c.(locals := Awakened(c.locals)), s.(locals := Cond.Awakened(s.locals));
    assert forall pc :: MemFits(c.mem, s, pc) ==> MemFits(c.mem, s', pc);
    assert forall l, w :: Knows(l, w, s) ==> Knows(l, w, s');
    forall u | 0 <= u < |c.locals|
      ensures Coupled(c.lock.pcs[u], c'.locals[u].pc) && Matches(c'.locals[u], s'.locals[u])
      ensures InRegion(c'.locals[u].pc) <==> InRegion(c.locals[u].pc)
      ensures InRegion(c.locals[u].pc) ==> c'.locals[u] == c.locals[u] && s'.locals[u] == s.locals[u]
    {
      assert Matches(c.locals[u], s.locals[u]) && Coupled(c.lock.pcs[u], c.locals[u].pc);
      AwakenedMatches(c.locals[u], s.locals[u], s);
    }
    hide Lock.Safe, Knows, Matches, Coupled, InRegion, MemFits, Awakened, Cond.Awakened;
    assert NobodyInside(c'.locals) ==> NobodyInside(c.locals);
  }

  lemma WakeAllShape(c: State, t: nat, s: Cond.State)
    requires Enabled(c, WakeAll(t)) && |c.locals| == |s.locals|
    requires Matches(c.locals[t], s.locals[t]) && Coupled(c.lock.pcs[t], c.locals[t].pc)
    ensures Cond.Enabled(s, Cond.WakeAll(t))
    ensures OutsideFits(c.(locals := Awakened(c.locals)), Apply(c, WakeAll(t)),
                        s.(locals := Cond.Awakened(s.locals)), Cond.Apply(s, Cond.WakeAll(t)), t)
  {
  }

  lemma WakeAllRefines(c: State, t: nat, s: Cond.State)
    requires Refines(c, s) && Enabled(c, WakeAll(t))
    ensures Cond.Enabled(s, Cond.WakeAll(t))
    ensures Refines(Apply(c, WakeAll(t)), Cond.Apply(s, Cond.WakeAll(t)))
  {
    assert Matches(c.locals[t], s.locals[t]) && Coupled(c.lock.pcs[t], c.locals[t].pc);
    WakeAllShape(c, t, s);
    Cond.StepKeepsInv(s, Cond.WakeAll(t));
    AwakenedStaysFitting(c, s);
    hide Fits, Cond.Inv, Apply, Cond.Apply, Enabled, Cond.Enabled, Matches, Coupled, OutsideFits;
    OutsideStaysFitting(c.(locals := Awakened(c.locals)), s.(locals := Cond.Awakened(s.locals)),
                        Apply(c, WakeAll(t)), Cond.Apply(s, Cond.WakeAll(t)), t);
  }

  /** The delivery itself: shared fields change alike on both sides. */
  lemma DeliveryStaysFitting(c: State, s: Cond.State, m: Mem, s': Cond.State, t: nat)
    requires Fits(c, s) && t < |c.locals| && c.locals[t].pc == Deliver
    requires s'.locals == s.locals && MemFits(m, s', LeaveSignal)
    ensures Fits(Goto(c.(mem := m), t, LeaveSignal), s')
  {
    assert Matches(c.locals[t], s.locals[t]);
    assert s'.locals == s.locals[t := s'.locals[t]];
    InsideStaysFitting(c, s, Goto(c.(mem := m), t, LeaveSignal), s', t);
  }

  lemma DeliveryStaysRefined(c: State, s: Cond.State, c': State, s': Cond.State, t: nat)
    requires Fits(c, s) && t < |c.locals| && c.locals[t].pc == Deliver && Cond.Inv(s')
    requires c' == Goto(c.(mem := c'.mem), t, LeaveSignal)
    requires s'.locals == s.locals && MemFits(c'.mem, s', LeaveSignal)
    ensures Refines(c', s')
  {
    hide Fits, Cond.Inv;
    DeliveryStaysFitting(c, s, c'.mem, s', t);
  }

  lemma MemAtDelivery(c: State, s: Cond.State, t: nat)
    requires Fits(c, s) && t < |c.locals| && c.locals[t].pc == Deliver
    ensures t < |s.locals| && Matches(c.locals[t], s.locals[t]) && MemFits(c.mem, s, Deliver)
  {
  }

  lemma BroadcastShape(c: State, t: nat, s: Cond.State)
    requires Enabled(c, Broadcast(t)) && MemFits(c.mem, s, Deliver) && c.mem.total > c.mem.wakeup
    ensures var c', s' := Apply(c, Broadcast(t)), Cond.Apply(s, Cond.Broadcast);
      && c' == Goto(c.(locals := Awakened(c.locals)).(mem := c'.mem), t, LeaveSignal)
      && s'.locals == Cond.Awakened(s.locals) && MemFits(c'.mem, s', LeaveSignal)
      && Awakened(c.locals)[t].pc == Deliver
  {
  }

  lemma WakingBroadcastRefines(c: State, t: nat, s: Cond.State)
    requires Refines(c, s) && Enabled(c, Broadcast(t)) && c.mem.total > c.mem.wakeup
    ensures Refines(Apply(c, Broadcast(t)), Cond.Apply(s, Cond.Broadcast))
  {
    hide Cond.Inv, Apply, Cond.Apply, MemFits, Matches, Cond.Enabled, Fits;
    MemAtDelivery(c, s, t);
    BroadcastShape(c, t, s);
    AwakenedStaysFitting(c, s);
    assert Cond.Enabled(s, Cond.Broadcast) by {
      BroadcastIsEnabled(s);
    }
    Cond.StepKeepsInv(s, Cond.Broadcast);
    DeliveryStaysRefined(c.(locals := Awakened(c.locals)), s.(locals := Cond.Awakened(s.locals)),
                         Apply(c, Broadcast(t)), Cond.Apply(s, Cond.Broadcast), t);
  }

  lemma BroadcastIsEnabled(s: Cond.State)
    ensures Cond.Enabled(s, Cond.Broadcast)
  {
  }

  lemma EmptyBroadcastShape(c: State, t: nat, s: Cond.State)
    requires Enabled(c, Broadcast(t)) && MemFits(c.mem, s, Deliver) && c.mem.total <= c.mem.wakeup
    ensures Apply(c, Broadcast(t)) == Goto(c.(mem := c.mem), t, LeaveSignal)
    ensures MemFits(c.mem, s, LeaveSignal) && Cond.Apply(s, Cond.Broadcast) == s
  {
  }

  lemma EmptyBroadcastRefines(c: State, t: nat, s: Cond.State)
    requires Refines(c, s) && Enabled(c, Broadcast(t)) && c.mem.total <= c.mem.wakeup
    ensures Cond.Apply(s, Cond.Broadcast) == s && Refines(Apply(c, Broadcast(t)), s)
  {
    hide Cond.Inv, Apply, Cond.Apply, MemFits, Matches, Cond.Enabled, Fits;
    MemAtDelivery(c, s, t);
    EmptyBroadcastShape(c, t, s);
    DeliveryStaysRefined(c, s, Apply(c, Broadcast(t)), s, t);
  }

  lemma SleeperWakes(c: State, s: Cond.State, v: nat)
    requires Fits(c, s) && At(c, v, Sleeping)
    ensures Cond.InPhase(s, v, Cond.Asleep)
    ensures Fits(Goto(c, v, EnterRecheck), Cond.Enter(s, v, Cond.AfterWait))
  {
    assert Matches(c.locals[v], s.locals[v]) && Coupled(c.lock.pcs[v], c.locals[v].pc);
    hide Fits;
    OutsideStaysFitting(c, s, Goto(c, v, EnterRecheck), Cond.Enter(s, v, Cond.AfterWait), v);
  }

  lemma NoSleeper(c: State, s: Cond.State)
    requires Fits(c, s) && forall v :: 0 <= v < |c.locals| ==> !At(c, v, Sleeping)
    ensures forall v :: 0 <= v < |s.locals| ==> !Cond.InPhase(s, v, Cond.Asleep)
  {
    forall v | 0 <= v < |s.locals| ensures !Cond.InPhase(s, v, Cond.Asleep) {
      assert Matches(c.locals[v], s.locals[v]) && !At(c, v, Sleeping);
    }
  }

  lemma EmptySignalShape(c: State, t: nat, victim: Option<nat>, s: Cond.State)
    requires Enabled(c, Signal(t, victim)) && MemFits(c.mem, s, Deliver) && c.mem.total <= c.mem.wakeup
    ensures Apply(c, Signal(t, victim)) == Goto(c.(mem := c.mem), t, LeaveSignal) && MemFits(c.mem, s, LeaveSignal)
    ensures Cond.Enabled(s, Cond.Signal(victim)) && Cond.Apply(s, Cond.Signal(victim)) == s
  {
    assert victim == None;
  }

  lemma EmptySignalRefines(c: State, t: nat, victim: Option<nat>, s: Cond.State)
    requires Refines(c, s) && Enabled(c, Signal(t, victim)) && c.mem.total <= c.mem.wakeup
    ensures Cond.Enabled(s, Cond.Signal(victim)) && Cond.Apply(s, Cond.Signal(victim)) == s
    ensures Refines(Apply(c, Signal(t, victim)), s)
  {
    hide Cond.Inv, Apply, Cond.Apply, MemFits, Matches, Cond.Enabled, Fits;
    MemAtDelivery(c, s, t);
    EmptySignalShape(c, t, victim, s);
    DeliveryStaysRefined(c, s, Apply(c, Signal(t, victim)), s, t);
  }

  lemma WakingSignalShape(c: State, t: nat, v: nat, s: Cond.State)
    requires Enabled(c, Signal(t, Some(v))) && MemFits(c.mem, s, Deliver) && Cond.InPhase(s, v, Cond.Asleep)
    ensures Cond.Enabled(s, Cond.Signal(Some(v)))
    ensures var c' := Apply(c, Signal(t, Some(v)));
      && t < |Goto(c, v, EnterRecheck).locals| && Goto(c, v, EnterRecheck).locals[t].pc == Deliver
      && c' == Goto(Goto(c, v, EnterRecheck).(mem := c'.mem), t, LeaveSignal)
    ensures var s' := Cond.Apply(s, Cond.Signal(Some(v)));
      s'.locals == Cond.Enter(s, v, Cond.AfterWait).locals && MemFits(Apply(c, Signal(t, Some(v))).mem, s', LeaveSignal)
  {
  }

  lemma WakingSignalRefines(c: State, t: nat, v: nat, s: Cond.State)
    requires Refines(c, s) && Enabled(c, Signal(t, Some(v)))
    ensures Cond.Enabled(s, Cond.Signal(Some(v)))
    ensures Refines(Apply(c, Signal(t, Some(v))), Cond.Apply(s, Cond.Signal(Some(v))))
  {
    hide Matches, Fits, Cond.Inv, Apply, Cond.Apply, MemFits, Cond.Enabled, Cond.Enter, Goto;
    MemAtDelivery(c, s, t);
    SleeperWakes(c, s, v);
    WakingSignalShape(c, t, v, s);
    Cond.StepKeepsInv(s, Cond.Signal(Some(v)));
    DeliveryStaysRefined(Goto(c, v, EnterRecheck), Cond.Enter(s, v, Cond.AfterWait),
                         Apply(c, Signal(t, Some(v))), Cond.Apply(s, Cond.Signal(Some(v))), t);
  }

  lemma LonelySignalShape(c: State, t: nat, s: Cond.State)
    requires Enabled(c, Signal(t, None)) && MemFits(c.mem, s, Deliver) && c.mem.total > c.mem.wakeup
    requires forall v :: 0 <= v < |s.locals| ==> !Cond.InPhase(s, v, Cond.Asleep)
    ensures Cond.Enabled(s, Cond.Signal(None))
    ensures var c', s' := Apply(c, Signal(t, None)), Cond.Apply(s, Cond.Signal(None));
      c' == Goto(c.(mem := c'.mem), t, LeaveSignal) && s'.locals == s.locals && MemFits(c'.mem, s', LeaveSignal)
  {
  }

  lemma LonelySignalRefines(c: State, t: nat, s: Cond.State)
    requires Refines(c, s) && Enabled(c, Signal(t, None)) && c.mem.total > c.mem.wakeup
    ensures Cond.Enabled(s, Cond.Signal(None))
    ensures Refines(Apply(c, Signal(t, None)), Cond.Apply(s, Cond.Signal(None)))
  {
    MemAtDelivery(c, s, t);
    NoSleeper(c, s);
    LonelySignalShape(c, t, s);
    Cond.StepKeepsInv(s, Cond.Signal(None));
    hide Matches, Fits, Cond.Inv, Apply, Cond.Apply, MemFits, Cond.Enabled, Enabled, Refines;
    DeliveryStaysRefined(c, s, Apply(c, Signal(t, None)), Cond.Apply(s, Cond.Signal(None)), t);
  }

  // ----- All steps, and runs -----------------------------------------------------------------

  /** Refinement: each step of the code is the step of the protocol that it completes, or none. */
  lemma StepRefines(c: State, a: Action, s: Cond.State)
    requires Refines(c, s) && Enabled(c, a)
    ensures match Seen(c, a)
      case None => Refines(Apply(c, a), s)
      case Some(b) => Cond.Enabled(s, b) && Refines(Apply(c, a), Cond.Apply(s, b))
  {
    match a {
      case CallWait(_) => CallRefines(c, a, s);
      case CallSignal(_) => CallRefines(c, a, s);
      case Word(b) => WordIsUnseen(c, b, s);
      case Access(t) => AccessRefines(c, t, s);
      case MutexUnlocked(t, error) => MutexUnlockedRefines(c, t, error, s);
      case FutexWait(_) => OutsideRefines(c, a, s);
      case Interrupt(_) => OutsideRefines(c, a, s);
      case Cancel(_) => OutsideRefines(c, a, s);
      case WakeAll(t) => WakeAllRefines(c, t, s);
      case Broadcast(t) =>
        if c.mem.total <= c.mem.wakeup {
          EmptyBroadcastRefines(c, t, s);
        } else {
          WakingBroadcastRefines(c, t, s);
        }
      case Signal(t, victim) =>
        if c.mem.total <= c.mem.wakeup {
          EmptySignalRefines(c, t, victim, s);
        } else if victim.Some? {
          WakingSignalRefines(c, t, victim.value, s);
        } else {
          LonelySignalRefines(c, t, s);
        }
    }
  }

  function Initial(threads: nat, clock: nat): State
    requires clock < Cond.ONE_WAITER
  {
    State(Mem(0, 0, 0, 0, 0, clock), seq(threads, _ => Local(Outside, 0, 0, 0, 0)), Lock.Initial(threads))
  }

  lemma InitialRefines(threads: nat, clock: nat)
    requires clock < Cond.ONE_WAITER
    ensures Refines(Initial(threads, clock), Cond.Initial(threads, clock))
  {
    Cond.InitialInv(threads, clock);
  }

  ghost predicate IsRun(run: seq<State>, acts: seq<Action>, threads: nat, clock: nat) {
    && clock < Cond.ONE_WAITER
    && |run| == |acts| + 1
    && run[0] == Initial(threads, clock)
    && forall i :: 0 <= i < |acts| ==> Enabled(run[i], acts[i]) && run[i + 1] == Apply(run[i], acts[i])
  }

  /** The steps of the protocol that the first `n` steps of the code complete, in order. */
  ghost function Projected(run: seq<State>, acts: seq<Action>, n: nat): seq<Cond.Action>
    requires n <= |acts| <= |run| && forall i :: 0 <= i < n ==> Enabled(run[i], acts[i])
  {
    if n == 0 then []
    else
      var before, last := Projected(run, acts, n - 1), Seen(run[n - 1], acts[n - 1]);
      if last.Some? then before + [last.value] else before
  }

  /** The first `n` steps of any run of the condition variable code on its lock, with the mutex given up
      inside the first region and the futex word compared outside, are a run of the protocol: the run
      of exactly the steps that the code completes, in that order, from which the code is reached. */
  lemma {:induction false} RunsRefine(run: seq<State>, acts: seq<Action>, threads: nat, clock: nat, n: nat)
    returns (seen: seq<Cond.State>)
    requires IsRun(run, acts, threads, clock) && n <= |acts|
    ensures Cond.IsRun(seen, Projected(run, acts, n), Cond.Initial(threads, clock))
    ensures Refines(run[n], seen[|seen| - 1])
  {
    if n == 0 {
      InitialRefines(threads, clock);
      seen := [Cond.Initial(threads, clock)];
    } else {
      hide Refines, Enabled, Apply, Seen, Cond.Enabled, Cond.Apply;
      seen := RunsRefine(run, acts, threads, clock, n - 1);
      var c, a, s := run[n - 1], acts[n - 1], seen[|seen| - 1];
      StepRefines(c, a, s);
      if Seen(c, a).Some? {
        OneMoreStep(seen, Projected(run, acts, n - 1), Cond.Initial(threads, clock), Seen(c, a).value);
        seen := seen + [Cond.Apply(s, Seen(c, a).value)];
      }
    }
  }

  lemma OneMoreStep(seen: seq<Cond.State>, steps: seq<Cond.Action>, start: Cond.State, step: Cond.Action)
    requires Cond.IsRun(seen, steps, start) && Cond.Enabled(seen[|seen| - 1], step)
    ensures Cond.IsRun(seen + [Cond.Apply(seen[|seen| - 1], step)], steps + [step], start)
  {
    hide Cond.Enabled, Cond.Apply;
  }

  /** In a wait, and outside the regions. */
  function Waits(): Local -> bool {
    (l: Local) => l.pc.FutexCall? || l.pc.Sleeping? || l.pc.EnterRecheck? || l.pc.EnterCleanup?
  }

  /** Whenever nobody is inside a region, memory itself has the counts that the protocol promises. */
  lemma MemoryCountsWaiters(run: seq<State>, acts: seq<Action>, threads: nat, clock: nat)
    requires IsRun(run, acts, threads, clock) && NobodyInside(run[|acts|].locals)
    ensures var c := run[|acts|];
      && c.mem.woken <= c.mem.wakeup <= c.mem.total
      && c.mem.futex == c.mem.total + c.mem.wakeup
      && c.mem.nwaiters / Cond.ONE_WAITER == Count(c.locals, Waits())
  {
    var seen := RunsRefine(run, acts, threads, clock, |acts|);
    QuietMemoryCounts(run[|acts|], seen[|seen| - 1]);
  }

  lemma QuietMemoryCounts(c: State, s: Cond.State)
    requires Refines(c, s) && NobodyInside(c.locals)
    ensures MemFits(c.mem, s, Outside)
    ensures c.mem.woken <= c.mem.wakeup <= c.mem.total && c.mem.futex == c.mem.total + c.mem.wakeup
    ensures c.mem.nwaiters / Cond.ONE_WAITER == Count(c.locals, Waits())
  {
    forall t | 0 <= t < |c.locals| ensures Waits()(c.locals[t]) == Cond.AnyWaiter()(s.locals[t]) {
      assert Matches(c.locals[t], s.locals[t]);
    }
    CountAgree(c.locals, Waits(), s.locals, Cond.AnyWaiter());
  }

  // ----- The error exit ----------------------------------------------------------------------

  lemma ErrorStarts(c: State, t: nat, error: int)
    requires Enabled(c, MutexUnlocked(t, error)) && error != 0
    ensures t < |Apply(c, MutexUnlocked(t, error)).locals|
    ensures Apply(c, MutexUnlocked(t, error)).locals[t].pc == LeaveError
  {
  }

  lemma ErrorGoesOn(c: State, a: Action, t: nat)
    requires Enabled(c, a) && t < |c.locals| && c.locals[t].pc == LeaveError
    ensures t < |Apply(c, a).locals| && a != Access(t) && a != FutexWait(t)
    ensures Apply(c, a).locals[t].pc == LeaveError || Apply(c, a).locals[t].pc == Outside
  {
  }

  /** When the mutex cannot be given up, the call leaves without touching a counter: from the error on, its
      thread only releases the condvar's lock, and is not counted as a waiter. */
  lemma {:induction false} ErrorLeavesAtOnce(run: seq<State>, acts: seq<Action>, threads: nat, clock: nat,
                                             t: nat, error: int, i: nat, j: nat)
    requires IsRun(run, acts, threads, clock) && i < j <= |acts| && acts[i] == MutexUnlocked(t, error) && error != 0
    requires forall k :: i < k < j ==> t < |run[k].locals| && run[k].locals[t].pc != Outside
    ensures t < |run[j].locals| && (run[j].locals[t].pc == LeaveError || run[j].locals[t].pc == Outside)
    ensures forall k :: i < k < j ==> acts[k] != Access(t) && acts[k] != FutexWait(t)
    decreases j
  {
    hide Apply, Enabled;
    if j == i + 1 {
      ErrorStarts(run[i], t, error);
    } else {
      ErrorLeavesAtOnce(run, acts, threads, clock, t, error, i, j - 1);
      ErrorGoesOn(run[j - 1], acts[j - 1], t);
    }
  }
}
