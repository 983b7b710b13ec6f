/** No signal is lost, for the condition variable code as it runs on its lock: once its clients are
    quiet, every access, lock step and futex call brings the threads nearer to a rest in which every
    signal has been used. */
module CondDelivery {
  import opened Counting
  import opened CondOnFutex
  import Lock = FutexLock
  import Cond = CondVar
  import Settling = CondSettling

  // ----- The account of signals, as the code goes along --------------------------------------

  /** Effective signals; returns that consumed one; wakeups that a broadcast took over; and those that a
      cancelled waiter took with it because nobody was left to replace it. */
  datatype Ledger = Ledger(sent: nat, returned: nat, byBroadcast: nat, byCancel: nat)

  function Booked(l: Ledger, c: State, a: Action): Ledger
    requires Enabled(c, a)
  {
    match a
    case Signal(_, _) => if c.mem.total > c.mem.wakeup then l.(sent := l.sent + 1) else l
    case Broadcast(_) =>
      if c.mem.total > c.mem.wakeup then l.(byBroadcast := l.byBroadcast + Cond.Minus(c.mem.wakeup, c.mem.woken)) else l
    case Access(t) =>
      if c.locals[t].pc == IncWoken then l.(returned := l.returned + 1)
      else if c.locals[t].pc == CleanIncWoken(false) then l.(byCancel := l.byCancel + 1)
      else l
    case _ => l
  }

  function Account(run: seq<State>, acts: seq<Action>, n: nat): Ledger
    requires n <= |acts| <= |run| && forall i :: 0 <= i < n ==> Enabled(run[i], acts[i])
  {
    if n == 0 then Ledger(0, 0, 0, 0) else Booked(Account(run, acts, n - 1), run[n - 1], acts[n - 1])
  }

  predicate Agrees(l: Ledger, log: Cond.Log) {
    && l.sent == log.sent && l.returned == log.returned
    && l.byBroadcast == log.absorbedByBroadcast && l.byCancel == log.absorbedByCancel
  }

  /** The state of the protocol after a step of the code. */
  function Protocol(c: State, a: Action, s: Cond.State): Cond.State
    requires Enabled(c, a) && (Seen(c, a).Some? ==> Cond.Enabled(s, Seen(c, a).value))
  {
    match Seen(c, a)
    case None => s
    case Some(b) => Cond.Apply(s, b)
  }

  lemma DeliveryIsBooked(c: State, a: Action, s: Cond.State, l: Ledger)
    requires Refines(c, s) && Enabled(c, a) && (a.Signal? || a.Broadcast?) && Agrees(l, s.log)
    requires Seen(c, a).Some? ==> Cond.Enabled(s, Seen(c, a).value)
    ensures Agrees(Booked(l, c, a), Protocol(c, a, s).log)
  {
    hide Cond.Inv, Fits;
    MemAtDelivery(c, s, a.t);
    hide Matches;
  }

  lemma AccessIsBooked(c: State, t: nat, s: Cond.State, l: Ledger)
    requires Enabled(c, Access(t)) && Agrees(l, s.log) && t < |s.locals|
    requires Matches(c.locals[t], s.locals[t]) && Knows(c.locals[t], s.locals[t], s)
    requires MemFits(c.mem, s, c.locals[t].pc)
    requires Seen(c, Access(t)).Some? ==> Cond.Enabled(s, Seen(c, Access(t)).value)
    ensures Agrees(Booked(l, c, Access(t)), Protocol(c, Access(t), s).log)
  {
  }

  lemma OthersAreNotBooked(c: State, a: Action, s: Cond.State, l: Ledger)
    requires Enabled(c, a) && !a.Signal? && !a.Broadcast? && !a.Access? && Agrees(l, s.log)
    requires Seen(c, a).Some? ==> Cond.Enabled(s, Seen(c, a).value)
    ensures Agrees(Booked(l, c, a), Protocol(c, a, s).log)
  {
  }

  lemma StepIsBooked(c: State, a: Action, s: Cond.State, l: Ledger)
    requires Refines(c, s) && Enabled(c, a) && Agrees(l, s.log)
    ensures Seen(c, a).Some? ==> Cond.Enabled(s, Seen(c, a).value)
    ensures Refines(Apply(c, a), Protocol(c, a, s)) && Agrees(Booked(l, c, a), Protocol(c, a, s).log)
  {
    hide Apply, Cond.Apply, Booked, Cond.Enabled, Knows, MemFits, Matches, Cond.Inv, Seen, Agrees;
    StepRefines(c, a, s);
    if a.Signal? || a.Broadcast? {
      DeliveryIsBooked(c, a, s, l);
    } else if a.Access? {
      AccessIsBooked(c, a.t, s, l);
    } else {
      OthersAreNotBooked(c, a, s, l);
    }
  }

  lemma {:induction false} RunIsBooked(run: seq<State>, acts: seq<Action>, threads: nat, clock: nat, n: nat)
    returns (s: Cond.State)
    requires IsRun(run, acts, threads, clock) && n <= |acts|
    ensures Refines(run[n], s) && Agrees(Account(run, acts, n), s.log)
  {
    if n == 0 {
      InitialRefines(threads, clock);
      s := Cond.Initial(threads, clock);
    } else {
      hide Refines, Enabled, Apply, Agrees, Booked, Protocol;
      s := RunIsBooked(run, acts, threads, clock, n - 1);
      StepIsBooked(run[n - 1], acts[n - 1], s, Account(run, acts, n - 1));
      s := Protocol(run[n - 1], acts[n - 1], s);
    }
  }

  /** Whenever nobody is inside a region, the signals sent are those used up and those that memory shows
      as outstanding. */
  lemma SignalsAreAccountedFor(run: seq<State>, acts: seq<Action>, threads: nat, clock: nat, n: nat)
    requires IsRun(run, acts, threads, clock) && n <= |acts| && NobodyInside(run[n].locals)
    ensures var l, m := Account(run, acts, n), run[n].mem;
      m.woken <= m.wakeup && l.sent == l.returned + l.byBroadcast + l.byCancel + m.wakeup - m.woken
  {
    var s := RunIsBooked(run, acts, threads, clock, n);
    QuietMemoryCounts(run[n], s);
  }

  // ----- Rest --------------------------------------------------------------------------------

  /** Everybody is outside, or asleep on the futex word. */
  predicate AtRest(c: State) {
    forall t :: 0 <= t < |c.locals| ==> c.locals[t].pc == Outside || c.locals[t].pc == Sleeping
  }

  function Sleeps(): Local -> bool {
    (l: Local) => l.pc.Sleeping?
  }

  lemma RestIsQuiet(c: State, s: Cond.State)
    requires Refines(c, s) && AtRest(c)
    ensures c.mem.woken == c.mem.wakeup && Count(c.locals, Sleeps()) == c.mem.total - c.mem.wakeup
  {
    forall t | 0 <= t < |s.locals|
      ensures s.locals[t] == Cond.Outside || Cond.InPhase(s, t, Cond.Asleep)
      ensures Sleeps()(c.locals[t]) == Cond.AnyWaiter()(s.locals[t])
    {
      assert Matches(c.locals[t], s.locals[t]);
    }
    QuietMemoryCounts(c, s);
    Settling.QuietMeansDelivered(s);
    CountAgree(c.locals, Sleeps(), s.locals, Cond.AnyWaiter());
  }

  /** The steps that threads take by themselves: no new call, no cancellation, no spurious wakeup. */
  predicate Own(a: Action) {
    && !a.CallWait? && !a.CallSignal? && !a.Interrupt? && !a.Cancel?
    && (a.Word? ==> !a.b.Interrupt?)
  }

  /** What a thread that is not at rest and not asleep on the lock can do. */
  lemma ThreadCanMove(c: State, t: nat) returns (a: Action)
    requires AllCoupled(c) && t < |c.locals| && c.lock.pcs[t] != Lock.Asleep
    requires c.lock.pcs[t] != Lock.Idle || (c.locals[t].pc != Outside && c.locals[t].pc != Sleeping)
    ensures Own(a) && Enabled(c, a)
  {
    var pc, at := c.locals[t].pc, c.lock.pcs[t];
    assert Coupled(at, pc);
    if InRegion(pc) {
      if Leaving(pc) {
        a := Word(if at == Lock.Holding then Lock.Decrement(t) else Lock.Store(t));
      } else if pc == UnlockMutex {
        a := MutexUnlocked(t, 0);
      } else if pc == Deliver {
        a := Broadcast(t);
      } else {
        a := Access(t);
      }
    } else if at == Lock.WakeOne {
      if v: nat :| Lock.At(c.lock, v, Lock.Asleep) {
        a := Word(Lock.FutexWake(t, Some(v)));
      } else {
        assert forall v :: 0 <= v < |c.lock.pcs| && c.lock.pcs[v] in {Lock.Asleep} ==> Lock.At(c.lock, v, Lock.Asleep);
        a := Word(Lock.FutexWake(t, None));
      }
    } else if Entering(pc) {
      a := Word(if at == Lock.Idle then Lock.Lock(t, Lock.Plain)
                else if at == Lock.Exchange then Lock.ExchangeTwo(t) else Lock.FutexWait(t));
    } else if pc == FutexCall {
      a := FutexWait(t);
    } else {
      a := WakeAll(t);
    }
  }

  /** Nobody is stuck anywhere else. */
  lemma StuckIsAtRest(c: State, s: Cond.State)
    requires Refines(c, s) && forall a :: Own(a) ==> !Enabled(c, a)
    ensures AtRest(c)
  {
    forall t | 0 <= t < |c.locals| ensures c.locals[t].pc == Outside || c.locals[t].pc == Sleeping {
      assert Coupled(c.lock.pcs[t], c.locals[t].pc);
      if c.locals[t].pc != Outside && c.locals[t].pc != Sleeping {
        var u := t;
        if c.lock.pcs[t] == Lock.Asleep {
          u := SomeoneAwake(c.lock, t);
        }
        var a := ThreadCanMove(c, u);
        assert false;
      }
    }
  }

  /** A thread that sleeps on the lock is not alone in the lock's code. */
  lemma SomeoneAwake(lock: Lock.State, t: nat) returns (u: nat)
    requires Lock.Safe(lock) && t < |lock.pcs| && lock.pcs[t] == Lock.Asleep
    ensures u < |lock.pcs| && lock.pcs[u] != Lock.Asleep && lock.pcs[u] != Lock.Idle
  {
    assert lock.pcs[t] in {Lock.Asleep};
    assert Lock.Somewhere(lock, {Lock.Asleep});
    if lock.word == 2 {
      u :| 0 <= u < |lock.pcs| && lock.pcs[u] in Lock.OWNING;
    } else {
      u :| 0 <= u < |lock.pcs| && lock.pcs[u] in Lock.HELPING;
    }
  }

  // ----- How long it takes -------------------------------------------------------------------

  /** On the way to registering as a waiter, or to a signal: these stir the others up. */
  function Stirring(): Local -> bool {
    (l: Local) =>
      match l.pc
      case EnterBegin | UnlockMutex | IncTotal | IncFutex | EnterSignal | Deliver => true
      case _ => false
  }

  /** Accesses to the end of the region, at most. */
  function Accesses(): Local -> int {
    (l: Local) =>
      match l.pc
      case UnlockMutex => 7
      case IncTotal | CleanEpoch => 6
      case IncFutex | CheckEpoch | CleanCompare => 5
      case IncWaiters | ReadWakeup | CleanIncWakeup => 4
      case SaveSeq | CheckWoken | CleanIncFutex => 3
      case SaveEpoch | SaveFutexAgain | IncWoken | CleanIncWoken(_) => 2
      case SaveFutex | DecWaiters | CleanDecWaiters | Deliver => 1
      case _ => 0
  }

  /** The one use of the lock that a thread is in, or about to begin. */
  function Uses(l: Local, at: Lock.Pc): nat {
    if Entering(l.pc) || InRegion(l.pc) || at == Lock.WakeOne then 1 else 0
  }

  function LockWork(c: State): Lock.Work
    requires |c.locals| == |c.lock.pcs|
  {
    Lock.Work(c.lock, seq(|c.locals|, t requires 0 <= t < |c.locals| => Uses(c.locals[t], c.lock.pcs[t])))
  }

  lemma LockWorkIsSound(c: State)
    requires Lock.Safe(c.lock) && AllCoupled(c)
    ensures Lock.Sound(LockWork(c))
  {
    forall t | 0 <= t < |c.locals| && c.lock.pcs[t] != Lock.Idle ensures Uses(c.locals[t], c.lock.pcs[t]) > 0 {
      assert Coupled(c.lock.pcs[t], c.locals[t].pc);
    }
  }

  /** A step of the lock code is a step of that work. */
  lemma WordAdvances(c: State, b: Lock.Action)
    requires Lock.Safe(c.lock) && AllCoupled(c) && Enabled(c, Word(b)) && !b.Interrupt?
    ensures Lock.Ready(LockWork(c), b)
    ensures |Apply(c, Word(b)).locals| == |Apply(c, Word(b)).lock.pcs|
    ensures LockWork(Apply(c, Word(b))) == Lock.Advance(LockWork(c), b)
  {
    var c' := Apply(c, Word(b));
    var w, t := LockWork(c), b.t;
    LockPositions(c.lock, b);
    assert Coupled(c.lock.pcs[t], c.locals[t].pc);
    WordMoves(c.lock, b, c.locals[t].pc);
    hide Lock.Safe, Lock.Apply;
    assert Lock.Ready(w, b);
    forall u | 0 <= u < |c.locals| ensures LockWork(c').left[u] == Lock.Advance(w, b).left[u] {
      assert Coupled(c.lock.pcs[u], c.locals[u].pc);
    }
    assert LockWork(c').left == Lock.Advance(w, b).left;
  }

  // Four components, the first counting most, each below its limit for `n` threads.

  function AccessLimit(n: nat): nat {
    7 * n + 1
  }

  function LockLimit(n: nat): nat {
    Scaled(2 * (3 * n + 1), 5 * n + 1, 0)
  }

  function WaitLimit(n: nat): nat {
    Scaled(4 * n + 1, 2 * n + 1, 0)
  }

  function Lexical(n: nat, stirring: int, waits: int, lock: int, accesses: int): int {
    Scaled(Scaled(Scaled(AccessLimit(n), LockLimit(n), 0), WaitLimit(n), 0), stirring,
           Scaled(Scaled(AccessLimit(n), LockLimit(n), 0), waits, Scaled(AccessLimit(n), lock, accesses)))
  }

  lemma Nested(unit: nat, x: nat, limit: nat, low: nat)
    requires x < limit && low < unit
    ensures 0 <= Scaled(unit, x, low) < Scaled(unit, limit, 0)
  {
    Outweighs(unit, x, limit, low, 0);
    ScaledNonnegative(unit, x, low);
  }

  predicate Within(n: nat, waits: int, lock: int, accesses: int) {
    0 <= waits < WaitLimit(n) && 0 <= lock < LockLimit(n) && 0 <= accesses < AccessLimit(n)
  }

  lemma LexicalDrops(n: nat, x: (int, int, int, int), y: (int, int, int, int))
    requires Within(n, x.1, x.2, x.3) && Within(n, y.1, y.2, y.3)
    requires
      || x.0 < y.0
      || (x.0 == y.0 && x.1 < y.1)
      || (x.0 == y.0 && x.1 == y.1 && x.2 < y.2)
      || (x.0 == y.0 && x.1 == y.1 && x.2 == y.2 && x.3 < y.3)
    ensures Lexical(n, x.0, x.1, x.2, x.3) < Lexical(n, y.0, y.1, y.2, y.3)
  {
    var u := AccessLimit(n);
    var v := Scaled(u, LockLimit(n), 0);
    var w := Scaled(v, WaitLimit(n), 0);
    Nested(u, x.2, LockLimit(n), x.3);
    Nested(u, y.2, LockLimit(n), y.3);
    Nested(v, x.1, WaitLimit(n), Scaled(u, x.2, x.3));
    Nested(v, y.1, WaitLimit(n), Scaled(u, y.2, y.3));
    hide Scaled, AccessLimit, LockLimit, WaitLimit;
    if x.0 < y.0 {
      Outweighs(w, x.0, y.0, Scaled(v, x.1, Scaled(u, x.2, x.3)), Scaled(v, y.1, Scaled(u, y.2, y.3)));
    } else {
      SameLeading(w, x.0, Scaled(v, x.1, Scaled(u, x.2, x.3)), Scaled(v, y.1, Scaled(u, y.2, y.3)));
      if x.1 < y.1 {
        Outweighs(v, x.1, y.1, Scaled(u, x.2, x.3), Scaled(u, y.2, y.3));
      } else {
        SameLeading(v, x.1, Scaled(u, x.2, x.3), Scaled(u, y.2, y.3));
        if x.2 < y.2 {
          Outweighs(u, x.2, y.2, x.3, y.3);
        } else {
          SameLeading(u, x.2, x.3, y.3);
        }
      }
    }
  }

  lemma SameLeading(unit: nat, x: int, low: int, high: int)
    ensures low < high ==> Scaled(unit, x, low) < Scaled(unit, x, high)
  {
  }

  /** The components of a state of the code and of the protocol state that it refines. */
  function Components(c: State, s: Cond.State): (int, int, int, int)
    requires |c.locals| == |c.lock.pcs|
  {
    (Count(c.locals, Stirring()), Settling.Measure(s), Lock.Measure(LockWork(c)), Total(c.locals, Accesses()))
  }

  lemma ComponentsAreWithin(c: State, s: Cond.State)
    requires Refines(c, s)
    ensures var x := Components(c, s); Within(|c.locals|, x.1, x.2, x.3)
  {
    LockWorkIsSound(c);
    hide Lock.Safe, Cond.Inv, AllMatch, RegionFits, AllCoupled, Lock.Sound;
    TotalBounds(c.locals, Accesses(), 0, 7);
    WaitsAreBounded(s);
    LockWorkIsBounded(LockWork(c));
    assert |c.locals| == |s.locals| by {
      SameThreads(c, s);
    }
  }

  lemma SameThreads(c: State, s: Cond.State)
    requires Refines(c, s)
    ensures |c.locals| == |c.lock.pcs| == |s.locals|
  {
  }

  lemma WaitsAreBounded(s: Cond.State)
    ensures 0 <= Settling.Measure(s) < WaitLimit(|s.locals|)
  {
    Settling.MeasureBounds(s);
    TotalBounds(s.locals, Settling.Handling(), 0, 2);
    Outweighs(4 * |s.locals| + 1, Total(s.locals, Settling.Handling()), 2 * |s.locals| + 1,
              Total(s.locals, Settling.Restless(s.futex)), 0);
  }

  lemma LockWorkIsBounded(w: Lock.Work)
    requires Lock.Sound(w) && forall t :: 0 <= t < |w.left| ==> w.left[t] <= 1
    ensures 0 <= Lock.Measure(w) < LockLimit(|w.left|)
  {
    Lock.MeasureNonnegative(w);
    Lock.EffortBounds(w);
    TotalBounds(Lock.Paired(w), Lock.Ahead(), 0, 5);
    Outweighs(Lock.Unit(w), Total(Lock.Paired(w), Lock.Ahead()), 5 * |w.left| + 1, Lock.Effort(w), 0);
  }

  // ----- What each step brings ---------------------------------------------------------------

  function CodeMeasure(c: State, s: Cond.State): int
    requires |c.locals| == |c.lock.pcs|
  {
    var x := Components(c, s);
    Lexical(|c.locals|, x.0, x.1, x.2, x.3)
  }

  predicate Less(x: (int, int, int, int), y: (int, int, int, int)) {
    || x.0 < y.0
    || (x.0 == y.0 && x.1 < y.1)
    || (x.0 == y.0 && x.1 == y.1 && x.2 < y.2)
    || (x.0 == y.0 && x.1 == y.1 && x.2 == y.2 && x.3 < y.3)
  }

  lemma WordStirsNobody(c: State, b: Lock.Action)
    requires Lock.Safe(c.lock) && AllCoupled(c) && Enabled(c, Word(b))
    ensures b.t < |c.locals| == |Apply(c, Word(b)).locals| == |Apply(c, Word(b)).lock.pcs|
    ensures Apply(c, Word(b)).locals == c.locals[b.t := Apply(c, Word(b)).locals[b.t]]
    ensures Stirring()(Apply(c, Word(b)).locals[b.t]) == Stirring()(c.locals[b.t])
  {
    assert Coupled(c.lock.pcs[b.t], c.locals[b.t].pc);
    WordMoves(c.lock, b, c.locals[b.t].pc);
    hide Lock.Safe, Lock.Apply, AfterWord, AllCoupled;
  }

  lemma WordBrings(c: State, b: Lock.Action, s: Cond.State)
    requires Refines(c, s) && Enabled(c, Word(b)) && !b.Interrupt?
    ensures SameLengths(Apply(c, Word(b)))
    ensures Less(Components(Apply(c, Word(b)), s), Components(c, s))
  {
    hide Lock.Safe, AllCoupled, AllMatch, RegionFits, Cond.Inv, Apply, Enabled;
    hide Lock.Measure, Settling.Measure, Stirring;
    var c' := Apply(c, Word(b));
    LockWorkIsSound(c);
    WordAdvances(c, b);
    Lock.MeasureDrops(LockWork(c), b);
    WordStirsNobody(c, b);
    CountUpdate(c.locals, b.t, c'.locals[b.t], Stirring());
  }

  predicate SameLengths(c: State) {
    |c.locals| == |c.lock.pcs|
  }

  /** Registering, failing to, or delivering: one thread less that stirs. */
  lemma DeliveryBrings(c: State, a: Action)
    requires SameLengths(c) && Enabled(c, a) && (a.Signal? || a.Broadcast?)
    ensures SameLengths(Apply(c, a))
    ensures Count(Apply(c, a).locals, Stirring()) == Count(c.locals, Stirring()) - 1
  {
    DeliveryMoves(c, a);
    var left, more := Goto(c, a.t, LeaveSignal).locals, Apply(c, a).locals;
    assert c.locals[a.t].pc == Deliver;
    CountUpdate(c.locals, a.t, left[a.t], Stirring());
    hide Apply, Enabled, Stirring;
    CountAgree(left, Stirring(), more, Stirring());
  }

  lemma DeliveryMoves(c: State, a: Action)
    requires SameLengths(c) && Enabled(c, a) && (a.Signal? || a.Broadcast?)
    ensures a.t < |c.locals| && SameLengths(Apply(c, a)) && |Apply(c, a).locals| == |c.locals|
    ensures var left := Goto(c, a.t, LeaveSignal).locals;
      forall u :: 0 <= u < |left| ==> Stirring()(left[u]) == Stirring()(Apply(c, a).locals[u])
  {
  }

  /** An access stays in its region; it registers a waiter, or is seen otherwise, or comes nearer to the
      end of the region. */
  lemma AccessMoves(c: State, t: nat)
    requires SameLengths(c) && Enabled(c, Access(t))
    ensures var c' := Apply(c, Access(t));
      && SameLengths(c') && t < |c'.locals| && c'.lock == c.lock && c'.locals == c.locals[t := c'.locals[t]]
      && InRegion(c.locals[t].pc) && InRegion(c'.locals[t].pc)
      && match Seen(c, Access(t))
         case None =>
           && Accesses()(c'.locals[t]) < Accesses()(c.locals[t])
           && Stirring()(c'.locals[t]) == Stirring()(c.locals[t])
         case Some(b) =>
           if b.BeginWait? then !Stirring()(c'.locals[t]) && Stirring()(c.locals[t])
           else Settling.Settling(b) && Stirring()(c'.locals[t]) == Stirring()(c.locals[t])
  {
  }

  lemma AccessBrings(c: State, t: nat, s: Cond.State)
    requires SameLengths(c) && Enabled(c, Access(t))
    requires Seen(c, Access(t)).Some? ==> Cond.Enabled(s, Seen(c, Access(t)).value)
    ensures SameLengths(Apply(c, Access(t)))
    ensures Less(Components(Apply(c, Access(t)), Protocol(c, Access(t), s)), Components(c, s))
  {
    AccessMoves(c, t);
    var c' := Apply(c, Access(t));
    assert LockWork(c').left == LockWork(c).left;
    hide Apply, Cond.Apply, Seen, Enabled, Cond.Enabled, InRegion, Settling.Measure, Stirring, Accesses, Lock.Measure;
    CountUpdate(c.locals, t, c'.locals[t], Stirring());
    match Seen(c, Access(t)) {
      case None => TotalUpdate(c.locals, t, c'.locals[t], Accesses());
      case Some(b) =>
        if !b.BeginWait? {
          Settling.MeasureDrops(s, b);
        }
    }
  }

  lemma MutexUnlockedBrings(c: State, t: nat, error: int, s: Cond.State)
    requires SameLengths(c) && Enabled(c, MutexUnlocked(t, error))
    requires Cond.Enabled(s, Cond.BeginWait(t, error))
    ensures SameLengths(Apply(c, MutexUnlocked(t, error)))
    ensures var a := MutexUnlocked(t, error);
      Less(Components(Apply(c, a), Protocol(c, a, s)), Components(c, s))
  {
    var c' := Apply(c, MutexUnlocked(t, error));
    CountUpdate(c.locals, t, c'.locals[t], Stirring());
    TotalUpdate(c.locals, t, c'.locals[t], Accesses());
    assert LockWork(c').left == LockWork(c).left;
  }

  lemma FutexBrings(c: State, a: Action, s: Cond.State)
    requires SameLengths(c) && Enabled(c, a) && (a.FutexWait? || a.WakeAll?)
    requires Cond.Enabled(s, Seen(c, a).value)
    ensures SameLengths(Apply(c, a)) && Less(Components(Apply(c, a), Protocol(c, a, s)), Components(c, s))
  {
    var c' := Apply(c, a);
    CountAgree(c.locals, Stirring(), c'.locals, Stirring());
    Settling.MeasureDrops(s, Seen(c, a).value);
  }

  lemma StepBrings(c: State, a: Action, s: Cond.State)
    requires Refines(c, s) && Enabled(c, a) && Own(a)
    requires Seen(c, a).Some? ==> Cond.Enabled(s, Seen(c, a).value)
    ensures SameLengths(c) && SameLengths(Apply(c, a))
    ensures Less(Components(Apply(c, a), Protocol(c, a, s)), Components(c, s))
  {
    match a {
      case Word(b) => WordBrings(c, b, s);
      case Access(t) => AccessBrings(c, t, s);
      case MutexUnlocked(t, error) =>
        MutexUnlockedRefines(c, t, error, s);
        MutexUnlockedBrings(c, t, error, s);
      case FutexWait(_) => FutexBrings(c, a, s);
      case WakeAll(_) => FutexBrings(c, a, s);
      case Signal(_, _) => DeliveryBrings(c, a);
      case Broadcast(_) => DeliveryBrings(c, a);
    }
  }

  lemma CodeMeasureDrops(c: State, a: Action, s: Cond.State)
    requires Refines(c, s) && Enabled(c, a) && Own(a)
    ensures SameLengths(c) && SameLengths(Apply(c, a)) && |Apply(c, a).locals| == |c.locals|
    ensures Seen(c, a).Some? ==> Cond.Enabled(s, Seen(c, a).value)
    ensures Refines(Apply(c, a), Protocol(c, a, s))
    ensures CodeMeasure(Apply(c, a), Protocol(c, a, s)) < CodeMeasure(c, s)
  {
    hide Refines, Apply, Enabled, Seen, Protocol, Cond.Enabled, Components, Within, Lexical;
    StepRefines(c, a, s);
    assert Refines(Apply(c, a), Protocol(c, a, s)) by {
      ProtocolIsReached(c, a, s);
    }
    StepBrings(c, a, s);
    ThreadsStay(c, a);
    ComponentsAreWithin(c, s);
    ComponentsAreWithin(Apply(c, a), Protocol(c, a, s));
    LexicalDrops(|c.locals|, Components(Apply(c, a), Protocol(c, a, s)), Components(c, s));
  }

  lemma ProtocolIsReached(c: State, a: Action, s: Cond.State)
    requires Refines(c, s) && Enabled(c, a)
    ensures Seen(c, a).Some? ==> Cond.Enabled(s, Seen(c, a).value)
    ensures Refines(Apply(c, a), Protocol(c, a, s))
  {
    hide Refines, Apply, Enabled, Seen, Cond.Enabled, Cond.Apply;
    StepRefines(c, a, s);
  }

  lemma ThreadsStay(c: State, a: Action)
    requires Enabled(c, a)
    ensures |Apply(c, a).locals| == |c.locals|
  {
  }

  /** (7n + 1) LockLimit WaitLimit (n + 1), for n threads. */
  function StepLimit(n: nat): nat {
    Scaled(Scaled(Scaled(AccessLimit(n), LockLimit(n), 0), WaitLimit(n), 0), n + 1, 0)
  }

  lemma CodeMeasureIsBounded(c: State, s: Cond.State)
    requires Refines(c, s)
    ensures SameLengths(c) && 0 <= CodeMeasure(c, s) < StepLimit(|c.locals|)
  {
    ComponentsAreWithin(c, s);
    var n, x := |c.locals|, Components(c, s);
    assert 0 <= x.0 < n + 1;
    var u := AccessLimit(n);
    var v := Scaled(u, LockLimit(n), 0);
    hide Refines, Components, AccessLimit, LockLimit, WaitLimit;
    Nested(u, x.2, LockLimit(n), x.3);
    Nested(v, x.1, WaitLimit(n), Scaled(u, x.2, x.3));
    Nested(Scaled(v, WaitLimit(n), 0), x.0, n + 1, Scaled(v, x.1, Scaled(u, x.2, x.3)));
  }

  lemma {:induction false} OwnStepsSoFar(run: seq<State>, acts: seq<Action>, threads: nat, clock: nat, k: nat, n: nat)
    returns (first: Cond.State, last: Cond.State)
    requires IsRun(run, acts, threads, clock) && k <= n <= |acts|
    requires forall i :: k <= i < n ==> Own(acts[i])
    ensures Refines(run[k], first) && Refines(run[n], last) && SameLengths(run[k]) && SameLengths(run[n])
    ensures CodeMeasure(run[n], last) + (n - k) <= CodeMeasure(run[k], first)
    ensures |run[n].locals| == threads && Agrees(Account(run, acts, n), last.log)
    decreases n
  {
    hide Refines, Enabled, Apply, Agrees, Booked, Protocol, CodeMeasure, Own;
    if n == k {
      first := RunIsBooked(run, acts, threads, clock, k);
      last := first;
      ThreadsOf(run, acts, threads, clock, k);
      SameLengthsOf(run[k], first);
    } else {
      first, last := OwnStepsSoFar(run, acts, threads, clock, k, n - 1);
      CodeMeasureDrops(run[n - 1], acts[n - 1], last);
      StepIsBooked(run[n - 1], acts[n - 1], last, Account(run, acts, n - 1));
      last := Protocol(run[n - 1], acts[n - 1], last);
    }
  }

  lemma SameLengthsOf(c: State, s: Cond.State)
    requires Refines(c, s)
    ensures SameLengths(c)
  {
  }

  lemma {:induction false} ThreadsOf(run: seq<State>, acts: seq<Action>, threads: nat, clock: nat, n: nat)
    requires IsRun(run, acts, threads, clock) && n <= |acts|
    ensures |run[n].locals| == threads
  {
    if n > 0 {
      ThreadsOf(run, acts, threads, clock, n - 1);
      hide Apply, Enabled;
      ThreadsStay(run[n - 1], acts[n - 1]);
    }
  }

  /** No signal is lost by the code. Take any run, and let its clients be quiet from some point on: no
      new calls, cancellations or spurious wakeups. Then the threads take at most `StepLimit(threads)`
      more steps, whoever is scheduled, lock code included. When none can move, everybody is outside
      or asleep on the futex word, exactly the waiters that nobody signalled are asleep, and every
      signal has been used by a return, a broadcast, or a cancelled waiter without a successor. */
  lemma CodeDeliversEverySignal(run: seq<State>, acts: seq<Action>, threads: nat, clock: nat, k: nat)
    requires IsRun(run, acts, threads, clock) && k <= |acts| && forall i :: k <= i < |acts| ==> Own(acts[i])
    ensures |acts| - k < StepLimit(threads)
    ensures var end, l := run[|acts|], Account(run, acts, |acts|);
      (forall a :: Own(a) ==> !Enabled(end, a)) ==>
        && AtRest(end)
        && end.mem.woken == end.mem.wakeup
        && Count(end.locals, Sleeps()) == end.mem.total - end.mem.wakeup
        && l.sent == l.returned + l.byBroadcast + l.byCancel
  {
    var first, last := OwnStepsSoFar(run, acts, threads, clock, k, |acts|);
    var end := run[|acts|];
    ThreadsOf(run, acts, threads, clock, k);
    hide Refines, Apply, CodeMeasure, StepLimit, Account, Enabled, Own;
    CodeMeasureIsBounded(run[k], first);
    CodeMeasureIsBounded(end, last);
    if forall a :: Own(a) ==> !Enabled(end, a) {
      StuckIsAtRest(end, last);
      RestIsQuiet(end, last);
      RestIsOutside(end);
      SignalsAreAccountedFor(run, acts, threads, clock, |acts|);
    }
  }

  lemma RestIsOutside(c: State)
    requires AtRest(c)
    ensures NobodyInside(c.locals)
  {
  }
}
