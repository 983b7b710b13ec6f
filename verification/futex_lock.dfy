/** The three-state futex lock: `lll_lock`, `lll_cond_lock`, their trylocks, `lll_unlock` and the
    contended paths `__lll_lock_wait` and `__lll_unlock_wake`.

    A state holds the lock word and one program counter per thread. Every memory access and every
    futex call is a step of its own; a futex wait compares and goes to sleep atomically. */
module FutexLock {
  import opened Counting

  /** Where a thread stands in the lock code. */
  datatype Pc =
    | Idle       // not in the lock code and not holding the lock
    | Exchange   // in the slow path, about to exchange 2 into the word
    | WaitCall   // in the slow path, about to call futex wait with expected value 2
    | Asleep     // inside futex wait
    | Holding    // between acquisition and the decrement of unlock
    | StoreZero  // decremented a contended word, about to store 0
    | WakeOne    // stored 0, about to wake one sleeper

  datatype State = State(word: int, pcs: seq<Pc>)

  /** The value a successful compare-and-exchange stores: 1, or 2 in the condvar build. */
  datatype Mark = Plain | Contended {
    function Value(): int { if Plain? then 1 else 2 }
  }

  datatype Action =
    | Lock(t: nat, mark: Mark)
    | TryLock(t: nat, mark: Mark)
    | ExchangeTwo(t: nat)
    | FutexWait(t: nat)
    | Interrupt(t: nat)  // a spurious return of futex wait
    | Decrement(t: nat)
    | Store(t: nat)
    | FutexWake(t: nat, victim: Option<nat>)

  predicate At(s: State, t: nat, pc: Pc) {
    t < |s.pcs| && s.pcs[t] == pc
  }

  predicate Enabled(s: State, a: Action) {
    match a
    case Lock(t, _) => At(s, t, Idle)
    case TryLock(t, _) => At(s, t, Idle) || At(s, t, Holding)  // also by the holder, in vain
    case ExchangeTwo(t) => At(s, t, Exchange)
    case FutexWait(t) => At(s, t, WaitCall)
    case Interrupt(t) => At(s, t, Asleep)
    case Decrement(t) => At(s, t, Holding)
    case Store(t) => At(s, t, StoreZero)
    case FutexWake(t, victim) =>
      && At(s, t, WakeOne)
      && match victim
         case Some(v) => At(s, v, Asleep)
         case None => !Somewhere(s, {Asleep})
  }

  function Goto(s: State, t: nat, pc: Pc): State
    requires t < |s.pcs|
  {
    s.(pcs := s.pcs[t := pc])
  }

  /** The slow path starts with a futex wait exactly when the failed exchange read 2. */
  function SlowPath(word: int): Pc {
    if word == 2 then WaitCall else Exchange
  }

  function Apply(s: State, a: Action): State
    requires Enabled(s, a)
  {
    match a
    case Lock(t, mark) =>
      if s.word == 0 then Goto(s, t, Holding).(word := mark.Value()) else Goto(s, t, SlowPath(s.word))
    case TryLock(t, mark) =>
      if s.word == 0 then Goto(s, t, Holding).(word := mark.Value()) else s
    case ExchangeTwo(t) => Goto(s, t, if s.word == 0 then Holding else WaitCall).(word := 2)
    case FutexWait(t) => Goto(s, t, if s.word == 2 then Asleep else Exchange)
    case Interrupt(t) => Goto(s, t, Exchange)
    case Decrement(t) => Goto(s, t, if s.word == 1 then Idle else StoreZero).(word := s.word - 1)
    case Store(t) => Goto(s, t, WakeOne).(word := 0)
    case FutexWake(t, victim) =>
      match victim
      case Some(v) => Goto(Goto(s, t, Idle), v, Exchange)
      case None => Goto(s, t, Idle)
  }

  predicate Somewhere(s: State, where: set<Pc>) {
    exists t :: 0 <= t < |s.pcs| && s.pcs[t] in where
  }

  /** A thread owns the lock from its acquisition to the step that makes the word 0 again. */
  const OWNING := {Holding, StoreZero}

  /** A thread in one of these positions will wake a sleeper or exchange 2 into the word. */
  const HELPING := {StoreZero, WakeOne, Exchange}

  predicate MutualExclusion(s: State) {
    forall t, u :: 0 <= t < |s.pcs| && 0 <= u < |s.pcs| && s.pcs[t] in OWNING && s.pcs[u] in OWNING ==> t == u
  }

  predicate WordTellsOwnership(s: State) {
    0 <= s.word <= 2 && (s.word != 0 <==> Somewhere(s, OWNING))
  }

  predicate NoLostWakeup(s: State) {
    Somewhere(s, {Asleep}) ==> s.word == 2 || Somewhere(s, HELPING)
  }

  predicate Safe(s: State) {
    MutualExclusion(s) && WordTellsOwnership(s) && NoLostWakeup(s)
  }

  function Initial(threads: nat): State {
    State(0, seq(threads, _ => Idle))
  }

  lemma GotoSomewhere(s: State, t: nat, pc: Pc, where: set<Pc>)
    requires t < |s.pcs|
    ensures pc in where ==> Somewhere(Goto(s, t, pc), where)
    ensures Somewhere(s, where) && s.pcs[t] !in where ==> Somewhere(Goto(s, t, pc), where)
    ensures !Somewhere(s, where) && pc !in where ==> !Somewhere(Goto(s, t, pc), where)
  {
    assert pc in where ==> Goto(s, t, pc).pcs[t] in where;
    if Somewhere(s, where) && s.pcs[t] !in where {
      var u :| 0 <= u < |s.pcs| && s.pcs[u] in where;
      assert Goto(s, t, pc).pcs[u] in where;
    }
  }

  /** When may thread `t` move to `pc` while the word becomes `word`? */
  predicate MayMove(s: State, t: nat, pc: Pc, word: int)
    requires t < |s.pcs|
  {
    var was := s.pcs[t];
    && 0 <= word <= 2
    && (|| ((was in OWNING <==> pc in OWNING) && (s.word == 0 <==> word == 0))
        || (was !in OWNING && pc in OWNING && s.word == 0 && word != 0)
        || (was in OWNING && pc !in OWNING && word == 0))
    && (|| word == 2
        || pc in HELPING
        || (was !in HELPING && pc != Asleep && s.word != 2))
  }

  lemma MoveIsSafe(s: State, t: nat, pc: Pc, word: int)
    requires Safe(s) && t < |s.pcs| && MayMove(s, t, pc, word)
    ensures Safe(Goto(s, t, pc).(word := word))
  {
    var s' := Goto(s, t, pc).(word := word);
    GotoSomewhere(s, t, pc, OWNING);
    GotoSomewhere(s, t, pc, {Asleep});
    GotoSomewhere(s, t, pc, HELPING);
    assert Somewhere(s', OWNING) <==> Somewhere(Goto(s, t, pc), OWNING);
    assert Somewhere(s', {Asleep}) <==> Somewhere(Goto(s, t, pc), {Asleep});
    assert Somewhere(s', HELPING) <==> Somewhere(Goto(s, t, pc), HELPING);
    assert s.pcs[t] in OWNING ==> Somewhere(s, OWNING);
    if s.pcs[t] in OWNING && pc !in OWNING {
      assert forall u :: 0 <= u < |s'.pcs| ==> s'.pcs[u] !in OWNING;
    }
  }

  lemma StepMayMove(s: State, a: Action)
    requires Safe(s) && Enabled(s, a) && !a.FutexWake?
    ensures var s' := Apply(s, a);
      s' == Goto(s, a.t, s'.pcs[a.t]).(word := s'.word) && MayMove(s, a.t, s'.pcs[a.t], s'.word)
  {
    assert s.pcs[a.t] in OWNING ==> Somewhere(s, OWNING);
  }

  lemma WakeIsSafe(s: State, a: Action)
    requires Safe(s) && Enabled(s, a) && a.FutexWake?
    ensures Safe(Apply(s, a))
  {
    var idle := Goto(s, a.t, Idle);
    GotoSomewhere(s, a.t, Idle, OWNING);
    GotoSomewhere(s, a.t, Idle, {Asleep});
    match a.victim
    case None =>
    case Some(v) =>
      GotoSomewhere(idle, v, Exchange, OWNING);
      GotoSomewhere(idle, v, Exchange, HELPING);
  }

  /** Every step of every thread keeps mutual exclusion, the meaning of the word, and the promise
      that a sleeper will be woken. */
  lemma StepIsSafe(s: State, a: Action)
    requires Safe(s) && Enabled(s, a)
    ensures Safe(Apply(s, a))
  {
    if a.FutexWake? {
      WakeIsSafe(s, a);
    } else {
      StepMayMove(s, a);
      MoveIsSafe(s, a.t, Apply(s, a).pcs[a.t], Apply(s, a).word);
    }
  }

  ghost predicate IsRun(run: seq<State>, acts: seq<Action>, threads: nat) {
    && |run| == |acts| + 1
    && run[0] == Initial(threads)
    && forall i :: 0 <= i < |acts| ==> Enabled(run[i], acts[i]) && run[i + 1] == Apply(run[i], acts[i])
  }

  lemma {:induction false} RunsAreSafe(run: seq<State>, acts: seq<Action>, threads: nat, i: nat)
    requires IsRun(run, acts, threads) && i <= |acts|
    ensures Safe(run[i])
  {
    if i > 0 {
      RunsAreSafe(run, acts, threads, i - 1);
      StepIsSafe(run[i - 1], acts[i - 1]);
    }
  }

  // ----- The lock as an atomic one ---------------------------------------------------------

  /** The owner, as a client that treats lock and unlock as atomic sees it. */
  function Holder(s: State): Option<nat> {
    HolderFrom(s, 0)
  }

  function HolderFrom(s: State, t: nat): (holder: Option<nat>)
    requires t <= |s.pcs|
    ensures holder.Some? ==> t <= holder.value < |s.pcs| && s.pcs[holder.value] in OWNING
    ensures holder.None? ==> forall u :: t <= u < |s.pcs| ==> s.pcs[u] !in OWNING
    decreases |s.pcs| - t
  {
    if t == |s.pcs| then None else if s.pcs[t] in OWNING then Some(t) else HolderFrom(s, t + 1)
  }

  /** The lock code refines an atomic lock: each step leaves the holder alone, or is the acting
      thread taking a free lock, or is the acting thread releasing a lock it holds. The release
      is the step after which the word is 0. */
  lemma RefinesAtomicLock(s: State, a: Action)
    requires Safe(s) && Enabled(s, a)
    ensures var before, after := Holder(s), Holder(Apply(s, a));
      || before == after
      || (before == None && after == Some(a.t) && (a.Lock? || a.TryLock? || a.ExchangeTwo?))
      || (before == Some(a.t) && after == None && (a.Decrement? || a.Store?))
    ensures Apply(s, a).word == 0 <==> Holder(Apply(s, a)) == None
  {
    StepIsSafe(s, a);
    var s' := Apply(s, a);
    var before, after := Holder(s), Holder(s');
    if before.Some? && before != Some(a.t) {
      assert s'.pcs[before.value] == s.pcs[before.value] || a.FutexWake?;
      assert s'.pcs[before.value] in OWNING;
    }
  }

  // ----- Finite workloads finish ----------------------------------------------------------

  /** A lock state in which thread `t` still has `left[t]` operations to do: the lock/unlock pair
      it is in, if any, and those to come. A failed trylock uses up one operation, also when the
      thread tries a lock that it holds itself. */
  datatype Work = Work(s: State, left: seq<nat>)

  predicate Ready(w: Work, a: Action) {
    && |w.left| == |w.s.pcs|
    && Enabled(w.s, a)
    && !a.Interrupt?
    && (a.Lock? || a.TryLock? ==> w.left[a.t] > if InVain(w, a) then 1 else 0)
  }

  /** A trylock by the holder. */
  predicate InVain(w: Work, a: Action) {
    a.TryLock? && At(w.s, a.t, Holding)
  }

  function Advance(w: Work, a: Action): Work
    requires Ready(w, a)
  {
    var s' := Apply(w.s, a);
    if (s'.pcs[a.t] == Idle && w.left[a.t] > 0) || InVain(w, a)
    then Work(s', w.left[a.t := w.left[a.t] - 1])
    else Work(s', w.left)
  }

  predicate Sound(w: Work) {
    && Safe(w.s)
    && |w.left| == |w.s.pcs|
    && forall t :: 0 <= t < |w.left| && w.s.pcs[t] != Idle ==> w.left[t] > 0
  }

  predicate Finished(w: Work) {
    forall t :: 0 <= t < |w.left| ==> w.left[t] == 0
  }

  lemma AdvanceIsSound(w: Work, a: Action)
    requires Sound(w) && Ready(w, a)
    ensures Sound(Advance(w, a))
  {
    StepIsSafe(w.s, a);
  }

  /** No state with an unfinished thread is stuck: some thread can take a step that is not a
      spurious wakeup. */
  lemma NeverStuck(w: Work) returns (a: Action)
    requires Sound(w) && !Finished(w)
    ensures Ready(w, a)
  {
    if t :| 0 <= t < |w.left| && w.s.pcs[t] !in {Idle, Asleep} {
      match w.s.pcs[t]
      case Exchange => a := ExchangeTwo(t);
      case WaitCall => a := FutexWait(t);
      case Holding => a := Decrement(t);
      case StoreZero => a := Store(t);
      case WakeOne =>
        if v: nat :| At(w.s, v, Asleep) {
          a := FutexWake(t, Some(v));
        } else {
          assert forall v: nat :: !At(w.s, v, Asleep);
          assert forall v :: 0 <= v < |w.s.pcs| && w.s.pcs[v] in {Asleep} ==> At(w.s, v, Asleep);
          a := FutexWake(t, None);
        }
    } else {
      var t :| 0 <= t < |w.left| && w.left[t] > 0;
      assert w.s.pcs[t] in {Asleep} ==> Somewhere(w.s, {Asleep});
      a := Lock(t, Plain);
    }
  }

  /** Steps that bring a thread nearer to the end of its work count most. */
  function Ahead(): ((Pc, nat)) -> int {
    (p: (Pc, nat)) =>
      5 * p.1 - (match p.0 case Holding => 1 case StoreZero => 2 case WakeOne => 3 case _ => 0)
  }

  /** Within the slow path the direction of progress depends on whether the word is 2. */
  function Climb(contended: bool): Pc -> int {
    (pc: Pc) =>
      match pc
      case Idle => 3
      case Exchange => if contended then 2 else 1
      case WaitCall => if contended then 1 else 2
      case _ => 0
  }

  function Paired(w: Work): seq<(Pc, nat)>
    requires |w.left| == |w.s.pcs|
  {
    seq(|w.left|, i requires 0 <= i < |w.left| => (w.s.pcs[i], w.left[i]))
  }

  function Scale(w: Work): nat {
    3 * |w.s.pcs| + 1
  }

  function Unit(w: Work): nat {
    2 * Scale(w)
  }

  /** What the slow path still has to climb; it restarts when the word becomes 2. */
  function Effort(w: Work): int {
    (if w.s.word == 2 then 0 else Scale(w)) + Total(w.s.pcs, Climb(w.s.word == 2))
  }

  function Measure(w: Work): int
    requires |w.left| == |w.s.pcs|
  {
    Scaled(Unit(w), Total(Paired(w), Ahead()), Effort(w))
  }

  /** What one step does to the work ahead. */
  lemma AheadAfterStep(w: Work, a: Action)
    requires Sound(w) && Ready(w, a)
    ensures var w' := Advance(w, a);
      Total(Paired(w'), Ahead()) == Total(Paired(w), Ahead())
        - Ahead()(Paired(w)[a.t]) + Ahead()(Paired(w')[a.t])
  {
    var w' := Advance(w, a);
    var moved := Paired(w)[a.t := Paired(w')[a.t]];
    TotalUpdate(Paired(w), a.t, Paired(w')[a.t], Ahead());
    if a.FutexWake? && a.victim.Some? {
      var v := a.victim.value;
      assert Paired(w') == moved[v := Paired(w')[v]];
      TotalUpdate(moved, v, Paired(w')[v], Ahead());
    } else {
      assert Paired(w') == moved;
    }
  }

  /** A step that does not shorten the work ahead is a failed lock, a failed exchange or a futex
      wait, on a word that is not free unless the wait is refused. */
  lemma StepsThatOnlyClimb(w: Work, a: Action)
    requires Sound(w) && Ready(w, a)
    ensures var x, y := Total(Paired(Advance(w, a)), Ahead()), Total(Paired(w), Ahead());
      x < y || (x == y && (a.Lock? || a.ExchangeTwo? || a.FutexWait?) && (w.s.word != 0 || a.FutexWait?))
  {
    var w' := Advance(w, a);
    AheadAfterStep(w, a);
    assert Paired(w)[a.t] == (w.s.pcs[a.t], w.left[a.t]);
    assert Paired(w')[a.t] == (w'.s.pcs[a.t], w'.left[a.t]);
  }

  lemma EffortBounds(w: Work)
    ensures 0 <= Effort(w) < Unit(w)
  {
    TotalBounds(w.s.pcs, Climb(w.s.word == 2), 0, 3);
  }

  lemma MeasureDrops(w: Work, a: Action)
    requires Sound(w) && Ready(w, a)
    ensures Measure(Advance(w, a)) < Measure(w)
  {
    var w' := Advance(w, a);
    StepsThatOnlyClimb(w, a);
    AdvanceIsSound(w, a);
    EffortBounds(w);
    EffortBounds(w');
    if Total(Paired(w'), Ahead()) < Total(Paired(w), Ahead()) {
      hide Safe, Advance, Ready, Effort, Paired, Ahead;
      Outweighs(Unit(w), Total(Paired(w'), Ahead()), Total(Paired(w), Ahead()), Effort(w'), Effort(w));
    } else {
      EffortDrops(w, a);
      hide Safe, Advance, Ready, Effort, Paired, Ahead;
    }
  }

  lemma EffortDrops(w: Work, a: Action)
    requires Sound(w) && Ready(w, a)
    requires (a.Lock? || a.ExchangeTwo? || a.FutexWait?) && (w.s.word != 0 || a.FutexWait?)
    ensures Effort(Advance(w, a)) < Effort(w)
  {
    var w' := Advance(w, a);
    TotalBounds(w.s.pcs, Climb(w.s.word == 2), 0, 3);
    TotalBounds(w'.s.pcs, Climb(w'.s.word == 2), 0, 3);
    TotalUpdate(w.s.pcs, a.t, w'.s.pcs[a.t], Climb(w.s.word == 2));
  }

  ghost predicate IsWorkRun(run: seq<Work>, acts: seq<Action>, left: seq<nat>) {
    && |run| == |acts| + 1
    && run[0] == Work(Initial(|left|), left)
    && forall i :: 0 <= i < |acts| ==> Ready(run[i], acts[i]) && run[i + 1] == Advance(run[i], acts[i])
  }

  lemma {:induction false} WorkSoFar(run: seq<Work>, acts: seq<Action>, left: seq<nat>, i: nat)
    requires IsWorkRun(run, acts, left) && i <= |acts|
    ensures Sound(run[i]) && Measure(run[i]) + i <= Measure(run[0])
  {
    if i > 0 {
      WorkSoFar(run, acts, left, i - 1);
      AdvanceIsSound(run[i - 1], acts[i - 1]);
      MeasureDrops(run[i - 1], acts[i - 1]);
    }
  }

  lemma {:induction false} AheadOfIdle(pairs: seq<(Pc, nat)>, left: seq<nat>)
    requires |pairs| == |left| && forall i :: 0 <= i < |left| ==> pairs[i] == (Idle, left[i])
    ensures Total(pairs, Ahead()) == 5 * Total(left, Itself())
  {
    if pairs != [] {
      AheadOfIdle(pairs[1..], left[1..]);
    }
  }

  /** (6n + 2)(5m + 1) for n threads with m operations in all */
  function StepBound(threads: nat, operations: nat): nat {
    (6 * threads + 2) * (5 * operations + 1)
  }

  lemma InitialMeasure(left: seq<nat>)
    requires Total(left, Itself()) >= 0
    ensures Measure(Work(Initial(|left|), left)) < StepBound(|left|, Total(left, Itself()))
  {
    var w := Work(Initial(|left|), left);
    EffortBounds(w);
    AheadOfIdle(Paired(w), left);
    BoundExceeds(Unit(w), |left|, Total(left, Itself()), Total(Paired(w), Ahead()), Effort(w));
  }

  lemma BoundExceeds(unit: nat, threads: nat, operations: nat, ahead: int, effort: nat)
    requires unit == 6 * threads + 2 && ahead == 5 * operations && effort < unit
    ensures Scaled(unit, ahead, effort) < StepBound(threads, operations)
  {
    Outweighs(unit, ahead, ahead + 1, effort, 0);
  }

  /** Every finite workload finishes: without spurious wakeups, `n` threads with `m` operations in
      all take fewer than (6n + 2)(5m + 1) steps, and a run that cannot be continued has finished
      every operation of every thread. */
  lemma EveryWorkloadFinishes(run: seq<Work>, acts: seq<Action>, left: seq<nat>)
    requires IsWorkRun(run, acts, left)
    ensures Total(left, Itself()) >= 0 && |acts| < StepBound(|left|, Total(left, Itself()))
    ensures (forall a :: !Ready(run[|acts|], a)) ==> Finished(run[|acts|])
  {
    var last := run[|acts|];
    WorkSoFar(run, acts, left, |acts|);
    TotalNonnegative(left, Itself());
    InitialMeasure(left);
    MeasureNonnegative(last);
    if forall a :: !Ready(last, a) {
      if !Finished(last) {
        var a := NeverStuck(last);
        assert false;
      }
    }
  }

  lemma MeasureNonnegative(w: Work)
    requires Sound(w)
    ensures Measure(w) >= 0
  {
    TotalNonnegative(Paired(w), Ahead());
    EffortBounds(w);
    ScaledNonnegative(Unit(w), Total(Paired(w), Ahead()), Effort(w));
  }

  // ----- The lock as the code updates it ---------------------------------------------------

  /** The lock word and the threads' positions, updated in place. Each method is one instruction or
      system call of the lock code, performed by thread `t`. */
  class LowLevelLock {
    var word: int
    var pcs: seq<Pc>

    ghost function Abs(): State
      reads this
    {
      State(word, pcs)
    }

    constructor (threads: nat)
      ensures Abs() == Initial(threads) && Safe(Abs())
    {
      word := 0;
      pcs := seq(threads, _ => Idle);
    }

    /** `cmpxchgl` with expected value 0, and the jump into the slow path when it fails. */
    method LllLock(t: nat, mark: Mark)
      requires Safe(Abs()) && Enabled(Abs(), Lock(t, mark))
      modifies this
      ensures Abs() == Apply(old(Abs()), Lock(t, mark)) && Safe(Abs())
    {
      StepIsSafe(Abs(), Lock(t, mark));
      var eax := word;
      if eax == 0 {
        word := mark.Value();
        pcs := pcs[t := Holding];
      } else if eax == 2 {
        pcs := pcs[t := WaitCall];
      } else {
        pcs := pcs[t := Exchange];
      }
    }

    method LllTrylock(t: nat, mark: Mark) returns (ret: int)
      requires Safe(Abs()) && Enabled(Abs(), TryLock(t, mark))
      modifies this
      ensures Abs() == Apply(old(Abs()), TryLock(t, mark)) && Safe(Abs())
      ensures ret == 0 <==> Holder(old(Abs())) == None
      ensures if ret == 0 then pcs[t] == Holding else Abs() == old(Abs())
    {
      StepIsSafe(Abs(), TryLock(t, mark));
      ret := word;
      if ret == 0 {
        word := mark.Value();
        pcs := pcs[t := Holding];
      }
    }

    /** `xchgl` of 2 in `__lll_lock_wait`. */
    method ExchangeWord(t: nat) returns (acquired: bool)
      requires Safe(Abs()) && Enabled(Abs(), ExchangeTwo(t))
      modifies this
      ensures Abs() == Apply(old(Abs()), ExchangeTwo(t)) && Safe(Abs())
      ensures acquired <==> Holder(old(Abs())) == None
    {
      StepIsSafe(Abs(), ExchangeTwo(t));
      var eax := word;
      word := 2;
      acquired := eax == 0;
      pcs := pcs[t := if acquired then Holding else WaitCall];
    }

    method WaitOnWord(t: nat)
      requires Safe(Abs()) && Enabled(Abs(), FutexWait(t))
      modifies this
      ensures Abs() == Apply(old(Abs()), FutexWait(t)) && Safe(Abs())
    {
      StepIsSafe(Abs(), FutexWait(t));
      pcs := pcs[t := if word == 2 then Asleep else Exchange];
    }

    /** `decl` of `lll_unlock`; a nonzero result enters `__lll_unlock_wake`. */
    method DecrementWord(t: nat)
      requires Safe(Abs()) && Enabled(Abs(), Decrement(t))
      modifies this
      ensures Abs() == Apply(old(Abs()), Decrement(t)) && Safe(Abs())
    {
      StepIsSafe(Abs(), Decrement(t));
      word := word - 1;
      pcs := pcs[t := if word == 0 then Idle else StoreZero];
    }

    method StoreWord(t: nat)
      requires Safe(Abs()) && Enabled(Abs(), Store(t))
      modifies this
      ensures Abs() == Apply(old(Abs()), Store(t)) && Safe(Abs())
    {
      StepIsSafe(Abs(), Store(t));
      word := 0;
      pcs := pcs[t := WakeOne];
    }

    /** The kernel wakes any one sleeper, if there is one. */
    method WakeOneSleeper(t: nat) returns (victim: Option<nat>)
      requires Safe(Abs()) && At(Abs(), t, WakeOne)
      modifies this
      ensures Enabled(old(Abs()), FutexWake(t, victim))
      ensures Abs() == Apply(old(Abs()), FutexWake(t, victim)) && Safe(Abs())
    {
      victim := None;
      var u := 0;
      while u < |pcs| && victim == None
        invariant 0 <= u <= |pcs|
        invariant victim == None ==> forall v :: 0 <= v < u ==> pcs[v] != Asleep
        invariant victim.Some? ==> At(Abs(), victim.value, Asleep)
      {
        if pcs[u] == Asleep {
          victim := Some(u);
        }
        u := u + 1;
      }
      StepIsSafe(Abs(), FutexWake(t, victim));
      pcs := pcs[t := Idle];
      if victim.Some? {
        pcs := pcs[victim.value := Exchange];
      }
    }
  }
}
