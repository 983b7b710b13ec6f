/** The lock word of a priority-protect mutex. Its high bits hold the ceiling, its low bits are 0
    when free, 1 when locked and 2 when locked with possible waiters.

    Each compare-and-exchange, load and futex call of `pthread_mutex_lock`, `pthread_mutex_trylock` and
    the unlock is a step. Every thread works from the ceiling it last read. */
module PPLock {
  import opened Counting

  const UNIT: nat := 0x8_0000  // 1 << PTHREAD_MUTEX_PRIO_CEILING_SHIFT

  /** `word & PTHREAD_MUTEX_PRIO_CEILING_MASK` for a nonnegative word */
  function CeilingBits(word: nat): nat {
    word - word % UNIT
  }

  function LowBits(word: nat): nat {
    word % UNIT
  }

  /** Which build or call: trylock gives up instead of waiting, the condvar build stores 2. */
  datatype Call = LockCall | CondLockCall | TryCall

  datatype Pc =
    | Idle
    | FirstCas(call: Call, ceilval: nat)  // about to exchange ceilval for ceilval | 1 (or | 2)
    | MarkCas(call: Call, ceilval: nat)   // about to exchange ceilval | 1 for ceilval | 2
    | WaitCall(call: Call, ceilval: nat)  // about to call futex wait, expecting ceilval | 2
    | Asleep(call: Call, ceilval: nat)
    | RetryCas(call: Call, ceilval: nat)  // about to exchange ceilval for ceilval | 2
    | Holding
    | UnlockRead
    | UnlockCas(oldval: nat)
    | WakeOne

  datatype State = State(word: nat, pcs: seq<Pc>)

  datatype Action =
    | Begin(t: nat, call: Call)  // the load of the word before the outer loop
    | TryOwn(t: nat)             // a trylock by the holder: its exchange fails and its ceiling fits
    | BeginUnlock(t: nat)
    | Interrupt(t: nat)
    | FutexWake(t: nat, victim: Option<nat>)
    | Step(t: nat)

  predicate Enabled(s: State, a: Action) {
    && a.t < |s.pcs|
    && var pc := s.pcs[a.t];
       match a
       case Begin(_, _) => pc == Idle
       case TryOwn(_) => pc == Holding
       case BeginUnlock(_) => pc == Holding
       case Interrupt(_) => pc.Asleep?
       case FutexWake(_, Some(v)) => pc == WakeOne && v < |s.pcs| && s.pcs[v].Asleep?
       case FutexWake(_, None) => pc == WakeOne && !Somewhere(s, Sleeper())
       case Step(_) => pc != Idle && pc != Holding && pc != WakeOne && !pc.Asleep?
  }

  function Goto(s: State, t: nat, pc: Pc): State
    requires t < |s.pcs|
  {
    s.(pcs := s.pcs[t := pc])
  }

  function Apply(s: State, a: Action): State
    requires Enabled(s, a)
  {
    match a
    case Begin(t, call) => Goto(s, t, FirstCas(call, CeilingBits(s.word)))
    case TryOwn(_) => s
    case BeginUnlock(t) => Goto(s, t, UnlockRead)
    case Interrupt(t) => Goto(s, t, RetryCas(s.pcs[t].call, s.pcs[t].ceilval))
    case FutexWake(t, Some(v)) => Goto(Goto(s, t, Idle), v, RetryCas(s.pcs[v].call, s.pcs[v].ceilval))
    case FutexWake(t, None) => Goto(s, t, Idle)
    case Step(t) => Stepped(s, t)
  }

  function Stepped(s: State, t: nat): State
    requires Enabled(s, Step(t))
  {
    match s.pcs[t]
    case FirstCas(call, c) =>
      if s.word == c then Goto(s, t, Holding).(word := c + (if call == CondLockCall then 2 else 1))
      else if call != TryCall then Goto(s, t, MarkCas(call, c))
      else if CeilingBits(s.word) != c then Goto(s, t, FirstCas(TryCall, CeilingBits(s.word)))
      else Goto(s, t, Idle)
    case MarkCas(call, c) =>
      var s' := if s.word == c + 1 then s.(word := c + 2) else s;
      if CeilingBits(s.word) != c then Goto(s', t, FirstCas(call, CeilingBits(s.word)))
      else if s.word != c then Goto(s', t, WaitCall(call, c))
      else Goto(s', t, RetryCas(call, c))
    case WaitCall(call, c) => Goto(s, t, if s.word == c + 2 then Asleep(call, c) else RetryCas(call, c))
    case RetryCas(call, c) => if s.word == c then Goto(s, t, Holding).(word := c + 2) else Goto(s, t, MarkCas(call, c))
    case UnlockRead => Goto(s, t, UnlockCas(s.word))
    case UnlockCas(oldval) =>
      if s.word != oldval then Goto(s, t, UnlockRead)
      else Goto(s, t, if LowBits(oldval) > 1 then WakeOne else Idle).(word := CeilingBits(oldval))
    case _ => s
  }

  function Owner(): Pc -> bool {
    (pc: Pc) => pc.Holding? || pc.UnlockRead? || pc.UnlockCas?
  }

  function Sleeper(): Pc -> bool {
    (pc: Pc) => pc.Asleep?
  }

  /** A thread that will either wake a sleeper or look at the word again. */
  function Helper(): Pc -> bool {
    (pc: Pc) => pc.WakeOne? || pc.MarkCas? || pc.WaitCall? || pc.RetryCas?
  }

  predicate Somewhere(s: State, p: Pc -> bool) {
    exists t :: 0 <= t < |s.pcs| && p(s.pcs[t])
  }

  predicate PcOk(s: State, ceilval: nat, pc: Pc) {
    match pc
    case FirstCas(_, c) => c == ceilval
    case MarkCas(_, c) => c == ceilval
    case WaitCall(_, c) => c == ceilval
    case Asleep(_, c) => c == ceilval
    case RetryCas(_, c) => c == ceilval
    case UnlockCas(oldval) => oldval == ceilval + 1 || oldval == ceilval + 2
    case _ => true
  }

  predicate OneOwner(s: State) {
    forall t, u :: 0 <= t < |s.pcs| && 0 <= u < |s.pcs| && Owner()(s.pcs[t]) && Owner()(s.pcs[u]) ==> t == u
  }

  predicate Safe(s: State, ceilval: nat) {
    && ceilval % UNIT == 0
    && ceilval <= s.word <= ceilval + 2
    && (s.word != ceilval <==> Somewhere(s, Owner()))
    && OneOwner(s)
    && (forall t :: 0 <= t < |s.pcs| ==> PcOk(s, ceilval, s.pcs[t]))
    && (Somewhere(s, Sleeper()) ==> s.word == ceilval + 2 || Somewhere(s, Helper()))
  }

  lemma GotoSomewhere(s: State, t: nat, pc: Pc, p: Pc -> bool)
    requires t < |s.pcs|
    ensures p(pc) ==> Somewhere(Goto(s, t, pc), p)
    ensures Somewhere(s, p) && !p(s.pcs[t]) ==> Somewhere(Goto(s, t, pc), p)
    ensures !Somewhere(s, p) && !p(pc) ==> !Somewhere(Goto(s, t, pc), p)
  {
    assert p(pc) ==> p(Goto(s, t, pc).pcs[t]);
    if Somewhere(s, p) && !p(s.pcs[t]) {
      var u :| 0 <= u < |s.pcs| && p(s.pcs[u]);
      assert p(Goto(s, t, pc).pcs[u]);
    }
  }

  lemma SplitWord(ceilval: nat, low: nat)
    requires ceilval % UNIT == 0 && low < UNIT
    ensures CeilingBits(ceilval + low) == ceilval && LowBits(ceilval + low) == low
  {
    var q := ceilval / UNIT;
    assert ceilval == q * UNIT;
    assert (ceilval + low) / UNIT == q;
  }

  /** When may thread `t` move from its position to `pc` while the word becomes `word`? */
  predicate MayMove(s: State, ceilval: nat, t: nat, pc: Pc, word: nat)
    requires t < |s.pcs|
  {
    var was := s.pcs[t];
    && ceilval <= word <= ceilval + 2
    && PcOk(s, ceilval, pc)
    && (|| (Owner()(was) == Owner()(pc) && (s.word == ceilval <==> word == ceilval))
        || (!Owner()(was) && Owner()(pc) && s.word == ceilval && word != ceilval)
        || (Owner()(was) && !Owner()(pc) && word == ceilval))
    && (|| word == ceilval + 2
        || Helper()(pc)
        || (!Helper()(was) && !Sleeper()(pc) && s.word != ceilval + 2))
  }

  lemma MoveIsSafe(s: State, ceilval: nat, t: nat, pc: Pc, word: nat)
    requires Safe(s, ceilval) && t < |s.pcs| && MayMove(s, ceilval, t, pc, word)
    ensures Safe(Goto(s, t, pc).(word := word), ceilval)
  {
    var s' := Goto(s, t, pc).(word := word);
    MoveKeepsOwners(s, ceilval, t, pc, word);
    GotoSomewhere(s, t, pc, Sleeper());
    GotoSomewhere(s, t, pc, Helper());
    assert Somewhere(s', Sleeper()) <==> Somewhere(Goto(s, t, pc), Sleeper());
    assert Somewhere(s', Helper()) <==> Somewhere(Goto(s, t, pc), Helper());
    forall u | 0 <= u < |s'.pcs| ensures PcOk(s', ceilval, s'.pcs[u]) {
      assert PcOk(s, ceilval, s.pcs[u]);
    }
  }

  lemma MoveKeepsOwners(s: State, ceilval: nat, t: nat, pc: Pc, word: nat)
    requires Safe(s, ceilval) && t < |s.pcs| && MayMove(s, ceilval, t, pc, word)
    ensures var s' := Goto(s, t, pc).(word := word);
      OneOwner(s') && (s'.word != ceilval <==> Somewhere(s', Owner()))
  {
    var s' := Goto(s, t, pc).(word := word);
    GotoSomewhere(s, t, pc, Owner());
    assert Somewhere(s', Owner()) <==> Somewhere(Goto(s, t, pc), Owner());
    assert Owner()(s.pcs[t]) ==> Somewhere(s, Owner());
    if Owner()(s.pcs[t]) && !Owner()(pc) {
      assert forall u :: 0 <= u < |s'.pcs| ==> !Owner()(s'.pcs[u]);
    }
  }

  lemma StepMayMove(s: State, ceilval: nat, t: nat)
    requires Safe(s, ceilval) && Enabled(s, Step(t))
    ensures var s' := Stepped(s, t);
      s' == Goto(s, t, s'.pcs[t]).(word := s'.word) && MayMove(s, ceilval, t, s'.pcs[t], s'.word)
  {
    assert PcOk(s, ceilval, s.pcs[t]);
    SplitWord(ceilval, s.word - ceilval);
    if s.pcs[t].UnlockCas? {
      SplitWord(ceilval, s.pcs[t].oldval - ceilval);
    }
    if Owner()(s.pcs[t]) {
      assert Somewhere(s, Owner());
    }
  }

  /** A wake that finds nobody asleep ends the unlock; one that finds a sleeper passes it on. */
  lemma WakeIsSafe(s: State, ceilval: nat, a: Action)
    requires Safe(s, ceilval) && Enabled(s, a) && a.FutexWake?
    ensures Safe(Apply(s, a), ceilval)
  {
    var s' := Apply(s, a);
    var idle := Goto(s, a.t, Idle);
    GotoSomewhere(s, a.t, Idle, Owner());
    GotoSomewhere(s, a.t, Idle, Sleeper());
    match a.victim {
      case None =>
      case Some(v) =>
        assert PcOk(s, ceilval, s.pcs[v]);
        GotoSomewhere(idle, v, s'.pcs[v], Owner());
        GotoSomewhere(idle, v, s'.pcs[v], Helper());
    }
    forall u | 0 <= u < |s'.pcs| ensures PcOk(s', ceilval, s'.pcs[u]) {
      assert PcOk(s, ceilval, s.pcs[u]);
    }
  }

  /** Every step keeps mutual exclusion, the ceiling bits, and the promise that a sleeper is woken
      or made unnecessary by an awake contender. */
  lemma StepIsSafe(s: State, ceilval: nat, a: Action)
    requires Safe(s, ceilval) && Enabled(s, a)
    ensures Safe(Apply(s, a), ceilval)
    ensures CeilingBits(Apply(s, a).word) == ceilval
  {
    var s' := Apply(s, a);
    SplitWord(ceilval, s.word - ceilval);
    assert PcOk(s, ceilval, s.pcs[a.t]);
    match a {
      case FutexWake(_, _) => WakeIsSafe(s, ceilval, a);
      case Step(t) =>
        StepMayMove(s, ceilval, t);
        MoveIsSafe(s, ceilval, t, s'.pcs[t], s'.word);
      case _ =>
        MoveIsSafe(s, ceilval, a.t, s'.pcs[a.t], s'.word);
    }
    SplitWord(ceilval, s'.word - ceilval);
  }

  ghost predicate IsRun(run: seq<State>, acts: seq<Action>, ceiling: nat, threads: nat) {
    && |run| == |acts| + 1
    && run[0] == State(ceiling * UNIT, seq(threads, _ => Idle))
    && forall i :: 0 <= i < |acts| ==> Enabled(run[i], acts[i]) && run[i + 1] == Apply(run[i], acts[i])
  }

  /** In every run of locks, trylocks, condvar locks and unlocks of a mutex with a given ceiling, at
      every point: the word still carries that ceiling, at most one thread is inside, and if some
      thread sleeps then somebody else is neither asleep nor done. */
  lemma {:induction false} RunsAreSafe(run: seq<State>, acts: seq<Action>, ceiling: nat, threads: nat, i: nat)
    requires IsRun(run, acts, ceiling, threads) && i <= |acts|
    ensures Safe(run[i], ceiling * UNIT)
    ensures CeilingBits(run[i].word) == ceiling * UNIT
    ensures Somewhere(run[i], Sleeper()) ==> Somewhere(run[i], Owner()) || Somewhere(run[i], Helper())
  {
    if i == 0 {
      assert (ceiling * UNIT) % UNIT == 0;
    } else {
      RunsAreSafe(run, acts, ceiling, threads, i - 1);
      StepIsSafe(run[i - 1], ceiling * UNIT, acts[i - 1]);
    }
  }

  // ----- The lock word as the code updates it ----------------------------------------------

  class PPMutexWord {
    var word: nat
    var pcs: seq<Pc>

    ghost function Abs(): State
      reads this
    {
      State(word, pcs)
    }

    constructor (ceiling: nat, threads: nat)
      ensures Abs() == State(ceiling * UNIT, seq(threads, _ => Idle)) && Safe(Abs(), ceiling * UNIT)
    {
      word := ceiling * UNIT;
      pcs := seq(threads, _ => Idle);
      assert (ceiling * UNIT) % UNIT == 0;
    }

    method CompareAndExchange(newval: nat, expected: nat) returns (oldval: nat)
      modifies this`word
      ensures oldval == old(word) && word == if oldval == expected then newval else oldval
    {
      oldval := word;
      if oldval == expected {
        word := newval;
      }
    }

    /** The outer loop's exchange of lock and trylock. It acquires exactly when nobody owns the mutex. When
        it does not, the word stays as it is; a lock goes on to announce itself, and a trylock is over. */
    method FirstExchange(t: nat, ghost ceilval: nat) returns (acquired: bool)
      requires Safe(Abs(), ceilval) && Enabled(Abs(), Step(t)) && pcs[t].FirstCas?
      modifies this
      ensures Abs() == Apply(old(Abs()), Step(t)) && Safe(Abs(), ceilval)
      ensures acquired <==> !Somewhere(old(Abs()), Owner())
      ensures if acquired then pcs[t] == Holding else word == old(word)
      ensures !acquired ==> if old(pcs[t]).call == TryCall then pcs[t] == Idle else pcs[t].MarkCas?
    {
      StepIsSafe(Abs(), ceilval, Step(t));
      assert PcOk(Abs(), ceilval, pcs[t]);
      SplitWord(ceilval, word - ceilval);
      var call, c := pcs[t].call, pcs[t].ceilval;
      var oldval := CompareAndExchange(c + (if call == CondLockCall then 2 else 1), c);
      acquired := oldval == c;
      if acquired {
        pcs := pcs[t := Holding];
      } else if call != TryCall {
        pcs := pcs[t := MarkCas(call, c)];
      } else {
        pcs := pcs[t := if CeilingBits(oldval) != c then FirstCas(call, CeilingBits(oldval)) else Idle];
      }
    }

    /** The inner loop's exchange, which announces a waiter to the owner, if there is one. */
    method MarkExchange(t: nat, ghost ceilval: nat)
      requires Safe(Abs(), ceilval) && Enabled(Abs(), Step(t)) && pcs[t].MarkCas?
      modifies this
      ensures Abs() == Apply(old(Abs()), Step(t)) && Safe(Abs(), ceilval)
      ensures word == if Somewhere(old(Abs()), Owner()) then ceilval + 2 else ceilval
      ensures pcs[t].WaitCall? <==> Somewhere(old(Abs()), Owner())
      ensures pcs[t].WaitCall? || pcs[t].RetryCas?
    {
      StepIsSafe(Abs(), ceilval, Step(t));
      assert PcOk(Abs(), ceilval, pcs[t]);
      SplitWord(ceilval, word - ceilval);
      var call, c := pcs[t].call, pcs[t].ceilval;
      var oldval := CompareAndExchange(c + 2, c + 1);
      if CeilingBits(oldval) != c {
        pcs := pcs[t := FirstCas(call, CeilingBits(oldval))];
      } else {
        pcs := pcs[t := if oldval != c then WaitCall(call, c) else RetryCas(call, c)];
      }
    }

    /** The inner loop's condition. */
    method RetryExchange(t: nat, ghost ceilval: nat) returns (acquired: bool)
      requires Safe(Abs(), ceilval) && Enabled(Abs(), Step(t)) && pcs[t].RetryCas?
      modifies this
      ensures Abs() == Apply(old(Abs()), Step(t)) && Safe(Abs(), ceilval)
      ensures acquired <==> !Somewhere(old(Abs()), Owner())
    {
      StepIsSafe(Abs(), ceilval, Step(t));
      assert PcOk(Abs(), ceilval, pcs[t]);
      var call, c := pcs[t].call, pcs[t].ceilval;
      var oldval := CompareAndExchange(c + 2, c);
      acquired := oldval == c;
      pcs := pcs[t := if acquired then Holding else MarkCas(call, c)];
    }

    /** The unlock's exchange, which clears the low bits. */
    method ClearExchange(t: nat, ghost ceilval: nat) returns (released: bool)
      requires Safe(Abs(), ceilval) && Enabled(Abs(), Step(t)) && pcs[t].UnlockCas?
      modifies this
      ensures Abs() == Apply(old(Abs()), Step(t)) && Safe(Abs(), ceilval)
      ensures released ==> !Somewhere(Abs(), Owner())
    {
      StepIsSafe(Abs(), ceilval, Step(t));
      assert PcOk(Abs(), ceilval, pcs[t]);
      var expected := pcs[t].oldval;
      SplitWord(ceilval, expected - ceilval);
      var oldval := CompareAndExchange(CeilingBits(expected), expected);
      released := oldval == expected;
      if released {
        pcs := pcs[t := if LowBits(expected) > 1 then WakeOne else Idle];
      } else {
        pcs := pcs[t := UnlockRead];
      }
    }
  }
}
