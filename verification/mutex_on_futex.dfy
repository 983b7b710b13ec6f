/** The mutex code running on the futex lock itself. The protocol of `MutexKinds` takes and gives up the
    lock word in one step each; here those steps are the many steps of `FutexLock`, interleaved with
    everything else. Every run of the two together is a run of `MutexKinds`, so all that is proved
    there holds of the code as it is.

    The mutex half of a step is a step of `MutexKinds` by definition, at the moments that `MovesOn`
    names. What has to be proved is that it is enabled then, so that the lock code lets the mutex code
    go on only when the atomic lock would, and that the two agree on who has the word. */
module MutexOnFutex {
  import opened Counting
  import Lock = FutexLock
  import Mutex = MutexKinds

  datatype State = State(mutex: Mutex.State, lock: Lock.State)

  /** A step of the mutex code that does not touch the word, or a step of the lock code. */
  datatype Action = Plain(a: Mutex.Action) | Word(b: Lock.Action)

  /** Positions at which the mutex code is inside the lock code. */
  predicate OnWord(pc: Mutex.Pc) {
    pc.Acquire? || pc.TryAcquire? || pc.Release?
  }

  /** The condvar build marks the word as contended, the other one does not. */
  function MarkOf(pc: Mutex.Pc): Lock.Mark {
    if pc.Acquire? && pc.cond then Lock.Contended else Lock.Plain
  }

  predicate Enabled(s: State, a: Action) {
    && |s.lock.pcs| == |s.mutex.threads|
    && match a
       case Plain(c) =>
         && Mutex.Enabled(s.mutex, c)
         && (c.Step? ==> !OnWord(s.mutex.threads[c.t].pc))
         // The unlock before has done its wake.
         && s.lock.pcs[c.t] != Lock.WakeOne
       case Word(b) =>
         && Lock.Enabled(s.lock, b)
         && var pc := s.mutex.threads[b.t].pc;
            match b
            case Lock(_, mark) => pc.Acquire? && mark == MarkOf(pc)
            case TryLock(_, mark) =>
              (pc.TryAcquire? || (pc.Acquire? && s.mutex.kind.Adaptive?)) && mark == MarkOf(pc)
            case Decrement(_) => pc.Release?
            case _ => true
  }

  /** Does the mutex code move on with this step of the lock code? When the word changes hands, and
      when a trylock is over. */
  predicate MovesOn(s: State, b: Lock.Action)
    requires Enabled(s, Word(b))
  {
    || Lock.Holder(Lock.Apply(s.lock, b)) != Lock.Holder(s.lock)
    || (b.TryLock? && s.mutex.threads[b.t].pc.TryAcquire?)
  }

  /** Where the lock code is tells where the mutex code is. */
  predicate Coupled(lock: Lock.Pc, mutex: Mutex.Pc) {
    && (lock in {Lock.Exchange, Lock.WaitCall, Lock.Asleep} ==> mutex.Acquire?)
    && (lock == Lock.StoreZero ==> mutex.Release?)
    && (lock == Lock.WakeOne ==> mutex == Mutex.Idle || mutex == Mutex.CondWaiting)
  }

  predicate Inv(s: State) {
    && |s.lock.pcs| == |s.mutex.threads|
    && Lock.Safe(s.lock)
    && Mutex.Inv(s.mutex)
    && s.mutex.holder == Lock.Holder(s.lock)
    && forall t :: 0 <= t < |s.lock.pcs| ==> Coupled(s.lock.pcs[t], s.mutex.threads[t].pc)
  }

  /** The mutex code's part of a step, if it has one. */
  function Seen(s: State, a: Action): Option<Mutex.Action>
    requires Enabled(s, a)
  {
    match a
    case Plain(c) => Some(c)
    case Word(b) => if MovesOn(s, b) then Some(Mutex.Step(b.t)) else None
  }

  lemma HolderIs(lock: Lock.State, t: nat)
    requires Lock.Safe(lock)
    ensures Lock.Holder(lock) == Some(t) <==> t < |lock.pcs| && lock.pcs[t] in Lock.OWNING
  {
  }

  /** Whenever the mutex code moves on, its protocol allows that step. */
  lemma SeenIsEnabled(s: State, a: Action)
    requires Inv(s) && Enabled(s, a)
    ensures Seen(s, a).Some? ==> Mutex.Enabled(s.mutex, Seen(s, a).value)
  {
    if a.Word? && MovesOn(s, a.b) {
      var t := a.b.t;
      Lock.RefinesAtomicLock(s.lock, a.b);
      HolderIs(s.lock, t);
      assert Coupled(s.lock.pcs[t], s.mutex.threads[t].pc);
    }
  }

  function Apply(s: State, a: Action): State
    requires Enabled(s, a)
  {
    State(if Seen(s, a).Some? && Mutex.Enabled(s.mutex, Seen(s, a).value) then Mutex.Apply(s.mutex, Seen(s, a).value)
          else s.mutex,
          if a.Word? then Lock.Apply(s.lock, a.b) else s.lock)
  }

  /** A step of the mutex code proper leaves the word's holder alone. */
  lemma PlainKeepsHolder(s: State, a: Action)
    requires Inv(s) && Enabled(s, a) && a.Plain?
    ensures Inv(Apply(s, a))
  {
    var s' := Apply(s, a);
    Mutex.StepKeepsInv(s.mutex, a.a);
    Mutex.SharedFieldsOf(s.mutex, a.a);
    assert s'.mutex.holder == s.mutex.holder;
    forall t | 0 <= t < |s'.lock.pcs| ensures Coupled(s'.lock.pcs[t], s'.mutex.threads[t].pc) {
      assert Coupled(s.lock.pcs[t], s.mutex.threads[t].pc);
    }
  }

  /** A step of the lock code hands the word over exactly when the mutex code says so. */
  lemma WordKeepsHolder(s: State, a: Action)
    requires Inv(s) && Enabled(s, a) && a.Word?
    ensures Apply(s, a).mutex.holder == Lock.Holder(Apply(s, a).lock)
  {
    var s' := Apply(s, a);
    var t := a.b.t;
    Lock.RefinesAtomicLock(s.lock, a.b);
    Lock.StepIsSafe(s.lock, a.b);
    HolderIs(s.lock, t);
    HolderIs(s'.lock, t);
    assert Coupled(s.lock.pcs[t], s.mutex.threads[t].pc);
    assert Mutex.ThreadOk(s.mutex, t, s.mutex.threads[t]);
  }

  /** How a thread gets to the positions inside the lock code, and who holds the word then. */
  lemma WordPositions(lock: Lock.State, b: Lock.Action)
    requires Lock.Safe(lock) && Lock.Enabled(lock, b)
    ensures |Lock.Apply(lock, b).pcs| == |lock.pcs|
    ensures var here, pc := lock.pcs[b.t], Lock.Apply(lock, b).pcs[b.t];
      var kept := Lock.Holder(Lock.Apply(lock, b)) == Lock.Holder(lock);
      && (pc in {Lock.Exchange, Lock.WaitCall, Lock.Asleep} ==>
           kept && (b.Lock? || here in {Lock.Exchange, Lock.WaitCall, Lock.Asleep}))
      && (pc == Lock.StoreZero ==> kept && b.Decrement?)
      && (pc == Lock.WakeOne ==> !kept && b.Store?)
  {
    Lock.RefinesAtomicLock(lock, b);
    Lock.StepIsSafe(lock, b);
    HolderIs(lock, b.t);
    HolderIs(Lock.Apply(lock, b), b.t);
    hide Lock.Safe, Lock.Holder;
  }

  lemma ActorStaysCoupled(s: State, a: Action)
    requires Inv(s) && Enabled(s, a) && a.Word?
    ensures |Apply(s, a).lock.pcs| == |Apply(s, a).mutex.threads| == |s.lock.pcs|
    ensures Coupled(Apply(s, a).lock.pcs[a.b.t], Apply(s, a).mutex.threads[a.b.t].pc)
  {
    var t := a.b.t;
    WordPositions(s.lock, a.b);
    SeenIsEnabled(s, a);
    assert Coupled(s.lock.pcs[t], s.mutex.threads[t].pc);
    hide Lock.Safe, Lock.Holder, Mutex.Inv, Lock.Apply;
  }

  /** A step of the lock code changes another thread's position only by waking it. */
  lemma OthersStayCoupled(s: State, a: Action, u: nat)
    requires Inv(s) && Enabled(s, a) && a.Word? && u < |s.lock.pcs| && u != a.b.t
    ensures |Apply(s, a).lock.pcs| == |Apply(s, a).mutex.threads| == |s.lock.pcs|
    ensures Coupled(Apply(s, a).lock.pcs[u], Apply(s, a).mutex.threads[u].pc)
  {
    SeenIsEnabled(s, a);
    assert Coupled(s.lock.pcs[u], s.mutex.threads[u].pc);
    if Seen(s, a).Some? {
      Mutex.SharedFieldsOf(s.mutex, Seen(s, a).value);
    }
    hide Mutex.Inv, Mutex.Apply, Mutex.Enabled, Lock.Safe, Lock.Holder, MovesOn;
  }

  /** Refinement: the mutex code sees a step of the lock code as a step of its own protocol or not at
      all. */
  lemma StepRefines(s: State, a: Action)
    requires Inv(s) && Enabled(s, a)
    ensures Inv(Apply(s, a))
    ensures match Seen(s, a)
      case None => Apply(s, a).mutex == s.mutex
      case Some(c) => Mutex.Enabled(s.mutex, c) && Apply(s, a).mutex == Mutex.Apply(s.mutex, c)
  {
    SeenIsEnabled(s, a);
    if a.Plain? {
      PlainKeepsHolder(s, a);
    } else {
      Lock.StepIsSafe(s.lock, a.b);
      WordKeepsHolder(s, a);
      if Seen(s, a).Some? {
        Mutex.StepKeepsInv(s.mutex, Seen(s, a).value);
      }
      ActorStaysCoupled(s, a);
      forall u | 0 <= u < |s.lock.pcs| && u != a.b.t
        ensures Coupled(Apply(s, a).lock.pcs[u], Apply(s, a).mutex.threads[u].pc)
      {
        OthersStayCoupled(s, a, u);
      }
    }
  }

  /** Nobody inside the mutex code stops but a sleeper, and a thread that locks a mutex it holds. */
  lemma ThreadCanMove(s: State, t: nat) returns (a: Action)
    requires Inv(s) && t < |s.lock.pcs|
    requires s.mutex.threads[t].pc != Mutex.Idle && s.mutex.threads[t].pc != Mutex.CondWaiting
    requires s.lock.pcs[t] != Lock.Asleep
    requires s.mutex.threads[t].pc.Acquire? ==> s.mutex.holder != Some(t)
    ensures Enabled(s, a) && if a.Plain? then a.a.t == t else a.b.t == t
  {
    var pc := s.mutex.threads[t].pc;
    HolderIs(s.lock, t);
    assert Coupled(s.lock.pcs[t], pc) && Mutex.ThreadOk(s.mutex, t, s.mutex.threads[t]);
    if !OnWord(pc) {
      a := Plain(Mutex.Step(t));
    } else if pc.TryAcquire? {
      a := Word(Lock.TryLock(t, Lock.Plain));
    } else if pc.Release? {
      a := Word(if s.lock.pcs[t] == Lock.Holding then Lock.Decrement(t) else Lock.Store(t));
    } else if s.lock.pcs[t] == Lock.Idle {
      a := Word(Lock.Lock(t, MarkOf(pc)));
    } else {
      a := Word(if s.lock.pcs[t] == Lock.Exchange then Lock.ExchangeTwo(t) else Lock.FutexWait(t));
    }
  }

  /** A trylock is answered by its one exchange, and by the lock word alone: it goes on as the holder when
      the word is free, and otherwise returns EBUSY and leaves the word as it is. */
  lemma TryLockAnswers(s: State, t: nat, mark: Lock.Mark)
    requires Inv(s) && Enabled(s, Word(Lock.TryLock(t, mark))) && s.mutex.threads[t].pc.TryAcquire?
    ensures var s' := Apply(s, Word(Lock.TryLock(t, mark)));
      var th := s'.mutex.threads[t];
      if s.lock.word == 0 then th.pc.TryOwner? && s'.mutex.holder == Some(t) && s'.lock.word == 1
      else th.pc.Idle? && th.ret == Mutex.EBUSY && s'.lock == s.lock
  {
    SeenIsEnabled(s, Word(Lock.TryLock(t, mark)));
    HeldIffNonzero(s.lock);
    hide Lock.Safe;
  }

  lemma HeldIffNonzero(lock: Lock.State)
    requires Lock.Safe(lock)
    ensures Lock.Holder(lock) == None <==> lock.word == 0
  {
  }

  /** The word after an acquisition: 2 when the condvar build takes it or the thread has waited, otherwise
      1, so that a lock and unlock without contention make no futex call. */
  lemma WordTellsBuild(s: State, b: Lock.Action)
    requires Inv(s) && Enabled(s, Word(b)) && s.mutex.holder == None
    requires Apply(s, Word(b)).mutex.holder == Some(b.t)
    ensures var pc := s.mutex.threads[b.t].pc;
      Apply(s, Word(b)).lock.word == if b.ExchangeTwo? || (pc.Acquire? && pc.cond) then 2 else 1
  {
    WordKeepsHolder(s, Word(b));
    Lock.RefinesAtomicLock(s.lock, b);
    HeldIffNonzero(s.lock);
    Lock.StepIsSafe(s.lock, b);
    HeldIffNonzero(Lock.Apply(s.lock, b));
    hide Lock.Safe, Inv;
  }

  function Initial(kind: Mutex.Kind, threads: nat): State {
    State(Mutex.Initial(kind, threads), Lock.Initial(threads))
  }

  lemma InitialInv(kind: Mutex.Kind, threads: nat)
    ensures Inv(Initial(kind, threads))
  {
    Mutex.InitialInv(kind, threads);
    assert Lock.Holder(Lock.Initial(threads)) == None;
  }

  ghost predicate IsRun(run: seq<State>, acts: seq<Action>, kind: Mutex.Kind, threads: nat) {
    && |run| == |acts| + 1
    && run[0] == Initial(kind, threads)
    && forall i :: 0 <= i < |acts| ==> Enabled(run[i], acts[i]) && run[i + 1] == Apply(run[i], acts[i])
  }

  /** The steps that the mutex code sees of the first `n`, in order. */
  ghost function Projected(run: seq<State>, acts: seq<Action>, n: nat): seq<Mutex.Action>
    requires n <= |acts| <= |run| && forall i :: 0 <= i < n ==> Enabled(run[i], acts[i])
  {
    if n == 0 then []
    else
      var before, last := Projected(run, acts, n - 1), Seen(run[n - 1], acts[n - 1]);
      if last.Some? then before + [last.value] else before
  }

  /** The first `n` steps of any run of the mutex code on the futex lock are a run of the mutex protocol
      on an atomic lock: the run of exactly the steps that the mutex code sees, in that order. The
      word's owner is the holder that the protocol speaks of. */
  lemma {:induction false} RunsRefine(run: seq<State>, acts: seq<Action>, kind: Mutex.Kind, threads: nat, n: nat)
    returns (seen: seq<Mutex.State>)
    requires IsRun(run, acts, kind, threads) && n <= |acts|
    ensures Inv(run[n]) && Mutex.IsRun(seen, Projected(run, acts, n), kind, threads)
    ensures seen[|seen| - 1] == run[n].mutex
  {
    if n == 0 {
      InitialInv(kind, threads);
      seen := [run[0].mutex];
    } else {
      hide Inv, Enabled, Apply, Seen, Mutex.Enabled, Mutex.Apply;
      seen := RunsRefine(run, acts, kind, threads, n - 1);
      StepRefines(run[n - 1], acts[n - 1]);
      if Seen(run[n - 1], acts[n - 1]).Some? {
        OneMoreStep(seen, Projected(run, acts, n - 1), kind, threads, Seen(run[n - 1], acts[n - 1]).value);
        seen := seen + [run[n].mutex];
      }
    }
  }

  lemma OneMoreStep(seen: seq<Mutex.State>, steps: seq<Mutex.Action>, kind: Mutex.Kind, threads: nat,
                    step: Mutex.Action)
    requires Mutex.IsRun(seen, steps, kind, threads) && Mutex.Enabled(seen[|seen| - 1], step)
    ensures Mutex.IsRun(seen + [Mutex.Apply(seen[|seen| - 1], step)], steps + [step], kind, threads)
  {
    hide Mutex.Enabled, Mutex.Apply;
  }

  /** Mutual exclusion and the meaning of the owner field and of the recursion count, for the code as
      it runs on the futex lock. */
  lemma CodeKeepsItsFields(run: seq<State>, acts: seq<Action>, kind: Mutex.Kind, threads: nat, t: nat, u: nat)
    requires IsRun(run, acts, kind, threads) && t < threads && u < threads
    ensures var s := run[|acts|];
      && |s.mutex.threads| == |s.lock.pcs| == threads
      && (s.mutex.threads[t].depth > 0 && s.mutex.threads[u].depth > 0 ==> t == u)
      && (s.mutex.threads[t].depth > 0 ==> s.lock.pcs[t] in Lock.OWNING && s.lock.word != 0)
      && (s.mutex.owner == Some(t) ==> s.lock.pcs[t] in Lock.OWNING)
      && (kind == Mutex.Recursive && s.mutex.threads[t].pc == Mutex.Idle && s.mutex.threads[t].depth > 0 ==>
           s.mutex.count == s.mutex.threads[t].depth)
  {
    var seen := RunsRefine(run, acts, kind, threads, |acts|);
    var steps := Projected(run, acts, |acts|);
    Mutex.ReachableFields(seen, steps, kind, threads, |steps|, t, u);
    var s := run[|acts|];
    HolderIs(s.lock, t);
    assert Mutex.ThreadOk(s.mutex, t, s.mutex.threads[t]);
  }
}
