/** Spinning on an adaptive mutex, and the failure counts that the profile takes from it: the spin
    counter stays small whatever the contention, and so does the ratio of failures to accesses. */
module AdaptiveSpin {

  import MutexKinds

  const MAX_ADAPTIVE_COUNT := 100
  const MOST_SPINS := 94

  /** Division by 8 rounds toward zero. */
  function Eighth(x: int): int {
    if x >= 0 then x / 8 else -(-x / 8)
  }

  function SpinLimit(spins: int): int {
    if MAX_ADAPTIVE_COUNT < spins * 2 + 10 then MAX_ADAPTIVE_COUNT else spins * 2 + 10
  }

  function Learned(spins: int, cnt: int): int {
    spins + Eighth(cnt - spins)
  }

  /** No contention moves the counter out of [0, 94]. */
  lemma LearnedStaysSmall(spins: int, cnt: int)
    requires 0 <= spins <= MOST_SPINS && 1 <= cnt <= MAX_ADAPTIVE_COUNT + 1
    ensures 0 <= Learned(spins, cnt) <= MOST_SPINS
  {
  }

  /** 94 is the exact bound: full contention takes the counter there from anywhere. */
  lemma {:induction false} BoundIsReached(spins: int) returns (steps: nat)
    requires 0 <= spins <= MOST_SPINS
    ensures Climbed(spins, steps) == MOST_SPINS
    decreases MOST_SPINS - spins
  {
    if spins == MOST_SPINS {
      steps := 0;
    } else {
      var next := Learned(spins, SpinLimit(spins) + 1);
      assert spins < next <= MOST_SPINS;
      steps := BoundIsReached(next);
      steps := steps + 1;
    }
  }

  /** The counter after acquisitions that each spin to the limit. */
  function Climbed(spins: int, steps: nat): int
    decreases steps
  {
    if steps == 0 then spins else Climbed(Learned(spins, SpinLimit(spins) + 1), steps - 1)
  }

  /** The counter follows the contention: it moves toward the number of rounds, by an eighth of the
      difference, and never past it. */
  lemma LearnedApproaches(spins: int, cnt: int)
    ensures spins <= cnt ==> spins <= Learned(spins, cnt) <= cnt && 8 * (Learned(spins, cnt) - spins) <= cnt - spins
    ensures spins >= cnt ==> cnt <= Learned(spins, cnt) <= spins && 8 * (spins - Learned(spins, cnt)) <= spins - cnt
    ensures Learned(spins, cnt) == spins <==> -8 < cnt - spins < 8
  {
  }

  /** The counter after acquisitions that each succeed in the first round. */
  function Calmed(spins: int, steps: nat): int
    decreases steps
  {
    if steps == 0 then spins else Calmed(Learned(spins, 1), steps - 1)
  }

  /** Without contention it comes down again, as far as eighths go: to 8 or less. */
  lemma {:induction false} CalmsDown(spins: int) returns (steps: nat)
    requires 0 <= spins <= MOST_SPINS
    ensures steps <= spins && 0 <= Calmed(spins, steps) <= 8
    decreases spins
  {
    if spins <= 8 {
      steps := 0;
    } else {
      LearnedApproaches(spins, 1);
      steps := CalmsDown(Learned(spins, 1));
      steps := steps + 1;
    }
  }

  // ----- All threads on one mutex ----------------------------------------------------------

  /** A locking thread: spinning, in the futex lock after `cnt` rounds, or holding the lock and about
      to read or to write the counter. `counts` tells the counting build from the one that
      condition variables use. */
  datatype Pc =
    | Outside
    | Spinning(cnt: nat, limit: int, counts: bool)
    | Blocked(cnt: nat)
    | Reading(cnt: nat)
    | Writing(cnt: nat, read: int)
    | Inside

  /** `failures` is `fail_count`; failed trylocks move it, too, beside their own count. */
  datatype Thread = Thread(pc: Pc, accesses: nat, failures: nat, trylockFailures: nat)

  datatype State = State(kind: MutexKinds.Kind, spins: int, threads: seq<Thread>)

  datatype Action =
    | Lock(t: nat, counts: bool, sawTwo: bool)   // enters the futex lock, or an uncontended lock
    | StartSpinning(t: nat, counts: bool)        // the first try has failed
    | Round(t: nat)                              // one round of the loop, its try failing if there is one
    | LastRound(t: nat)                          // a round whose try succeeds
    | Acquire(t: nat)                            // out of the futex lock
    | Read(t: nat)
    | Write(t: nat)
    | TryLock(t: nat, counts: bool)              // `counts` in a build with WITH_TRYLOCK
    | Refuse(t: nat)                             // a call of lock or trylock that returns without trying the word
    | Unlock(t: nat)

  predicate Owns(thread: Thread) {
    thread.pc.Reading? || thread.pc.Writing? || thread.pc.Inside?
  }

  predicate Free(s: State) {
    forall t :: 0 <= t < |s.threads| ==> !Owns(s.threads[t])
  }

  predicate Enabled(s: State, a: Action) {
    && a.t < |s.threads|
    && var pc := s.threads[a.t].pc;
       match a
       case Lock(_, _, sawTwo) => pc.Outside? && (s.kind.Adaptive? ==> !sawTwo && Free(s))
       case StartSpinning(_, _) => pc.Outside? && s.kind.Adaptive? && !Free(s)
       case Round(_) => pc.Spinning? && (pc.cnt >= pc.limit || !Free(s))
       case LastRound(_) => pc.Spinning? && pc.cnt < pc.limit && Free(s)
       case Acquire(_) => pc.Blocked? && Free(s)
       case Read(_) => pc.Reading?
       case Write(_) => pc.Writing?
       // The owner of a recursive mutex is not refused.
       case TryLock(_, _) => pc.Outside? || (pc.Inside? && !s.kind.Recursive?)
       case Refuse(_) => pc.Outside? || pc.Inside?
       case Unlock(_) => pc.Inside?
  }

  function Access(thread: Thread, counts: bool): Thread {
    if counts then thread.(accesses := thread.accesses + 1) else thread
  }

  function Fail(thread: Thread, counts: bool): Thread {
    if counts then thread.(failures := thread.failures + 1) else thread
  }

  /** `inc_trylock_fail_count` */
  function FailToTry(thread: Thread, counts: bool): Thread {
    if counts then thread.(failures := thread.failures + 1, trylockFailures := thread.trylockFailures + 1) else thread
  }

  /** What the acting thread becomes. Only the plain path of the normal and error-checking kinds
      counts a lock word that it sees at 2; every round of the loop counts a failure. */
  function Acts(s: State, a: Action): Thread
    requires Enabled(s, a)
  {
    var thread := s.threads[a.t];
    match a
    case Lock(_, counts, sawTwo) =>
      var waits := Fail(Access(thread, counts), counts && sawTwo && !s.kind.Recursive?);
      waits.(pc := if s.kind.Adaptive? then Inside else Blocked(0))
    case StartSpinning(_, counts) => Access(thread, counts).(pc := Spinning(0, SpinLimit(s.spins), counts))
    case Round(_) =>
      var Spinning(cnt, limit, counts) := thread.pc;
      Fail(thread, counts).(pc := if cnt >= limit then Blocked(cnt + 1) else Spinning(cnt + 1, limit, counts))
    case LastRound(_) => Fail(thread, thread.pc.counts).(pc := Reading(thread.pc.cnt + 1))
    case Acquire(_) => thread.(pc := if s.kind.Adaptive? then Reading(thread.pc.cnt) else Inside)
    case Read(_) => thread.(pc := Writing(thread.pc.cnt, s.spins))
    case Write(_) => thread.(pc := Inside)
    case TryLock(_, counts) =>
      if Free(s) then Access(thread, counts).(pc := Inside) else FailToTry(Access(thread, counts), counts)
    case Refuse(_) => Access(thread, true)
    case Unlock(_) => thread.(pc := Outside)
  }

  function Apply(s: State, a: Action): State
    requires Enabled(s, a)
  {
    var spins := if a.Write? then var Writing(cnt, read) := s.threads[a.t].pc; Learned(read, cnt) else s.spins;
    s.(spins := spins, threads := s.threads[a.t := Acts(s, a)])
  }

  /** Rounds so far are within the limit, which is within 100; a thread between its read and its
      write of the counter is alone there, so nothing it writes is stale. */
  ghost predicate ThreadOk(s: State, thread: Thread) {
    && match thread.pc
       case Spinning(cnt, limit, _) => 10 <= limit <= MAX_ADAPTIVE_COUNT && cnt <= limit && s.kind.Adaptive?
       case Blocked(cnt) => if s.kind.Adaptive? then 1 <= cnt <= MAX_ADAPTIVE_COUNT + 1 else cnt == 0
       case Reading(cnt) => 1 <= cnt <= MAX_ADAPTIVE_COUNT + 1 && s.kind.Adaptive?
       case Writing(cnt, read) => 1 <= cnt <= MAX_ADAPTIVE_COUNT + 1 && read == s.spins && s.kind.Adaptive?
       case _ => true
  }

  /** The failures of a thread, with those that its spinning may still add. */
  function Budget(thread: Thread): nat {
    thread.failures +
      if thread.pc.Spinning? && thread.pc.counts && thread.pc.cnt <= 101 then 101 - thread.pc.cnt else 0
  }

  function MostFailures(kind: MutexKinds.Kind): nat {
    match kind
    case Adaptive => 101
    case _ => 1
  }

  /** Calls of lock count failures on all kinds but the recursive one. */
  predicate CountsOk(s: State, thread: Thread) {
    && Budget(thread) <= MostFailures(s.kind) * thread.accesses
    && thread.trylockFailures <= thread.failures
    && (s.kind.Recursive? ==> thread.failures == thread.trylockFailures)
  }

  ghost predicate Inv(s: State) {
    && 0 <= s.spins <= MOST_SPINS
    && (forall t :: 0 <= t < |s.threads| ==> ThreadOk(s, s.threads[t]))
    && (forall t :: 0 <= t < |s.threads| ==> CountsOk(s, s.threads[t]))
    && (forall t, u :: 0 <= t < u < |s.threads| ==> !(Owns(s.threads[t]) && Owns(s.threads[u])))
  }

  lemma ActorStaysOk(s: State, a: Action)
    requires Inv(s) && Enabled(s, a)
    ensures ThreadOk(Apply(s, a), Acts(s, a)) && 0 <= Apply(s, a).spins <= MOST_SPINS
    ensures CountsOk(s, Acts(s, a))
  {
    assert ThreadOk(s, s.threads[a.t]) && CountsOk(s, s.threads[a.t]);
  }

  lemma StepKeepsInv(s: State, a: Action)
    requires Inv(s) && Enabled(s, a)
    ensures Inv(Apply(s, a))
  {
    ActorStaysOk(s, a);
  }

  ghost predicate IsRun(run: seq<State>, acts: seq<Action>) {
    && |run| == |acts| + 1
    && run[0].spins == 0
    && (forall t :: 0 <= t < |run[0].threads| ==> run[0].threads[t] == Thread(Outside, 0, 0, 0))
    && forall i :: 0 <= i < |acts| ==> Enabled(run[i], acts[i]) && run[i + 1] == Apply(run[i], acts[i])
  }

  lemma {:induction false} RunsKeepInv(run: seq<State>, acts: seq<Action>, i: nat)
    requires IsRun(run, acts) && i <= |acts|
    ensures Inv(run[i]) && run[i].kind == run[0].kind && |run[i].threads| == |run[0].threads|
  {
    if i > 0 {
      RunsKeepInv(run, acts, i - 1);
      StepKeepsInv(run[i - 1], acts[i - 1]);
    }
  }

  /** Who has the mutex, over any run: never two threads at once, and a thread has it after a step exactly if
      it had it and did not unlock, or has taken it while nobody had it: with its first try, in its last
      round, out of the futex lock or by a trylock. */
  lemma OwnersMove(run: seq<State>, acts: seq<Action>, i: nat, t: nat, u: nat)
    requires IsRun(run, acts) && i < |acts| && t < |run[0].threads| && u < |run[0].threads|
    ensures |run[i].threads| == |run[i + 1].threads| == |run[0].threads|
    ensures Owns(run[i].threads[t]) && Owns(run[i].threads[u]) ==> t == u
    ensures var s, a := run[i], acts[i];
      Owns(run[i + 1].threads[t]) <==>
        || (Owns(s.threads[t]) && a != Unlock(t))
        || (a.t == t && Free(s)
             && (a.LastRound? || a.Acquire? || a.TryLock? || (a.Lock? && s.kind.Adaptive?)))
  {
    RunsKeepInv(run, acts, i);
    assert ThreadOk(run[i], run[i].threads[t]);
  }

  /** Over any run of any threads, with counted trylocks or without, the counter stays in [0, 94], and
      a thread's failures are at most 101 times its accesses on an adaptive mutex and at most its
      accesses on the other kinds. Those on a recursive mutex are failed trylocks. */
  lemma FailuresAreBounded(run: seq<State>, acts: seq<Action>, i: nat, t: nat)
    requires IsRun(run, acts) && i <= |acts| && t < |run[0].threads|
    ensures 0 <= run[i].spins <= MOST_SPINS && |run[i].threads| == |run[0].threads|
    ensures var thread := run[i].threads[t];
      && thread.trylockFailures <= thread.failures
      && match run[0].kind
         case Adaptive => thread.failures <= 101 * thread.accesses
         case Recursive => thread.failures == thread.trylockFailures <= thread.accesses
         case _ => thread.failures <= thread.accesses
  {
    RunsKeepInv(run, acts, i);
    assert CountsOk(run[i], run[i].threads[t]);
  }

  // ----- What the counters count --------------------------------------------------------------

  /** The account that the profile is meant to give of a thread: its counted calls; the counted calls that
      met contention, each round of spinning being one; and those of them that were trylocks. */
  datatype Ledger = Ledger(calls: nat, conflicts: nat, refusals: nat)

  function Booked(l: Ledger, s: State, a: Action): Ledger
    requires Enabled(s, a)
  {
    match a
    case Lock(_, true, sawTwo) =>
      Ledger(l.calls + 1, if sawTwo && s.kind != MutexKinds.Recursive then l.conflicts + 1 else l.conflicts, l.refusals)
    case StartSpinning(_, true) => l.(calls := l.calls + 1)
    case Round(t) => if s.threads[t].pc.counts then l.(conflicts := l.conflicts + 1) else l
    case LastRound(t) => if s.threads[t].pc.counts then l.(conflicts := l.conflicts + 1) else l
    case TryLock(_, true) =>
      if exists u :: 0 <= u < |s.threads| && Owns(s.threads[u])
      then Ledger(l.calls + 1, l.conflicts + 1, l.refusals + 1)
      else l.(calls := l.calls + 1)
    case Refuse(_) => l.(calls := l.calls + 1)
    case _ => l
  }

  function Account(run: seq<State>, acts: seq<Action>, t: nat, n: nat): Ledger
    requires n <= |acts| <= |run| && forall i :: 0 <= i < n ==> Enabled(run[i], acts[i])
  {
    if n == 0 then Ledger(0, 0, 0)
    else
      var before := Account(run, acts, t, n - 1);
      if acts[n - 1].t == t then Booked(before, run[n - 1], acts[n - 1]) else before
  }

  /** The counters of every thread are exactly that account, over every run. */
  lemma {:induction false} CountersAreTheAccount(run: seq<State>, acts: seq<Action>, t: nat, n: nat)
    requires IsRun(run, acts) && n <= |acts| && t < |run[0].threads|
    ensures |run[n].threads| == |run[0].threads|
    ensures var l, thread := Account(run, acts, t, n), run[n].threads[t];
      thread.accesses == l.calls && thread.failures == l.conflicts && thread.trylockFailures == l.refusals
  {
    if n > 0 {
      CountersAreTheAccount(run, acts, t, n - 1);
    }
  }

  /** The rounds of thread `t` between two points of a run. */
  function Rounds(acts: seq<Action>, t: nat, i: nat, j: nat): nat
    requires i <= j <= |acts|
    decreases j
  {
    if i == j then 0 else Rounds(acts, t, i, j - 1) + if acts[j - 1] in {Round(t), LastRound(t)} then 1 else 0
  }

  predicate WentToSleep(acts: seq<Action>, t: nat, i: nat, j: nat) {
    exists k :: i <= k < j <= |acts| && acts[k] == Acquire(t)
  }

  /** In a contended acquisition `t` has gone as many rounds as its local counter says, up to the limit or,
      when it takes the mutex out of the futex lock, one more. */
  predicate SpunAs(pc: Pc, rounds: nat, limit: int, slept: bool) {
    match pc
    case Spinning(cnt, lim, _) => cnt == rounds <= limit == lim && !slept
    case Blocked(cnt) => cnt == rounds == limit + 1 && !slept
    case Reading(cnt) => cnt == rounds && if slept then rounds == limit + 1 else rounds <= limit
    case Writing(cnt, _) => cnt == rounds && if slept then rounds == limit + 1 else rounds <= limit
    case _ => false
  }

  /** From `StartSpinning` at step `i`, thread `t` is on its way to the mutex up to point `j`. */
  predicate Contending(run: seq<State>, acts: seq<Action>, t: nat, i: nat, j: nat) {
    && i < j <= |acts| < |run| && acts[i].StartSpinning? && acts[i].t == t
    && forall k :: i < k <= j ==> t < |run[k].threads| && run[k].threads[t].pc != Inside
  }

  /** Twice what has been learned and ten, but at most a hundred. */
  lemma SpinStarts(s: State, t: nat, counts: bool, limit: int)
    requires Enabled(s, StartSpinning(t, counts)) && Inv(s)
    requires limit <= 100 && limit <= 2 * s.spins + 10 && (limit == 100 || limit == 2 * s.spins + 10)
    ensures s.kind.Adaptive? && SpunAs(Apply(s, StartSpinning(t, counts)).threads[t].pc, 0, limit, false)
  {
  }

  lemma SpinStepGoesOn(s: State, a: Action, t: nat, rounds: nat, limit: int, slept: bool)
    requires Inv(s) && Enabled(s, a) && t < |s.threads| && s.kind.Adaptive?
    requires SpunAs(s.threads[t].pc, rounds, limit, slept)
    ensures var pc := Apply(s, a).threads[t].pc;
      || pc == Inside
      || SpunAs(pc, rounds + if a in {Round(t), LastRound(t)} then 1 else 0, limit, slept || a == Acquire(t))
  {
    assert ThreadOk(s, s.threads[t]);
  }

  lemma {:induction false} SpinsSoFar(run: seq<State>, acts: seq<Action>, t: nat, i: nat, j: nat, limit: int)
    requires IsRun(run, acts) && Contending(run, acts, t, i, j)
    requires limit <= 100 && limit <= 2 * run[i].spins + 10 && (limit == 100 || limit == 2 * run[i].spins + 10)
    ensures run[j].kind.Adaptive?
    ensures SpunAs(run[j].threads[t].pc, Rounds(acts, t, i + 1, j), limit, WentToSleep(acts, t, i + 1, j))
    decreases j
  {
    hide Inv, Apply, Enabled, SpunAs;
    RunsKeepInv(run, acts, j - 1);
    RunsKeepInv(run, acts, j);
    if j == i + 1 {
      SpinStarts(run[i], t, acts[i].counts, limit);
    } else {
      SpinsSoFar(run, acts, t, i, j - 1, limit);
      SpinStepGoesOn(run[j - 1], acts[j - 1], t, Rounds(acts, t, i + 1, j - 1), limit,
                     WentToSleep(acts, t, i + 1, j - 1));
    }
  }

  lemma WriteLearns(s: State, a: Action, t: nat, rounds: nat, limit: int, slept: bool)
    requires Inv(s) && Enabled(s, a) && t < |s.threads| && SpunAs(s.threads[t].pc, rounds, limit, slept)
    requires Apply(s, a).threads[t].pc == Inside && s.kind.Adaptive?
    ensures a == Write(t) && 1 <= rounds && Apply(s, a).spins == Learned(s.spins, rounds)
    ensures if slept then rounds == limit + 1 else rounds <= limit
  {
    assert ThreadOk(s, s.threads[t]);
  }

  /** A contended acquisition of an adaptive mutex, from the first failed try to the mutex. Its limit is
      twice the counter and ten, but at most a hundred: up to there some round's try succeeds, and one
      round later the thread goes to the futex lock. At the end the counter, which nobody has changed
      since it was read, learns exactly the number of rounds. */
  lemma ContendedAcquisitionLearns(run: seq<State>, acts: seq<Action>, t: nat, i: nat, j: nat, limit: int)
    requires IsRun(run, acts) && Contending(run, acts, t, i, j) && j < |acts|
    requires t < |run[j + 1].threads| && run[j + 1].threads[t].pc == Inside
    requires limit <= 100 && limit <= 2 * run[i].spins + 10 && (limit == 100 || limit == 2 * run[i].spins + 10)
    ensures var rounds := Rounds(acts, t, i + 1, j);
      && 1 <= rounds && run[j + 1].spins == Learned(run[j].spins, rounds)
      && if WentToSleep(acts, t, i + 1, j) then rounds == limit + 1 else rounds <= limit
  {
    hide Inv, Apply, Enabled, SpunAs, Learned, WentToSleep;
    RunsKeepInv(run, acts, j);
    SpinsSoFar(run, acts, t, i, j, limit);
    WriteLearns(run[j], acts[j], t, Rounds(acts, t, i + 1, j), limit, WentToSleep(acts, t, i + 1, j));
  }

  // ----- The loop as the code runs it ------------------------------------------------------

  class SpinningMutex {
    var spins: int
    var failures: nat

    constructor ()
      ensures spins == 0 && failures == 0
    {
      spins, failures := 0, 0;
    }

    /** A contended acquisition; `tries` says which further tries of the lock succeed. It spins until
        one does or the limit is reached, and in the counting build counts each round. */
    method LockContended(tries: nat -> bool, counts: bool) returns (cnt: nat)
      requires 0 <= spins <= MOST_SPINS
      modifies this
      ensures 1 <= cnt <= SpinLimit(old(spins)) + 1 <= MAX_ADAPTIVE_COUNT + 1
      ensures forall k :: 1 <= k < cnt ==> !tries(k)
      ensures tries(cnt) || cnt == SpinLimit(old(spins)) + 1
      ensures failures == old(failures) + if counts then cnt else 0
      ensures spins == Learned(old(spins), cnt) && 0 <= spins <= MOST_SPINS
    {
      cnt := 0;
      var maxCnt := if MAX_ADAPTIVE_COUNT < spins * 2 + 10 then MAX_ADAPTIVE_COUNT else spins * 2 + 10;
      while true
        invariant cnt <= maxCnt && spins == old(spins)
        invariant forall k :: 1 <= k <= cnt ==> !tries(k)
        invariant failures == old(failures) + if counts then cnt else 0
        decreases maxCnt - cnt
      {
        if counts {
          failures := failures + 1;
        }
        cnt := cnt + 1;
        if cnt - 1 >= maxCnt {
          break;
        }
        if tries(cnt) {
          break;
        }
      }
      var change := cnt - spins;
      spins := spins + if change >= 0 then change / 8 else -(-change / 8);
    }
  }
}
