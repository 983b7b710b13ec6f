/** The condition variable protocol of `pthread_cond_wait` and its cancellation handler: sequence
    counters, a futex word and a count of waiters.

    Each region between `lll_lock` and `lll_unlock` on the condvar's own lock is one step, which
    `CondOnFutex.RunsRefine` justifies. The futex wait, the futex wake-all of the cancellation handler
    and the delivery of a cancellation are steps of their own. Signal and broadcast belong to the
    environment. */
module CondVar {
  import opened Counting

  /** Where a waiter stands outside the condvar lock. */
  datatype Phase =
    | BeforeWait  // has read the futex word and released the lock, about to call futex wait
    | Asleep      // inside futex wait
    | AfterWait   // futex wait returned, about to take the lock again
    | Cancelling  // cancelled, about to run the cleanup handler

  datatype Local =
    | Outside
    | Waiting(seen: nat, epoch: nat, futexVal: nat, phase: Phase)
    | WakingAll   // the handler released the lock and still has to wake everybody

  /** History of the run, kept beside the counters of the source. The departures are the `seen`
      values of the waiters that advanced `woken` since the last broadcast, in order. */
  datatype Log = Log(sent: nat, returned: nat, absorbedByBroadcast: nat, absorbedByCancel: nat,
                     base: nat, departures: seq<nat>)

  datatype State = State(total: nat, wakeup: nat, woken: nat, broadcasts: nat, futex: nat, nwaiters: nat,
                         locals: seq<Local>, log: Log)

  datatype Action =
    | BeginWait(t: nat, unlockError: int)
    | FutexWait(t: nat)
    | Interrupt(t: nat)  // a spurious return of futex wait
    | Recheck(t: nat)
    | Cancel(t: nat)
    | Cleanup(t: nat)
    | WakeAll(t: nat)
    | Signal(victim: Option<nat>)
    | Broadcast

  const ONE_WAITER: nat := 2  // 1 << COND_NWAITERS_SHIFT

  predicate InPhase(s: State, t: nat, phase: Phase) {
    t < |s.locals| && s.locals[t].Waiting? && s.locals[t].phase == phase
  }

  predicate Enabled(s: State, a: Action) {
    match a
    case BeginWait(t, _) => t < |s.locals| && s.locals[t] == Outside
    case FutexWait(t) => InPhase(s, t, BeforeWait)
    case Interrupt(t) => InPhase(s, t, Asleep)
    case Recheck(t) => InPhase(s, t, AfterWait)
    case Cancel(t) => t < |s.locals| && s.locals[t].Waiting? && s.locals[t].phase != Cancelling
    case Cleanup(t) => InPhase(s, t, Cancelling)
    case WakeAll(t) => t < |s.locals| && s.locals[t] == WakingAll
    case Signal(Some(v)) => s.total > s.wakeup && InPhase(s, v, Asleep)
    case Signal(None) => s.total > s.wakeup ==> forall v :: 0 <= v < |s.locals| ==> !InPhase(s, v, Asleep)
    case Broadcast => true
  }

  function Become(s: State, t: nat, w: Local): State
    requires t < |s.locals|
  {
    s.(locals := s.locals[t := w])
  }

  function Enter(s: State, t: nat, phase: Phase): State
    requires t < |s.locals| && s.locals[t].Waiting?
  {
    Become(s, t, s.locals[t].(phase := phase))
  }

  function Awakened(locals: seq<Local>): (r: seq<Local>)
    ensures |r| == |locals|
    ensures forall i :: 0 <= i < |r| ==>
      r[i] == if locals[i].Waiting? && locals[i].phase == Asleep then locals[i].(phase := AfterWait) else locals[i]
  {
    seq(|locals|, i requires 0 <= i < |locals| =>
      if locals[i].Waiting? && locals[i].phase == Asleep then locals[i].(phase := AfterWait) else locals[i])
  }

  function Minus(x: nat, y: nat): nat {
    if x < y then 0 else x - y
  }

  /** A current-epoch waiter advances `woken` and is recorded as departed. */
  function Depart(s: State, seen: nat): State {
    s.(woken := s.woken + 1, log := s.log.(departures := s.log.departures + [seen]))
  }

  function Apply(s: State, a: Action): State
    requires Enabled(s, a)
  {
    match a
    case BeginWait(t, unlockError) =>
      if unlockError != 0 then s
      else Become(s.(total := s.total + 1, futex := s.futex + 1, nwaiters := s.nwaiters + ONE_WAITER), t,
                  Waiting(s.wakeup, s.broadcasts, s.futex + 1, BeforeWait))
    case FutexWait(t) => Enter(s, t, if s.futex == s.locals[t].futexVal then Asleep else AfterWait)
    case Interrupt(t) => Enter(s, t, AfterWait)
    case Recheck(t) => Rechecked(s, t)
    case Cancel(t) => Enter(s, t, Cancelling)
    case Cleanup(t) =>
      var w := s.locals[t];
      var s' := if w.epoch == s.broadcasts then CancelledCurrent(s, w.seen) else s;
      Become(s'.(nwaiters := Minus(s.nwaiters, ONE_WAITER)), t, WakingAll)
    case WakeAll(t) => s.(locals := Awakened(s.locals)[t := Outside])
    case Signal(victim) =>
      if s.total <= s.wakeup then s else
      var s' := s.(wakeup := s.wakeup + 1, futex := s.futex + 1, log := s.log.(sent := s.log.sent + 1));
      if victim.Some? then Enter(s', victim.value, AfterWait) else s'
    case Broadcast =>
      if s.total <= s.wakeup then s else
      s.(wakeup := s.total, woken := s.total, futex := 2 * s.total, broadcasts := s.broadcasts + 1,
         locals := Awakened(s.locals),
         log := s.log.(absorbedByBroadcast := s.log.absorbedByBroadcast + Minus(s.wakeup, s.woken),
                       base := s.total, departures := []))
  }

  /** The region after futex wait: leave because of a broadcast, wait again, or consume a signal. */
  function Rechecked(s: State, t: nat): State
    requires InPhase(s, t, AfterWait)
  {
    var w := s.locals[t];
    if w.epoch != s.broadcasts then
      Become(s.(nwaiters := Minus(s.nwaiters, ONE_WAITER)), t, Outside)
    else if s.wakeup == w.seen || s.woken == s.wakeup then
      Become(s, t, w.(futexVal := s.futex, phase := BeforeWait))
    else
      var s' := Depart(s, w.seen);
      Become(s'.(nwaiters := Minus(s.nwaiters, ONE_WAITER), log := s'.log.(returned := s.log.returned + 1)), t, Outside)
  }

  /** The handler's counter update for a waiter of the current epoch. */
  function CancelledCurrent(s: State, seen: nat): State {
    var s' := Depart(s, seen);
    if s.wakeup < s.total
    then s'.(wakeup := s.wakeup + 1, futex := s.futex + 1)
    else s'.(log := s'.log.(absorbedByCancel := s.log.absorbedByCancel + 1))
  }

  function Initial(threads: nat, clock: nat): State
    requires clock < ONE_WAITER
  {
    State(0, 0, 0, 0, 0, clock, seq(threads, _ => Outside), Log(0, 0, 0, 0, 0, []))
  }

  // ----- Who is counted -------------------------------------------------------------------

  function AnyWaiter(): Local -> bool {
    (w: Local) => w.Waiting?
  }

  function Current(epoch: nat): Local -> bool {
    (w: Local) => w.Waiting? && w.epoch == epoch
  }

  /** Waiters of the epoch that began before wakeup number `k`. */
  function Before(epoch: nat, k: nat): Local -> bool {
    (w: Local) => w.Waiting? && w.epoch == epoch && w.seen < k
  }

  /** Those among them that will look at the counters again without being woken. */
  function Responsive(epoch: nat, k: nat): Local -> bool {
    (w: Local) => w.Waiting? && w.epoch == epoch && w.seen < k && w.phase != Asleep
  }

  // ----- The invariant --------------------------------------------------------------------

  predicate Counters(s: State) {
    s.woken <= s.wakeup <= s.total && s.futex == s.total + s.wakeup
  }

  predicate WaitersCounted(s: State) {
    && Count(s.locals, Current(s.broadcasts)) == s.total - s.woken
    && s.nwaiters / ONE_WAITER == Count(s.locals, AnyWaiter())
  }

  /** For each wakeup number `k`, enough waiters that began before `k` remain to consume the
      wakeups up to `k` that are still outstanding. */
  predicate OutstandingMatched(s: State) {
    forall k: nat :: k <= s.wakeup ==> Count(s.locals, Before(s.broadcasts, k)) >= k - s.woken
  }

  predicate WaiterOk(s: State, w: Local) {
    w.Waiting? ==>
      && w.epoch <= s.broadcasts
      && w.futexVal <= s.futex
      && (w.epoch == s.broadcasts ==> s.log.base <= w.seen <= s.wakeup)
      && (w.phase == Asleep ==> w.epoch == s.broadcasts)
      && (w.phase == BeforeWait && w.futexVal == s.futex ==>
           w.epoch == s.broadcasts && (w.seen == s.wakeup || s.woken == s.wakeup))
  }

  predicate WaitersOk(s: State) {
    forall t :: 0 <= t < |s.locals| ==> WaiterOk(s, s.locals[t])
  }

  predicate WakeAllPending(s: State) {
    exists t :: 0 <= t < |s.locals| && s.locals[t] == WakingAll
  }

  predicate NoSignalLost(s: State) {
    Count(s.locals, Responsive(s.broadcasts, s.wakeup)) >= s.wakeup - s.woken || WakeAllPending(s)
  }

  /** Every effective signal is accounted for exactly once. */
  predicate LedgerBalanced(s: State) {
    && s.log.sent == s.log.returned + s.log.absorbedByBroadcast + s.log.absorbedByCancel + s.wakeup - s.woken
    && |s.log.departures| == s.woken - s.log.base
    && s.log.base <= s.woken
    && forall i :: 0 <= i < |s.log.departures| ==> s.log.base <= s.log.departures[i] < s.wakeup
  }

  predicate Inv(s: State) {
    Counters(s) && WaitersCounted(s) && OutstandingMatched(s) && WaitersOk(s) && NoSignalLost(s) && LedgerBalanced(s)
  }

  // ----- One lemma for each kind of step --------------------------------------------------

  /** How the counted sets change when one thread's local state does. */
  lemma CountsAfter(xs: seq<Local>, t: nat, w: Local, epoch: nat, bound: nat)
    requires t < |xs|
    ensures Count(xs[t := w], AnyWaiter()) == Count(xs, AnyWaiter()) + Delta(xs[t], w, AnyWaiter())
    ensures Count(xs[t := w], Current(epoch)) == Count(xs, Current(epoch)) + Delta(xs[t], w, Current(epoch))
    ensures Count(xs[t := w], Responsive(epoch, bound)) ==
            Count(xs, Responsive(epoch, bound)) + Delta(xs[t], w, Responsive(epoch, bound))
  {
    CountUpdate(xs, t, w, AnyWaiter());
    CountUpdate(xs, t, w, Current(epoch));
    CountUpdate(xs, t, w, Responsive(epoch, bound));
  }

  /** Outstanding wakeups stay matched when one thread's local state changes: no waiter of the epoch
      may vanish without consuming a wakeup, and a new wakeup must leave enough waiters. */
  lemma MatchedAfter(s: State, s': State, t: nat, w: Local)
    requires OutstandingMatched(s) && t < |s.locals| && s'.locals == s.locals[t := w] && s'.broadcasts == s.broadcasts
    requires s'.woken == s.woken || s'.woken == s.woken + 1
    requires s'.wakeup == s.wakeup ||
      (s'.wakeup == s.wakeup + 1 && Count(s'.locals, Before(s.broadcasts, s'.wakeup)) >= s'.wakeup - s'.woken)
    requires s'.woken == s.woken ==>
      forall k: nat :: k <= s.wakeup ==> Delta(s.locals[t], w, Before(s.broadcasts, k)) >= 0
    ensures OutstandingMatched(s')
  {
    forall k: nat | k <= s.wakeup ensures Count(s'.locals, Before(s.broadcasts, k)) >= k - s'.woken {
      CountUpdate(s.locals, t, w, Before(s.broadcasts, k));
    }
  }

  /** Raising the bound can only add waiters; above every `seen` value all of the epoch count. */
  lemma CountsGrow(s: State)
    requires WaitersOk(s)
    ensures Count(s.locals, Before(s.broadcasts, s.wakeup + 1)) == Count(s.locals, Current(s.broadcasts))
    ensures Count(s.locals, Responsive(s.broadcasts, s.wakeup)) <=
      Count(s.locals, Responsive(s.broadcasts, s.wakeup + 1))
  {
    forall i | 0 <= i < |s.locals|
      ensures Before(s.broadcasts, s.wakeup + 1)(s.locals[i]) == Current(s.broadcasts)(s.locals[i])
    {
      assert WaiterOk(s, s.locals[i]);
    }
    CountAgree(s.locals, Before(s.broadcasts, s.wakeup + 1), s.locals, Current(s.broadcasts));
    CountMonotone(s.locals, Responsive(s.broadcasts, s.wakeup), s.locals, Responsive(s.broadcasts, s.wakeup + 1));
  }

  lemma PendingStays(s: State, s': State, t: nat)
    requires |s'.locals| == |s.locals|
    requires forall u :: 0 <= u < |s.locals| && u != t && s.locals[u] == WakingAll ==> s'.locals[u] == WakingAll
    requires t < |s.locals| && s.locals[t] != WakingAll
    ensures WakeAllPending(s) ==> WakeAllPending(s')
  {
    if WakeAllPending(s) {
      var u :| 0 <= u < |s.locals| && s.locals[u] == WakingAll;
      assert s'.locals[u] == WakingAll;
    }
  }

  /** The three counting conditions of the invariant. */
  predicate CountsOk(s: State) {
    WaitersCounted(s) && OutstandingMatched(s) && NoSignalLost(s)
  }

  lemma BeginWaitCounts(s: State, a: Action)
    requires Inv(s) && Enabled(s, a) && a.BeginWait?
    ensures CountsOk(Apply(s, a))
  {
    var s' := Apply(s, a);
    if a.unlockError == 0 {
      CountsAfter(s.locals, a.t, s'.locals[a.t], s.broadcasts, s.wakeup);
      MatchedAfter(s, s', a.t, s'.locals[a.t]);
      PendingStays(s, s', a.t);
    }
  }

  lemma MoveCounts(s: State, a: Action)
    requires Inv(s) && Enabled(s, a) && (a.FutexWait? || a.Interrupt? || a.Cancel?)
    ensures CountsOk(Apply(s, a))
  {
    var s' := Apply(s, a);
    assert WaiterOk(s, s.locals[a.t]);
    CountsAfter(s.locals, a.t, s'.locals[a.t], s.broadcasts, s.wakeup);
    MatchedAfter(s, s', a.t, s'.locals[a.t]);
    PendingStays(s, s', a.t);
  }

  lemma RecheckCounts(s: State, a: Action)
    requires Inv(s) && Enabled(s, a) && a.Recheck?
    ensures CountsOk(Apply(s, a))
  {
    var s' := Apply(s, a);
    assert WaiterOk(s, s.locals[a.t]);
    CountsAfter(s.locals, a.t, s'.locals[a.t], s.broadcasts, s.wakeup);
    MatchedAfter(s, s', a.t, s'.locals[a.t]);
    PendingStays(s, s', a.t);
  }

  /** When every wakeup the waiters can get has been sent, no waiter of the epoch began after the
      last one: at most `total - wakeup` of them have saved the current wakeup number. */
  lemma SeenBelowWakeup(s: State, t: nat)
    requires Counters(s) && WaitersCounted(s) && OutstandingMatched(s)
    requires t < |s.locals| && Current(s.broadcasts)(s.locals[t]) && s.wakeup == s.total
    ensures s.locals[t].seen < s.wakeup
  {
    var b, k := s.broadcasts, s.wakeup;
    var rest := s.locals[t := Outside];
    CountUpdate(s.locals, t, Outside, Current(b));
    CountUpdate(s.locals, t, Outside, Before(b, k));
    CountMonotone(rest, Before(b, k), rest, Current(b));
  }

  lemma CleanupCounts(s: State, a: Action)
    requires Inv(s) && Enabled(s, a) && a.Cleanup?
    ensures CountsOk(Apply(s, a))
  {
    var s' := Apply(s, a);
    assert WaiterOk(s, s.locals[a.t]);
    assert s'.locals[a.t] == WakingAll;
    CountsAfter(s.locals, a.t, WakingAll, s.broadcasts, s.wakeup);
    CountsGrow(s);
    CountUpdate(s.locals, a.t, WakingAll, Before(s.broadcasts, s.wakeup + 1));
    MatchedAfter(s, s', a.t, WakingAll);
  }

  /** A signal that finds a sleeper turns it into a waiter that will look again. */
  lemma SignalSleeperCounts(s: State, v: nat)
    requires Inv(s) && Enabled(s, Signal(Some(v)))
    ensures CountsOk(Apply(s, Signal(Some(v))))
  {
    var s' := Apply(s, Signal(Some(v)));
    assert WaiterOk(s, s.locals[v]);
    CountsGrow(s);
    CountsAfter(s.locals, v, s'.locals[v], s.broadcasts, s.wakeup + 1);
    CountUpdate(s.locals, v, s'.locals[v], Before(s.broadcasts, s.wakeup + 1));
    MatchedAfter(s, s', v, s'.locals[v]);
    PendingStays(s, s', v);
  }

  /** A signal that finds no sleeper leaves every waiter of the epoch awake. */
  lemma SignalNobodyCounts(s: State)
    requires Inv(s) && Enabled(s, Signal(None))
    ensures CountsOk(Apply(s, Signal(None)))
  {
    if s.total > s.wakeup {
      CountsGrow(s);
      forall i | 0 <= i < |s.locals|
        ensures Responsive(s.broadcasts, s.wakeup + 1)(s.locals[i]) == Current(s.broadcasts)(s.locals[i])
      {
        assert WaiterOk(s, s.locals[i]) && !InPhase(s, i, Asleep);
      }
      CountAgree(s.locals, Responsive(s.broadcasts, s.wakeup + 1), s.locals, Current(s.broadcasts));
    }
  }

  lemma BroadcastCounts(s: State)
    requires Inv(s)
    ensures CountsOk(Apply(s, Broadcast))
  {
    var s' := Apply(s, Broadcast);
    if s.total > s.wakeup {
      forall u | 0 <= u < |s'.locals| ensures !Current(s'.broadcasts)(s'.locals[u]) {
        assert WaiterOk(s, s.locals[u]);
      }
      CountZero(s'.locals, Current(s'.broadcasts));
      CountAgree(s.locals, AnyWaiter(), s'.locals, AnyWaiter());
    }
  }

  lemma WakeAllCounts(s: State, a: Action)
    requires Inv(s) && Enabled(s, a) && a.WakeAll?
    ensures CountsOk(Apply(s, a))
  {
    var s' := Apply(s, a);
    CountAgree(s.locals, AnyWaiter(), s'.locals, AnyWaiter());
    CountAgree(s.locals, Current(s.broadcasts), s'.locals, Current(s.broadcasts));
    forall k: nat ensures Count(s'.locals, Before(s.broadcasts, k)) == Count(s.locals, Before(s.broadcasts, k)) {
      CountAgree(s.locals, Before(s.broadcasts, k), s'.locals, Before(s.broadcasts, k));
    }
    CountAgree(s'.locals, Responsive(s.broadcasts, s.wakeup), s.locals, Before(s.broadcasts, s.wakeup));
  }

  lemma StepKeepsCounts(s: State, a: Action)
    requires Inv(s) && Enabled(s, a)
    ensures CountsOk(Apply(s, a))
  {
    hide Apply, Inv, CountsOk;
    match a
    case BeginWait(_, _) => BeginWaitCounts(s, a);
    case Recheck(_) => RecheckCounts(s, a);
    case Cleanup(_) => CleanupCounts(s, a);
    case Signal(Some(v)) => SignalSleeperCounts(s, v);
    case Signal(None) => SignalNobodyCounts(s);
    case Broadcast => BroadcastCounts(s);
    case WakeAll(_) => WakeAllCounts(s, a);
    case _ => MoveCounts(s, a);
  }

  /** A current waiter means that some begun wait is still unfinished. */
  lemma SomeoneCurrent(s: State, t: nat)
    requires WaitersCounted(s) && t < |s.locals| && Current(s.broadcasts)(s.locals[t])
    ensures s.woken < s.total
  {
    CountZero(s.locals, Current(s.broadcasts));
  }

  lemma CleanupKeepsWaiters(s: State, a: Action)
    requires Inv(s) && Enabled(s, a) && a.Cleanup?
    ensures WaitersOk(Apply(s, a))
  {
    var s' := Apply(s, a);
    if s.locals[a.t].epoch == s.broadcasts {
      SomeoneCurrent(s, a.t);
    }
    hide WaitersCounted, OutstandingMatched, NoSignalLost, LedgerBalanced;
    forall u | 0 <= u < |s'.locals| ensures WaiterOk(s', s'.locals[u]) {
      assert WaiterOk(s, s.locals[u]);
    }
  }

  /** Steps by which a thread begins, goes to sleep, is interrupted or cancelled, or looks again. */
  lemma OwnStepKeepsWaiters(s: State, a: Action)
    requires Inv(s) && Enabled(s, a) && (a.BeginWait? || a.FutexWait? || a.Interrupt? || a.Cancel? || a.Recheck?)
    ensures WaitersOk(Apply(s, a))
  {
    var s' := Apply(s, a);
    hide WaitersCounted, OutstandingMatched, NoSignalLost, LedgerBalanced;
    forall u | 0 <= u < |s'.locals| ensures WaiterOk(s', s'.locals[u]) {
      assert WaiterOk(s, s.locals[u]);
    }
  }

  lemma WakingStepKeepsWaiters(s: State, a: Action)
    requires Inv(s) && Enabled(s, a) && (a.WakeAll? || a.Signal? || a.Broadcast?)
    ensures WaitersOk(Apply(s, a))
  {
    var s' := Apply(s, a);
    hide WaitersCounted, OutstandingMatched, NoSignalLost, LedgerBalanced;
    forall u | 0 <= u < |s'.locals| ensures WaiterOk(s', s'.locals[u]) {
      assert WaiterOk(s, s.locals[u]);
    }
  }

  lemma StepKeepsWaiters(s: State, a: Action)
    requires Inv(s) && Enabled(s, a)
    ensures WaitersOk(Apply(s, a))
  {
    hide Apply, Inv, Enabled, WaitersOk;
    if a.Cleanup? {
      CleanupKeepsWaiters(s, a);
    } else if a.WakeAll? || a.Signal? || a.Broadcast? {
      WakingStepKeepsWaiters(s, a);
    } else {
      OwnStepKeepsWaiters(s, a);
    }
  }

  lemma StepKeepsLedger(s: State, a: Action)
    requires Inv(s) && Enabled(s, a)
    ensures Counters(Apply(s, a)) && LedgerBalanced(Apply(s, a))
  {
    if a.Recheck? || a.Cleanup? {
      assert WaiterOk(s, s.locals[a.t]);
      if s.locals[a.t].epoch == s.broadcasts {
        SomeoneCurrent(s, a.t);
        if s.wakeup == s.total {
          SeenBelowWakeup(s, a.t);
        }
      }
    }
    hide WaitersCounted, OutstandingMatched, NoSignalLost, WaitersOk;
  }

  lemma StepKeepsInv(s: State, a: Action)
    requires Inv(s) && Enabled(s, a)
    ensures Inv(Apply(s, a))
  {
    hide Apply;
    StepKeepsCounts(s, a);
    StepKeepsWaiters(s, a);
    StepKeepsLedger(s, a);
  }

  ghost predicate IsRun(run: seq<State>, acts: seq<Action>, start: State) {
    && |run| == |acts| + 1
    && run[0] == start
    && forall i :: 0 <= i < |acts| ==> Enabled(run[i], acts[i]) && run[i + 1] == Apply(run[i], acts[i])
  }

  lemma {:induction false} RunsKeepInv(run: seq<State>, acts: seq<Action>, start: State, i: nat)
    requires IsRun(run, acts, start) && Inv(start) && i <= |acts|
    ensures Inv(run[i])
  {
    if i > 0 {
      RunsKeepInv(run, acts, start, i - 1);
      StepKeepsInv(run[i - 1], acts[i - 1]);
    }
  }

  lemma InitialInv(threads: nat, clock: nat)
    requires clock < ONE_WAITER
    ensures Inv(Initial(threads, clock))
  {
    var s := Initial(threads, clock);
    CountZero(s.locals, AnyWaiter());
    CountZero(s.locals, Current(0));
  }

  /** Waiters of the epoch that began after the last wakeup. */
  function Unsignalled(epoch: nat, k: nat): Local -> bool {
    (w: Local) => w.Waiting? && w.epoch == epoch && w.seen == k
  }

  lemma UnsignalledFew(s: State)
    requires Inv(s)
    ensures Count(s.locals, Unsignalled(s.broadcasts, s.wakeup)) <= s.total - s.wakeup
  {
    var b, k := s.broadcasts, s.wakeup;
    forall i | 0 <= i < |s.locals|
      ensures Current(b)(s.locals[i]) <==> Before(b, k)(s.locals[i]) || Unsignalled(b, k)(s.locals[i])
    {
      assert WaiterOk(s, s.locals[i]);
    }
    CountSplit(s.locals, Current(b), Before(b, k), Unsignalled(b, k));
  }

  /** The counting facts that hold in every reachable state of any number of threads, under waits,
      cancellations, signals, broadcasts and spurious wakeups. */
  lemma ReachableStatesCount(run: seq<State>, acts: seq<Action>, threads: nat, clock: nat, i: nat)
    requires clock < ONE_WAITER && IsRun(run, acts, Initial(threads, clock)) && i <= |acts|
    ensures var s := run[i];
      && s.woken <= s.wakeup <= s.total
      && s.futex == s.total + s.wakeup
      && Count(s.locals, Current(s.broadcasts)) == s.total - s.woken
      && s.nwaiters / ONE_WAITER == Count(s.locals, AnyWaiter())
      && Count(s.locals, Unsignalled(s.broadcasts, s.wakeup)) <= s.total - s.wakeup
      && (Count(s.locals, Responsive(s.broadcasts, s.wakeup)) >= s.wakeup - s.woken || WakeAllPending(s))
  {
    InitialInv(threads, clock);
    RunsKeepInv(run, acts, Initial(threads, clock), i);
    UnsignalledFew(run[i]);
  }

  // ----- The futex compare -------------------------------------------------------------------

  /** The step at which a thread reads the futex word that its next futex wait compares. */
  predicate ReadsFutex(s: State, a: Action, t: nat) {
    && (a == BeginWait(t, 0) || a == Recheck(t))
    && Enabled(s, a) && InPhase(Apply(s, a), t, BeforeWait)
  }

  lemma ReadsThePresentWord(s: State, a: Action, t: nat)
    requires ReadsFutex(s, a, t)
    ensures Apply(s, a).locals[t].futexVal == Apply(s, a).futex
  {
  }

  /** The counters only grow, and the epoch changes only with the number of wakeups. */
  lemma StepGrows(s: State, a: Action)
    requires Counters(s) && Enabled(s, a)
    ensures var s' := Apply(s, a);
      && s.total <= s'.total && s.wakeup <= s'.wakeup && s.broadcasts <= s'.broadcasts
      && (s.wakeup == s'.wakeup ==> s.broadcasts == s'.broadcasts)
  {
  }

  /** A thread about to call futex wait stays as it is until it does something itself. */
  lemma OthersLeaveItWaiting(s: State, a: Action, t: nat)
    requires Enabled(s, a) && InPhase(s, t, BeforeWait)
    requires a != FutexWait(t) && a != Cancel(t)
    ensures t < |Apply(s, a).locals| && Apply(s, a).locals[t] == s.locals[t]
  {
  }

  predicate OwnStep(a: Action, t: nat) {
    !a.Signal? && !a.Broadcast? && a.t == t
  }

  predicate LastRead(run: seq<State>, acts: seq<Action>, t: nat, j: nat, i: nat)
    requires j < i < |run| == |acts| + 1
  {
    ReadsFutex(run[j], acts[j], t) && forall k :: j < k < i ==> !OwnStep(acts[k], t)
  }

  /** What has become of the state `since` in which a thread had just read the futex word. */
  predicate StillToWait(since: State, s: State, t: nat) {
    && InPhase(s, t, BeforeWait) && InPhase(since, t, BeforeWait) && s.locals[t] == since.locals[t]
    && since.total <= s.total && since.wakeup <= s.wakeup
    && (since.wakeup == s.wakeup ==> since.broadcasts == s.broadcasts)
  }

  lemma OthersKeepIt(since: State, s: State, a: Action, t: nat)
    requires Inv(s) && Enabled(s, a) && !OwnStep(a, t) && StillToWait(since, s, t)
    ensures StillToWait(since, Apply(s, a), t)
  {
    hide Apply, Enabled;
    OthersLeaveItWaiting(s, a, t);
    StepGrows(s, a);
  }

  /** Between the read, at step `j`, and a point `i` before the thread moves again. */
  lemma {:induction false} SinceTheRead(run: seq<State>, acts: seq<Action>, start: State, t: nat, j: nat, i: nat)
    requires IsRun(run, acts, start) && Inv(start) && j < i <= |acts|
    requires LastRead(run, acts, t, j, i)
    ensures StillToWait(run[j + 1], run[i], t)
    decreases i
  {
    hide Apply, Inv, Enabled;
    assert run[j + 1] == Apply(run[j], acts[j]);
    if i > j + 1 {
      SinceTheRead(run, acts, start, t, j, i - 1);
      RunsKeepInv(run, acts, start, i - 1);
      OthersKeepIt(run[j + 1], run[i - 1], acts[i - 1], t);
    }
  }

  /** A waiter that still compares the word it read sleeps exactly on unchanged counters. */
  lemma ComparesFresh(since: State, s: State, t: nat)
    requires Inv(since) && Inv(s) && StillToWait(since, s, t) && since.locals[t].futexVal == since.futex
    ensures InPhase(Apply(s, FutexWait(t)), t, Asleep) <==>
      s.total == since.total && s.wakeup == since.wakeup && s.broadcasts == since.broadcasts
    ensures s.futex == s.locals[t].futexVal ==>
      s.locals[t].epoch == s.broadcasts && (s.locals[t].seen == s.wakeup || s.woken == s.wakeup)
    ensures InPhase(Apply(s, FutexWait(t)), t, Asleep) <==> s.futex == s.locals[t].futexVal
  {
    assert WaiterOk(s, s.locals[t]);
    hide WaitersOk, WaitersCounted, OutstandingMatched, NoSignalLost, LedgerBalanced;
  }

  /** In any run, a waiter falls asleep exactly when no wait has begun, no wakeup has been sent and no
      broadcast made since it read the futex word; and then it has no wakeup to use. */
  lemma OnlyFreshWaitersSleep(run: seq<State>, acts: seq<Action>, start: State, t: nat, j: nat, i: nat)
    requires IsRun(run, acts, start) && Inv(start) && j < i < |acts| && acts[i] == FutexWait(t)
    requires LastRead(run, acts, t, j, i)
    ensures InPhase(run[i + 1], t, Asleep) <==>
      && run[i].total == run[j + 1].total && run[i].wakeup == run[j + 1].wakeup
      && run[i].broadcasts == run[j + 1].broadcasts
    ensures InPhase(run[i + 1], t, Asleep) ==>
      run[i].locals[t].epoch == run[i].broadcasts
      && (run[i].locals[t].seen == run[i].wakeup || run[i].woken == run[i].wakeup)
  {
    hide Inv, Enabled;
    SinceTheRead(run, acts, start, t, j, i);
    RunsKeepInv(run, acts, start, i);
    RunsKeepInv(run, acts, start, j + 1);
    ReadsThePresentWord(run[j], acts[j], t);
    hide Apply;
    ComparesFresh(run[j + 1], run[i], t);
  }

  lemma OnlyReadsLeadToWaiting(s: State, a: Action, t: nat)
    requires Enabled(s, a) && InPhase(Apply(s, a), t, BeforeWait)
    ensures ReadsFutex(s, a, t) || (InPhase(s, t, BeforeWait) && !OwnStep(a, t))
  {
  }

  lemma ReadStaysLast(run: seq<State>, acts: seq<Action>, t: nat, j: nat, i: nat)
    requires |run| == |acts| + 1 && j + 1 < i <= |acts| && LastRead(run, acts, t, j, i - 1) && !OwnStep(acts[i - 1], t)
    ensures LastRead(run, acts, t, j, i)
  {
    hide ReadsFutex, OwnStep;
  }

  /** Every thread that is about to wait has read the futex word before, so the above is about every
      futex wait of every run. */
  lemma {:induction false} EveryWaitHasRead(run: seq<State>, acts: seq<Action>, threads: nat, clock: nat,
                                            t: nat, i: nat)
    requires clock < ONE_WAITER && IsRun(run, acts, Initial(threads, clock))
    requires i <= |acts| && InPhase(run[i], t, BeforeWait)
    ensures exists j :: 0 <= j < i && LastRead(run, acts, t, j, i)
  {
    if i > 0 {
      hide Apply, Enabled, InPhase, ReadsFutex, OwnStep;
      OnlyReadsLeadToWaiting(run[i - 1], acts[i - 1], t);
      if ReadsFutex(run[i - 1], acts[i - 1], t) {
        assert LastRead(run, acts, t, i - 1, i);
      } else {
        EveryWaitHasRead(run, acts, threads, clock, t, i - 1);
        var j :| 0 <= j < i - 1 && LastRead(run, acts, t, j, i - 1);
        ReadStaysLast(run, acts, t, j, i);
      }
    }
  }
}
