/** What the waiters of a condition variable do once nobody bothers them any more: they settle, and
    no signal is left over. */
module CondSettling {
  import opened Counting
  import opened CondVar

  /** The waiters' own steps; no new wait, signal, broadcast, cancellation or spurious wakeup. */
  predicate Settling(a: Action) {
    a.FutexWait? || a.Recheck? || a.Cleanup? || a.WakeAll?
  }

  function Handling(): Local -> int {
    (w: Local) =>
      match w
      case Waiting(_, _, _, Cancelling) => 2
      case WakingAll => 1
      case _ => 0
  }

  function Restless(futex: nat): Local -> int {
    (w: Local) =>
      match w
      case Waiting(_, _, futexVal, BeforeWait) => if futexVal == futex then 2 else 4
      case Waiting(_, _, _, AfterWait) => 3
      case Waiting(_, _, _, Asleep) => 1
      case _ => 0
  }

  function Round(s: State): nat {
    4 * |s.locals| + 1
  }

  function Measure(s: State): int {
    Scaled(Round(s), Total(s.locals, Handling()), Total(s.locals, Restless(s.futex)))
  }

  lemma MeasureBounds(s: State)
    ensures 0 <= Total(s.locals, Handling())
    ensures 0 <= Total(s.locals, Restless(s.futex)) < Round(s)
    ensures 0 <= Measure(s)
  {
    TotalBounds(s.locals, Handling(), 0, 2);
    TotalBounds(s.locals, Restless(s.futex), 0, 4);
    ScaledNonnegative(Round(s), Total(s.locals, Handling()), Total(s.locals, Restless(s.futex)));
  }

  lemma {:induction false} TotalAgree(xs: seq<Local>, ys: seq<Local>)
    requires |xs| == |ys| && forall i :: 0 <= i < |xs| ==> Handling()(xs[i]) == Handling()(ys[i])
    ensures Total(xs, Handling()) == Total(ys, Handling())
  {
    if xs != [] {
      assert forall i :: 0 <= i < |xs[1..]| ==> xs[1..][i] == xs[i + 1] && ys[1..][i] == ys[i + 1];
      TotalAgree(xs[1..], ys[1..]);
    }
  }

  /** The handler's steps shorten the handlers' work; the others leave it and quieten one thread. */
  lemma Quietens(s: State, a: Action)
    requires Enabled(s, a) && Settling(a)
    ensures var s' := Apply(s, a);
      var x, y := Total(s'.locals, Handling()), Total(s.locals, Handling());
      || x == y - 1
      || (x == y && s'.futex == s.futex && Total(s'.locals, Restless(s.futex)) < Total(s.locals, Restless(s.futex)))
  {
    var s' := Apply(s, a);
    if a.WakeAll? {
      TotalAgree(s.locals, Awakened(s.locals));
      TotalUpdate(Awakened(s.locals), a.t, Outside, Handling());
    } else {
      assert s'.locals == s.locals[a.t := s'.locals[a.t]];
      TotalUpdate(s.locals, a.t, s'.locals[a.t], Handling());
      TotalUpdate(s.locals, a.t, s'.locals[a.t], Restless(s.futex));
    }
  }

  lemma MeasureDrops(s: State, a: Action)
    requires Enabled(s, a) && Settling(a)
    ensures Measure(Apply(s, a)) < Measure(s)
  {
    MeasureBounds(s);
    MeasureBounds(Apply(s, a));
    Quietens(s, a);
    var s' := Apply(s, a);
    var x, y := Total(s'.locals, Handling()), Total(s.locals, Handling());
    if x < y {
      Outweighs(Round(s), x, y, Total(s'.locals, Restless(s'.futex)), Total(s.locals, Restless(s.futex)));
    }
  }

  /** Nobody in a wait but sleepers. */
  predicate Quiet(s: State) {
    forall t :: 0 <= t < |s.locals| ==> s.locals[t] == Outside || InPhase(s, t, Asleep)
  }

  lemma QuietWhenStuck(s: State)
    requires forall a :: Settling(a) ==> !Enabled(s, a)
    ensures Quiet(s)
  {
    forall t | 0 <= t < |s.locals| ensures s.locals[t] == Outside || InPhase(s, t, Asleep) {
      assert !Enabled(s, FutexWait(t)) && !Enabled(s, Recheck(t)) && !Enabled(s, Cleanup(t)) && !Enabled(s, WakeAll(t));
    }
  }

  /** When only sleepers are left, every signal sent so far has been used: by a return, by a
      broadcast that came in between, or by a cancelled waiter that nobody was left to replace. */
  lemma QuietMeansDelivered(s: State)
    requires Inv(s) && Quiet(s)
    ensures s.woken == s.wakeup
    ensures s.log.sent == s.log.returned + s.log.absorbedByBroadcast + s.log.absorbedByCancel
    ensures Count(s.locals, AnyWaiter()) == s.total - s.wakeup
  {
    forall i | 0 <= i < |s.locals|
      ensures !Responsive(s.broadcasts, s.wakeup)(s.locals[i])
      ensures AnyWaiter()(s.locals[i]) == Current(s.broadcasts)(s.locals[i])
    {
      assert WaiterOk(s, s.locals[i]);
    }
    CountZero(s.locals, Responsive(s.broadcasts, s.wakeup));
    CountAgree(s.locals, AnyWaiter(), s.locals, Current(s.broadcasts));
  }

  ghost predicate IsSettlingRun(run: seq<State>, acts: seq<Action>, start: State) {
    IsRun(run, acts, start) && forall i :: 0 <= i < |acts| ==> Settling(acts[i])
  }

  lemma {:induction false} SettlingSoFar(run: seq<State>, acts: seq<Action>, start: State, i: nat)
    requires IsSettlingRun(run, acts, start) && i <= |acts|
    ensures Measure(run[i]) + i <= Measure(start)
  {
    if i > 0 {
      SettlingSoFar(run, acts, start, i - 1);
      MeasureDrops(run[i - 1], acts[i - 1]);
    }
  }

  /** No signal is lost, over whole runs: take any run of waits, cancellations, signals and
      broadcasts. If the waiters are then left alone, they take at most `Measure` more steps in
      whatever order they are scheduled, and when none can move every signal has been used and
      exactly the `total - wakeup` waiters nobody signalled are asleep. */
  lemma EverySignalIsDelivered(run: seq<State>, acts: seq<Action>, threads: nat, clock: nat,
                               rest: seq<State>, more: seq<Action>)
    requires clock < ONE_WAITER && IsRun(run, acts, Initial(threads, clock))
    requires IsSettlingRun(rest, more, run[|acts|])
    ensures |more| <= Measure(run[|acts|])
    ensures var end := rest[|more|];
      (forall a :: Settling(a) ==> !Enabled(end, a)) ==>
        && Quiet(end)
        && end.woken == end.wakeup
        && end.log.sent == end.log.returned + end.log.absorbedByBroadcast + end.log.absorbedByCancel
        && Count(end.locals, AnyWaiter()) == end.total - end.wakeup
  {
    var end := rest[|more|];
    InitialInv(threads, clock);
    RunsKeepInv(run, acts, Initial(threads, clock), |acts|);
    RunsKeepInv(rest, more, run[|acts|], |more|);
    SettlingSoFar(rest, more, run[|acts|], |more|);
    MeasureBounds(end);
    if forall a :: Settling(a) ==> !Enabled(end, a) {
      QuietWhenStuck(end);
      QuietMeansDelivered(end);
    }
  }
}
