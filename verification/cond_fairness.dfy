/** Which waiter gets which signal.

    A waiter leaves only after the wakeup counter has moved since it began to wait, but the counters
    do not say for whom. This module shows a run in which a later waiter takes the only signal an
    earlier one could have used, and says exactly when that happens. */
module CondFairness {
  import opened Counting
  import opened CondVar

  /** `f` gives each departure a wakeup of its own, sent after that waiter began and by now. */
  ghost predicate Assigns(departures: seq<nat>, wakeup: nat, f: seq<nat>) {
    && |f| == |departures|
    && (forall i :: 0 <= i < |f| ==> departures[i] < f[i] <= wakeup)
    && (forall i, j :: 0 <= i < j < |f| ==> f[i] != f[j])
  }

  /** No departure has used a wakeup that was sent before its wait began. */
  ghost predicate Honest(departures: seq<nat>, wakeup: nat) {
    exists f :: Assigns(departures, wakeup, f)
  }

  function AtLeast(k: nat): nat -> bool {
    (seen: nat) => seen >= k
  }

  /** Departures that began at wakeup `k` or later have no more wakeups than those after `k`. */
  predicate Affordable(departures: seq<nat>, wakeup: nat) {
    forall k: nat :: k <= wakeup ==> Count(departures, AtLeast(k)) <= wakeup - k
  }

  lemma {:induction false} SubsetOfRange(xs: set<nat>, low: nat, high: nat)
    requires low <= high && forall x :: x in xs ==> low < x <= high
    ensures |xs| <= high - low
  {
    if low == high {
      assert xs == {};
    } else {
      SubsetOfRange(xs - {high}, low, high - 1);
    }
  }

  /** The wakeups assigned to the departures that began at `k` or later, among the first `n`. */
  ghost function Used(departures: seq<nat>, f: seq<nat>, k: nat, n: nat): set<nat>
    requires n <= |f| == |departures|
  {
    set i | 0 <= i < n && departures[i] >= k :: f[i]
  }

  lemma UsedGrows(departures: seq<nat>, wakeup: nat, f: seq<nat>, k: nat, n: nat)
    requires Assigns(departures, wakeup, f) && n < |f|
    ensures f[n] !in Used(departures, f, k, n)
    ensures Used(departures, f, k, n + 1) == Used(departures, f, k, n) + if departures[n] >= k then {f[n]} else {}
  {
  }

  lemma CountTake<T>(xs: seq<T>, n: nat, p: T -> bool)
    requires n < |xs|
    ensures Count(xs[..n + 1], p) == Count(xs[..n], p) + (if p(xs[n]) then 1 else 0)
  {
    assert xs[..n + 1] == xs[..n] + [xs[n]];
    CountAppend(xs[..n], xs[n], p);
  }

  lemma {:induction false} UsedCounts(departures: seq<nat>, wakeup: nat, f: seq<nat>, k: nat, n: nat)
    requires Assigns(departures, wakeup, f) && n <= |f|
    ensures |Used(departures, f, k, n)| == Count(departures[..n], AtLeast(k))
  {
    if n == 0 {
      assert Used(departures, f, k, 0) == {};
    } else {
      hide Count, Used, Assigns;
      UsedCounts(departures, wakeup, f, k, n - 1);
      UsedGrows(departures, wakeup, f, k, n - 1);
      CountTake(departures, n - 1, AtLeast(k));
    }
  }

  lemma {:induction false} CountWithout<T>(xs: seq<T>, j: nat, p: T -> bool)
    requires j < |xs|
    ensures Count(xs[..j] + xs[j + 1..], p) == Count(xs, p) - (if p(xs[j]) then 1 else 0)
  {
    if j == 0 {
      assert xs[..0] + xs[1..] == xs[1..];
    } else {
      assert (xs[..j] + xs[j + 1..])[1..] == xs[1..][..j - 1] + xs[1..][j..];
      CountWithout(xs[1..], j - 1, p);
    }
  }

  lemma {:induction false} Latest(xs: seq<nat>) returns (j: nat)
    requires xs != []
    ensures j < |xs| && forall i :: 0 <= i < |xs| ==> xs[i] <= xs[j]
  {
    if |xs| == 1 {
      j := 0;
    } else {
      j := Latest(xs[1..]);
      assert forall i :: 1 <= i < |xs| ==> xs[i] == xs[1..][i - 1];
      j := if xs[0] > xs[j + 1] then 0 else j + 1;
    }
  }

  /** The last wakeup goes to the waiter that began last; the others share the rest. */
  lemma {:induction false} Assign(departures: seq<nat>, wakeup: nat) returns (f: seq<nat>)
    requires Affordable(departures, wakeup)
    ensures Assigns(departures, wakeup, f)
    decreases wakeup
  {
    if departures == [] {
      f := [];
    } else {
      var j := Latest(departures);
      var m := departures[j];
      if m >= wakeup {
        assert Count(departures, AtLeast(wakeup)) <= 0;
        CountZero(departures, AtLeast(wakeup));
        assert false;
      }
      var others := departures[..j] + departures[j + 1..];
      forall k: nat | k <= wakeup - 1 ensures Count(others, AtLeast(k)) <= wakeup - 1 - k {
        CountWithout(departures, j, AtLeast(k));
        if m < k {
          CountZero(departures, AtLeast(k));
        }
      }
      var g := Assign(others, wakeup - 1);
      f := g[..j] + [wakeup] + g[j..];
      Inserted(departures, wakeup, j, g);
    }
  }

  lemma Inserted(departures: seq<nat>, wakeup: nat, j: nat, g: seq<nat>)
    requires j < |departures| && departures[j] < wakeup
    requires Assigns(departures[..j] + departures[j + 1..], wakeup - 1, g)
    ensures Assigns(departures, wakeup, g[..j] + [wakeup] + g[j..])
  {
    var others, f := departures[..j] + departures[j + 1..], g[..j] + [wakeup] + g[j..];
    assert forall i :: 0 <= i < |departures| && i != j ==>
      departures[i] == others[if i < j then i else i - 1] && f[i] == g[if i < j then i else i - 1];
  }

  /** An assignment exists exactly when no group of late departures outnumbers the late wakeups. */
  lemma HonestIffAffordable(departures: seq<nat>, wakeup: nat)
    ensures Honest(departures, wakeup) <==> Affordable(departures, wakeup)
  {
    if Honest(departures, wakeup) {
      var f :| Assigns(departures, wakeup, f);
      forall k: nat | k <= wakeup ensures Count(departures, AtLeast(k)) <= wakeup - k {
        UsedCounts(departures, wakeup, f, k, |f|);
        assert departures[..|f|] == departures;
        SubsetOfRange(Used(departures, f, k, |f|), k, wakeup);
      }
    }
    if Affordable(departures, wakeup) {
      var f := Assign(departures, wakeup);
    }
  }

  // ----- The guard a fair implementation would test -----------------------------------------

  /** Does this step advance `woken` without sending a wakeup of its own? */
  predicate Consumes(s: State, a: Action)
    requires Enabled(s, a)
  {
    match a
    case Recheck(t) =>
      var w := s.locals[t];
      w.epoch == s.broadcasts && w.seen != s.wakeup && s.woken != s.wakeup
    case Cleanup(t) => s.locals[t].epoch == s.broadcasts && s.wakeup == s.total
    case _ => false
  }

  /** For every `k` up to the departing waiter's own start, the wakeups after `k` are not all used
      up by departures that began at `k` or later. The source tests only that `seen` is below the
      wakeup counter and that some wakeup of the epoch is unused. */
  predicate MayLeave(s: State, t: nat)
    requires t < |s.locals| && s.locals[t].Waiting?
  {
    forall k: nat :: k <= s.locals[t].seen ==> Count(s.log.departures, AtLeast(k)) < s.wakeup - k
  }

  /** A consuming step stays honest exactly when the guard holds before it; no other step can make
      a run dishonest. */
  lemma StepIsHonestIff(s: State, a: Action)
    requires Inv(s) && Enabled(s, a) && Honest(s.log.departures, s.wakeup)
    ensures var s' := Apply(s, a);
      Honest(s'.log.departures, s'.wakeup) <==> (Consumes(s, a) ==> MayLeave(s, a.t))
  {
    var s' := Apply(s, a);
    HonestIffAffordable(s.log.departures, s.wakeup);
    HonestIffAffordable(s'.log.departures, s'.wakeup);
    match a
    case Recheck(t) => LeavingIsHonestIff(s, a);
    case Cleanup(t) => LeavingIsHonestIff(s, a);
    case Signal(_) => MoreIsAffordable(s.log.departures, s.wakeup, s'.wakeup);
    case _ =>
  }

  lemma MoreIsAffordable(departures: seq<nat>, wakeup: nat, more: nat)
    requires Affordable(departures, wakeup) && wakeup <= more
    ensures Affordable(departures, more)
  {
    forall k: nat | k <= more ensures Count(departures, AtLeast(k)) <= more - k {
      if k > wakeup {
        CountMonotone(departures, AtLeast(k), departures, AtLeast(wakeup));
      }
    }
  }

  lemma LeavingIsHonestIff(s: State, a: Action)
    requires Inv(s) && Enabled(s, a) && (a.Recheck? || a.Cleanup?) && Affordable(s.log.departures, s.wakeup)
    ensures var s' := Apply(s, a);
      Affordable(s'.log.departures, s'.wakeup) <==> (Consumes(s, a) ==> MayLeave(s, a.t))
  {
    var s' := Apply(s, a);
    var w := s.locals[a.t];
    var d := s.log.departures;
    assert WaiterOk(s, w);
    if s'.log.departures == d + [w.seen] {
      forall k: nat
        ensures Count(s'.log.departures, AtLeast(k)) == Count(d, AtLeast(k)) + (if w.seen >= k then 1 else 0)
      {
        CountAppend(d, w.seen, AtLeast(k));
      }
      if s'.wakeup == s.wakeup + 1 {
        CountMonotone(d, AtLeast(s'.wakeup), d, AtLeast(s.wakeup));
      }
    }
  }

  ghost predicate HonestState(s: State) {
    Honest(s.log.departures, s.wakeup)
  }

  predicate Guarded(s: State, a: Action) {
    Enabled(s, a) && Consumes(s, a) ==> MayLeave(s, a.t)
  }

  /** Over whole runs: the property holds throughout exactly when every consuming step met the
      guard. */
  lemma {:induction false} RunsAreHonestIff(run: seq<State>, acts: seq<Action>, threads: nat, clock: nat, n: nat)
    requires clock < ONE_WAITER && IsRun(run, acts, Initial(threads, clock)) && n <= |acts|
    ensures (forall i :: 0 <= i <= n ==> HonestState(run[i])) <==> (forall i :: 0 <= i < n ==> Guarded(run[i], acts[i]))
  {
    if n == 0 {
      assert Assigns(run[0].log.departures, 0, []);
      assert HonestState(run[0]);
    } else {
      hide Inv, Apply, Enabled, Consumes, MayLeave, Honest;
      RunsAreHonestIff(run, acts, threads, clock, n - 1);
      InitialInv(threads, clock);
      RunsKeepInv(run, acts, Initial(threads, clock), n - 1);
      if HonestState(run[n - 1]) {
        StepIsHonestIff(run[n - 1], acts[n - 1]);
        assert HonestState(run[n]) <==> Guarded(run[n - 1], acts[n - 1]);
      }
    }
  }

  // ----- A discipline that clients can keep --------------------------------------------------

  /** A wait begins only when every waiter that has been signalled has returned. */
  predicate BeginsInTurn(s: State, a: Action) {
    a.BeginWait? && a.unlockError == 0 ==> s.woken == s.wakeup
  }

  /** No waiter of the epoch began after the next wakeup to be used was sent. */
  predicate WaitersInTurn(s: State) {
    forall t :: 0 <= t < |s.locals| && Current(s.broadcasts)(s.locals[t]) ==> s.locals[t].seen <= s.woken
  }

  /** And none that left did. */
  predicate InTurn(s: State) {
    && WaitersInTurn(s)
    && (forall i :: 0 <= i < |s.log.departures| ==> s.log.departures[i] <= s.log.base + i)
  }

  lemma StepKeepsWaitersInTurn(s: State, a: Action)
    requires WaitersOk(s) && Enabled(s, a) && WaitersInTurn(s) && BeginsInTurn(s, a) && s.woken <= s.wakeup <= s.total
    ensures WaitersInTurn(Apply(s, a))
  {
    var s' := Apply(s, a);
    forall t | 0 <= t < |s'.locals| && Current(s'.broadcasts)(s'.locals[t]) ensures s'.locals[t].seen <= s'.woken {
      assert WaiterOk(s, s.locals[t]);
    }
  }

  lemma StepKeepsInTurn(s: State, a: Action)
    requires Inv(s) && Enabled(s, a) && InTurn(s) && BeginsInTurn(s, a)
    ensures InTurn(Apply(s, a))
  {
    StepKeepsWaitersInTurn(s, a);
    hide WaitersCounted, OutstandingMatched, NoSignalLost, WaitersOk, WaitersInTurn;
    if a.Recheck? || a.Cleanup? {
      assert Current(s.broadcasts)(s.locals[a.t]) ==> s.locals[a.t].seen <= s.woken by {
        WaiterInTurn(s, a.t);
      }
    }
  }

  lemma WaiterInTurn(s: State, t: nat)
    requires WaitersInTurn(s) && t < |s.locals|
    ensures Current(s.broadcasts)(s.locals[t]) ==> s.locals[t].seen <= s.woken
  {
  }

  lemma InTurnIsHonest(s: State)
    requires Inv(s) && InTurn(s)
    ensures HonestState(s)
  {
    var f: seq<nat> := seq(|s.log.departures|, i => s.log.base + i + 1);
    assert Assigns(s.log.departures, s.wakeup, f);
  }

  /** Clients that begin their waits in turn never lose a signal to a later waiter, in any run. */
  lemma {:induction false} RunsInTurnAreHonest(run: seq<State>, acts: seq<Action>, threads: nat, clock: nat, n: nat)
    requires clock < ONE_WAITER && IsRun(run, acts, Initial(threads, clock)) && n <= |acts|
    requires forall i :: 0 <= i < n ==> BeginsInTurn(run[i], acts[i])
    ensures InTurn(run[n]) && HonestState(run[n])
  {
    InitialInv(threads, clock);
    RunsKeepInv(run, acts, Initial(threads, clock), n);
    if n > 0 {
      RunsInTurnAreHonest(run, acts, threads, clock, n - 1);
      RunsKeepInv(run, acts, Initial(threads, clock), n - 1);
      hide Inv, Enabled, Apply, HonestState;
      StepKeepsInTurn(run[n - 1], acts[n - 1]);
    }
    InTurnIsHonest(run[n]);
  }

  // ----- A run in which a signal is taken by a later waiter ---------------------------------

  /** Thread 0 waits alone and is signalled. Before it gets the lock back, threads 1 and 2 begin to
      wait and one more signal is sent. Both later threads leave; thread 0, for which the first
      signal was sent, goes back to sleep. */
  const THEFT := [BeginWait(0, 0), FutexWait(0), Signal(Some(0)), BeginWait(1, 0), FutexWait(1),
                  BeginWait(2, 0), Signal(Some(1)), FutexWait(2), Recheck(1), Recheck(2), Recheck(0), FutexWait(0)]

  lemma SignalCanBeStolen() returns (run: seq<State>)
    ensures IsRun(run, THEFT, Initial(3, 0))
    ensures run[3].wakeup == run[3].total == 1
    ensures run[12].locals == [Waiting(0, 0, 5, Asleep), Outside, Outside]
    ensures run[12].log.sent == run[12].log.returned == 2
    ensures !HonestState(run[12])
  {
    var first := Crowding();
    var second := Stealing();
    run := first[..7] + second;
    forall i | 0 <= i < 12 ensures Enabled(run[i], THEFT[i]) && run[i + 1] == Apply(run[i], THEFT[i]) {
      assert i < 7 ==> run[i] == first[i] && THEFT[i] == THEFT[..7][i];
      assert i >= 7 ==> run[i] == second[i - 7] && THEFT[i] == THEFT[7..][i - 7];
    }
    var departures: seq<nat> := [1, 1];
    HonestIffAffordable(departures, 2);
    assert departures[1..] == [1];
    assert Count(departures, AtLeast(1)) == 2;
  }

  /** All three threads are awake, two wakeups are outstanding, and only one of them was sent after
      threads 1 and 2 began to wait. */
  const CROWDED := State(3, 2, 0, 0, 5, 6,
    [Waiting(0, 0, 1, AfterWait), Waiting(1, 0, 3, AfterWait), Waiting(1, 0, 4, BeforeWait)], Log(2, 0, 0, 0, 0, []))

  lemma Crowding() returns (run: seq<State>)
    ensures IsRun(run, THEFT[..7], Initial(3, 0)) && run[7] == CROWDED
    ensures run[3].wakeup == run[3].total == 1
  {
    var s0 := Initial(3, 0);
    var s1 := Apply(s0, THEFT[0]);
    var s2 := Apply(s1, THEFT[1]);
    var s3 := Apply(s2, THEFT[2]);
    var s4 := Apply(s3, THEFT[3]);
    assert s4.locals == [Waiting(0, 0, 1, AfterWait), Waiting(1, 0, 3, BeforeWait), Outside];
    var s5 := Apply(s4, THEFT[4]);
    var s6 := Apply(s5, THEFT[5]);
    var s7 := Apply(s6, THEFT[6]);
    run := [s0, s1, s2, s3, s4, s5, s6, s7];
    assert s7.locals == CROWDED.locals;
  }

  lemma Stealing() returns (run: seq<State>)
    ensures IsRun(run, THEFT[7..], CROWDED)
    ensures run[5].locals == [Waiting(0, 0, 5, Asleep), Outside, Outside]
    ensures run[5].log.sent == run[5].log.returned == 2 && run[5].wakeup == 2 && run[5].log.departures == [1, 1]
  {
    var s0 := CROWDED;
    var s1 := Apply(s0, THEFT[7]);
    var s2 := Apply(s1, THEFT[8]);
    var s3 := Apply(s2, THEFT[9]);
    var s4 := Apply(s3, THEFT[10]);
    var s5 := Apply(s4, THEFT[11]);
    run := [s0, s1, s2, s3, s4, s5];
    assert s5.locals == [Waiting(0, 0, 5, Asleep), Outside, Outside];
  }
}
