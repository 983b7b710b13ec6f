/** The condition variable as the object the source updates in place. Each method is one region of
    `pthread_cond_wait` or of the cleanup handler, and is proved against the protocol's step. */
module CondWait {
  import opened Counting
  import opened CondVar

  class Condition {
    var totalSeq: nat
    var wakeupSeq: nat
    var wokenSeq: nat
    var broadcastSeq: nat
    var futex: nat
    var nwaiters: nat
    var locals: seq<Local>  // the saved values and the position of each thread
    ghost var log: Log

    ghost function Abs(): State
      reads this
    {
      State(totalSeq, wakeupSeq, wokenSeq, broadcastSeq, futex, nwaiters, locals, log)
    }

    constructor (threads: nat, clock: nat)
      requires clock < ONE_WAITER
      ensures Abs() == Initial(threads, clock) && Inv(Abs())
    {
      totalSeq, wakeupSeq, wokenSeq, broadcastSeq, futex := 0, 0, 0, 0, 0;
      nwaiters := clock;
      locals := seq(threads, _ => Outside);
      log := Log(0, 0, 0, 0, 0, []);
      InitialInv(threads, clock);
    }

    /** From `lll_lock` to the `lll_unlock` before the first futex wait. */
    method BeginWait(t: nat, unlockError: int) returns (err: int)
      requires Inv(Abs()) && Enabled(Abs(), CondVar.BeginWait(t, unlockError))
      modifies this
      ensures Abs() == Apply(old(Abs()), CondVar.BeginWait(t, unlockError)) && Inv(Abs())
      ensures err == unlockError
    {
      StepKeepsInv(Abs(), CondVar.BeginWait(t, unlockError));
      if unlockError != 0 {
        return unlockError;
      }
      totalSeq := totalSeq + 1;
      futex := futex + 1;
      nwaiters := nwaiters + ONE_WAITER;
      locals := locals[t := Waiting(wakeupSeq, broadcastSeq, futex, BeforeWait)];
      return 0;
    }

    /** The compare of futex wait; a refused wait goes straight on to the lock. */
    method FutexWait(t: nat) returns (slept: bool)
      requires Inv(Abs()) && Enabled(Abs(), CondVar.FutexWait(t))
      modifies this
      ensures Abs() == Apply(old(Abs()), CondVar.FutexWait(t)) && Inv(Abs())
      ensures slept <==> InPhase(Abs(), t, Asleep)
    {
      StepKeepsInv(Abs(), CondVar.FutexWait(t));
      slept := futex == locals[t].futexVal;
      locals := locals[t := locals[t].(phase := if slept then Asleep else AfterWait)];
    }

    /** From `lll_lock` after futex wait to the next `lll_unlock`. */
    method Recheck(t: nat) returns (left: bool)
      requires Inv(Abs()) && Enabled(Abs(), CondVar.Recheck(t))
      modifies this
      ensures Abs() == Apply(old(Abs()), CondVar.Recheck(t)) && Inv(Abs())
      ensures left <==> locals[t] == Outside
    {
      StepKeepsInv(Abs(), CondVar.Recheck(t));
      var w := locals[t];
      assert Count(locals, AnyWaiter()) > 0 by {
        CountZero(locals, AnyWaiter());
        assert AnyWaiter()(locals[t]);
      }
      assert nwaiters >= ONE_WAITER && wokenSeq <= wakeupSeq <= totalSeq;
      hide Inv;
      if w.epoch == broadcastSeq {
        var val := wakeupSeq;
        if val == w.seen || wokenSeq == val {
          locals := locals[t := w.(futexVal := futex, phase := BeforeWait)];
          return false;
        }
        wokenSeq := wokenSeq + 1;
        log := log.(departures := log.departures + [w.seen], returned := log.returned + 1);
      }
      nwaiters := nwaiters - ONE_WAITER;
      locals := locals[t := Outside];
      return true;
    }

    /** The region of the cleanup handler. */
    method Cleanup(t: nat)
      requires Inv(Abs()) && Enabled(Abs(), CondVar.Cleanup(t))
      modifies this
      ensures Abs() == Apply(old(Abs()), CondVar.Cleanup(t)) && Inv(Abs())
    {
      StepKeepsInv(Abs(), CondVar.Cleanup(t));
      assert Count(locals, AnyWaiter()) > 0 by {
        CountZero(locals, AnyWaiter());
        assert AnyWaiter()(locals[t]);
      }
      assert nwaiters >= ONE_WAITER && wokenSeq <= wakeupSeq <= totalSeq;
      hide Inv;
      if locals[t].epoch == broadcastSeq {
        log := log.(departures := log.departures + [locals[t].seen]);
        if wakeupSeq < totalSeq {
          wakeupSeq := wakeupSeq + 1;
          futex := futex + 1;
        } else {
          log := log.(absorbedByCancel := log.absorbedByCancel + 1);
        }
        wokenSeq := wokenSeq + 1;
      }
      nwaiters := nwaiters - ONE_WAITER;
      locals := locals[t := WakingAll];
    }

    /** The handler's futex wake of everybody, after it has released the condvar lock. */
    method WakeAll(t: nat)
      requires Inv(Abs()) && Enabled(Abs(), CondVar.WakeAll(t))
      modifies this
      ensures Abs() == Apply(old(Abs()), CondVar.WakeAll(t)) && Inv(Abs())
    {
      StepKeepsInv(Abs(), CondVar.WakeAll(t));
      ghost var before := locals;
      var u := 0;
      while u < |locals|
        invariant 0 <= u <= |locals| == |before|
        invariant forall i :: 0 <= i < |locals| ==> locals[i] == (if i < u then Awakened(before)[i] else before[i])
        invariant Abs() == old(Abs()).(locals := locals)
      {
        if locals[u].Waiting? && locals[u].phase == Asleep {
          locals := locals[u := locals[u].(phase := AfterWait)];
        }
        u := u + 1;
      }
      assert locals == Awakened(before);
      locals := locals[t := Outside];
    }
  }
}
