/** The mutex as the object the source updates in place: each method is one stretch of the lock,
    trylock, unlock or condvar code that touches one shared field, performed by thread `t`. */
module MutexCode {
  import opened Counting
  import opened MutexKinds

  class Mutex {
    const kind: Kind
    var holder: Option<nat>  // the lock word: nonzero exactly when somebody holds it
    var owner: Option<nat>
    var count: nat
    var nusers: int
    var threads: seq<Thread>

    ghost function Abs(): State
      reads this
    {
      State(kind, holder, owner, count, nusers, threads)
    }

    ghost predicate Ready(t: nat)
      reads this
    {
      Inv(Abs()) && Enabled(Abs(), Step(t))
    }

    constructor (kind: Kind, n: nat)
      ensures Abs() == Initial(kind, n)
    {
      this.kind := kind;
      holder, owner, count, nusers := None, None, 0, 0;
      threads := seq(n, _ => Thread(Idle, 0, 0, Success));
    }

    method Finish(t: nat, ret: Result, depth: nat)
      requires t < |threads|
      modifies this`threads
      ensures Abs() == Return(old(Abs()), t, ret, depth)
    {
      threads := threads[t := threads[t].(pc := Idle, ret := ret, depth := depth)];
    }

    /** A successful unlock ends, or the condvar call that made it goes on. */
    method Leave(t: nat)
      requires t < |threads| && (threads[t].pc.UnlockCheck? || threads[t].pc.Release?) && threads[t].depth > 0
      modifies this`threads
      ensures Abs() == Left(old(Abs()), t, old(threads[t]).pc.cond)
    {
      var th := threads[t];
      Finish(t, Success, th.depth - 1);
      if th.pc.cond {
        threads := threads[t := threads[t].(pc := CondWaiting)];
      }
    }

    /** The self-ownership test of lock and trylock, and the counter bump that follows it. */
    method TestOwnerToLock(t: nat)
      requires Ready(t) && (threads[t].pc.LockCheck? || threads[t].pc.TryCheck?)
      modifies this
      ensures Abs() == Apply(old(Abs()), Step(t)) && Inv(Abs())
      ensures threads[t].pc == Idle <==> old(owner) == Some(t)
      ensures threads[t].pc == Idle && kind == ErrorCheck ==> threads[t].ret == EDEADLK
      ensures threads[t].pc == Idle && kind == Recursive ==>
        threads[t].ret == if old(count) == UINT_MAX then EAGAIN else Success
      ensures count == if threads[t].pc == Idle && threads[t].ret == Success then old(count) + 1 else old(count)
    {
      StepKeepsInv(Abs(), Step(t));
      assert threads[t].pc.TryCheck? ==> kind == Recursive by {
        assert ThreadOk(Abs(), t, threads[t]);
      }
      hide Inv;
      var th := threads[t];
      if owner != Some(t) {
        threads := threads[t := th.(pc := if th.pc.TryCheck? then TryAcquire else Acquire(th.pc.cond))];
      } else if kind == Recursive {
        if count == UINT_MAX {
          Finish(t, EAGAIN, th.depth);
        } else {
          count := count + 1;
          Finish(t, Success, th.depth + 1);
        }
      } else {
        Finish(t, EDEADLK, th.depth);
      }
    }

    /** The lock word is taken, or a trylock finds it taken, and is over with nothing shared changed. */
    method TakeWord(t: nat)
      requires Ready(t) && (threads[t].pc.Acquire? || threads[t].pc.TryAcquire?)
      modifies this
      ensures Abs() == Apply(old(Abs()), Step(t)) && Inv(Abs())
      ensures old(holder) == None ==> holder == Some(t) && threads[t].pc != Idle
      ensures old(holder).Some? ==> threads[t].pc == Idle && threads[t].ret == EBUSY
      ensures old(holder).Some? ==> holder == old(holder) && threads[t].depth == old(threads[t]).depth
      ensures owner == old(owner) && count == old(count) && nusers == old(nusers)
    {
      StepKeepsInv(Abs(), Step(t));
      var th := threads[t];
      if holder != None {
        Finish(t, EBUSY, th.depth);
        return;
      }
      holder := Some(t);
      var next := if th.pc.TryAcquire? then TryOwner
                  else if kind == Recursive then SetCount(th.pc.cond) else SetOwner(th.pc.cond);
      threads := threads[t := th.(pc := next)];
    }

    /** `__count = 1` */
    method StartCount(t: nat)
      requires Ready(t) && (threads[t].pc.SetCount? || threads[t].pc.TryCount?)
      modifies this
      ensures Abs() == Apply(old(Abs()), Step(t)) && Inv(Abs())
    {
      StepKeepsInv(Abs(), Step(t));
      count := 1;
      var pc := threads[t].pc;
      threads := threads[t := threads[t].(pc := if pc.TryCount? then AddUser else SetOwner(pc.cond))];
    }

    /** `assert (__owner == 0)` and `__owner = id` */
    method RecordOwner(t: nat)
      requires Ready(t) && (threads[t].pc.SetOwner? || threads[t].pc.TryOwner?)
      modifies this
      ensures Abs() == Apply(old(Abs()), Step(t)) && Inv(Abs())
    {
      StepKeepsInv(Abs(), Step(t));
      assert ThreadOk(Abs(), t, threads[t]);
      hide Inv;
      assert owner == None;
      owner := Some(t);
      var th := threads[t];
      if th.pc.SetOwner? && th.pc.cond {
        Finish(t, Success, th.depth + 1);
      } else {
        threads := threads[t := th.(pc := if th.pc.TryOwner? && kind == Recursive then TryCount else AddUser)];
      }
    }

    /** `++__nusers` */
    method CountUser(t: nat)
      requires Ready(t) && threads[t].pc.AddUser?
      modifies this
      ensures Abs() == Apply(old(Abs()), Step(t)) && Inv(Abs())
    {
      StepKeepsInv(Abs(), Step(t));
      nusers := nusers + 1;
      Finish(t, Success, threads[t].depth + 1);
    }

    /** The ownership test of unlock and the counter decrement that follows it. */
    method TestOwnerToUnlock(t: nat)
      requires Ready(t) && threads[t].pc.UnlockCheck?
      modifies this
      ensures Abs() == Apply(old(Abs()), Step(t)) && Inv(Abs())
      ensures threads[t].pc == Idle && threads[t].ret == EPERM <==> old(threads[t]).depth == 0
      ensures threads[t].pc.ClearOwner? <==> old(threads[t]).depth == 1
    {
      StepKeepsInv(Abs(), Step(t));
      assert ThreadOk(Abs(), t, threads[t]) && (owner == Some(t) ==> holder == owner);
      assert kind == Recursive && owner == Some(t) ==> count > 0;
      hide Inv, ThreadOk;
      var th := threads[t];
      if owner != Some(t) || (kind == ErrorCheck && holder == None) {
        Finish(t, EPERM, th.depth);
        return;
      }
      if kind == Recursive {
        count := count - 1;
        if count != 0 {
          Leave(t);
          return;
        }
      }
      threads := threads[t := th.(pc := ClearOwner(th.pc.cond))];
    }

    /** `__owner = 0`, then `--__nusers` when asked to. */
    method ForgetOwner(t: nat)
      requires Ready(t) && (threads[t].pc.ClearOwner? || threads[t].pc.DropUser?)
      modifies this
      ensures Abs() == Apply(old(Abs()), Step(t)) && Inv(Abs())
    {
      StepKeepsInv(Abs(), Step(t));
      var th := threads[t];
      if th.pc.ClearOwner? {
        owner := None;
        threads := threads[t := th.(pc := if th.pc.cond then Release(true) else DropUser)];
      } else {
        nusers := nusers - 1;
        threads := threads[t := th.(pc := Release(false))];
      }
    }

    method ReleaseWord(t: nat)
      requires Ready(t) && threads[t].pc.Release?
      modifies this
      ensures Abs() == Apply(old(Abs()), Step(t)) && Inv(Abs())
    {
      StepKeepsInv(Abs(), Step(t));
      assert ThreadOk(Abs(), t, threads[t]);
      assert threads[t].depth > 0;
      hide Inv, ThreadOk;
      holder := None;
      Leave(t);
    }

    /** The test of `nusers`. Between calls it finds out whether anybody uses the mutex. */
    method Destroy() returns (ret: Result)
      requires Inv(Abs())
      ensures ret == Success || ret == EBUSY
      ensures ret == Success <==> NobodyCounted(Abs())
      ensures BetweenCalls(Abs()) ==>
        (ret == Success <==> forall t :: 0 <= t < |threads| ==> threads[t].depth == 0 && threads[t].pc != CondWaiting)
    {
      DestroySucceedsIff(Abs());
      if BetweenCalls(Abs()) {
        UsersBetweenCalls(Abs());
      }
      ret := if nusers != 0 then EBUSY else Success;
    }
  }
}
