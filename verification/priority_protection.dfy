/** Priority-ceiling accounting of one thread: `__pthread_tpp_change_priority`,
    `__pthread_current_priority` and the priority-protect paths that call them.

    The accounting refines a multiset: the ceilings of the priority-protect mutexes the thread
    holds. What the scheduler answers is a parameter; ceilings stay fixed. */
module PriorityProtection {

  datatype Result =
    | Success
    | EINVAL
    | EBUSY
    | EAGAIN
    | ENOMEM
    | SchedulerError  // what a scheduler call left in errno

  /** The results that come after the counters were changed. */
  predicate Changed(result: Result) {
    result.Success? || result.SchedulerError?
  }

  /** Which scheduler calls would succeed. */
  datatype Kernel = Kernel(getparam: bool, getscheduler: bool, setscheduler: bool)

  const WILLING := Kernel(true, true, true)

  /** Does moving the highest ceiling from `top` to `newTop` end in a scheduler error? */
  predicate Refused(paramKnown: bool, policyKnown: bool, kernel: Kernel, base: int, top: int, newTop: int) {
    && top != newTop
    && (|| (!paramKnown && !kernel.getparam)
        || (!policyKnown && !kernel.getscheduler)
        || (base < Max(top, newTop) && !kernel.setscheduler))
  }

  const UINT_MAX: nat := 0xffff_ffff
  const NONE := -1

  /** `top` is the highest element of the multiset, or one below the lowest priority. */
  ghost predicate IsTop(held: multiset<int>, lowest: int, top: int) {
    && (forall p :: p in held ==> p <= top)
    && (top in held || (top == lowest - 1 && held == multiset{}))
  }

  function Exchanged(held: multiset<int>, previous: int, next: int): multiset<int> {
    var more := if next == NONE then held else held + multiset{next};
    if previous == NONE then more else more - multiset{previous}
  }

  lemma TopAfterTaking(held: multiset<int>, lowest: int, top: int, ceiling: int)
    requires IsTop(held, lowest, top) && lowest <= ceiling
    ensures IsTop(held + multiset{ceiling}, lowest, Max(top, ceiling))
  {
    assert ceiling in held + multiset{ceiling};
    assert top in held ==> top in held + multiset{ceiling};
  }

  lemma TopIsUnique(held: multiset<int>, lowest: int, x: int, y: int)
    requires IsTop(held, lowest, x) && IsTop(held, lowest, y)
    ensures x == y
  {
    if x in held && y in held {
      assert x <= y && y <= x;
    }
  }

  lemma GiveBack(held: multiset<int>, ceiling: int)
    ensures Exchanged(held + multiset{ceiling}, ceiling, NONE) == held || ceiling == NONE
  {
    assert held + multiset{ceiling} - multiset{ceiling} == held;
  }

  function Max(x: int, y: int): int {
    if x < y then y else x
  }

  class Priorities {
    const lowest: int   // the scheduler's SCHED_FIFO range
    const highest: int
    const base: int     // the priority the thread runs at without ceilings

    var priomap: array?<nat>  // null until the first change
    var priomax: int
    var running: int          // what the kernel was last told
    var schedparam: int       // cached own priority, once `schedSet`
    var schedSet: bool
    var policySet: bool
    ghost var held: multiset<int>

    /** Each counter is the number of held mutexes with its ceiling. */
    ghost predicate Counted()
      reads `priomap, `held, priomap
    {
      && 0 <= lowest <= highest
      && (forall p :: p in held ==> lowest <= p <= highest)
      && priomap != null
      && priomap.Length == highest - lowest + 1
      && (forall p :: lowest <= p <= highest ==> Counter(p) == held[p] <= UINT_MAX)
    }

    /** The counters and the highest ceiling are those of the multiset, whatever the kernel was told. */
    ghost predicate Accounted()
      reads this, priomap
    {
      && 0 <= lowest <= highest && lowest - 1 <= base
      && (schedSet ==> schedparam == base)
      && (!schedSet ==> running == base)
      && (priomap == null ==> held == multiset{})
      && (priomap != null ==> Counted() && IsTop(held, lowest, priomax))
    }

    /** The highest ceiling in use, or one below the lowest. */
    ghost function Top(): int
      reads this
    {
      if priomap == null then lowest - 1 else priomax
    }

    ghost predicate Valid()
      reads this, priomap
    {
      Accounted() && running == Max(base, Top())
    }

    constructor (lowest: int, highest: int, base: int)
      requires 0 <= lowest <= highest && lowest - 1 <= base
      ensures Valid() && held == multiset{} && priomap == null && !schedSet && !policySet
      ensures this.base == base && this.lowest == lowest && this.highest == highest
    {
      this.lowest, this.highest, this.base := lowest, highest, base;
      priomap, priomax := null, 0;
      running, schedparam, schedSet, policySet := base, 0, false, false;
      held := multiset{};
    }

    ghost function Counter(p: int): nat
      requires priomap != null && lowest <= p <= highest && priomap.Length == highest - lowest + 1
      reads `priomap, priomap
    {
      priomap[p - lowest]
    }

    /** The downward scan for the next ceiling still in use. */
    method ScanDown(start: int) returns (i: int)
      requires priomap != null && lowest <= start <= highest && priomap.Length == highest - lowest + 1
      ensures lowest - 1 <= i < start
      ensures i >= lowest ==> Counter(i) != 0
      ensures forall p :: i < p < start ==> Counter(p) == 0
    {
      i := start - 1;
      while i >= lowest && priomap[i - lowest] == 0
        invariant lowest - 1 <= i < start
        invariant forall p :: i < p < start ==> Counter(p) == 0
      {
        i := i - 1;
      }
    }

    /** The first call allocates the zeroed counters. */
    method Allocate()
      requires Accounted() && priomap == null
      modifies `priomap, `priomax
      ensures Accounted() && priomap != null && fresh(priomap) && Top() == old(Top())
    {
      priomap := new nat[highest - lowest + 1](_ => 0);
      priomax := lowest - 1;
    }

    /** Gives up `previous` and takes up `next`; either may be absent. The ceilings held change by
        exactly that, unless the counter of `next` is full or there is no memory: then nothing
        changes. A scheduler error comes after the change, and leaves the thread running as it was. */
    method ChangePriority(previous: int, next: int, memory: bool, kernel: Kernel) returns (result: Result)
      requires Accounted()
      requires next == NONE || lowest <= next <= highest
      requires previous == NONE || held[previous] > 0
      modifies this, priomap
      ensures Accounted() && MapKept(old(priomap))
      ensures old(priomap) == null && priomap != null ==> fresh(priomap)
      ensures result == ENOMEM <==> old(priomap) == null && !memory
      ensures result == EAGAIN <==> result != ENOMEM && next != NONE && old(held)[next] == UINT_MAX
      ensures result == SchedulerError <==>
        Changed(result) && Refused(old(schedSet), old(policySet), kernel, base, old(Top()), Top())
      ensures Changed(result) || result == ENOMEM || result == EAGAIN
      ensures held == if Changed(result) then Exchanged(old(held), previous, next) else old(held)
      ensures if result.SchedulerError? then running == old(running) else old(Valid()) ==> Valid()
      ensures (old(schedSet) ==> schedSet) && (old(policySet) ==> policySet)
    {
      if priomap == null {
        if !memory {
          return ENOMEM;
        }
        Allocate();
      }
      result := ChangeCounters(previous, next, kernel);
    }

    ghost predicate MapKept(was: array?<nat>)
      reads this
    {
      was != null ==> priomap == was
    }

    method ChangeCounters(previous: int, next: int, kernel: Kernel) returns (result: Result)
      requires Accounted() && priomap != null
      requires next == NONE || lowest <= next <= highest
      requires previous == NONE || held[previous] > 0
      modifies this, priomap
      ensures Accounted() && priomap == old(priomap)
      ensures result == EAGAIN <==> next != NONE && old(held)[next] == UINT_MAX
      ensures result == SchedulerError <==>
        result != EAGAIN && Refused(old(schedSet), old(policySet), kernel, base, old(priomax), priomax)
      ensures result == Success || result == EAGAIN || result == SchedulerError
      ensures held == if result == EAGAIN then old(held) else Exchanged(old(held), previous, next)
      ensures if result.SchedulerError? then running == old(running) else old(Valid()) ==> Valid()
      ensures (old(schedSet) ==> schedSet) && (old(policySet) ==> policySet)
    {
      var top := priomax;
      hide IsTop, Exchanged, Counter;
      var full, newTop := Recount(previous, next, top);
      if full {
        return EAGAIN;
      }
      var refused := false;
      if top != newTop {
        refused := Reschedule(top, newTop, kernel);
      }
      return if refused then SchedulerError else Success;
    }

    /** The counters of both ceilings, and the highest ceiling afterwards. */
    method Recount(previous: int, next: int, top: int) returns (full: bool, newTop: int)
      requires Counted() && IsTop(held, lowest, top)
      requires next == NONE || lowest <= next <= highest
      requires previous == NONE || held[previous] > 0
      modifies priomap, `held
      ensures full <==> next != NONE && old(held)[next] == UINT_MAX
      ensures Counted() && held == if full then old(held) else Exchanged(old(held), previous, next)
      ensures IsTop(held, lowest, newTop) && (full ==> newTop == top)
    {
      full, newTop := false, top;
      assert previous != NONE ==> lowest <= previous <= top;
      hide IsTop, Counted, Counter;
      if next != NONE {
        full, newTop := CountUp(next, top);
      }
      if !full && previous != NONE {
        newTop := CountDown(previous, next, top, newTop);
      }
    }

    /** `++priomap[next - fifo_min_prio]`, unless the counter is full, and the candidate for the new
        highest ceiling. */
    method CountUp(next: int, top: int) returns (full: bool, newTop: int)
      requires Counted() && IsTop(held, lowest, top) && lowest <= next <= highest
      modifies priomap, `held
      ensures full <==> old(held)[next] == UINT_MAX
      ensures Counted() && held == if full then old(held) else old(held) + multiset{next}
      ensures full ==> priomap[..] == old(priomap[..])
      ensures IsTop(held, lowest, newTop) && newTop == if full then top else Max(top, next)
    {
      newTop := top;
      assert Counter(next) == held[next];
      full := priomap[next - lowest] + 1 == UINT_MAX + 1;
      if !full {
        TopAfterTaking(held, lowest, top, next);
        priomap[next - lowest] := priomap[next - lowest] + 1;
        held := held + multiset{next};
        if next > top {
          newTop := next;
        }
      }
    }

    /** `--priomap[previous - fifo_min_prio]`, and the scan when that was the last use of the highest
        ceiling and the new one is lower. */
    method CountDown(previous: int, next: int, top: int, candidate: int) returns (newTop: int)
      requires Counted() && held[previous] > 0
      requires IsTop(held, lowest, candidate) && candidate == Max(top, next)
      requires previous <= top && (previous == next ==> held[previous] > 1)
      modifies priomap, `held
      ensures Counted() && held == old(held) - multiset{previous}
      ensures IsTop(held, lowest, newTop)
    {
      ghost var before := held;
      var left := TakeOff(previous);
      newTop := candidate;
      if left == 0 && top == previous && previous > next {
        newTop := ScanDown(previous);
        ScanFindsHeld(before, previous, newTop);
      } else {
        TopStays(before, previous, candidate, top, next);
      }
    }

    /** `--priomap[previous - fifo_min_prio]` */
    method TakeOff(previous: int) returns (left: nat)
      requires Counted() && held[previous] > 0
      modifies priomap, `held
      ensures Counted() && held == old(held) - multiset{previous} && left == held[previous]
    {
      assert Counter(previous) == held[previous];
      priomap[previous - lowest] := priomap[previous - lowest] - 1;
      left := priomap[previous - lowest];
      held := held - multiset{previous};
    }

    /** The last use of the highest ceiling is still there, or was not the one given up. */
    lemma TopStays(before: multiset<int>, previous: int, candidate: int, top: int, next: int)
      requires IsTop(before, lowest, candidate) && candidate == Max(top, next) && before[previous] > 0
      requires previous <= top && (previous == next ==> before[previous] > 1)
      requires before[previous] > 1 || top != previous || previous <= next
      ensures IsTop(before - multiset{previous}, lowest, candidate)
    {
      var after := before - multiset{previous};
      forall p | p in after ensures p <= candidate {
        assert p in before;
      }
      assert candidate in before;
      assert candidate != previous || before[previous] > 1;
      assert candidate in after;
    }

    lemma ScanFindsHeld(before: multiset<int>, previous: int, found: int)
      requires Counted() && held == before - multiset{previous} && before[previous] == 1
      requires forall p :: p in before ==> lowest <= p
      requires lowest - 1 <= found < previous <= highest && IsTop(before, lowest, previous)
      requires found >= lowest ==> Counter(found) != 0
      requires forall p :: found < p < previous ==> Counter(p) == 0
      ensures IsTop(held, lowest, found)
    {
      assert forall p :: found < p < previous ==> before[p] == held[p] == Counter(p) == 0;
      assert found >= lowest ==> Counter(found) == held[found] <= before[found];
      NewTopAfterScan(before, previous, found);
    }

    /** After the last use of the highest ceiling is gone, the scan finds the next one. */
    lemma NewTopAfterScan(before: multiset<int>, previous: int, found: int)
      requires 0 <= lowest && IsTop(before, lowest, previous) && previous in before
      requires before[previous] == 1
      requires forall p :: p in before ==> lowest <= p
      requires lowest - 1 <= found < previous
      requires found >= lowest ==> before[found] != 0
      requires forall p :: found < p < previous ==> before[p] == 0
      ensures IsTop(before - multiset{previous}, lowest, found)
    {
      var after := before - multiset{previous};
      forall p | p in after ensures p <= found {
        assert p in before && p <= previous;
      }
      if found >= lowest {
        assert found in after;
      } else {
        assert forall p :: p !in after;
      }
    }

    /** Tells the kernel when the highest ceiling has moved. */
    method Reschedule(top: int, newTop: int, kernel: Kernel) returns (refused: bool)
      requires top != newTop
      requires schedSet ==> schedparam == base
      requires !schedSet ==> running == base
      modifies this`priomax, this`schedparam, this`schedSet, this`policySet, this`running
      ensures priomax == newTop
      ensures refused <==> Refused(old(schedSet), old(policySet), kernel, base, top, newTop)
      ensures refused ==> running == old(running)
      ensures !refused && old(running) == Max(base, top) ==> running == Max(base, newTop)
      ensures (schedSet ==> schedparam == base) && (!schedSet ==> running == base)
      ensures schedSet == (old(schedSet) || kernel.getparam)
      ensures policySet == (old(policySet) || kernel.getscheduler)
    {
      priomax := newTop;
      refused := ReadScheduler(kernel);
      if !refused {
        var priority := schedparam;
        if priority < newTop || priority < top {
          if priority < newTop {
            priority := newTop;
          }
          if kernel.setscheduler {
            running := priority;
          } else {
            refused := true;
          }
        }
      }
    }

    /** Reads the thread's own priority and policy, each at most once. */
    method ReadScheduler(kernel: Kernel) returns (failed: bool)
      requires schedSet ==> schedparam == base
      requires !schedSet ==> running == base
      modifies this`schedparam, this`schedSet, this`policySet
      ensures schedSet ==> schedparam == base
      ensures schedSet == (old(schedSet) || kernel.getparam)
      ensures policySet == (old(policySet) || kernel.getscheduler)
      ensures failed <==> !schedSet || !policySet
    {
      failed := false;
      if !schedSet {
        if kernel.getparam {
          schedparam := running;
          schedSet := true;
        } else {
          failed := true;
        }
      }
      if !policySet {
        if kernel.getscheduler {
          policySet := true;
        } else {
          failed := true;
        }
      }
    }

    /** The thread's own priority, not the one lent to it by a ceiling, or -1 if it cannot be read. */
    method CurrentPriority(kernel: Kernel) returns (priority: int)
      requires Accounted()
      modifies this`schedparam, this`schedSet, this`policySet
      ensures Accounted()
      ensures schedSet == (old(schedSet) || kernel.getparam)
      ensures policySet == (old(policySet) || kernel.getscheduler)
      ensures priority == if schedSet && policySet then base else -1
    {
      if schedSet && policySet {
        return schedparam;
      }
      var failed := ReadScheduler(kernel);
      return if failed then -1 else schedparam;
    }

    /** The kernel runs the thread at the higher of its own priority and its highest ceiling. */
    ghost predicate RunsAtCeiling()
      reads this
    {
      && (exists top :: IsTop(held, lowest, top))
      && (forall top :: IsTop(held, lowest, top) ==> running == Max(base, top))
    }

    lemma ValidRunsAtCeiling()
      requires Valid()
      ensures RunsAtCeiling()
    {
      var highestHeld := Top();
      assert IsTop(held, lowest, highestHeld) && running == Max(base, highestHeld);
      forall top | IsTop(held, lowest, top) ensures top == highestHeld {
        TopIsUnique(held, lowest, top, highestHeld);
      }
    }

    /** Are the thread's own priority and policy known once the kernel has been asked? */
    ghost predicate Known(kernel: Kernel)
      reads this
    {
      (schedSet || kernel.getparam) && (policySet || kernel.getscheduler)
    }

    /** The change with which a lock or trylock begins. */
    method Charge(ceiling: int, memory: bool, kernel: Kernel) returns (result: Result)
      requires Accounted() && lowest <= ceiling <= highest
      modifies this, priomap
      ensures Accounted() && MapKept(old(priomap))
      ensures old(priomap) == null && priomap != null ==> fresh(priomap)
      ensures result != EINVAL && result != EBUSY
      ensures Changed(result) <==> old(held)[ceiling] < UINT_MAX && (memory || old(priomap) != null)
      ensures result == SchedulerError <==> Changed(result) && ceiling > old(Top()) &&
                                            Refused(old(schedSet), old(policySet), kernel, base, old(Top()), ceiling)
      ensures held == if Changed(result) then old(held) + multiset{ceiling} else old(held)
      ensures if result.SchedulerError? then running == old(running) else old(Valid()) ==> Valid()
    {
      TopIsRight();
      assert held[ceiling] <= UINT_MAX by {
        if priomap != null {
          assert Counter(ceiling) == held[ceiling];
        }
      }
      hide Counted, IsTop, Refused;
      result := ChangePriority(NONE, ceiling, memory, kernel);
      TopIsRight();
      TopGrows(old(held), old(Top()), ceiling);
    }

    /** `pthread_mutex_lock` of a priority-protect mutex, up to and including the charge. The thread's own
        priority is tested if it can be read. A ceiling stays charged exactly when the lock may go on, or
        ends in a scheduler error. */
    method Lock(ceiling: int, memory: bool, probe: Kernel, kernel: Kernel) returns (result: Result)
      requires Accounted() && lowest <= ceiling <= highest
      modifies this, priomap
      ensures Accounted() && MapKept(old(priomap))
      ensures old(priomap) == null && priomap != null ==> fresh(priomap)
      ensures result != EBUSY
      ensures result == EINVAL <==> old(Known(probe)) && base > ceiling
      ensures Changed(result) <==>
        result != EINVAL && old(held)[ceiling] < UINT_MAX && (memory || old(priomap) != null)
      ensures result == SchedulerError <==> Changed(result) && ceiling > old(Top()) &&
                                            old(RefusedAfter(probe, kernel, ceiling))
      ensures held == if Changed(result) then old(held) + multiset{ceiling} else old(held)
      ensures if result.SchedulerError? then running == old(running) else old(Valid()) ==> Valid()
    {
      hide Refused, Counted;
      var priority := CurrentPriority(probe);
      if priority > ceiling {
        return EINVAL;
      }
      result := Charge(ceiling, memory, kernel);
    }

    /** The scheduler's answer to a lock, which has asked for the thread's own priority before. */
    ghost predicate RefusedAfter(probe: Kernel, kernel: Kernel, ceiling: int)
      reads this
    {
      Refused(schedSet || probe.getparam, policySet || probe.getscheduler, kernel, base, Top(), ceiling)
    }

    lemma TopIsRight()
      requires Accounted()
      ensures IsTop(held, lowest, Top())
    {
    }

    /** The highest ceiling before and after a charge. */
    lemma TopGrows(before: multiset<int>, top: int, ceiling: int)
      requires IsTop(held, lowest, Top()) && IsTop(before, lowest, top) && lowest <= ceiling
      ensures held == before + multiset{ceiling} ==> Top() == Max(top, ceiling)
      ensures held == before ==> Top() == top
    {
      TopAfterTaking(before, lowest, top, ceiling);
      if held == before + multiset{ceiling} {
        TopIsUnique(held, lowest, Top(), Max(top, ceiling));
      }
      if held == before {
        TopIsUnique(held, lowest, Top(), top);
      }
    }

    /** `pthread_mutex_trylock`: a busy mutex makes it give the ceiling back, whatever the kernel then says. */
    method TryLock(ceiling: int, busy: bool, memory: bool, probe: Kernel, kernel: Kernel, undo: Kernel)
      returns (result: Result)
      requires Accounted() && lowest <= ceiling <= highest
      modifies this, priomap
      ensures Accounted() && MapKept(old(priomap))
      ensures old(priomap) == null && priomap != null ==> fresh(priomap)
      ensures result == EINVAL <==> old(Known(probe)) && base > ceiling
      ensures Changed(result) || result == EBUSY <==>
        result != EINVAL && old(held)[ceiling] < UINT_MAX && (memory || old(priomap) != null)
      ensures result == SchedulerError ==> ceiling > old(Top()) && old(RefusedAfter(probe, kernel, ceiling))
      ensures (result == EBUSY ==> busy) && (result == Success ==> !busy)
      ensures held == if Changed(result) then old(held) + multiset{ceiling} else old(held)
      ensures old(Valid()) && result != SchedulerError && undo == WILLING ==> Valid()
    {
      result := Lock(ceiling, memory, probe, kernel);
      if result == Success && busy {
        GiveBack(old(held), ceiling);
        var undone := ChangePriority(ceiling, NONE, memory, undo);
        result := EBUSY;
      }
    }

    /** The end of the unlock of a priority-protect mutex. */
    method Unlock(ceiling: int, kernel: Kernel) returns (result: Result)
      requires Accounted() && held[ceiling] > 0
      modifies this, priomap
      ensures Accounted() && priomap == old(priomap)
      ensures Changed(result) && held == old(held) - multiset{ceiling}
      ensures result == SchedulerError <==> Refused(old(schedSet), old(policySet), kernel, base, old(Top()), Top())
      ensures if result.SchedulerError? then running == old(running) else old(Valid()) ==> Valid()
    {
      result := ChangePriority(ceiling, NONE, true, kernel);
    }

    method Perform(call: Call)
      requires Valid() && lowest <= call.ceiling <= highest
      requires call.UnlockCall? ==> held[call.ceiling] > 0
      modifies this, priomap
      ensures Valid() && MapKept(old(priomap))
      ensures old(priomap) == null && priomap != null ==> fresh(priomap)
      ensures held == Account(old(held), base, call)
    {
      match call {
        case LockCall(c) => var r := Lock(c, true, WILLING, WILLING);
        case FreeTryLockCall(c) => var r := TryLock(c, false, true, WILLING, WILLING, WILLING);
        case BusyTryLockCall(c) => var r := TryLock(c, true, true, WILLING, WILLING, WILLING);
        case UnlockCall(c) => var r := Unlock(c, WILLING);
      }
    }
  }

  // ----- Whole sequences of calls ----------------------------------------------------------

  datatype Call =
    | LockCall(ceiling: int)
    | BusyTryLockCall(ceiling: int)
    | FreeTryLockCall(ceiling: int)
    | UnlockCall(ceiling: int)

  /** The ceilings held after a call, for a thread of the given own priority: the simple account
      that the counters, the cached maximum and the scan are meant to keep. */
  function Account(held: multiset<int>, base: int, call: Call): multiset<int> {
    var c := call.ceiling;
    match call
    case BusyTryLockCall(_) => held
    case UnlockCall(_) => held - multiset{c}
    case _ => if base > c || held[c] == UINT_MAX then held else held + multiset{c}
  }

  function AccountAll(base: int, calls: seq<Call>): multiset<int> {
    if calls == [] then multiset{} else Account(AccountAll(base, calls[..|calls| - 1]), base, calls[|calls| - 1])
  }

  /** Ceilings are in the scheduler's range and only held mutexes are unlocked. */
  predicate Disciplined(lowest: int, highest: int, base: int, calls: seq<Call>) {
    && (forall i :: 0 <= i < |calls| ==> lowest <= calls[i].ceiling <= highest)
    && (forall i :: 0 <= i < |calls| && calls[i].UnlockCall? ==> AccountAll(base, calls[..i])[calls[i].ceiling] > 0)
  }

  /** A lock that the scheduler refuses leaves its ceiling charged, although the mutex is not taken. */
  method RefusedLockStaysCharged() returns (thread: Priorities, result: Result)
    ensures result == SchedulerError && thread.held == multiset{10} && thread.running == 0
  {
    thread := new Priorities(1, 99, 0);
    result := thread.Lock(10, true, WILLING, Kernel(true, true, false));
  }

  /** After any sequence of calls the thread holds exactly the accounted ceilings and runs at the
      higher of its own priority and the highest of them. */
  method PerformAll(lowest: int, highest: int, base: int, calls: seq<Call>) returns (thread: Priorities)
    requires 0 <= lowest <= highest && lowest - 1 <= base && Disciplined(lowest, highest, base, calls)
    ensures fresh(thread) && thread.base == base && thread.lowest == lowest
    ensures thread.held == AccountAll(base, calls) && thread.RunsAtCeiling()
  {
    hide Account;
    thread := new Priorities(lowest, highest, base);
    var i := 0;
    while i < |calls|
      invariant 0 <= i <= |calls|
      invariant fresh(thread) && thread.base == base && thread.lowest == lowest && thread.highest == highest
      invariant thread.priomap != null ==> fresh(thread.priomap)
      invariant thread.Valid() && thread.held == AccountAll(base, calls[..i])
    {
      assert calls[..i + 1][..i] == calls[..i];
      thread.Perform(calls[i]);
      i := i + 1;
    }
    assert calls[..|calls|] == calls;
    thread.ValidRunsAtCeiling();
  }
}
