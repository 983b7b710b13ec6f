/** The compare-and-swap loops of the generic atomic macros on a 32-bit signed cell: read, maybe
    leave early, compute, try to swap, and start over when the cell has changed. Under any
    interleaving of any threads they act like atomic operations, and some thread always gets on. */
module CasLoops {

  import opened Counting

  datatype Operation =
    | Exchange(value: bv32)
    | Add(value: bv32)
    | Max(value: bv32)
    | Min(value: bv32)
    | DecrementIfPositive
    | TestAndSet(bit: bv32)   // atomic_bit_test_set
    | And(mask: bv32)
    | Or(mask: bv32)

  /** Two's complement order of 32-bit words. */
  predicate Less(x: bv32, y: bv32) {
    (x ^ 0x8000_0000) < (y ^ 0x8000_0000)
  }

  /** What an operation means when nothing interferes. */
  function Effect(op: Operation, word: bv32): bv32 {
    match op
    case Exchange(v) => v
    case Add(v) => word + v
    case Max(v) => if Less(word, v) then v else word
    case Min(v) => if Less(v, word) then v else word
    case DecrementIfPositive => if Less(0, word) then word - 1 else word
    case TestAndSet(bit) => word | Mask(bit)
    case And(mask) => word & mask
    case Or(mask) => word | mask
  }

  /** What it returns then: the old value, or the old value of the tested bit. */
  function Returned(op: Operation, word: bv32): bv32 {
    if op.TestAndSet? then word & Mask(op.bit) else word
  }

  function Mask(bit: bv32): bv32 {
    if bit < 32 then 1 << bit else 0
  }

  // ----- What the operations promise -------------------------------------------------------

  predicate Negative(x: bv32) {
    x & 0x8000_0000 != 0
  }

  /** The order is that of signed words: negative ones come first. */
  lemma OrderIsSigned(x: bv32, y: bv32)
    ensures Less(x, y) <==> if Negative(x) == Negative(y) then x < y else Negative(x)
  {
  }

  /** One of two words, and neither is on the wrong side of it. */
  predicate IsGreater(x: bv32, y: bv32, now: bv32) {
    (now == x || now == y) && !Less(now, x) && !Less(now, y)
  }

  predicate IsLesser(x: bv32, y: bv32, now: bv32) {
    (now == x || now == y) && !Less(x, now) && !Less(y, now)
  }

  predicate IsCountedDown(was: bv32, now: bv32) {
    if was == 0 || Negative(was) then now == was else now + 1 == was
  }

  /** The bits of the mask are on. */
  predicate AreOn(mask: bv32, now: bv32) {
    now & mask == mask
  }

  /** The bits outside the mask are as they were. */
  predicate RestKept(mask: bv32, was: bv32, now: bv32) {
    now & !mask == was & !mask
  }

  /** Each operation by its outcome. */
  predicate Promised(op: Operation, was: bv32, now: bv32) {
    match op
    case Exchange(v) => now == v
    case Add(v) => now == was + v
    case Max(v) => IsGreater(was, v, now)
    case Min(v) => IsLesser(was, v, now)
    case DecrementIfPositive => IsCountedDown(was, now)
    case TestAndSet(bit) => AreOn(Mask(bit), now) && RestKept(Mask(bit), was, now)
    case And(mask) => now == was & mask
    case Or(mask) => AreOn(mask, now) && RestKept(mask, was, now)
  }

  lemma OrSets(word: bv32, mask: bv32)
    ensures AreOn(mask, word | mask)
  {
  }

  lemma OrKeeps(word: bv32, mask: bv32)
    ensures RestKept(mask, word, word | mask)
  {
  }

  lemma PlainPromise(op: Operation, word: bv32)
    requires op.Exchange? || op.Add? || op.And?
    ensures Promised(op, word, Effect(op, word))
  {
  }

  lemma SettingPromise(op: Operation, word: bv32)
    requires op.TestAndSet? || op.Or?
    ensures Promised(op, word, Effect(op, word))
  {
    hide Mask, AreOn, RestKept;
    var mask := if op.Or? then op.mask else Mask(op.bit);
    OrSets(word, mask);
    OrKeeps(word, mask);
  }

  lemma OrderIsIrreflexive(x: bv32)
    ensures !Less(x, x)
  {
  }

  lemma OrderIsAsymmetric(x: bv32, y: bv32)
    requires Less(x, y)
    ensures !Less(y, x)
  {
  }

  lemma CountingDownPromise(op: Operation, word: bv32)
    requires op.DecrementIfPositive?
    ensures Promised(op, word, Effect(op, word))
  {
  }

  lemma BoundsPromise(op: Operation, word: bv32)
    requires op.Max? || op.Min?
    ensures Promised(op, word, Effect(op, word))
  {
    hide Less;
    OrderIsIrreflexive(word);
    OrderIsIrreflexive(op.value);
    if Less(word, op.value) {
      OrderIsAsymmetric(word, op.value);
    } else if Less(op.value, word) {
      OrderIsAsymmetric(op.value, word);
    }
  }

  /** The meaning of every operation keeps that promise. */
  lemma OperationsKeepPromises(op: Operation, word: bv32)
    ensures Promised(op, word, Effect(op, word))
  {
    hide Promised, Effect;
    match op {
      case Exchange(_) => PlainPromise(op, word);
      case Add(_) => PlainPromise(op, word);
      case Max(_) => BoundsPromise(op, word);
      case Min(_) => BoundsPromise(op, word);
      case DecrementIfPositive => CountingDownPromise(op, word);
      case TestAndSet(_) => SettingPromise(op, word);
      case And(_) => PlainPromise(op, word);
      case Or(_) => SettingPromise(op, word);
    }
  }

  /** A result tells the word that the operation found, or whether it found the bit set. */
  predicate Tells(op: Operation, found: bv32, result: bv32) {
    if op.TestAndSet? then result != 0 <==> found & Mask(op.bit) != 0 else result == found
  }

  lemma ReturnedTells(op: Operation, word: bv32)
    ensures Tells(op, word, Returned(op, word))
  {
  }

  lemma MaskIsOneBit(bit: bv32)
    ensures bit == 0 ==> Mask(bit) == 1
    ensures bit < 31 ==> Mask(bit + 1) == Mask(bit) + Mask(bit)
    ensures bit >= 32 ==> Mask(bit) == 0
  {
  }

  // ----- The loops -------------------------------------------------------------------------

  /** The early exits of the loops that have one. */
  predicate Leaves(op: Operation, read: bv32) {
    match op
    case Max(v) => !Less(read, v)
    case Min(v) => !Less(v, read)
    case DecrementIfPositive => !Less(0, read)
    case _ => false
  }

  /** The value that the loop tries to swap in. */
  function Stored(op: Operation, read: bv32): bv32 {
    match op
    case Exchange(v) => v
    case Add(v) => read + v
    case Max(v) => v
    case Min(v) => v
    case DecrementIfPositive => read - 1
    case TestAndSet(bit) => read | Mask(bit)
    case And(mask) => read & mask
    case Or(mask) => read | mask
  }

  /** A value at which the loop leaves early is one that the operation would not change; at any other,
      the value it swaps in is what the operation makes of the one it read. */
  lemma LoopsComputeEffects(op: Operation, read: bv32)
    ensures Effect(op, read) == if Leaves(op, read) then read else Stored(op, read)
  {
  }

  datatype Pc = Start | HasRead(value: bv32)

  /** The cell, what each thread has still to do, and what its finished operations returned. */
  datatype Memory = Memory(word: bv32, todo: seq<seq<Operation>>, results: seq<seq<bv32>>)

  datatype State = State(memory: Memory, pcs: seq<Pc>)

  /** A thread that goes on to swap has an operation, and has not read a value it leaves early at. */
  ghost predicate WellFormed(s: State) {
    && |s.memory.todo| == |s.memory.results| == |s.pcs|
    && (forall t :: 0 <= t < |s.pcs| && s.pcs[t].HasRead? ==>
          s.memory.todo[t] != [] && !Leaves(s.memory.todo[t][0], s.pcs[t].value))
  }

  predicate Runs(m: Memory, t: int) {
    0 <= t < |m.todo| && |m.todo| == |m.results| && m.todo[t] != []
  }

  function Finish(m: Memory, t: nat, word: bv32, result: bv32): Memory
    requires Runs(m, t)
  {
    Memory(word, m.todo[t := m.todo[t][1..]], m.results[t := m.results[t] + [result]])
  }

  /** Thread `t` reads, or leaves early, or tries to swap. */
  function Step(s: State, t: nat): State
    requires Runs(s.memory, t) && |s.pcs| == |s.memory.todo|
  {
    var op := s.memory.todo[t][0];
    match s.pcs[t]
    case Start =>
      var read := s.memory.word;
      if Leaves(op, read) then State(Finish(s.memory, t, read, Returned(op, read)), s.pcs)
      else s.(pcs := s.pcs[t := HasRead(read)])
    case HasRead(read) =>
      if s.memory.word == read
      then State(Finish(s.memory, t, Stored(op, read), Returned(op, read)), s.pcs[t := Start])
      else s.(pcs := s.pcs[t := Start])
  }

  /** Whether the next step of `t` is the one that takes effect. */
  predicate TakesEffect(s: State, t: nat)
    requires Runs(s.memory, t) && |s.pcs| == |s.memory.todo|
  {
    match s.pcs[t]
    case Start => Leaves(s.memory.todo[t][0], s.memory.word)
    case HasRead(read) => s.memory.word == read
  }

  // ----- The reference: one thread's next operation, all at once ---------------------------

  function Atomically(m: Memory, t: nat): Memory
    requires Runs(m, t)
  {
    var op := m.todo[t][0];
    Finish(m, t, Effect(op, m.word), Returned(op, m.word))
  }

  predicate Possible(m: Memory, order: seq<nat>)
    decreases |order|
  {
    order == [] || (Runs(m, order[0]) && Possible(Atomically(m, order[0]), order[1..]))
  }

  function InOrder(m: Memory, order: seq<nat>): Memory
    requires Possible(m, order)
    decreases |order|
  {
    if order == [] then m else InOrder(Atomically(m, order[0]), order[1..])
  }

  /** A step takes effect as exactly one atomic operation, or changes nothing that others see. */
  lemma StepRefines(s: State, t: nat)
    requires WellFormed(s) && Runs(s.memory, t)
    ensures WellFormed(Step(s, t))
    ensures Step(s, t).memory == if TakesEffect(s, t) then Atomically(s.memory, t) else s.memory
  {
  }

  /** A step that takes effect does to the cell what its operation promises, and adds its result, which
      comes from the word it found; any other leaves the cell and all results alone. */
  lemma StepsKeepPromises(s: State, t: nat)
    requires WellFormed(s) && Runs(s.memory, t)
    ensures var op, before, after := s.memory.todo[t][0], s.memory, Step(s, t).memory;
      if !TakesEffect(s, t) then after == before
      else
        && Promised(op, before.word, after.word)
        && |after.results[t]| == |before.results[t]| + 1
        && Tells(op, before.word, after.results[t][|before.results[t]|])
  {
    hide Promised, Tells, Effect, Returned, Mask;
    StepRefines(s, t);
    OperationsKeepPromises(s.memory.todo[t][0], s.memory.word);
    ReturnedTells(s.memory.todo[t][0], s.memory.word);
    hide Step, TakesEffect;
  }

  ghost predicate IsRun(start: Memory, run: seq<State>, schedule: seq<nat>) {
    && |run| == |schedule| + 1
    && |start.todo| == |start.results|
    && run[0] == State(start, seq(|start.todo|, _ => Start))
    && forall i :: 0 <= i < |schedule| ==>
         Runs(run[i].memory, schedule[i]) && |run[i].pcs| == |run[i].memory.todo|
         && run[i + 1] == Step(run[i], schedule[i])
  }

  lemma {:induction false} OneMore(m: Memory, order: seq<nat>, t: nat)
    requires Possible(m, order) && Runs(InOrder(m, order), t)
    ensures Possible(m, order + [t]) && InOrder(m, order + [t]) == Atomically(InOrder(m, order), t)
    decreases |order|
  {
    if order == [] {
      assert [t][1..] == [];
    } else {
      OneMore(Atomically(m, order[0]), order[1..], t);
      assert (order + [t])[1..] == order[1..] + [t];
    }
  }

  /** Linearizability: the cell, the results and the work left after any run are those of atomic
      operations done one after another, in the order in which the loops took effect. */
  lemma {:induction false} RunsAreLinearizable(start: Memory, run: seq<State>, schedule: seq<nat>)
    returns (order: seq<nat>)
    requires IsRun(start, run, schedule)
    ensures WellFormed(run[|schedule|])
    ensures Possible(start, order) && InOrder(start, order) == run[|schedule|].memory
    ensures order == Effective(run, schedule)
    decreases |schedule|
  {
    var n := |schedule|;
    if n == 0 {
      order := [];
    } else {
      assert forall i :: 0 <= i < n - 1 ==> schedule[..n - 1][i] == schedule[i];
      order := RunsAreLinearizable(start, run[..n], schedule[..n - 1]);
      StepRefines(run[n - 1], schedule[n - 1]);
      assert run[..n][..n] == run[..n];
      if TakesEffect(run[n - 1], schedule[n - 1]) {
        OneMore(start, order, schedule[n - 1]);
        order := order + [schedule[n - 1]];
      }
    }
  }

  /** The threads of the steps that took effect, in the order of the run. */
  function Effective(run: seq<State>, schedule: seq<nat>): seq<nat>
    requires |run| == |schedule| + 1
    requires forall i :: 0 <= i < |schedule| ==>
      Runs(run[i].memory, schedule[i]) && |run[i].pcs| == |run[i].memory.todo|
  {
    if schedule == [] then []
    else
      var n := |schedule| - 1;
      Effective(run[..n + 1], schedule[..n]) + if TakesEffect(run[n], schedule[n]) then [schedule[n]] else []
  }

  // ----- Progress --------------------------------------------------------------------------

  /** A read value that no longer matches: this attempt is bound to fail. */
  function Distance(word: bv32): Pc -> int {
    (pc: Pc) => match pc case Start => 2 case HasRead(v) => if v == word then 1 else 3
  }

  function ToDo(): seq<Operation> -> int {
    (ops: seq<Operation>) => |ops|
  }

  /** Operations left, each worth more than all threads' attempts together, and the attempts. */
  function Measure(s: State): int {
    Scaled(3 * |s.pcs| + 1, Total(s.memory.todo, ToDo()), Total(s.pcs, Distance(s.memory.word)))
  }

  /** A step that takes effect uses up an operation; any other brings its thread nearer to that. */
  lemma StepBrings(s: State, t: nat)
    requires WellFormed(s) && Runs(s.memory, t)
    ensures |Step(s, t).pcs| == |s.pcs|
    ensures TakesEffect(s, t) ==> Step(s, t).memory.todo == s.memory.todo[t := s.memory.todo[t][1..]]
    ensures !TakesEffect(s, t) ==>
      && Step(s, t).memory == s.memory
      && Step(s, t).pcs == s.pcs[t := Step(s, t).pcs[t]]
      && Distance(s.memory.word)(Step(s, t).pcs[t]) < Distance(s.memory.word)(s.pcs[t])
  {
  }

  lemma MeasureDrops(s: State, t: nat)
    requires WellFormed(s) && Runs(s.memory, t)
    ensures Measure(Step(s, t)) < Measure(s)
  {
    var s' := Step(s, t);
    StepBrings(s, t);
    TotalBounds(s.pcs, Distance(s.memory.word), 1, 3);
    TotalBounds(s'.pcs, Distance(s'.memory.word), 1, 3);
    hide Step, Distance;
    if TakesEffect(s, t) {
      TotalUpdate(s.memory.todo, t, s.memory.todo[t][1..], ToDo());
      Outweighs(3 * |s.pcs| + 1, Total(s'.memory.todo, ToDo()), Total(s.memory.todo, ToDo()),
                Total(s'.pcs, Distance(s'.memory.word)), Total(s.pcs, Distance(s.memory.word)));
    } else {
      TotalUpdate(s.pcs, t, s'.pcs[t], Distance(s.memory.word));
    }
  }

  lemma {:induction false} MeasureBoundsRun(start: Memory, run: seq<State>, schedule: seq<nat>)
    requires IsRun(start, run, schedule)
    ensures WellFormed(run[|schedule|]) && Measure(run[|schedule|]) + |schedule| <= Measure(run[0])
    decreases |schedule|
  {
    var n := |schedule|;
    if n > 0 {
      assert forall i :: 0 <= i < n - 1 ==> schedule[..n - 1][i] == schedule[i];
      MeasureBoundsRun(start, run[..n], schedule[..n - 1]);
      StepRefines(run[n - 1], schedule[n - 1]);
      MeasureDrops(run[n - 1], schedule[n - 1]);
    }
  }

  /** Lock freedom: however the threads are scheduled, `n` threads with `m` operations in all take at
      most (3n + 1)m + 2n steps, and one that still has an operation can always take another. So a
      run that cannot go on has finished every operation. */
  lemma EveryWorkloadFinishes(start: Memory, run: seq<State>, schedule: seq<nat>)
    requires IsRun(start, run, schedule)
    ensures |schedule| <= Scaled(3 * |start.todo| + 1, Total(start.todo, ToDo()), 2 * |start.todo|)
    ensures var last := run[|schedule|].memory;
      (forall t :: !Runs(last, t)) <==> (forall t :: 0 <= t < |last.todo| ==> last.todo[t] == [])
  {
    MeasureBoundsRun(start, run, schedule);
    var last := run[|schedule|];
    TotalBounds(last.pcs, Distance(last.memory.word), 0, 3);
    TotalBounds(run[0].pcs, Distance(start.word), 2, 2);
    TotalNonnegative(last.memory.todo, ToDo());
    ScaledNonnegative(3 * |last.pcs| + 1, Total(last.memory.todo, ToDo()), Total(last.pcs, Distance(last.memory.word)));
    if forall t :: !Runs(last.memory, t) {
      forall t | 0 <= t < |last.memory.todo| ensures last.memory.todo[t] == [] {
        assert !Runs(last.memory, t);
      }
    }
  }

  // ----- The loops as the code runs them ---------------------------------------------------

  class Cell {
    var word: bv32

    constructor (word: bv32)
      ensures this.word == word
    {
      this.word := word;
    }

    /** `atomic_compare_and_exchange_bool_acq`: true is failure. */
    method CompareAndExchange(newval: bv32, oldval: bv32) returns (failed: bool)
      modifies this
      ensures failed == (old(word) != oldval)
      ensures word == if failed then old(word) else newval
    {
      failed := word != oldval;
      if !failed {
        word := newval;
      }
    }

    /** A macro's loop, while others store the values of `interference`, one between each read and
        the following swap. It acts on the last value `before` that others left there. */
    method Loop(op: Operation, interference: seq<bv32>) returns (result: bv32, ghost before: bv32)
      modifies this
      ensures word == Effect(op, before) && result == Returned(op, before)
      ensures Promised(op, before, word) && Tells(op, before, result)
      ensures before == old(word) || before in interference
      ensures interference == [] ==> before == old(word)
    {
      hide Effect, Returned, Leaves, Stored, Promised, Tells;
      var i := 0;
      var read := word;
      while !Leaves(op, read)
        invariant 0 <= i <= |interference| && read == word
        invariant read == old(word) || read in interference[..i]
        decreases |interference| - i
      {
        if i < |interference| {
          word := interference[i];
        }
        var failed := CompareAndExchange(Stored(op, read), read);
        if !failed {
          break;
        }
        read := word;
        i := i + 1;
      }
      LoopsComputeEffects(op, read);
      OperationsKeepPromises(op, read);
      ReturnedTells(op, read);
      before := read;
      result := Returned(op, read);
    }
  }
}
