/** Thread indexes and thread levels: the profiler splits a run into serial and parallel phases, and
    gives each parallel phase the range of threads created in it. */
module ThreadLevels {

  const MAX_THREADS := 2048
  const MAX_ALIVE_THREADS := 128
  const MAX_THREAD_LEVELS := 256

  datatype Level = Level(begin: nat, end: nat)

  /** `recorded[i]` is the level stored with thread `i`; `created` and `joined` are history. */
  datatype State = State(index: nat, alive: nat, level: nat, multithreading: bool, levels: seq<Level>,
                         recorded: seq<nat>, created: nat, joined: nat)

  datatype Op = Create | Join

  /** The program's threads: a created thread is joined at most once, and the level and thread tables
      are not overrun. */
  predicate Allowed(s: State, op: Op) {
    match op
    case Create =>
      s.index < MAX_THREADS && s.alive < MAX_ALIVE_THREADS && (s.alive == 1 ==> s.level + 1 < MAX_THREAD_LEVELS)
    case Join => s.joined + 1 < s.created && (s.alive == 2 ==> s.level + 1 < MAX_THREAD_LEVELS)
  }

  function StartLevel(s: State, level: nat, thread: nat): State {
    if level < |s.levels| then s.(level := level, levels := s.levels[level := Level(thread, thread)]) else s
  }

  function Apply(s: State, op: Op): State
    requires |s.levels| == MAX_THREAD_LEVELS && s.level < MAX_THREAD_LEVELS
  {
    match op
    case Create =>
      var thread := s.index;
      var s' := s.(index := thread + 1, alive := s.alive + 1, recorded := s.recorded + [s.level],
                   created := s.created + 1);
      if s.alive == 0 then StartLevel(s', s.level, thread)
      else if s.alive == 1 then StartLevel(s', s.level + 1, thread).(multithreading := true)
      else if s.levels[s.level].end < thread
        then s'.(levels := s.levels[s.level := s.levels[s.level].(end := thread)])
      else s'
    case Join =>
      var s' := s.(alive := if s.alive == 0 then 0 else s.alive - 1, joined := s.joined + 1);
      if s'.alive == 1 then StartLevel(s', s.level + 1, s.index).(multithreading := false) else s'
  }

  function NoLevels(): seq<Level> {
    seq(MAX_THREAD_LEVELS, _ => Level(0, 0))
  }

  /** The zeroed tables, and the state after the initial thread has taken index 0. */
  const ZEROED := State(0, 0, 0, false, NoLevels(), [], 0, 0)

  function Initial(): State {
    Apply(ZEROED, Create)
  }

  // ----- The parallel levels partition the threads -----------------------------------------

  /** The parallel phases are the odd levels; phase `p` is level 2p + 1. */
  function Phases(s: State): nat {
    (s.level + 1) / 2
  }

  function Phase(s: State, p: nat): Level
    requires |s.levels| == MAX_THREAD_LEVELS && s.level < MAX_THREAD_LEVELS && p < Phases(s)
  {
    s.levels[2 * p + 1]
  }

  predicate WithinTables(s: State) {
    |s.levels| == MAX_THREAD_LEVELS && s.level < MAX_THREAD_LEVELS && s.index >= 1
  }

  /** The ranges of the phases are nonempty and consecutive, from thread 1 to the newest. */
  predicate Partitioned(s: State) {
    && WithinTables(s)
    && (forall p :: 0 <= p < Phases(s) ==> Phase(s, p).begin <= Phase(s, p).end)
    && (forall p, q :: 0 <= p && q == p + 1 < Phases(s) ==> Phase(s, q).begin == Phase(s, p).end + 1)
    && (if Phases(s) == 0 then s.index == 1
        else Phase(s, 0).begin == 1 && Phase(s, Phases(s) - 1).end == s.index - 1)
  }

  predicate InPhase(s: State, p: nat, i: nat)
    requires WithinTables(s)
  {
    p < Phases(s) && Phase(s, p).begin <= i <= Phase(s, p).end
  }

  ghost predicate InOnePhase(s: State, i: nat)
    requires WithinTables(s)
  {
    exists p :: InPhase(s, p, i) && forall q :: InPhase(s, q, i) ==> q == p
  }

  /** A thread records the level it was created in, except that the first thread of a parallel phase
      records the serial level before it: the number is stored before it is advanced. */
  ghost predicate RecordOk(s: State, i: nat)
    requires WithinTables(s)
  {
    i < |s.recorded| &&
    forall p: nat :: InPhase(s, p, i) ==> s.recorded[i] == if i == Phase(s, p).begin then 2 * p else 2 * p + 1
  }

  /** The counts, and what they say about the current level. */
  predicate ScalarsOk(s: State) {
    && s.alive >= 1
    && s.alive == s.created - s.joined
    && s.created == s.index == |s.recorded|
    && (s.multithreading <==> s.alive > 1)
    && (s.multithreading <==> s.level % 2 == 1)
  }

  ghost predicate Valid(s: State) {
    && Partitioned(s)
    && ScalarsOk(s)
    && forall i :: 0 <= i < s.index ==> RecordOk(s, i)
  }

  lemma {:induction false} PhasesIncrease(s: State, p: nat, q: nat)
    requires Partitioned(s) && p < q < Phases(s)
    ensures Phase(s, p).end < Phase(s, q).begin
    decreases q
  {
    if p + 1 < q {
      PhasesIncrease(s, p, q - 1);
      assert Phase(s, q - 1).begin <= Phase(s, q - 1).end;
    }
  }

  lemma PhaseWithin(s: State, p: nat)
    requires Partitioned(s) && p < Phases(s)
    ensures 1 <= Phase(s, p).begin && Phase(s, p).end < s.index
  {
    if p > 0 {
      PhasesIncrease(s, 0, p);
    }
    if p < Phases(s) - 1 {
      PhasesIncrease(s, p, Phases(s) - 1);
      assert Phase(s, Phases(s) - 1).begin <= Phase(s, Phases(s) - 1).end;
    }
  }

  lemma {:induction false} Locate(s: State, i: nat, last: nat) returns (p: nat)
    requires Partitioned(s) && last < Phases(s) && 1 <= i <= Phase(s, last).end
    ensures InPhase(s, p, i)
    decreases last
  {
    if Phase(s, last).begin <= i {
      p := last;
    } else {
      p := Locate(s, i, last - 1);
    }
  }

  /** The phase a thread was created in: every thread but the initial one has exactly one, and no other
      index has any. */
  lemma PhasesPartitionThreads(s: State, i: nat)
    requires Partitioned(s)
    ensures 1 <= i < s.index <==> exists p :: InPhase(s, p, i)
    ensures forall p, q :: InPhase(s, p, i) && InPhase(s, q, i) ==> p == q
    ensures 1 <= i < s.index <==> InOnePhase(s, i)
  {
    if 1 <= i < s.index {
      var p := Locate(s, i, Phases(s) - 1);
    }
    forall p | InPhase(s, p, i) ensures 1 <= i < s.index {
      PhaseWithin(s, p);
    }
    forall p, q | InPhase(s, p, i) && InPhase(s, q, i) ensures p == q {
      if p < q {
        PhasesIncrease(s, p, q);
      } else if q < p {
        PhasesIncrease(s, q, p);
      }
    }
  }

  /** The phases of `s'` are those of `s`, with the last one extended or one more begun. */
  predicate Grows(s: State, s': State)
    requires WithinTables(s) && WithinTables(s')
  {
    && Phases(s) <= Phases(s') <= Phases(s) + 1
    && (forall p :: 0 <= p < Phases(s) ==> Phase(s', p).begin == Phase(s, p).begin)
    && (forall p :: 0 <= p < Phases(s) ==>
         Phase(s', p).end == Phase(s, p).end || (p == Phases(s') - 1 && Phase(s', p).end == s.index))
  }

  lemma NewPhase(s: State)
    requires Valid(s) && Allowed(s, Create) && s.alive == 1
    ensures var s' := Apply(s, Create); Partitioned(s') && Grows(s, s') && Phases(s') == Phases(s) + 1
    ensures var s' := Apply(s, Create); Phase(s', Phases(s)) == Level(s.index, s.index) && s.level == 2 * Phases(s)
  {
    var s' := Apply(s, Create);
    assert s'.levels == s.levels[s.level + 1 := Level(s.index, s.index)];
    assert forall p :: 0 <= p < Phases(s) ==> Phase(s', p) == Phase(s, p);
  }

  lemma SamePhase(s: State)
    requires Valid(s) && Allowed(s, Create) && s.alive > 1
    ensures var s' := Apply(s, Create); Partitioned(s') && Grows(s, s') && Phases(s') == Phases(s) > 0
    ensures var s' := Apply(s, Create); Phase(s', Phases(s) - 1).end == s.index && s.level == 2 * Phases(s) - 1
  {
    var s' := Apply(s, Create);
    var last := Phases(s) - 1;
    assert Phase(s, last) == s.levels[s.level] && Phase(s, last).end == s.index - 1;
    assert s'.levels == s.levels[s.level := s.levels[s.level].(end := s.index)];
    assert forall p :: 0 <= p < last ==> Phase(s', p) == Phase(s, p);
  }

  lemma EndPhase(s: State)
    requires Valid(s) && Allowed(s, Join)
    ensures var s' := Apply(s, Join); Partitioned(s') && Grows(s, s') && Phases(s') == Phases(s)
  {
    var s' := Apply(s, Join);
    assert s'.levels == s.levels || s'.levels == s.levels[s.level + 1 := Level(s.index, s.index)];
    assert forall p :: 0 <= p < Phases(s) ==> Phase(s', p) == Phase(s, p);
  }

  lemma PartitionStays(s: State, op: Op)
    requires Valid(s) && Allowed(s, op)
    ensures Partitioned(Apply(s, op)) && Grows(s, Apply(s, op))
  {
    if op == Join {
      EndPhase(s);
    } else if s.alive == 1 {
      NewPhase(s);
    } else {
      SamePhase(s);
    }
  }

  /** The record of the thread just created. */
  lemma NewRecord(s: State)
    requires Valid(s) && Allowed(s, Create)
    ensures var s' := Apply(s, Create); Partitioned(s') && RecordOk(s', s.index)
  {
    var s' := Apply(s, Create);
    if s.alive == 1 {
      NewPhase(s);
    } else {
      SamePhase(s);
    }
    PhasesPartitionThreads(s', s.index);
    assert InPhase(s', Phases(s') - 1, s.index) by {
      assert Phase(s', Phases(s') - 1).begin <= Phase(s', Phases(s') - 1).end;
    }
    if s.alive > 1 {
      assert Phase(s', Phases(s') - 1).begin == Phase(s, Phases(s) - 1).begin <= Phase(s, Phases(s) - 1).end;
    }
  }

  lemma OldRecord(s: State, s': State, i: nat)
    requires Partitioned(s) && Partitioned(s') && Grows(s, s') && RecordOk(s, i)
    requires i < s.index <= s'.index && |s.recorded| <= |s'.recorded| && s'.recorded[i] == s.recorded[i]
    ensures RecordOk(s', i)
  {
    PhasesPartitionThreads(s', i);
    PhasesPartitionThreads(s, i);
    forall p: nat | InPhase(s', p, i) ensures s'.recorded[i] == if i == Phase(s', p).begin then 2 * p else 2 * p + 1 {
      var q :| InPhase(s, q, i);
      assert InPhase(s', q, i);
    }
  }

  lemma ScalarsStay(s: State, op: Op)
    requires Valid(s) && Allowed(s, op)
    ensures var s' := Apply(s, op);
      ScalarsOk(s') && s'.index == (if op == Create then s.index + 1 else s.index) && s.recorded <= s'.recorded
  {
  }

  lemma StepKeepsValid(s: State, op: Op)
    requires Valid(s) && Allowed(s, op)
    ensures Valid(Apply(s, op))
  {
    hide Apply;
    var s' := Apply(s, op);
    PartitionStays(s, op);
    ScalarsStay(s, op);
    forall i | 0 <= i < s'.index ensures RecordOk(s', i) {
      if i < s.index {
        assert RecordOk(s, i);
        OldRecord(s, s', i);
      } else {
        NewRecord(s);
      }
    }
  }

  lemma InitialTables()
    ensures Initial() == State(1, 1, 0, false, NoLevels(), [0], 1, 0)
  {
    assert NoLevels()[0 := Level(0, 0)] == NoLevels();
  }

  /** With one thread alive and nothing created yet there is no parallel phase. */
  lemma SerialStartIsValid(s: State)
    requires |s.levels| == MAX_THREAD_LEVELS && s.level == 0 && s.index == 1 && s.recorded == [0]
    requires s.alive == 1 && s.created == 1 && s.joined == 0 && !s.multithreading
    ensures Valid(s)
  {
  }

  lemma InitialValid()
    ensures Valid(Initial())
  {
    InitialTables();
    assert |NoLevels()| == MAX_THREAD_LEVELS;
    hide *;
    SerialStartIsValid(Initial());
  }

  ghost predicate IsRun(run: seq<State>, ops: seq<Op>) {
    && |run| == |ops| + 1
    && run[0] == Initial()
    && forall i :: 0 <= i < |ops| ==>
         WithinTables(run[i]) && Allowed(run[i], ops[i]) && run[i + 1] == Apply(run[i], ops[i])
  }

  lemma {:induction false} RunsKeepValid(run: seq<State>, ops: seq<Op>, n: nat)
    requires IsRun(run, ops) && n <= |ops|
    ensures Valid(run[n])
  {
    hide Apply, Initial;
    if n == 0 {
      InitialValid();
    } else {
      RunsKeepValid(run, ops, n - 1);
      StepKeepsValid(run[n - 1], ops[n - 1]);
    }
  }

  /** In every run of creations and joins: the alive count is creations less joins, the program counts
      as multithreaded exactly when more than one thread is alive, which is exactly when the level is
      odd, and each created thread belongs to exactly one parallel phase. */
  lemma ReachableLevels(run: seq<State>, ops: seq<Op>, n: nat)
    requires IsRun(run, ops) && n <= |ops|
    ensures var s := run[n];
      && s.alive == s.created - s.joined
      && (s.multithreading <==> s.alive > 1)
      && (s.multithreading <==> s.level % 2 == 1)
      && WithinTables(s)
      && s.index == s.created
    ensures forall i: nat :: 1 <= i < run[n].index <==> InOnePhase(run[n], i)
  {
    RunsKeepValid(run, ops, n);
    forall i: nat ensures 1 <= i < run[n].index <==> InOnePhase(run[n], i) {
      PhasesPartitionThreads(run[n], i);
    }
  }

  /** A thread's recorded level is the phase it runs in exactly when it did not begin that phase. */
  lemma RecordedLevelIsOwnPhaseIff(s: State, p: nat, i: nat)
    requires Valid(s) && InPhase(s, p, i)
    ensures i < |s.recorded| && (s.recorded[i] == 2 * p + 1 <==> i != Phase(s, p).begin)
  {
    PhasesPartitionThreads(s, i);
    assert RecordOk(s, i);
  }

  /** What a creation can be asked in advance: the new thread records its own phase exactly when more
      than one thread is already alive. */
  lemma NewThreadRecordsOwnPhaseIff(s: State)
    requires Valid(s) && Allowed(s, Create)
    ensures var s' := Apply(s, Create);
      && WithinTables(s') && Phases(s') > 0 && InPhase(s', Phases(s') - 1, s.index) && s.index < |s'.recorded|
      && (s'.recorded[s.index] == 2 * (Phases(s') - 1) + 1 <==> s.alive > 1)
  {
    var s' := Apply(s, Create);
    NewRecord(s);
    if s.alive == 1 {
      NewPhase(s);
    } else {
      SamePhase(s);
      assert Phase(s, Phases(s) - 1).begin <= Phase(s, Phases(s) - 1).end < s.index by {
        PhaseWithin(s, Phases(s) - 1);
      }
    }
    assert Phase(s', Phases(s') - 1).begin <= Phase(s', Phases(s') - 1).end == s.index;
  }

  /** The first created thread already records the serial level 0 although it begins level 1. */
  lemma FirstThreadRecordsSerialLevel()
    ensures var s := Apply(Initial(), Create);
      WithinTables(s) && InPhase(s, 0, 1) && s.recorded[1] == 0 && s.level == 1
  {
  }

  // ----- The tables as the profiler updates them --------------------------------------------

  datatype Allocation = Allocated(index: nat) | Aborted | Overrun

  class ThreadTable {
    var threadIndex: nat
    var aliveThreads: nat
    var threadLevel: nat
    var isMultithreading: bool
    var levelInfo: array<Level>
    var levelIndex: array<nat>  // the level recorded with each thread
    ghost var created: nat
    ghost var joined: nat

    ghost predicate Wellformed()
      reads this
    {
      levelInfo.Length == MAX_THREAD_LEVELS && levelIndex.Length == MAX_THREADS && threadIndex <= MAX_THREADS
    }

    ghost function Abs(): State
      requires Wellformed()
      reads this, levelInfo, levelIndex
    {
      State(threadIndex, aliveThreads, threadLevel, isMultithreading, levelInfo[..], levelIndex[..threadIndex],
            created, joined)
    }

    /** Creates the tables and takes index 0 for the initial thread. */
    constructor ()
      ensures Wellformed() && fresh(levelInfo) && fresh(levelIndex)
      ensures Abs() == Initial()
    {
      levelInfo := new Level[MAX_THREAD_LEVELS](_ => Level(0, 0));
      levelIndex := new nat[MAX_THREADS](_ => 0);
      threadIndex, aliveThreads, threadLevel, isMultithreading := 1, 1, 0, false;
      created, joined := 1, 0;
      new;
      hide Apply;
      InitialTables();
      assert levelInfo[..] == NoLevels();
      assert levelIndex[..threadIndex] == [0];
    }

    method StartThreadLevel(thread: nat)
      requires threadLevel < levelInfo.Length
      modifies levelInfo
      ensures levelInfo[..] == old(levelInfo[..])[threadLevel := Level(thread, thread)]
    {
      levelInfo[threadLevel] := Level(thread, thread);
    }

    /** Too many threads, or too many alive at once, end the program. A level too many is not tested
        for: then the source writes behind its table. */
    method AllocThreadIndex() returns (allocation: Allocation)
      requires Wellformed() && Valid(Abs())
      modifies this, levelInfo, levelIndex
      ensures allocation == Aborted <==> old(threadIndex) >= MAX_THREADS || old(aliveThreads) >= MAX_ALIVE_THREADS
      ensures allocation == Overrun <==>
        allocation != Aborted && old(aliveThreads) == 1 && old(threadLevel) + 1 >= MAX_THREAD_LEVELS
      ensures allocation.Allocated? ==>
        Wellformed() && levelInfo == old(levelInfo) && levelIndex == old(levelIndex)
        && allocation.index == old(threadIndex) && Abs() == Apply(old(Abs()), Create) && Valid(Abs())
    {
      var i := threadIndex;
      var alive := aliveThreads;
      ghost var before := Abs();
      threadIndex := threadIndex + 1;
      aliveThreads := aliveThreads + 1;
      if i >= MAX_THREADS || alive >= MAX_ALIVE_THREADS {
        return Aborted;
      }
      if alive == 1 && threadLevel + 1 >= MAX_THREAD_LEVELS {
        return Overrun;
      }
      StepKeepsValid(before, Create);
      created := created + 1;
      levelIndex[i] := threadLevel;
      assert levelIndex[..threadIndex] == before.recorded + [threadLevel];
      if alive == 1 {
        isMultithreading := true;
        threadLevel := threadLevel + 1;
        StartThreadLevel(i);
      } else if levelInfo[threadLevel].end < i {
        levelInfo[threadLevel] := levelInfo[threadLevel].(end := i);
      }
      return Allocated(i);
    }

    /** `overrun` as above. */
    method MarkThreadExit() returns (overrun: bool)
      requires Wellformed() && Valid(Abs()) && joined + 1 < created
      modifies this, levelInfo
      ensures overrun <==> old(aliveThreads) == 2 && old(threadLevel) + 1 >= MAX_THREAD_LEVELS
      ensures !overrun ==> Wellformed() && levelInfo == old(levelInfo) && levelIndex == old(levelIndex)
      ensures !overrun ==> Abs() == Apply(old(Abs()), Join) && Valid(Abs())
    {
      if aliveThreads == 2 && threadLevel + 1 >= MAX_THREAD_LEVELS {
        return true;
      }
      StepKeepsValid(Abs(), Join);
      aliveThreads := aliveThreads - 1;
      joined := joined + 1;
      if aliveThreads == 1 {
        isMultithreading := false;
        threadLevel := threadLevel + 1;
        StartThreadLevel(threadIndex);
      }
      return false;
    }
  }
}
