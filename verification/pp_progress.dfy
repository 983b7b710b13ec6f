/** Finite workloads on a priority-protect mutex finish: the exchanges of the inner loop, which may fail
    again and again, cannot do so forever, and no sleeper is left behind. */
module PPProgress {
  import opened Counting
  import opened PPLock

  /** `left[t]` lock/unlock pairs are still to be done by thread `t`, the one it is in included. A failed
      trylock uses up one. */
  datatype Work = Work(s: State, left: seq<nat>)

  predicate Ready(w: Work, a: Action) {
    && |w.left| == |w.s.pcs|
    && Enabled(w.s, a)
    && !a.Interrupt?
    && (a.Begin? ==> w.left[a.t] > 0)
    && (a.TryOwn? ==> w.left[a.t] > 1)
  }

  function Advance(w: Work, a: Action): Work
    requires Ready(w, a)
  {
    var s' := Apply(w.s, a);
    if (s'.pcs[a.t] == Idle && w.left[a.t] > 0) || a.TryOwn?
    then Work(s', w.left[a.t := w.left[a.t] - 1])
    else Work(s', w.left)
  }

  predicate Sound(w: Work, ceilval: nat) {
    && Safe(w.s, ceilval)
    && |w.left| == |w.s.pcs|
    && forall t :: 0 <= t < |w.left| && w.s.pcs[t] != Idle ==> w.left[t] > 0
  }

  predicate Finished(w: Work) {
    forall t :: 0 <= t < |w.left| ==> w.left[t] == 0
  }

  lemma AdvanceIsSound(w: Work, ceilval: nat, a: Action)
    requires Sound(w, ceilval) && Ready(w, a)
    ensures Sound(Advance(w, a), ceilval)
  {
    StepIsSafe(w.s, ceilval, a);
    hide Safe, CeilingBits, LowBits;
  }

  /** Some thread can move while work is left, without a spurious wakeup. */
  lemma NeverStuck(w: Work, ceilval: nat) returns (a: Action)
    requires Sound(w, ceilval) && !Finished(w)
    ensures Ready(w, a)
  {
    if t :| 0 <= t < |w.left| && !w.s.pcs[t].Idle? && !w.s.pcs[t].Asleep? {
      a := NextOf(w, t);
    } else {
      assert forall u :: 0 <= u < |w.s.pcs| ==> !Owner()(w.s.pcs[u]) && !Helper()(w.s.pcs[u]);
      var t :| 0 <= t < |w.left| && w.left[t] > 0;
      assert Sleeper()(w.s.pcs[t]) ==> Somewhere(w.s, Sleeper());
      a := Begin(t, LockCall);
    }
  }

  /** What a thread that is neither outside nor asleep does next. */
  lemma NextOf(w: Work, t: nat) returns (a: Action)
    requires |w.left| == |w.s.pcs| && t < |w.left| && !w.s.pcs[t].Idle? && !w.s.pcs[t].Asleep?
    ensures Ready(w, a)
  {
    if w.s.pcs[t] == Holding {
      a := BeginUnlock(t);
    } else if w.s.pcs[t] != WakeOne {
      a := Step(t);
    } else if v :| 0 <= v < |w.s.pcs| && w.s.pcs[v].Asleep? {
      a := FutexWake(t, Some(v));
    } else {
      a := FutexWake(t, None);
    }
  }

  // ----- The measure -----------------------------------------------------------------------

  function Ahead(): ((Pc, nat)) -> int {
    (p: (Pc, nat)) =>
      3 * p.1 - (match p.0 case Holding => 1 case UnlockRead => 1 case UnlockCas(_) => 1 case WakeOne => 2 case _ => 0)
  }

  /** How many steps away a thread is from sleeping, acquiring, marking or releasing, while the word
      stays as it is. */
  function Rank(word: nat, ceilval: nat): Pc -> int {
    (pc: Pc) =>
      match pc
      case Idle => 6
      case FirstCas(_, _) => 5
      case MarkCas(_, _) => if word == ceilval then 4 else if word == ceilval + 1 then 2 else 3
      case WaitCall(_, _) => if word == ceilval + 2 then 2 else 4
      case RetryCas(_, _) => if word == ceilval + 2 then 4 else 3
      case Asleep(_, _) => 1
      case Holding => 4
      case UnlockRead => 2
      case UnlockCas(oldval) => if oldval == word then 1 else 3
      case WakeOne => 0
  }

  function Paired(w: Work): seq<(Pc, nat)>
    requires |w.left| == |w.s.pcs|
  {
    seq(|w.left|, i requires 0 <= i < |w.left| => (w.s.pcs[i], w.left[i]))
  }

  function Scale(w: Work): nat {
    6 * |w.s.pcs| + 1
  }

  /** A locked word is marked as contended at most once before it is free again. */
  function Effort(w: Work, ceilval: nat): int {
    (if w.s.word == ceilval + 1 then Scale(w) else 0) + Total(w.s.pcs, Rank(w.s.word, ceilval))
  }

  function Measure(w: Work, ceilval: nat): int
    requires |w.left| == |w.s.pcs|
  {
    Scaled(2 * Scale(w), Total(Paired(w), Ahead()), Effort(w, ceilval))
  }

  lemma EffortBounds(w: Work, ceilval: nat)
    ensures 0 <= Total(w.s.pcs, Rank(w.s.word, ceilval)) < Scale(w)
    ensures 0 <= Effort(w, ceilval) < 2 * Scale(w)
  {
    TotalBounds(w.s.pcs, Rank(w.s.word, ceilval), 0, 6);
  }

  /** Only a wake moves a second thread, and that one gets no nearer to its end. */
  lemma PairedAfterStep(w: Work, a: Action)
    requires Ready(w, a)
    ensures |w.s.pcs| == |Advance(w, a).s.pcs| == |Advance(w, a).left|
    ensures var w' := Advance(w, a); var moved := Paired(w)[a.t := Paired(w')[a.t]];
      if a.FutexWake? && a.victim.Some? then
        var v := a.victim.value;
        v < |moved| && Paired(w') == moved[v := Paired(w')[v]] && Ahead()(Paired(w')[v]) == Ahead()(moved[v])
      else Paired(w') == moved
  {
  }

  lemma AheadAfterStep(w: Work, a: Action)
    requires Ready(w, a)
    ensures |w.s.pcs| == |Advance(w, a).s.pcs| == |Advance(w, a).left|
    ensures var w' := Advance(w, a);
      Total(Paired(w'), Ahead()) == Total(Paired(w), Ahead()) - Ahead()(Paired(w)[a.t]) + Ahead()(Paired(w')[a.t])
  {
    PairedAfterStep(w, a);
    var w' := Advance(w, a);
    hide Advance, Ahead, Ready;
    var moved := Paired(w)[a.t := Paired(w')[a.t]];
    TotalUpdate(Paired(w), a.t, Paired(w')[a.t], Ahead());
    if a.FutexWake? && a.victim.Some? {
      TotalUpdate(moved, a.victim.value, Paired(w')[a.victim.value], Ahead());
    }
  }

  /** What a step brings: a thread nearer to the end of its work, a mark on the word, or a thread
      nearer to one of these under the same word. */
  lemma StepBrings(w: Work, ceilval: nat, a: Action)
    requires Sound(w, ceilval) && Ready(w, a)
    ensures |w.s.pcs| == |Advance(w, a).s.pcs| == |Advance(w, a).left|
    ensures var w' := Advance(w, a); var p, p' := w.s.pcs[a.t], w'.s.pcs[a.t];
      || Ahead()((p', w'.left[a.t])) < Ahead()((p, w.left[a.t]))
      || (&& Ahead()((p', w'.left[a.t])) == Ahead()((p, w.left[a.t]))
          && w'.s.pcs == w.s.pcs[a.t := p']
          && (|| (w.s.word == ceilval + 1 && w'.s.word == ceilval + 2)
              || (w'.s.word == w.s.word && Rank(w.s.word, ceilval)(p') < Rank(w.s.word, ceilval)(p))))
  {
    assert PcOk(w.s, ceilval, w.s.pcs[a.t]);
    assert Owner()(w.s.pcs[a.t]) ==> Somewhere(w.s, Owner());
    SplitWord(ceilval, w.s.word - ceilval);
    if w.s.pcs[a.t].UnlockCas? {
      SplitWord(ceilval, w.s.pcs[a.t].oldval - ceilval);
    }
  }

  lemma MeasureDrops(w: Work, ceilval: nat, a: Action)
    requires Sound(w, ceilval) && Ready(w, a)
    ensures |Advance(w, a).left| == |Advance(w, a).s.pcs|
    ensures Measure(Advance(w, a), ceilval) < Measure(w, ceilval)
  {
    var w' := Advance(w, a);
    StepBrings(w, ceilval, a);
    AheadAfterStep(w, a);
    EffortBounds(w, ceilval);
    EffortBounds(w', ceilval);
    assert Paired(w)[a.t] == (w.s.pcs[a.t], w.left[a.t]) && Paired(w')[a.t] == (w'.s.pcs[a.t], w'.left[a.t]);
    hide Apply, Enabled, Safe, Ahead, Rank;
    if Total(Paired(w'), Ahead()) < Total(Paired(w), Ahead()) {
      Outweighs(2 * Scale(w), Total(Paired(w'), Ahead()), Total(Paired(w), Ahead()),
                Effort(w', ceilval), Effort(w, ceilval));
    } else {
      TotalUpdate(w.s.pcs, a.t, w'.s.pcs[a.t], Rank(w.s.word, ceilval));
    }
  }

  ghost predicate IsWorkRun(run: seq<Work>, acts: seq<Action>, ceiling: nat, left: seq<nat>) {
    && |run| == |acts| + 1
    && run[0] == Work(State(ceiling * UNIT, seq(|left|, _ => Idle)), left)
    && forall i :: 0 <= i < |acts| ==> Ready(run[i], acts[i]) && run[i + 1] == Advance(run[i], acts[i])
  }

  lemma {:induction false} WorkSoFar(run: seq<Work>, acts: seq<Action>, ceiling: nat, left: seq<nat>, i: nat)
    requires IsWorkRun(run, acts, ceiling, left) && i <= |acts|
    ensures Sound(run[i], ceiling * UNIT) && |run[0].left| == |run[0].s.pcs|
    ensures Measure(run[i], ceiling * UNIT) + i <= Measure(run[0], ceiling * UNIT)
  {
    if i == 0 {
      assert (ceiling * UNIT) % UNIT == 0;
    } else {
      WorkSoFar(run, acts, ceiling, left, i - 1);
      hide Safe, Measure, Advance, Ready;
      AdvanceIsSound(run[i - 1], ceiling * UNIT, acts[i - 1]);
      MeasureDrops(run[i - 1], ceiling * UNIT, acts[i - 1]);
    }
  }

  lemma {:induction false} AheadAtStart(pairs: seq<(Pc, nat)>, left: seq<nat>)
    requires |pairs| == |left| && forall i :: 0 <= i < |left| ==> pairs[i] == (Idle, left[i])
    ensures Total(pairs, Ahead()) == 3 * Total(left, Itself())
  {
    if pairs != [] {
      AheadAtStart(pairs[1..], left[1..]);
    }
  }

  /** Without spurious wakeups, `n` threads with `m` operations in all take at most
      2(6n + 1) * 3m + 2(6n + 1) steps, and a run that cannot be continued has finished them all. */
  lemma EveryWorkloadFinishes(run: seq<Work>, acts: seq<Action>, ceiling: nat, left: seq<nat>)
    requires IsWorkRun(run, acts, ceiling, left)
    ensures var unit := 2 * (6 * |left| + 1); |acts| < Scaled(unit, 3 * Total(left, Itself()), unit)
    ensures (forall a :: !Ready(run[|acts|], a)) ==> Finished(run[|acts|])
  {
    var c, last := ceiling * UNIT, run[|acts|];
    hide Safe, Advance, Ready;
    WorkSoFar(run, acts, ceiling, left, |acts|);
    AheadAtStart(Paired(run[0]), left);
    EffortBounds(run[0], c);
    MeasureNonnegative(last, c);
    if !Finished(last) {
      var a := NeverStuck(last, c);
    }
  }

  lemma MeasureNonnegative(w: Work, ceilval: nat)
    requires Sound(w, ceilval)
    ensures Measure(w, ceilval) >= 0
  {
    TotalNonnegative(Paired(w), Ahead());
    EffortBounds(w, ceilval);
    ScaledNonnegative(2 * Scale(w), Total(Paired(w), Ahead()), Effort(w, ceilval));
  }
}
