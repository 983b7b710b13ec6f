/** Priority-protect mutexes in use: the lock words of any number of them, any number of threads, and
    the ceilings that each thread has been charged for. A call charges the thread before it touches the
    lock word, and gives the ceiling back after a refused trylock or at the very end of an unlock.

    Charging touches nothing shared, so it is one step with the load of the word before it. Scheduler
    calls succeed. */
module PPCeilings {
  import opened PPLock
  import PP = PriorityProtection

  /** What a thread is doing, with its local variable `oldprio`. */
  datatype Stage =
    | Free
    | Busy(m: nat, oldprio: nat)       // between the charge, or the start of the unlock, and the end of the word's part
    | OwnTrying(m: nat, oldprio: nat)  // in a trylock of a mutex that it holds
    | Returning(m: nat, oldprio: nat)  // has to give the ceiling back

  /** Ceilings by mutex, and the threads' own priorities. */
  datatype Setup = Setup(ceilings: seq<nat>, bases: seq<int>)

  datatype State = State(words: seq<PPLock.State>, held: seq<multiset<int>>, stages: seq<Stage>)

  datatype Action =
    | Enter(t: nat, m: nat, call: Call, memory: bool)
    | EnterOwn(t: nat, m: nat, memory: bool)
    | Word(m: nat, step: PPLock.Action)
    | GiveBack(t: nat)

  predicate Shape(setup: Setup, s: State) {
    && |s.words| == |setup.ceilings|
    && |s.held| == |s.stages| == |setup.bases|
    && forall m :: 0 <= m < |s.words| ==> |s.words[m].pcs| == |setup.bases|
  }

  predicate Enabled(setup: Setup, s: State, a: Action)
    requires Shape(setup, s)
  {
    match a
    case Enter(t, m, call, _) =>
      t < |s.stages| && s.stages[t] == Free && m < |s.words| && PPLock.Enabled(s.words[m], Begin(t, call))
    case EnterOwn(t, m, _) =>
      t < |s.stages| && s.stages[t] == Free && m < |s.words| && PPLock.Enabled(s.words[m], TryOwn(t))
    case Word(m, step) =>
      && m < |s.words| && !step.Begin? && PPLock.Enabled(s.words[m], step)
      && (step.TryOwn? ==> s.stages[step.t].OwnTrying? && s.stages[step.t].m == m)
      && (step.BeginUnlock? ==> s.stages[step.t] == Free)
    case GiveBack(t) => t < |s.stages| && s.stages[t].Returning?
  }

  /** The ceiling that a thread reads from the lock word. */
  function ReadCeiling(word: nat): nat {
    CeilingBits(word) / UNIT
  }

  /** The tests of own priority, memory and counter before a ceiling is charged. */
  predicate Admitted(base: int, held: multiset<int>, ceiling: nat, memory: bool) {
    base <= ceiling && memory && held[ceiling] < PP.UINT_MAX
  }

  function Charge(s: State, t: nat, previous: int, next: int): State
    requires t < |s.held|
  {
    s.(held := s.held[t := PP.Exchanged(s.held[t], previous, next)])
  }

  function Become(s: State, t: nat, stage: Stage): State
    requires t < |s.stages|
  {
    s.(stages := s.stages[t := stage])
  }

  function Apply(setup: Setup, s: State, a: Action): State
    requires Shape(setup, s) && Enabled(setup, s, a)
  {
    match a
    case Enter(t, m, call, memory) =>
      var c := ReadCeiling(s.words[m].word);
      if !Admitted(setup.bases[t], s.held[t], c, memory) then s
      else Become(Charge(s, t, PP.NONE, c), t, Busy(m, c)).
           (words := s.words[m := PPLock.Apply(s.words[m], Begin(t, call))])
    case EnterOwn(t, m, memory) =>
      var c := ReadCeiling(s.words[m].word);
      if !Admitted(setup.bases[t], s.held[t], c, memory) then s
      else Become(Charge(s, t, PP.NONE, c), t, OwnTrying(m, c))
    case Word(m, step) =>
      var word := PPLock.Apply(s.words[m], step);
      Become(s, step.t, NextStage(s.stages[step.t], m, s.words[m].pcs[step.t], word.pcs[step.t], step.TryOwn?)).
        (words := s.words[m := word])
    case GiveBack(t) =>
      Become(Charge(s, t, s.stages[t].oldprio, PP.NONE), t, Free)
  }

  /** How the lock word's part of a call goes on. The unlock takes `oldprio` from the word that it cleared. */
  function NextStage(stage: Stage, m: nat, was: Pc, pc: Pc, ownTry: bool): Stage {
    var oldprio := if was.UnlockCas? then ReadCeiling(was.oldval) else if stage.Free? then 0 else stage.oldprio;
    if pc == Idle || ownTry then Returning(m, oldprio)
    else if pc == Holding then Free
    else Busy(m, oldprio)
  }

  function Initial(setup: Setup): State {
    State.State(seq(|setup.ceilings|, m requires 0 <= m < |setup.ceilings| =>
            PPLock.State(setup.ceilings[m] * UNIT, seq(|setup.bases|, _ => Idle))),
                seq(|setup.bases|, _ => multiset{}),
                seq(|setup.bases|, _ => Free))
  }

  // ----- Counting the mutexes of one ceiling --------------------------------------------------

  function Use(ceiling: nat, pc: Pc, p: Pc -> bool, c: int): nat {
    if p(pc) && ceiling == c then 1 else 0
  }

  /** At how many mutexes with ceiling `c` is a thread with the given positions at a point of some kind? */
  function Uses(ceilings: seq<nat>, pcs: seq<Pc>, p: Pc -> bool, c: int): nat
    requires |ceilings| == |pcs|
  {
    if pcs == [] then 0 else Use(ceilings[0], pcs[0], p, c) + Uses(ceilings[1..], pcs[1..], p, c)
  }

  lemma {:induction false} UsesUpdate(ceilings: seq<nat>, pcs: seq<Pc>, p: Pc -> bool, c: int, m: nat, pc: Pc)
    requires |ceilings| == |pcs| && m < |pcs|
    ensures Uses(ceilings, pcs[m := pc], p, c) ==
            Uses(ceilings, pcs, p, c) + Use(ceilings[m], pc, p, c) - Use(ceilings[m], pcs[m], p, c)
  {
    if m == 0 {
      assert pcs[0 := pc][1..] == pcs[1..];
    } else {
      assert pcs[m := pc][1..] == pcs[1..][m - 1 := pc];
      UsesUpdate(ceilings[1..], pcs[1..], p, c, m - 1, pc);
    }
  }

  lemma {:induction false} UsesAgree(ceilings: seq<nat>, pcs: seq<Pc>, p: Pc -> bool, pcs': seq<Pc>, q: Pc -> bool,
                                     c: int)
    requires |ceilings| == |pcs| == |pcs'| && forall m :: 0 <= m < |pcs| ==> p(pcs[m]) == q(pcs'[m])
    ensures Uses(ceilings, pcs, p, c) == Uses(ceilings, pcs', q, c)
  {
    if pcs != [] {
      UsesAgree(ceilings[1..], pcs[1..], p, pcs'[1..], q, c);
    }
  }

  lemma {:induction false} UsesPositive(ceilings: seq<nat>, pcs: seq<Pc>, p: Pc -> bool, m: nat)
    requires |ceilings| == |pcs| && m < |pcs| && p(pcs[m])
    ensures Uses(ceilings, pcs, p, ceilings[m]) > 0
  {
    if m > 0 {
      UsesPositive(ceilings[1..], pcs[1..], p, m - 1);
    }
  }

  lemma {:induction false} UsesNone(ceilings: seq<nat>, pcs: seq<Pc>, p: Pc -> bool, c: int)
    requires |ceilings| == |pcs| && forall m :: 0 <= m < |pcs| ==> !p(pcs[m])
    ensures Uses(ceilings, pcs, p, c) == 0
  {
    if pcs != [] {
      UsesNone(ceilings[1..], pcs[1..], p, c);
    }
  }

  /** Where a thread stands at each mutex. */
  function Positions(words: seq<PPLock.State>, t: nat): (pcs: seq<Pc>)
    requires forall m :: 0 <= m < |words| ==> t < |words[m].pcs|
    ensures |pcs| == |words| && forall m :: 0 <= m < |words| ==> pcs[m] == words[m].pcs[t]
  {
    seq(|words|, m requires 0 <= m < |words| => words[m].pcs[t])
  }

  lemma PositionsUpdate(words: seq<PPLock.State>, m: nat, word: PPLock.State, t: nat)
    requires forall i :: 0 <= i < |words| ==> t < |words[i].pcs|
    requires m < |words| && t < |word.pcs|
    ensures Positions(words[m := word], t) == Positions(words, t)[m := word.pcs[t]]
  {
  }

  // ----- The invariant -----------------------------------------------------------------------

  function Engaged(): Pc -> bool {
    (pc: Pc) => pc != Idle
  }

  predicate Resting(pc: Pc) {
    pc == Idle || pc == Holding
  }

  /** What the thread has been charged for apart from the mutexes at which it is engaged. */
  function Extra(stage: Stage, c: int): nat {
    if (stage.OwnTrying? || stage.Returning?) && stage.oldprio == c then 1 else 0
  }

  /** A thread is in the middle of at most one call, and knows the ceiling that it will give back. */
  predicate StageOk(setup: Setup, s: State, t: nat)
    requires Shape(setup, s) && t < |s.stages|
  {
    var stage := s.stages[t];
    && (forall m :: 0 <= m < |s.words| && !Resting(s.words[m].pcs[t]) ==> stage.Busy? && stage.m == m)
    && (stage != Free ==> stage.m < |s.words|)
    && (stage.Busy? ==>
         var pc := s.words[stage.m].pcs[t];
         !Resting(pc) && (pc.UnlockRead? || pc.UnlockCas? || stage.oldprio == setup.ceilings[stage.m]))
    && (stage.OwnTrying? || stage.Returning? ==> stage.oldprio == setup.ceilings[stage.m])
    && (stage.OwnTrying? ==> s.words[stage.m].pcs[t] == Holding)
  }

  /** A thread engages only in mutexes whose ceiling is not below its own priority. */
  predicate AdmittedOk(setup: Setup, s: State, t: nat)
    requires Shape(setup, s) && t < |s.stages|
  {
    forall m :: 0 <= m < |s.words| && s.words[m].pcs[t] != Idle ==> setup.bases[t] <= setup.ceilings[m]
  }

  /** What thread `t` has been charged with for ceiling `c`. */
  function Charged(setup: Setup, s: State, t: nat, c: int): nat
    requires Shape(setup, s) && t < |s.stages|
  {
    Uses(setup.ceilings, Positions(s.words, t), Engaged(), c) + Extra(s.stages[t], c)
  }

  ghost predicate ChargedOk(setup: Setup, s: State, t: nat)
    requires Shape(setup, s) && t < |s.stages|
  {
    forall c: int :: s.held[t][c] == Charged(setup, s, t, c)
  }

  predicate WordsSafe(setup: Setup, s: State)
    requires Shape(setup, s)
  {
    forall m :: 0 <= m < |s.words| ==> Safe(s.words[m], setup.ceilings[m] * UNIT)
  }

  ghost predicate Inv(setup: Setup, s: State) {
    && Shape(setup, s)
    && WordsSafe(setup, s)
    && forall t :: 0 <= t < |s.stages| ==> StageOk(setup, s, t) && AdmittedOk(setup, s, t) && ChargedOk(setup, s, t)
  }

  // ----- Steps -------------------------------------------------------------------------------

  lemma ReadsTheCeiling(word: PPLock.State, ceiling: nat)
    requires Safe(word, ceiling * UNIT)
    ensures ReadCeiling(word.word) == ceiling
  {
    SplitWord(ceiling * UNIT, word.word - ceiling * UNIT);
  }

  /** The others only ever go from sleeping to looking at the word again. */
  lemma OthersStand(word: PPLock.State, step: PPLock.Action, u: nat)
    requires PPLock.Enabled(word, step) && u < |word.pcs| && u != step.t
    ensures var pcs := PPLock.Apply(word, step).pcs;
      |pcs| == |word.pcs| && (pcs[u] == word.pcs[u] || (word.pcs[u].Asleep? && pcs[u].RetryCas?))
  {
  }

  /** What a thread may rely on at mutex `m` between two steps on its lock word. */
  predicate StandsAt(stage: Stage, m: nat, ceiling: nat, pc: Pc) {
    !Resting(pc) ==> stage.Busy? && stage.m == m && (pc.UnlockRead? || pc.UnlockCas? || stage.oldprio == ceiling)
  }

  lemma ActorMoves(word: PPLock.State, step: PPLock.Action, stage: Stage, m: nat, ceiling: nat)
    requires Safe(word, ceiling * UNIT) && PPLock.Enabled(word, step) && !step.Begin?
    requires StandsAt(stage, m, ceiling, word.pcs[step.t])
    requires step.TryOwn? ==> stage == OwnTrying(m, ceiling)
    requires step.BeginUnlock? ==> stage == Free
    ensures var was, pc := word.pcs[step.t], PPLock.Apply(word, step).pcs[step.t];
      var next := NextStage(stage, m, was, pc, step.TryOwn?);
      && StandsAt(next, m, ceiling, pc) && (next.Busy? ==> !Resting(pc)) && !next.OwnTrying?
      && (next != Free ==> next.m == m) && (next.Returning? ==> next.oldprio == ceiling)
      && (pc != Idle ==> was != Idle)
      && forall c :: Use(ceiling, pc, Engaged(), c) + Extra(next, c) ==
                     Use(ceiling, was, Engaged(), c) + Extra(stage, c)
  {
    var was := word.pcs[step.t];
    assert PcOk(word, ceiling * UNIT, was);
    SplitWord(ceiling * UNIT, word.word - ceiling * UNIT);
    if was.UnlockCas? {
      SplitWord(ceiling * UNIT, was.oldval - ceiling * UNIT);
    }
  }

  lemma WordKeepsShape(setup: Setup, s: State, m: nat, step: PPLock.Action)
    requires Shape(setup, s) && Enabled(setup, s, Word(m, step))
    ensures Shape(setup, Apply(setup, s, Word(m, step)))
  {
  }

  /** A change at mutex `m` changes the charges as it changes the thread's position there. */
  lemma ChargedAfter(setup: Setup, s: State, s': State, t: nat, m: nat, c: int)
    requires Shape(setup, s) && Shape(setup, s') && t < |s.stages|
    requires m < |s.words| && s'.words == s.words[m := s'.words[m]]
    ensures Charged(setup, s', t, c) - Charged(setup, s, t, c) ==
            Use(setup.ceilings[m], s'.words[m].pcs[t], Engaged(), c) + Extra(s'.stages[t], c)
            - Use(setup.ceilings[m], s.words[m].pcs[t], Engaged(), c) - Extra(s.stages[t], c)
  {
    PositionsUpdate(s.words, m, s'.words[m], t);
    UsesUpdate(setup.ceilings, Positions(s.words, t), Engaged(), c, m, s'.words[m].pcs[t]);
  }

  /** What a step on the lock word of mutex `m` does to the thread that takes it. */
  lemma WordMovesActor(setup: Setup, s: State, m: nat, step: PPLock.Action)
    requires Inv(setup, s) && Enabled(setup, s, Word(m, step))
    ensures var s', t := Apply(setup, s, Word(m, step)), step.t;
      Shape(setup, s') && StageOk(setup, s', t) && AdmittedOk(setup, s', t) && ChargedOk(setup, s', t)
  {
    var t := step.t;
    var s' := Apply(setup, s, Word(m, step));
    assert StageOk(setup, s, t) && AdmittedOk(setup, s, t) && ChargedOk(setup, s, t);
    WordKeepsShape(setup, s, m, step);
    hide PPLock.Apply, PPLock.Enabled, Safe;
    ActorMoves(s.words[m], step, s.stages[t], m, setup.ceilings[m]);
    hide NextStage, Use, Extra, Charged;
    forall c: int ensures s'.held[t][c] == Charged(setup, s', t, c) {
      ChargedAfter(setup, s, s', t, m, c);
    }
  }

  /** It leaves the account of every other thread alone. */
  lemma WordKeepsOthers(setup: Setup, s: State, m: nat, step: PPLock.Action, u: nat)
    requires Inv(setup, s) && Enabled(setup, s, Word(m, step)) && u < |s.stages| && u != step.t
    ensures var s' := Apply(setup, s, Word(m, step));
      Shape(setup, s') && StageOk(setup, s', u) && AdmittedOk(setup, s', u) && ChargedOk(setup, s', u)
  {
    var s' := Apply(setup, s, Word(m, step));
    assert StageOk(setup, s, u) && AdmittedOk(setup, s, u) && ChargedOk(setup, s, u);
    WordKeepsShape(setup, s, m, step);
    OthersStand(s.words[m], step, u);
    hide PPLock.Apply, PPLock.Enabled, Safe, NextStage, Charged, Extra;
    forall c: int ensures s'.held[u][c] == Charged(setup, s', u, c) {
      ChargedAfter(setup, s, s', u, m, c);
    }
  }

  lemma WordKeepsInv(setup: Setup, s: State, m: nat, step: PPLock.Action)
    requires Inv(setup, s) && Enabled(setup, s, Word(m, step))
    ensures Inv(setup, Apply(setup, s, Word(m, step)))
  {
    var s' := Apply(setup, s, Word(m, step));
    StepIsSafe(s.words[m], setup.ceilings[m] * UNIT, step);
    hide PPLock.Apply, PPLock.Enabled, Safe, NextStage, StageOk, AdmittedOk, ChargedOk;
    WordKeepsShape(setup, s, m, step);
    forall u | 0 <= u < |s'.stages|
      ensures StageOk(setup, s', u) && AdmittedOk(setup, s', u) && ChargedOk(setup, s', u)
    {
      if u == step.t {
        WordMovesActor(setup, s, m, step);
      } else {
        WordKeepsOthers(setup, s, m, step, u);
      }
    }
  }

  /** A thread whose own part of the state is the same is as well off as before. */
  lemma UntouchedStaysOk(setup: Setup, s: State, s': State, u: nat)
    requires Shape(setup, s) && Shape(setup, s') && u < |s.stages|
    requires StageOk(setup, s, u) && AdmittedOk(setup, s, u) && ChargedOk(setup, s, u)
    requires s'.held[u] == s.held[u] && s'.stages[u] == s.stages[u]
    requires forall m :: 0 <= m < |s.words| ==> s'.words[m].pcs[u] == s.words[m].pcs[u]
    ensures StageOk(setup, s', u) && AdmittedOk(setup, s', u) && ChargedOk(setup, s', u)
  {
    hide Uses, Extra;
    assert Positions(s'.words, u) == Positions(s.words, u);
    forall c: int ensures s'.held[u][c] == Charged(setup, s', u, c) {
      assert s.held[u][c] == Charged(setup, s, u, c);
    }
  }

  /** An admitted call charges the ceiling that it will give back; a refused one changes nothing. */
  lemma EnterMovesActor(setup: Setup, s: State, a: Action)
    requires Inv(setup, s) && Enabled(setup, s, a) && (a.Enter? || a.EnterOwn?)
    ensures var s' := Apply(setup, s, a);
      Shape(setup, s') && StageOk(setup, s', a.t) && AdmittedOk(setup, s', a.t) && ChargedOk(setup, s', a.t)
  {
    var t, m := a.t, a.m;
    var s' := Apply(setup, s, a);
    ReadsTheCeiling(s.words[m], setup.ceilings[m]);
    assert StageOk(setup, s, t) && AdmittedOk(setup, s, t) && ChargedOk(setup, s, t);
    hide Safe, ReadCeiling, Charged;
    assert s'.words == s.words[m := s'.words[m]];
    forall c: int ensures s'.held[t][c] == Charged(setup, s', t, c) {
      assert s.held[t][c] == Charged(setup, s, t, c);
      ChargedAfter(setup, s, s', t, m, c);
    }
  }

  /** What is given back has been charged. */
  lemma GiveBackMovesActor(setup: Setup, s: State, t: nat)
    requires Inv(setup, s) && Enabled(setup, s, GiveBack(t))
    ensures s.held[t][s.stages[t].oldprio] > 0
    ensures var s' := Apply(setup, s, GiveBack(t));
      Shape(setup, s') && StageOk(setup, s', t) && AdmittedOk(setup, s', t) && ChargedOk(setup, s', t)
  {
    var s' := Apply(setup, s, GiveBack(t));
    assert StageOk(setup, s, t) && AdmittedOk(setup, s, t) && ChargedOk(setup, s, t);
    hide Uses;
    assert s.held[t][s.stages[t].oldprio] == Charged(setup, s, t, s.stages[t].oldprio);
    forall c: int ensures s'.held[t][c] == Charged(setup, s', t, c) {
      assert s.held[t][c] == Charged(setup, s, t, c);
    }
  }

  lemma StepKeepsInv(setup: Setup, s: State, a: Action)
    requires Inv(setup, s) && Enabled(setup, s, a)
    ensures Inv(setup, Apply(setup, s, a))
  {
    if a.Word? {
      WordKeepsInv(setup, s, a.m, a.step);
    } else {
      var s' := Apply(setup, s, a);
      if a.Enter? {
        StepIsSafe(s.words[a.m], setup.ceilings[a.m] * UNIT, Begin(a.t, a.call));
      }
      hide Safe, StageOk, AdmittedOk, ChargedOk, ReadCeiling, Admitted;
      if a.GiveBack? {
        GiveBackMovesActor(setup, s, a.t);
      } else {
        EnterMovesActor(setup, s, a);
      }
      forall u | 0 <= u < |s'.stages| && u != a.t
        ensures StageOk(setup, s', u) && AdmittedOk(setup, s', u) && ChargedOk(setup, s', u)
      {
        UntouchedStaysOk(setup, s, s', u);
      }
    }
  }

  lemma InitialInv(setup: Setup)
    ensures Inv(setup, Initial(setup))
  {
    var s := Initial(setup);
    forall m | 0 <= m < |s.words| ensures Safe(s.words[m], setup.ceilings[m] * UNIT) {
      assert (setup.ceilings[m] * UNIT) % UNIT == 0;
    }
    forall t, c: int | 0 <= t < |s.stages| ensures s.held[t][c] == Charged(setup, s, t, c) {
      UsesNone(setup.ceilings, Positions(s.words, t), Engaged(), c);
    }
  }

  ghost predicate IsRun(run: seq<State>, acts: seq<Action>, setup: Setup) {
    && |run| == |acts| + 1
    && run[0] == Initial(setup)
    && forall i :: 0 <= i < |acts| ==>
         Shape(setup, run[i]) && Enabled(setup, run[i], acts[i]) && run[i + 1] == Apply(setup, run[i], acts[i])
  }

  lemma {:induction false} RunsKeepInv(run: seq<State>, acts: seq<Action>, setup: Setup, i: nat)
    requires IsRun(run, acts, setup) && i <= |acts|
    ensures Inv(setup, run[i])
  {
    if i == 0 {
      InitialInv(setup);
    } else {
      RunsKeepInv(run, acts, setup, i - 1);
      StepKeepsInv(setup, run[i - 1], acts[i - 1]);
    }
  }

  // ----- What the account means ----------------------------------------------------------------

  /** Which calls get as far as the lock word, at any point of any run: exactly those of a thread whose own
      priority is not above the ceiling and whose counter has room, given memory. They are charged with
      the mutex's ceiling, and only with that; the others change nothing at all. */
  lemma CallsAreAdmittedIff(run: seq<State>, acts: seq<Action>, setup: Setup, i: nat)
    requires IsRun(run, acts, setup) && i < |acts| && (acts[i].Enter? || acts[i].EnterOwn?)
    ensures var a := acts[i];
      && a.t < |setup.bases| && a.m < |setup.ceilings| && a.t < |run[i].held| && a.t < |run[i + 1].held|
      && a.t < |run[i + 1].stages|
    ensures var a, c := acts[i], setup.ceilings[acts[i].m];
      var was, now := run[i].held[a.t], run[i + 1].held[a.t];
      if setup.bases[a.t] <= c && a.memory && was[c] < PP.UINT_MAX then
        && now == was + multiset{c}
        && run[i + 1].stages[a.t] == if a.Enter? then Busy(a.m, c) else OwnTrying(a.m, c)
      else run[i + 1] == run[i]
  {
    RunsKeepInv(run, acts, setup, i);
    ReadsTheCeiling(run[i].words[acts[i].m], setup.ceilings[acts[i].m]);
  }

  /** The thread is charged, for each priority, once for every mutex with that ceiling that it owns. */
  ghost predicate ChargedAsOwner(setup: Setup, s: State, t: nat)
    requires Shape(setup, s) && t < |s.stages|
  {
    forall c: int :: s.held[t][c] == Uses(setup.ceilings, Positions(s.words, t), Owner(), c)
  }

  /** At every point of every run, every thread that is in no call is charged for exactly the mutexes
      that it owns. */
  lemma ChargesAreOwnership(run: seq<State>, acts: seq<Action>, setup: Setup, i: nat)
    requires IsRun(run, acts, setup) && i <= |acts|
    ensures Shape(setup, run[i])
    ensures forall t :: 0 <= t < |run[i].stages| && run[i].stages[t] == Free ==> ChargedAsOwner(setup, run[i], t)
  {
    var s := run[i];
    RunsKeepInv(run, acts, setup, i);
    forall t, c: int | 0 <= t < |s.stages| && s.stages[t] == Free
      ensures s.held[t][c] == Uses(setup.ceilings, Positions(s.words, t), Owner(), c)
    {
      assert StageOk(setup, s, t) && ChargedOk(setup, s, t);
      assert s.held[t][c] == Charged(setup, s, t, c);
      UsesAgree(setup.ceilings, Positions(s.words, t), Engaged(), Positions(s.words, t), Owner(), c);
    }
  }

  /** So whatever a thread did in between, if it owns the same mutexes at two points between its calls
      it holds the same ceilings: refused locks and trylocks and undone locks leave no trace. */
  lemma SameOwnershipSameCharges(run: seq<State>, acts: seq<Action>, setup: Setup, i: nat, j: nat, t: nat)
    requires IsRun(run, acts, setup) && i <= j <= |acts| && t < |setup.bases|
    requires Shape(setup, run[i]) && Shape(setup, run[j])
    requires run[i].stages[t] == Free && run[j].stages[t] == Free
    requires forall m :: 0 <= m < |setup.ceilings| ==>
      Owner()(run[i].words[m].pcs[t]) == Owner()(run[j].words[m].pcs[t])
    ensures run[i].held[t] == run[j].held[t]
  {
    ChargesAreOwnership(run, acts, setup, i);
    ChargesAreOwnership(run, acts, setup, j);
    assert ChargedAsOwner(setup, run[i], t) && ChargedAsOwner(setup, run[j], t);
    forall c: int ensures run[i].held[t][c] == run[j].held[t][c] {
      UsesAgree(setup.ceilings, Positions(run[i].words, t), Owner(), Positions(run[j].words, t), Owner(), c);
    }
  }

  /** At every point of every run, a thread that owns a mutex is charged with its ceiling, which is not
      below the thread's own priority: the priority that the accounting calls for is the highest of the
      ceilings charged, and that is at least the mutex's. */
  lemma OwnersRunAtTheirCeilings(run: seq<State>, acts: seq<Action>, setup: Setup, i: nat, t: nat, m: nat,
                                 lowest: int, top: int)
    requires IsRun(run, acts, setup) && i <= |acts| && t < |setup.bases| && m < |setup.ceilings|
    requires Shape(setup, run[i]) && Owner()(run[i].words[m].pcs[t]) && PP.IsTop(run[i].held[t], lowest, top)
    ensures setup.ceilings[m] in run[i].held[t]
    ensures setup.ceilings[m] <= top == PP.Max(setup.bases[t], top)
    ensures forall u :: 0 <= u < |setup.bases| && u != t ==> !Owner()(run[i].words[m].pcs[u])
  {
    var s := run[i];
    RunsKeepInv(run, acts, setup, i);
    assert ChargedOk(setup, s, t) && AdmittedOk(setup, s, t) && Safe(s.words[m], setup.ceilings[m] * UNIT);
    UsesPositive(setup.ceilings, Positions(s.words, t), Engaged(), m);
    assert s.held[t][setup.ceilings[m]] == Charged(setup, s, t, setup.ceilings[m]);
  }

  /** The ceiling that a call gives back, as it read it from the lock word, is the mutex's, and it has
      been charged: no counter is taken below zero. */
  lemma GivenBackWasCharged(run: seq<State>, acts: seq<Action>, setup: Setup, i: nat)
    requires IsRun(run, acts, setup) && i < |acts| && acts[i].GiveBack?
    ensures var stage, held := run[i].stages[acts[i].t], run[i].held[acts[i].t];
      stage.m < |setup.ceilings| && stage.oldprio == setup.ceilings[stage.m] && held[stage.oldprio] > 0
  {
    RunsKeepInv(run, acts, setup, i);
    assert StageOk(setup, run[i], acts[i].t);
    GiveBackMovesActor(setup, run[i], acts[i].t);
  }
}
