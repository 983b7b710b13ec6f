/** How an application mutex is bound to its profiled shadow, and why that makes the shadow's lock
    the application's lock.

    The first word of an application mutex is null until some lock or trylock installs a shadow, which
    is a slot of a shared pool. Any number of threads may race on any number of mutexes. Shadow `k + 1`
    stands for the address of slot `k`, and 0 for null. */
module ShadowMutex {
  import opened Counting

  datatype Pc =
    | Outside
    | FirstCheck(m: nat)                               // about to test the word
    | Alloc(m: nat)                                    // about to take the next slot
    | ReadExpected(m: nat, slot: nat)                  // about to load the expected value
    | DoubleCheck(m: nat, slot: nat, expected: nat)    // about to test the word again
    | Install(m: nat, slot: nat, expected: nat)        // about to compare and swap
    | Fetch(m: nat)                                    // about to load the binding
    | Bound(m: nat, shadow: nat)                       // works on the shadow it loaded

  /** `fetched[t]` remembers, for each mutex, the shadow thread `t` last loaded. */
  datatype State = State(bindings: seq<nat>, next: nat, total: nat, aborted: bool, pcs: seq<Pc>,
                         fetched: seq<map<nat, nat>>)

  datatype Action =
    | CallLock(t: nat, m: nat)    // lock or trylock
    | CallUnlock(t: nat, m: nat)  // unlock or destroy, which only load the binding
    | Step(t: nat)
    | Return(t: nat)

  predicate Enabled(s: State, a: Action) {
    && !s.aborted
    && a.t < |s.pcs| == |s.fetched|
    && match a
       case CallLock(t, m) => s.pcs[t] == Outside && m < |s.bindings|
       case CallUnlock(t, m) => s.pcs[t] == Outside && m < |s.bindings| && s.bindings[m] != 0
       case Step(t) => !s.pcs[t].Outside? && !s.pcs[t].Bound? && s.pcs[t].m < |s.bindings|
       case Return(t) => s.pcs[t].Bound?
  }

  function Goto(s: State, t: nat, pc: Pc): State
    requires t < |s.pcs|
  {
    s.(pcs := s.pcs[t := pc])
  }

  function Apply(s: State, a: Action): State
    requires Enabled(s, a)
  {
    match a
    case CallLock(t, m) => Goto(s, t, FirstCheck(m))
    case CallUnlock(t, m) => Goto(s, t, Fetch(m))
    case Return(t) => Goto(s, t, Outside)
    case Step(t) =>
      match s.pcs[t]
      case FirstCheck(m) => Goto(s, t, if s.bindings[m] != 0 then Fetch(m) else Alloc(m))
      case Alloc(m) =>
        if s.next < s.total then Goto(s, t, ReadExpected(m, s.next)).(next := s.next + 1)
        else s.(next := s.next + 1, aborted := true)
      case ReadExpected(m, slot) => Goto(s, t, DoubleCheck(m, slot, s.bindings[m]))
      case DoubleCheck(m, slot, expected) =>
        Goto(s, t, if s.bindings[m] != 0 then Fetch(m) else Install(m, slot, expected))
      case Install(m, slot, expected) =>
        var s' := Goto(s, t, Fetch(m));
        if s.bindings[m] == expected then s'.(bindings := s.bindings[m := slot + 1]) else s'
      case Fetch(m) =>
        var known: map<nat, nat> := s.fetched[t][m := s.bindings[m]];
        Goto(s, t, Bound(m, s.bindings[m])).(fetched := s.fetched[t := known])
      case _ => s
  }

  /** The slot a thread has taken and not yet offered. */
  function InHand(pc: Pc): Option<nat> {
    match pc
    case ReadExpected(_, slot) => Some(slot)
    case DoubleCheck(_, slot, _) => Some(slot)
    case Install(_, slot, _) => Some(slot)
    case _ => None
  }

  predicate PcOk(s: State, pc: Pc) {
    && (!pc.Outside? ==> pc.m < |s.bindings|)
    && (InHand(pc).Some? ==>
         InHand(pc).value < s.next && forall m :: 0 <= m < |s.bindings| ==> s.bindings[m] != InHand(pc).value + 1)
    && match pc
       case DoubleCheck(m, _, expected) => expected != 0 ==> s.bindings[m] != 0
       case Install(_, _, expected) => expected == 0
       case Fetch(m) => s.bindings[m] != 0
       case Bound(m, shadow) => shadow == s.bindings[m] != 0
       case _ => true
  }

  /** What a thread remembers of a mutex is its binding. */
  predicate KnownOk(s: State, known: map<nat, nat>) {
    forall m :: m in known ==> m < |s.bindings| && known[m] == s.bindings[m] != 0
  }

  predicate SlotsDistinct(s: State) {
    forall t, u :: 0 <= t < u < |s.pcs| && InHand(s.pcs[t]).Some? ==> InHand(s.pcs[t]) != InHand(s.pcs[u])
  }

  predicate BindingsDistinct(s: State) {
    && (forall m :: 0 <= m < |s.bindings| ==> s.bindings[m] <= s.next)
    && (forall m, n :: 0 <= m < n < |s.bindings| && s.bindings[m] != 0 ==> s.bindings[m] != s.bindings[n])
  }

  predicate Inv(s: State) {
    && |s.fetched| == |s.pcs|
    && (forall t :: 0 <= t < |s.pcs| ==> PcOk(s, s.pcs[t]))
    && SlotsDistinct(s)
    && BindingsDistinct(s)
    && (forall t :: 0 <= t < |s.fetched| ==> KnownOk(s, s.fetched[t]))
    && (!s.aborted ==> s.next <= s.total)
  }

  /** Bindings that exist are kept, and a new one is a slot nobody else has or will have. */
  predicate Extends(s: State, s': State) {
    && |s'.bindings| == |s.bindings|
    && forall m :: 0 <= m < |s.bindings| && s.bindings[m] != 0 ==> s'.bindings[m] == s.bindings[m]
  }

  /** The shared fields change in only two ways: the next slot is taken, or a slot in hand is
      installed on an unbound mutex. */
  lemma SharedFieldsOf(s: State, a: Action)
    requires Inv(s) && Enabled(s, a)
    ensures var s' := Apply(s, a);
      && Extends(s, s')
      && |s'.pcs| == |s'.fetched| == |s.pcs|
      && (forall u :: 0 <= u < |s.pcs| && u != a.t ==> s'.pcs[u] == s.pcs[u] && s'.fetched[u] == s.fetched[u])
      && s.next <= s'.next
      && (s'.bindings == s.bindings || (s.pcs[a.t].Install? && InHand(s'.pcs[a.t]) == None && s'.next == s.next
            && s'.bindings == s.bindings[s.pcs[a.t].m := s.pcs[a.t].slot + 1]))
      && (InHand(s'.pcs[a.t]) == InHand(s.pcs[a.t]) || InHand(s'.pcs[a.t]) == None
            || (InHand(s'.pcs[a.t]) == Some(s.next) && s'.next == s.next + 1))
  {
    assert PcOk(s, s.pcs[a.t]);
  }

  lemma ThreadsStayOk(s: State, a: Action)
    requires Inv(s) && Enabled(s, a)
    ensures var s' := Apply(s, a);
      && (forall t :: 0 <= t < |s'.pcs| ==> PcOk(s', s'.pcs[t]))
      && (forall t :: 0 <= t < |s'.fetched| ==> KnownOk(s', s'.fetched[t]))
  {
    var s' := Apply(s, a);
    SharedFieldsOf(s, a);
    assert PcOk(s, s.pcs[a.t]) && KnownOk(s, s.fetched[a.t]);
    assert PcOk(s', s'.pcs[a.t]) && KnownOk(s', s'.fetched[a.t]);
    forall t | 0 <= t < |s'.pcs| && t != a.t ensures PcOk(s', s'.pcs[t]) && KnownOk(s', s'.fetched[t]) {
      assert PcOk(s, s.pcs[t]) && KnownOk(s, s.fetched[t]);
      assert InHand(s.pcs[t]).Some? ==> InHand(s.pcs[t]) != InHand(s.pcs[a.t]);
    }
  }

  lemma StepKeepsInv(s: State, a: Action)
    requires Inv(s) && Enabled(s, a)
    ensures Inv(Apply(s, a)) && Extends(s, Apply(s, a))
  {
    SharedFieldsOf(s, a);
    ThreadsStayOk(s, a);
    assert PcOk(s, s.pcs[a.t]);
    forall t | 0 <= t < |s.pcs| ensures InHand(s.pcs[t]).Some? ==> InHand(s.pcs[t]).value < s.next {
      assert PcOk(s, s.pcs[t]);
    }
  }

  function Initial(mutexes: nat, threads: nat, total: nat): State {
    State(seq(mutexes, _ => 0), 0, total, false, seq(threads, _ => Outside), seq(threads, _ => map[]))
  }

  ghost predicate IsRun(run: seq<State>, acts: seq<Action>, start: State) {
    && |run| == |acts| + 1
    && run[0] == start
    && forall i :: 0 <= i < |acts| ==> Enabled(run[i], acts[i]) && run[i + 1] == Apply(run[i], acts[i])
  }

  /** The first word of a mutex changes at most once, from null to one shadow, and every thread that
      loads it works on that shadow; no two mutexes share a shadow. */
  lemma {:induction false} BindingIsUniqueAndFinal(run: seq<State>, acts: seq<Action>, start: State, i: nat, j: nat)
    requires IsRun(run, acts, start) && Inv(start) && i <= j <= |acts|
    ensures Inv(run[i]) && Inv(run[j])
    ensures Extends(run[i], run[j])
    ensures BindingsDistinct(run[j])
    ensures forall t :: 0 <= t < |run[j].fetched| ==> KnownOk(run[j], run[j].fetched[t])
    decreases j
  {
    hide Apply, PcOk, SlotsDistinct;
    if j > 0 {
      BindingIsUniqueAndFinal(run, acts, start, if i == j then i - 1 else i, j - 1);
      StepKeepsInv(run[j - 1], acts[j - 1]);
    }
  }

  /** The slot has been taken, is nobody's any more and is bound to no mutex. */
  predicate Lost(s: State, slot: nat) {
    && slot < s.next
    && (forall t :: 0 <= t < |s.pcs| ==> InHand(s.pcs[t]) != Some(slot))
    && (forall m :: 0 <= m < |s.bindings| ==> s.bindings[m] != slot + 1)
  }

  lemma LostStaysLost(s: State, a: Action, slot: nat)
    requires Inv(s) && Enabled(s, a) && Lost(s, slot)
    ensures Lost(Apply(s, a), slot)
  {
    SharedFieldsOf(s, a);
  }

  /** A thread that lets go of its slot has installed it, on a mutex that was unbound, or has lost it. */
  lemma SlotIsInstalledOrLost(s: State, a: Action, slot: nat)
    requires Inv(s) && Enabled(s, a) && InHand(s.pcs[a.t]) == Some(slot) && InHand(Apply(s, a).pcs[a.t]) != Some(slot)
    ensures var m := s.pcs[a.t].m; var s' := Apply(s, a);
      if s.bindings[m] == 0 then s'.bindings == s.bindings[m := slot + 1]
      else s'.bindings == s.bindings && Lost(s', slot)
  {
    SharedFieldsOf(s, a);
    assert PcOk(s, s.pcs[a.t]);
  }

  /** Losing slots never become a binding: when a thread lets go of its slot and finds its mutex bound
      already, no mutex is bound to that slot at any later point of the run. */
  lemma {:induction false} LosersAreDropped(run: seq<State>, acts: seq<Action>, start: State, i: nat, j: nat, slot: nat)
    requires IsRun(run, acts, start) && Inv(start) && i < j <= |acts|
    requires acts[i].t < |run[i].pcs| && InHand(run[i].pcs[acts[i].t]) == Some(slot)
    requires acts[i].t < |run[i + 1].pcs| && InHand(run[i + 1].pcs[acts[i].t]) != Some(slot)
    requires run[i].pcs[acts[i].t].m < |run[i].bindings| && run[i].bindings[run[i].pcs[acts[i].t].m] != 0
    ensures Lost(run[j], slot)
    ensures forall m :: 0 <= m < |run[j].bindings| ==> run[j].bindings[m] != slot + 1
    decreases j
  {
    hide Apply, Enabled, Inv;
    BindingIsUniqueAndFinal(run, acts, start, i, j - 1);
    if j == i + 1 {
      SlotIsInstalledOrLost(run[i], acts[i], slot);
    } else {
      LosersAreDropped(run, acts, start, i, j - 1, slot);
      LostStaysLost(run[j - 1], acts[j - 1], slot);
    }
  }
}

/** The shadows' locks and the bindings together: mutual exclusion on the application's mutexes. */
module ApplicationMutex {
  import Lock = FutexLock
  import Shadow = ShadowMutex

  /** One futex lock for each slot of the pool. */
  datatype State = State(shadow: Shadow.State, locks: seq<Lock.State>)

  datatype Action = Binding(a: Shadow.Action) | Locking(shadow: nat, b: Lock.Action)

  /** A thread runs the lock code only on the shadow it has loaded for its call. */
  predicate Enabled(s: State, a: Action) {
    match a
    case Binding(b) => Shadow.Enabled(s.shadow, b)
    case Locking(shadow, b) =>
      && 0 < shadow <= |s.locks|
      && b.t < |s.shadow.pcs|
      && s.shadow.pcs[b.t].Bound? && s.shadow.pcs[b.t].shadow == shadow
      && Lock.Enabled(s.locks[shadow - 1], b)
  }

  function Apply(s: State, a: Action): State
    requires Enabled(s, a)
  {
    match a
    case Binding(b) => s.(shadow := Shadow.Apply(s.shadow, b))
    case Locking(shadow, b) => s.(locks := s.locks[shadow - 1 := Lock.Apply(s.locks[shadow - 1], b)])
  }

  function Initial(mutexes: nat, threads: nat, total: nat): State {
    State(Shadow.Initial(mutexes, threads, total), seq(total, _ => Lock.Initial(threads)))
  }

  predicate Inv(s: State) {
    Shadow.Inv(s.shadow) && forall k :: 0 <= k < |s.locks| ==> Lock.Safe(s.locks[k])
  }

  /** Thread `t` is inside application mutex `m`: it owns the lock of the shadow it loaded for it. */
  predicate Inside(s: State, t: nat, m: nat) {
    && t < |s.shadow.fetched|
    && m in s.shadow.fetched[t]
    && var shadow := s.shadow.fetched[t][m];
       && 0 < shadow <= |s.locks|
       && t < |s.locks[shadow - 1].pcs|
       && s.locks[shadow - 1].pcs[t] in Lock.OWNING
  }

  ghost predicate IsRun(run: seq<State>, acts: seq<Action>, start: State) {
    && |run| == |acts| + 1
    && run[0] == start
    && forall i :: 0 <= i < |acts| ==> Enabled(run[i], acts[i]) && run[i + 1] == Apply(run[i], acts[i])
  }

  lemma {:induction false} RunsKeepInv(run: seq<State>, acts: seq<Action>, start: State, i: nat)
    requires IsRun(run, acts, start) && Inv(start) && i <= |acts|
    ensures Inv(run[i])
  {
    if i > 0 {
      RunsKeepInv(run, acts, start, i - 1);
      var s := run[i - 1];
      match acts[i - 1]
      case Binding(b) => Shadow.StepKeepsInv(s.shadow, b);
      case Locking(shadow, b) => Lock.StepIsSafe(s.locks[shadow - 1], b);
    }
  }

  /** However many threads race through the first lock of a zeroed mutex, and however the binding and
      the locking interleave, two threads are never inside the same application mutex at once. */
  lemma MutualExclusion(run: seq<State>, acts: seq<Action>, mutexes: nat, threads: nat, total: nat,
                        i: nat, t: nat, u: nat, m: nat)
    requires IsRun(run, acts, Initial(mutexes, threads, total)) && i <= |acts|
    requires Inside(run[i], t, m) && Inside(run[i], u, m)
    ensures t == u
  {
    RunsKeepInv(run, acts, Initial(mutexes, threads, total), i);
    var s := run[i];
    assert Shadow.KnownOk(s.shadow, s.shadow.fetched[t]) && Shadow.KnownOk(s.shadow, s.shadow.fetched[u]);
  }
}
