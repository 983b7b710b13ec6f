/** Switching a thread to asynchronous cancellation and back: `__pthread_enable_asynccancel` and
    `__pthread_disable_asynccancel`, called in pairs that may nest, while other threads set and
    clear the other bits of the same word. */
module AsyncCancel {

  /** The bits of `cancelhandling`, from the lowest. The first one set means disabled. */
  datatype Flags = Flags(disabled: bool, asynchronous: bool, canceling: bool, canceled: bool,
                         exiting: bool, terminated: bool, setxid: bool, rest: bv25)

  /** Cancellation is enabled, asynchronous and has arrived; the thread is not already on its way
      out. */
  predicate MustAct(word: Flags) {
    word.asynchronous && word.canceled && !word.disabled && !word.exiting && !word.terminated && word.rest == 0
  }

  /** A cancellation has been started and not yet been delivered. */
  predicate Pending(word: Flags) {
    word.canceling && !word.canceled
  }

  /** The bits of `setting` go on, then those of `clearing` go off; the type bit is left alone. */
  function Touched(word: Flags, setting: Flags, clearing: Flags): Flags {
    Flags((word.disabled || setting.disabled) && !clearing.disabled,
          word.asynchronous,
          (word.canceling || setting.canceling) && !clearing.canceling,
          (word.canceled || setting.canceled) && !clearing.canceled,
          (word.exiting || setting.exiting) && !clearing.exiting,
          (word.terminated || setting.terminated) && !clearing.terminated,
          (word.setxid || setting.setxid) && !clearing.setxid,
          (word.rest | setting.rest) & !clearing.rest)
  }

  // ----- The bits of the word ----------------------------------------------------------------

  function Bit(b: bool, mask: bv32): bv32 {
    if b then mask else 0
  }

  /** `cancelhandling` as a word. */
  function Bits(word: Flags): bv32 {
    Bit(word.disabled, 0x01) | Bit(word.asynchronous, 0x02) | Bit(word.canceling, 0x04) | Bit(word.canceled, 0x08)
    | Bit(word.exiting, 0x10) | Bit(word.terminated, 0x20) | Bit(word.setxid, 0x40) | ((word.rest as bv32) << 7)
  }

  /** The two tests are those that the source makes with masks: all bits but the canceling and the setxid
      bit against the type and the canceled bit, and the canceling and the canceled bit against the first. */
  lemma TestsAreOfBits(word: Flags)
    ensures MustAct(word) <==> Bits(word) & 0xffff_ffbb == 0x0a
    ensures Pending(word) <==> Bits(word) & 0x0c == 0x04
  {
  }

  lemma TypeIsABit(word: Flags)
    ensures word.asynchronous <==> Bits(word) & 0x02 != 0
  {
  }

  // ----- The protocol ----------------------------------------------------------------------

  datatype Pc =
    | Running
    | Enabling(oldval: Flags)    // about to swap the type bit in
    | Disabling(oldval: Flags)   // about to swap it out
    | Settling(newval: Flags)    // waiting for a pending cancellation
    | Cancelled                 // in `__do_cancel`, which does not return

  /** `saved` are the results of the enables that have not been undone, innermost last. */
  datatype State = State(word: Flags, saved: seq<Flags>, pc: Pc)

  datatype Action =
    | Others(setting: Flags, clearing: Flags)
    | Enable
    | EnableSwap
    | Disable
    | DisableSwap
    | Settle

  predicate Enabled(s: State, a: Action) {
    match a
    case Others(_, _) => true
    case Enable => s.pc.Running?
    case EnableSwap => s.pc.Enabling?
    case Disable => s.pc.Running? && s.saved != []
    case DisableSwap => s.pc.Disabling?
    case Settle => s.pc.Settling?
  }

  function Apply(s: State, a: Action): State
    requires Enabled(s, a)
  {
    match a
    case Others(setting, clearing) => s.(word := Touched(s.word, setting, clearing))
    case Enable => s.(pc := Enabling(s.word))
    case EnableSwap =>
      var was := s.pc.oldval;
      var newval := was.(asynchronous := true);
      if newval == was then s.(saved := s.saved + [was], pc := Running)
      else if s.word == was then State(newval, s.saved + [was], if MustAct(newval) then Cancelled else Running)
      else s.(pc := Enabling(s.word))
    case Disable =>
      var top, rest := s.saved[|s.saved| - 1], s.saved[..|s.saved| - 1];
      if top.asynchronous then s.(saved := rest) else s.(saved := rest, pc := Disabling(s.word))
    case DisableSwap =>
      var was := s.pc.oldval;
      var newval := was.(asynchronous := false);
      if s.word == was then s.(word := newval, pc := Settling(newval)) else s.(pc := Disabling(s.word))
    case Settle =>
      if Pending(s.pc.newval) then s.(pc := Settling(s.word)) else s.(pc := Running)
  }

  /** Where the thread is decides the type bit, given the caller's own. Only the outermost enable of
      a caller that was not asynchronous has the bit to undo. */
  ghost predicate TypeFits(s: State, initially: bool) {
    && (forall i :: 0 <= i < |s.saved| ==> s.saved[i].asynchronous == (i > 0 || initially))
    && match s.pc
       case Running => s.word.asynchronous == (s.saved != [] || initially)
       case Enabling(was) =>
         s.word.asynchronous == was.asynchronous == (s.saved != [] || initially)
       case Disabling(was) => s.saved == [] && !initially && s.word.asynchronous && was.asynchronous
       case Settling(seen) => s.saved == [] && !initially && !s.word.asynchronous && !seen.asynchronous
       case Cancelled => true
  }

  lemma StepKeepsType(s: State, a: Action, initially: bool)
    requires TypeFits(s, initially) && Enabled(s, a)
    ensures TypeFits(Apply(s, a), initially)
  {
  }

  /** A change by others acts on the type bit and on the rest apart. */
  lemma ChangesActApart(word: Flags, setting: Flags, clearing: Flags, bit: bool)
    ensures Touched(word.(asynchronous := bit), setting, clearing) ==
      Touched(word, setting, clearing).(asynchronous := bit)
  {
  }

  lemma StepKeepsOthers(s: State, a: Action, alone: Flags)
    requires Enabled(s, a) && s.word == alone.(asynchronous := s.word.asynchronous)
    ensures var alone' := if a.Others? then Touched(alone, a.setting, a.clearing) else alone;
      Apply(s, a).word == alone'.(asynchronous := Apply(s, a).word.asynchronous)
  {
    hide Touched, MustAct, Pending;
    if a.Others? {
      ChangesActApart(alone, a.setting, a.clearing, s.word.asynchronous);
    }
  }

  ghost predicate IsRun(run: seq<State>, acts: seq<Action>) {
    && |run| == |acts| + 1
    && run[0].saved == [] && run[0].pc == Running
    && forall i :: 0 <= i < |acts| ==> Enabled(run[i], acts[i]) && run[i + 1] == Apply(run[i], acts[i])
  }

  /** What the actions of the others alone would make of a word. */
  function OthersAlone(word: Flags, acts: seq<Action>): Flags {
    if acts == [] then word
    else
      var before, last := OthersAlone(word, acts[..|acts| - 1]), acts[|acts| - 1];
      if last.Others? then Touched(before, last.setting, last.clearing) else before
  }

  /** Nested enables and disables, over any run: apart from the type bit, the word is what the others
      alone made of it. The type bit is the caller's own again whenever every enable has been
      undone. */
  lemma {:induction false} RunsRestoreTheWord(run: seq<State>, acts: seq<Action>)
    requires IsRun(run, acts)
    ensures TypeFits(run[|acts|], run[0].word.asynchronous)
    ensures run[|acts|].word == OthersAlone(run[0].word, acts).(asynchronous := run[|acts|].word.asynchronous)
    ensures run[|acts|].pc == Running && run[|acts|].saved == [] ==> run[|acts|].word == OthersAlone(run[0].word, acts)
    decreases |acts|
  {
    hide Touched, Apply, Enabled, MustAct, Pending, TypeFits;
    var n := |acts|;
    if n == 0 {
      StartFits(run[0]);
    } else {
      RunsRestoreTheWord(run[..n], acts[..n - 1]);
      StepKeepsType(run[n - 1], acts[n - 1], run[0].word.asynchronous);
      StepKeepsOthers(run[n - 1], acts[n - 1], OthersAlone(run[0].word, acts[..n - 1]));
    }
    TypeAlone(run[0].word, acts);
    AtRest(run[n], run[0].word.asynchronous);
  }

  lemma StartFits(s: State)
    requires s.saved == [] && s.pc == Running
    ensures TypeFits(s, s.word.asynchronous)
  {
  }

  lemma AtRest(s: State, initially: bool)
    requires TypeFits(s, initially)
    ensures s.pc == Running && s.saved == [] ==> s.word.asynchronous == initially
  {
  }

  lemma {:induction false} TypeAlone(word: Flags, acts: seq<Action>)
    ensures OthersAlone(word, acts).asynchronous == word.asynchronous
  {
    if acts != [] {
      TypeAlone(word, acts[..|acts| - 1]);
    }
  }

  /** A disable that cleared the bit comes back only after it has seen the word, as it cleared it or
      later, without a pending cancellation. */
  lemma {:induction false} SettlingSawTheWord(run: seq<State>, acts: seq<Action>, i: nat) returns (seen: nat)
    requires IsRun(run, acts) && i <= |acts| && run[i].pc.Settling?
    ensures 0 < seen <= i && run[seen].word == run[i].pc.newval && !run[seen].word.asynchronous
    ensures forall j :: seen <= j <= i ==> run[j].pc.Settling?
  {
    assert acts[i - 1] != Settle || run[i - 1].pc.Settling?;
    StepsFit(run, acts, i);
    if acts[i - 1].Others? {
      seen := SettlingSawTheWord(run, acts, i - 1);
    } else {
      seen := i;
    }
  }

  lemma {:induction false} StepsFit(run: seq<State>, acts: seq<Action>, i: nat)
    requires IsRun(run, acts) && i <= |acts|
    ensures TypeFits(run[i], run[0].word.asynchronous)
  {
    if i > 0 {
      StepsFit(run, acts, i - 1);
      StepKeepsType(run[i - 1], acts[i - 1], run[0].word.asynchronous);
    }
  }

  /** The wait ends with the first such observation. */
  lemma SettlesOnceUnpending(s: State)
    requires Enabled(s, Settle)
    ensures Apply(s, Settle).pc == Running <==> (s.pc.newval.canceling ==> s.pc.newval.canceled)
    ensures Apply(s, Settle).pc != Running ==> Apply(s, Settle).pc == Settling(s.word)
  {
  }

  /** The only way back to the caller from a disable that has the bit to clear: it was cleared, and since
      then the word has been seen without a pending cancellation. */
  lemma DisableReturnsUnpending(run: seq<State>, acts: seq<Action>, i: nat) returns (seen: nat)
    requires IsRun(run, acts) && i < |acts| && run[i + 1].pc == Running
    requires run[i].pc.Disabling? || run[i].pc.Settling?
    ensures 0 < seen <= i && !run[seen].word.asynchronous && (run[seen].word.canceling ==> run[seen].word.canceled)
    ensures forall j :: seen <= j <= i ==> run[j].pc.Settling?
  {
    seen := SettlingSawTheWord(run, acts, i);
  }

  /** Delivered to a thread that allows it and is not on its way out. */
  predicate Deliverable(word: Flags) {
    word.canceled && !word.disabled && !word.exiting && !word.terminated && word.rest == 0
  }

  lemma DeliverableIsWhatIsTested(word: Flags)
    ensures MustAct(word.(asynchronous := true)) <==> Deliverable(word)
  {
  }

  lemma ActingStep(s: State, a: Action)
    requires Enabled(s, a) && s.pc != Cancelled
    ensures Apply(s, a).pc == Cancelled <==>
      a == EnableSwap && s.word == s.pc.oldval && !s.word.asynchronous && Deliverable(s.word)
  {
  }

  /** When a thread acts on a cancellation, over any run: it goes into `__do_cancel` exactly with the swap
      that makes it asynchronous, and exactly when a cancellation has then been delivered, is enabled,
      and finds the thread not exiting. Until then it runs, and afterwards it stays there. */
  lemma {:induction false} ActsExactlyWhenDelivered(run: seq<State>, acts: seq<Action>, n: nat)
    requires IsRun(run, acts) && n <= |acts|
    ensures run[n].pc == Cancelled <==>
      exists k :: 0 <= k < n && acts[k] == EnableSwap && run[k].pc == Enabling(run[k].word)
        && !run[k].word.asynchronous && Deliverable(run[k].word)
  {
    hide Deliverable;
    if n > 0 {
      ActsExactlyWhenDelivered(run, acts, n - 1);
      if run[n - 1].pc != Cancelled {
        ActingStep(run[n - 1], acts[n - 1]);
      }
    }
  }

  // ----- The two functions as the code runs them -------------------------------------------

  /** One change that another thread makes. */
  datatype Change = Change(setting: Flags, clearing: Flags)

  function AllChanges(word: Flags, changes: seq<Change>): Flags {
    if changes == [] then word
    else
      var before, last := AllChanges(word, changes[..|changes| - 1]), changes[|changes| - 1];
      Touched(before, last.setting, last.clearing)
  }

  lemma OneMoreChange(word: Flags, changes: seq<Change>, n: nat)
    requires n < |changes|
    ensures AllChanges(word, changes[..n + 1]) ==
      Touched(AllChanges(word, changes[..n]), changes[n].setting, changes[n].clearing)
  {
    assert changes[..n + 1][..n] == changes[..n];
  }

  lemma {:induction false} ChangesKeepType(word: Flags, changes: seq<Change>)
    ensures AllChanges(word, changes).asynchronous == word.asynchronous
  {
    if changes != [] {
      ChangesKeepType(word, changes[..|changes| - 1]);
    }
  }

  class ThreadDescriptor {
    var cancelhandling: Flags

    constructor (cancelhandling: Flags)
      ensures this.cancelhandling == cancelhandling
    {
      this.cancelhandling := cancelhandling;
    }

    /** The atomic swap: it returns the old value, and succeeds when that is the expected one. */
    method CompareAndSwap(newval: Flags, oldval: Flags) returns (curval: Flags)
      modifies this
      ensures curval == old(cancelhandling)
      ensures cancelhandling == if curval == oldval then newval else curval
    {
      curval := cancelhandling;
      if curval == oldval {
        cancelhandling := newval;
      }
    }

    /** `changes` happen one before each swap. The first `n` of them had happened when the loop ended;
        `acts` is the call of `__do_cancel`: exactly when this call made the thread asynchronous, and a
        cancellation had been delivered that it allowed and was not exiting already. */
    method EnableAsyncCancel(changes: seq<Change>) returns (oldval: Flags, acts: bool, ghost n: nat)
      modifies this
      ensures n <= |changes| && oldval == AllChanges(old(cancelhandling), changes[..n])
      ensures cancelhandling == oldval.(asynchronous := true)
      ensures acts <==> !oldval.asynchronous && Deliverable(oldval)
      ensures acts <==> Bits(oldval) & 0x02 == 0 && Bits(cancelhandling) & 0xffff_ffbb == 0x0a
    {
      hide Touched, MustAct, Deliverable, Bits;
      ghost var first := cancelhandling;
      var i := 0;
      oldval := cancelhandling;
      while true
        invariant 0 <= i <= |changes| && oldval == cancelhandling == AllChanges(first, changes[..i])
        decreases |changes| - i
      {
        var newval := oldval.(asynchronous := true);
        TypeIsABit(oldval);
        if newval == oldval {
          return oldval, false, i;
        }
        if i < |changes| {
          OneMoreChange(first, changes, i);
          cancelhandling := Touched(cancelhandling, changes[i].setting, changes[i].clearing);
          i := i + 1;
        }
        var curval := CompareAndSwap(newval, oldval);
        if curval == oldval {
          DeliverableIsWhatIsTested(oldval);
          TestsAreOfBits(newval);
          return oldval, MustAct(newval), i;
        }
        oldval := curval;
      }
    }

    /** Nothing to undo when the caller was asynchronous already. Otherwise the bit is cleared, and
        the call comes back only once no cancellation is pending; otherwise the
        changes ran out while it waited. */
    method DisableAsyncCancel(oldtype: Flags, changes: seq<Change>) returns (comesBack: bool, ghost n: nat)
      modifies this
      ensures oldtype.asynchronous ==> comesBack && cancelhandling == old(cancelhandling)
      ensures !oldtype.asynchronous ==>
        && n <= |changes|
        && cancelhandling == AllChanges(old(cancelhandling), changes[..n]).(asynchronous := false)
        && (comesBack <==> Bits(cancelhandling) & 0x0c != 0x04)
        && (!comesBack ==> n == |changes|)
    {
      if oldtype.asynchronous {
        return true, 0;
      }
      hide Touched, Pending, Bits;
      ghost var first := cancelhandling;
      var newval, i := ClearType(changes);
      while Pending(newval) && i < |changes|
        invariant 0 <= i <= |changes| && newval == cancelhandling
        invariant cancelhandling == AllChanges(first, changes[..i]).(asynchronous := false)
      {
        OneMoreChange(first, changes, i);
        ChangesActApart(AllChanges(first, changes[..i]), changes[i].setting, changes[i].clearing, false);
        cancelhandling := Touched(cancelhandling, changes[i].setting, changes[i].clearing);
        i := i + 1;
        newval := cancelhandling;
      }
      TestsAreOfBits(newval);
      return !Pending(newval), i;
    }

    method ClearType(changes: seq<Change>) returns (newval: Flags, i: nat)
      modifies this
      ensures i <= |changes| && newval == cancelhandling
      ensures cancelhandling == AllChanges(old(cancelhandling), changes[..i]).(asynchronous := false)
    {
      hide Touched;
      ghost var first := cancelhandling;
      i := 0;
      var oldval := cancelhandling;
      while true
        invariant 0 <= i <= |changes| && oldval == cancelhandling == AllChanges(first, changes[..i])
        decreases |changes| - i
      {
        newval := oldval.(asynchronous := false);
        if i < |changes| {
          OneMoreChange(first, changes, i);
          cancelhandling := Touched(cancelhandling, changes[i].setting, changes[i].clearing);
          i := i + 1;
        }
        var curval := CompareAndSwap(newval, oldval);
        if curval == oldval {
          return;
        }
        oldval := curval;
      }
    }
  }
}
