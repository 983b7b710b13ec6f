/** The bindings and the pool of shadows as the code updates them: each method is one access of
    thread `t` to the shared memory in `create_mutex`, `setSyncEntry` and `get_mutex`. */
module ShadowCode {
  import opened ShadowMutex

  class Registry {
    var bindings: seq<nat>   // the first words of the application mutexes
    var next: nat            // `_cur`
    const total: nat         // `_total`
    var aborted: bool
    var pcs: seq<Pc>
    ghost var fetched: seq<map<nat, nat>>

    ghost function Abs(): State
      reads this
    {
      State(bindings, next, total, aborted, pcs, fetched)
    }

    ghost predicate Ready(t: nat)
      reads this
    {
      Inv(Abs()) && Enabled(Abs(), Step(t))
    }

    constructor (mutexes: nat, threads: nat, total: nat)
      ensures Abs() == Initial(mutexes, threads, total) && Inv(Abs())
    {
      this.total := total;
      next, aborted := 0, false;
      bindings := seq(mutexes, _ => 0);
      pcs := seq(threads, _ => Outside);
      fetched := seq(threads, _ => map[]);
    }

    /** `is_my_mutex`, as lock and trylock test it and as `setSyncEntry` tests it again. */
    method IsMyMutex(t: nat) returns (bound: bool)
      requires Ready(t) && (pcs[t].FirstCheck? || pcs[t].DoubleCheck?)
      modifies this
      ensures Abs() == Apply(old(Abs()), Step(t)) && Inv(Abs())
      ensures bound <==> bindings[old(pcs[t]).m] != 0
      ensures bound ==> pcs[t] == Fetch(old(pcs[t]).m)
      ensures bindings == old(bindings) && next == old(next)
    {
      StepKeepsInv(Abs(), Step(t));
      var pc := pcs[t];
      bound := bindings[pc.m] != 0;
      if bound {
        pcs := pcs[t := Fetch(pc.m)];
      } else if pc.FirstCheck? {
        pcs := pcs[t := Alloc(pc.m)];
      } else {
        pcs := pcs[t := Install(pc.m, pc.slot, pc.expected)];
      }
    }

    /** `get_next_index`: an atomic increment, and the end of the program when the pool is used up. */
    method GetNextIndex(t: nat) returns (index: nat)
      requires Ready(t) && pcs[t].Alloc?
      modifies this
      ensures Abs() == Apply(old(Abs()), Step(t)) && Inv(Abs())
      ensures index == old(next) && (aborted <==> index >= total)
    {
      StepKeepsInv(Abs(), Step(t));
      index := next;
      next := next + 1;
      if index < total {
        pcs := pcs[t := ReadExpected(pcs[t].m, index)];
      } else {
        aborted := true;
      }
    }

    method LoadExpected(t: nat)
      requires Ready(t) && pcs[t].ReadExpected?
      modifies this
      ensures Abs() == Apply(old(Abs()), Step(t)) && Inv(Abs())
    {
      StepKeepsInv(Abs(), Step(t));
      var pc := pcs[t];
      pcs := pcs[t := DoubleCheck(pc.m, pc.slot, bindings[pc.m])];
    }

    /** The compare and swap of `setSyncEntry`; it installs a slot exactly on an unbound mutex. */
    method CompareAndSwap(t: nat) returns (ret: int)
      requires Ready(t) && pcs[t].Install?
      modifies this
      ensures Abs() == Apply(old(Abs()), Step(t)) && Inv(Abs())
      ensures ret == 1 <==> old(bindings[pcs[t].m]) == 0
      ensures bindings == if ret == 1 then old(bindings)[old(pcs[t]).m := old(pcs[t]).slot + 1] else old(bindings)
    {
      StepKeepsInv(Abs(), Step(t));
      assert PcOk(Abs(), pcs[t]);
      var pc := pcs[t];
      ret := 0;
      if bindings[pc.m] == pc.expected {
        bindings := bindings[pc.m := pc.slot + 1];
        ret := 1;
      }
      pcs := pcs[t := Fetch(pc.m)];
    }

    /** `get_mutex`: the word is not null. */
    method GetMutex(t: nat) returns (shadow: nat)
      requires Ready(t) && pcs[t].Fetch?
      modifies this
      ensures Abs() == Apply(old(Abs()), Step(t)) && Inv(Abs())
      ensures shadow == bindings[old(pcs[t]).m] != 0
    {
      StepKeepsInv(Abs(), Step(t));
      assert PcOk(Abs(), pcs[t]);
      var m := pcs[t].m;
      shadow := bindings[m];
      ghost var known: map<nat, nat> := fetched[t][m := shadow];
      fetched := fetched[t := known];
      pcs := pcs[t := Bound(m, shadow)];
    }
  }
}
