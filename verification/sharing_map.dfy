/** The online classifier of shared memory: a map from addresses to the only thread that touched them,
    or to a sentinel once a second thread has, and the totals printed at the end. */
module SharingMap {
  import opened Counting

  type Address = nat

  datatype Access = Access(address: Address, thread: nat)

  /** `thread` is the only toucher, or `totalThreads` for a shared address. */
  datatype Entry = Entry(thread: nat, accessCount: nat)

  const UINT_RANGE: nat := 0x1_0000_0000  // counters are 32 bits wide

  function Wrap(n: nat): nat {
    n % UINT_RANGE
  }

  // ----- What the trace says ---------------------------------------------------------------

  function Touchers(trace: seq<Access>, address: Address): set<nat> {
    set i | 0 <= i < |trace| && trace[i].address == address :: trace[i].thread
  }

  function To(address: Address): Access -> bool {
    (a: Access) => a.address == address
  }

  predicate IsShared(trace: seq<Access>, address: Address) {
    exists i, j :: 0 <= i < j < |trace| && trace[i].address == trace[j].address == address
                   && trace[i].thread != trace[j].thread
  }

  /** Calls whose address ends up shared. */
  function ToShared(trace: seq<Access>): Access -> bool {
    (a: Access) => IsShared(trace, a.address)
  }

  /** What an address's entry should say after the trace. */
  predicate EntryAgrees(trace: seq<Access>, totalThreads: nat, address: Address, e: Entry) {
    && Touchers(trace, address) != {}
    && (IsShared(trace, address) ==> e.thread == totalThreads)
    && (!IsShared(trace, address) ==> Touchers(trace, address) == {e.thread})
    && e.accessCount == Wrap(Count(trace, To(address)))
  }

  ghost predicate Agrees(trace: seq<Access>, totalThreads: nat, entries: map<Address, Entry>) {
    && (forall a :: a in entries <==> Touchers(trace, a) != {})
    && (forall a :: a in entries ==> EntryAgrees(trace, totalThreads, a, entries[a]))
    && (forall i :: 0 <= i < |trace| ==> trace[i].thread < totalThreads)
  }

  lemma TouchersAppend(trace: seq<Access>, x: Access, address: Address)
    ensures Touchers(trace + [x], address) ==
      Touchers(trace, address) + (if x.address == address then {x.thread} else {})
  {
    var more := trace + [x];
    forall t | t in Touchers(trace, address) ensures t in Touchers(more, address) {
      var i :| 0 <= i < |trace| && trace[i].address == address && trace[i].thread == t;
      assert more[i] == trace[i];
    }
    assert more[|trace|] == x;
  }

  lemma SharedAppend(trace: seq<Access>, x: Access, address: Address)
    ensures IsShared(trace + [x], address) <==>
      IsShared(trace, address) || (x.address == address && exists t :: t in Touchers(trace, address) && t != x.thread)
  {
    var more := trace + [x];
    if IsShared(trace, address) {
      var i, j :| 0 <= i < j < |trace| && trace[i].address == trace[j].address == address
        && trace[i].thread != trace[j].thread;
      assert more[i] == trace[i] && more[j] == trace[j];
    }
    if t :| x.address == address && t in Touchers(trace, address) && t != x.thread {
      var i :| 0 <= i < |trace| && trace[i].address == address && trace[i].thread == t;
      assert more[i] == trace[i] && more[|trace|] == x;
    }
    if IsShared(more, address) && !IsShared(trace, address) {
      var i, j :| 0 <= i < j < |more| && more[i].address == more[j].address == address
        && more[i].thread != more[j].thread;
      assert j == |trace| && more[i] == trace[i];
      assert trace[i].thread in Touchers(trace, address);
    }
  }

  lemma ToucherOf(trace: seq<Access>, i: nat)
    requires i < |trace|
    ensures trace[i].thread in Touchers(trace, trace[i].address)
  {
  }

  /** At least two threads touched an address exactly when it is shared. */
  lemma SharedMeansTwoTouchers(trace: seq<Access>, address: Address)
    ensures IsShared(trace, address) <==> |Touchers(trace, address)| >= 2
  {
    var ts := Touchers(trace, address);
    if IsShared(trace, address) {
      var i, j :| 0 <= i < j < |trace| && trace[i].address == trace[j].address == address
        && trace[i].thread != trace[j].thread;
      SubsetSmaller({trace[i].thread, trace[j].thread}, ts);
    } else if t :| t in ts {
      forall u | u in ts ensures u == t {
        var i :| 0 <= i < |trace| && trace[i].address == address && trace[i].thread == t;
        var j :| 0 <= j < |trace| && trace[j].address == address && trace[j].thread == u;
      }
      assert ts == {t};
    }
  }

  lemma {:induction false} SubsetSmaller(small: set<nat>, large: set<nat>)
    requires small <= large
    ensures |small| <= |large|
  {
    if x :| x in small {
      SubsetSmaller(small - {x}, large - {x});
    }
  }

  /** The sentinel stands for nobody else: thread numbers stay below it. */
  lemma SentinelIff(trace: seq<Access>, totalThreads: nat, entries: map<Address, Entry>, a: Address)
    requires Agrees(trace, totalThreads, entries) && a in entries
    ensures entries[a].thread == totalThreads <==> IsShared(trace, a)
  {
    assert EntryAgrees(trace, totalThreads, a, entries[a]);
    if !IsShared(trace, a) {
      assert entries[a].thread in Touchers(trace, a);
    }
  }

  /** The entry of an accessed address after the access. */
  function Recorded(entries: map<Address, Entry>, totalThreads: nat, x: Access): Entry {
    if x.address !in entries then Entry(x.thread, 1)
    else
      var e := entries[x.address];
      var thread := if e.thread != totalThreads && e.thread != x.thread then totalThreads else e.thread;
      Entry(thread, Wrap(e.accessCount + 1))
  }

  lemma FirstEntryAgrees(trace: seq<Access>, totalThreads: nat, entries: map<Address, Entry>, x: Access)
    requires Agrees(trace, totalThreads, entries) && x.thread < totalThreads && x.address !in entries
    ensures EntryAgrees(trace + [x], totalThreads, x.address, Entry(x.thread, 1))
    ensures !IsShared(trace + [x], x.address)
  {
    TouchersAppend(trace, x, x.address);
    SharedAppend(trace, x, x.address);
    CountAppend(trace, x, To(x.address));
    NeverTouched(trace, x.address);
  }

  lemma LaterToucherAgrees(trace: seq<Access>, totalThreads: nat, entries: map<Address, Entry>, x: Access)
    requires Agrees(trace, totalThreads, entries) && x.thread < totalThreads && x.address in entries
    ensures var thread, now := Recorded(entries, totalThreads, x).thread, trace + [x];
      && Touchers(now, x.address) != {}
      && (IsShared(now, x.address) <==> thread == totalThreads)
      && (!IsShared(now, x.address) ==> Touchers(now, x.address) == {thread})
  {
    var a, e := x.address, entries[x.address];
    TouchersAppend(trace, x, a);
    SharedAppend(trace, x, a);
    assert EntryAgrees(trace, totalThreads, a, e);
    SentinelIff(trace, totalThreads, entries, a);
    hide Agrees, Touchers, IsShared, Wrap;
    if !IsShared(trace, a) {
      assert e.thread in Touchers(trace, a);
    }
  }

  lemma LaterEntryAgrees(trace: seq<Access>, totalThreads: nat, entries: map<Address, Entry>, x: Access)
    requires Agrees(trace, totalThreads, entries) && x.thread < totalThreads && x.address in entries
    ensures EntryAgrees(trace + [x], totalThreads, x.address, Recorded(entries, totalThreads, x))
    ensures IsShared(trace + [x], x.address) <==> Recorded(entries, totalThreads, x).thread == totalThreads
  {
    LaterToucherAgrees(trace, totalThreads, entries, x);
    assert EntryAgrees(trace, totalThreads, x.address, entries[x.address]);
    hide Agrees, Touchers, IsShared, Wrap;
    CountAppend(trace, x, To(x.address));
    WrappedSum(Count(trace, To(x.address)), 1);
    assert Wrap(1) == 1;
  }

  lemma RecordedEntryAgrees(trace: seq<Access>, totalThreads: nat, entries: map<Address, Entry>, x: Access)
    requires Agrees(trace, totalThreads, entries) && x.thread < totalThreads
    ensures EntryAgrees(trace + [x], totalThreads, x.address, Recorded(entries, totalThreads, x))
    ensures IsShared(trace + [x], x.address) <==> Recorded(entries, totalThreads, x).thread == totalThreads
  {
    if x.address in entries {
      LaterEntryAgrees(trace, totalThreads, entries, x);
    } else {
      FirstEntryAgrees(trace, totalThreads, entries, x);
    }
  }

  lemma NeverTouched(trace: seq<Access>, a: Address)
    requires Touchers(trace, a) == {}
    ensures Count(trace, To(a)) == 0 && !IsShared(trace, a)
  {
    forall i | 0 <= i < |trace| ensures trace[i].address != a {
      ToucherOf(trace, i);
    }
    CountZero(trace, To(a));
  }

  /** An access leaves what the trace says about every other address alone. */
  lemma OtherAddresses(trace: seq<Access>, totalThreads: nat, x: Access, a: Address, e: Entry)
    requires a != x.address
    ensures Touchers(trace + [x], a) == Touchers(trace, a)
    ensures EntryAgrees(trace + [x], totalThreads, a, e) <==> EntryAgrees(trace, totalThreads, a, e)
  {
    TouchersAppend(trace, x, a);
    SharedAppend(trace, x, a);
    CountAppend(trace, x, To(a));
    hide Touchers, IsShared, Wrap;
  }

  lemma MapAgreesAfter(trace: seq<Access>, totalThreads: nat, entries: map<Address, Entry>, x: Access)
    requires Agrees(trace, totalThreads, entries) && x.thread < totalThreads
    ensures Agrees(trace + [x], totalThreads, entries[x.address := Recorded(entries, totalThreads, x)])
  {
    RecordedEntryAgrees(trace, totalThreads, entries, x);
    TouchersAppend(trace, x, x.address);
    hide Touchers, EntryAgrees, Recorded;
    forall a | a != x.address
      ensures Touchers(trace + [x], a) == Touchers(trace, a)
      ensures a in entries ==> EntryAgrees(trace + [x], totalThreads, a, entries[a])
    {
      OtherAddresses(trace, totalThreads, x, a, if a in entries then entries[a] else Entry(0, 0));
    }
  }

  // ----- Summing over the addresses --------------------------------------------------------

  function Any(): Access -> bool {
    (x: Access) => true
  }

  function Within(addresses: set<Address>, p: Access -> bool): Access -> bool {
    (x: Access) => x.address in addresses && p(x)
  }

  function Only(a: Address, p: Access -> bool): Access -> bool {
    (x: Access) => x.address == a && p(x)
  }

  lemma OneMoreAddress(trace: seq<Access>, done: set<Address>, a: Address, p: Access -> bool)
    requires a !in done
    ensures Count(trace, Within(done + {a}, p)) == Count(trace, Within(done, p)) + Count(trace, Only(a, p))
  {
    CountSplit(trace, Within(done + {a}, p), Within(done, p), Only(a, p));
  }

  /** All calls to an address go to a shared address, or none does. */
  lemma SharedUniform(trace: seq<Access>, a: Address)
    ensures Count(trace, Only(a, Any())) == Count(trace, To(a))
    ensures Count(trace, Only(a, ToShared(trace))) == if IsShared(trace, a) then Count(trace, To(a)) else 0
  {
    CountAgree(trace, Only(a, Any()), trace, To(a));
    if IsShared(trace, a) {
      CountAgree(trace, Only(a, ToShared(trace)), trace, To(a));
    } else {
      CountZero(trace, Only(a, ToShared(trace)));
    }
  }

  lemma AllCounted(trace: seq<Access>, done: set<Address>, p: Access -> bool)
    requires forall i :: 0 <= i < |trace| ==> trace[i].address in done
    ensures Count(trace, Within(done, p)) == Count(trace, p)
  {
    CountAgree(trace, Within(done, p), trace, p);
  }

  lemma {:induction false} CountAny(trace: seq<Access>)
    ensures Count(trace, Any()) == |trace|
  {
    if trace != [] {
      CountAny(trace[1..]);
    }
  }

  lemma WrappedSum(x: nat, y: nat)
    ensures Wrap(Wrap(x) + Wrap(y)) == Wrap(x + y)
  {
    var q, r := x / UINT_RANGE, y / UINT_RANGE;
    assert x + y == x % UINT_RANGE + y % UINT_RANGE + (q + r) * UINT_RANGE;
  }

  /** The two totals over the addresses in `done`. */
  function AccessTotal(trace: seq<Access>, done: set<Address>): nat {
    Wrap(Count(trace, Within(done, Any())))
  }

  function SharedTotal(trace: seq<Access>, done: set<Address>): nat {
    Wrap(Count(trace, Within(done, ToShared(trace))))
  }

  lemma AddressCounts(trace: seq<Access>, done: set<Address>, a: Address)
    requires a !in done
    ensures Count(trace, Within(done + {a}, Any())) == Count(trace, Within(done, Any())) + Count(trace, To(a))
    ensures Count(trace, Within(done + {a}, ToShared(trace))) ==
      Count(trace, Within(done, ToShared(trace))) + (if IsShared(trace, a) then Count(trace, To(a)) else 0)
  {
    OneMoreAddress(trace, done, a, Any());
    OneMoreAddress(trace, done, a, ToShared(trace));
    SharedUniform(trace, a);
  }

  /** What one entry adds to the totals. */
  lemma AddressCounted(trace: seq<Access>, totalThreads: nat, entries: map<Address, Entry>,
                       done: set<Address>, a: Address)
    requires Agrees(trace, totalThreads, entries) && a !in done && a in entries
    ensures AccessTotal(trace, done + {a}) == Wrap(AccessTotal(trace, done) + entries[a].accessCount)
    ensures SharedTotal(trace, done + {a}) ==
      if entries[a].thread == totalThreads then Wrap(SharedTotal(trace, done) + entries[a].accessCount)
      else SharedTotal(trace, done)
  {
    hide Wrap, IsShared, Touchers, Count, Within, Any, ToShared;
    assert entries[a].accessCount == Wrap(Count(trace, To(a))) by {
      assert EntryAgrees(trace, totalThreads, a, entries[a]);
    }
    SentinelIff(trace, totalThreads, entries, a);
    AddressCounts(trace, done, a);
    WrappedSum(Count(trace, Within(done, Any())), Count(trace, To(a)));
    WrappedSum(Count(trace, Within(done, ToShared(trace))), Count(trace, To(a)));
  }

  lemma TotalsAtStart(trace: seq<Access>)
    ensures AccessTotal(trace, {}) == SharedTotal(trace, {}) == 0
  {
    CountZero(trace, Within({}, Any()));
    CountZero(trace, Within({}, ToShared(trace)));
  }

  lemma TotalsAtEnd(trace: seq<Access>, totalThreads: nat, entries: map<Address, Entry>)
    requires Agrees(trace, totalThreads, entries)
    ensures AccessTotal(trace, entries.Keys) == Wrap(|trace|)
    ensures SharedTotal(trace, entries.Keys) == Wrap(Count(trace, ToShared(trace)))
  {
    forall i | 0 <= i < |trace| ensures trace[i].address in entries.Keys {
      assert trace[i].thread in Touchers(trace, trace[i].address);
    }
    AllCounted(trace, entries.Keys, Any());
    AllCounted(trace, entries.Keys, ToShared(trace));
    CountAny(trace);
  }

  // ----- The map as the tool updates it ----------------------------------------------------

  class Tracker {
    const totalThreads: nat
    var memAccessMap: map<Address, Entry>
    ghost var trace: seq<Access>

    ghost predicate Valid()
      reads this
    {
      Agrees(trace, totalThreads, memAccessMap)
    }

    constructor (totalThreads: nat)
      ensures Valid() && trace == [] && this.totalThreads == totalThreads
    {
      this.totalThreads := totalThreads;
      memAccessMap := map[];
      trace := [];
    }

    /** What an access makes of the entry of an address that has been touched before. */
    method Touch(entry: Entry, thread: nat) returns (e: Entry, sharedAccess: bool)
      ensures sharedAccess <==> e.thread == totalThreads
      ensures e.thread == if entry.thread != totalThreads && entry.thread != thread then totalThreads else entry.thread
      ensures e.accessCount == Wrap(entry.accessCount + 1)
    {
      e := entry;
      sharedAccess := false;
      if e.thread != totalThreads {
        if e.thread != thread {
          e := e.(thread := totalThreads);
          sharedAccess := true;
        }
      } else {
        sharedAccess := true;
      }
      e := e.(accessCount := Wrap(e.accessCount + 1));
    }

    /** Records an access and tells whether its address is now shared. */
    method DoMemAccess(address: Address, thread: nat) returns (sharedAccess: bool)
      requires Valid() && thread < totalThreads
      modifies this
      ensures Valid() && trace == old(trace) + [Access(address, thread)]
      ensures sharedAccess <==> IsShared(trace, address)
    {
      ghost var x := Access(address, thread);
      RecordedEntryAgrees(trace, totalThreads, memAccessMap, x);
      MapAgreesAfter(trace, totalThreads, memAccessMap, x);
      hide Wrap, Agrees, IsShared, EntryAgrees, Touchers;
      sharedAccess := false;
      if address in memAccessMap {
        var e;
        e, sharedAccess := Touch(memAccessMap[address], thread);
        assert e == Recorded(memAccessMap, totalThreads, x);
        memAccessMap := memAccessMap[address := e];
      } else {
        memAccessMap := memAccessMap[address := Entry(thread, 1)];
      }
      trace := trace + [x];
    }

    /** The two totals, accumulated over the map in any order. */
    method Totals() returns (accesses: nat, sharedAccesses: nat)
      requires Valid()
      ensures accesses == Wrap(|trace|)
      ensures sharedAccesses == Wrap(Count(trace, ToShared(trace)))
    {
      hide Wrap, AccessTotal, SharedTotal, EntryAgrees, Touchers;
      accesses, sharedAccesses := 0, 0;
      var left := memAccessMap.Keys;
      ghost var done: set<Address> := {};
      TotalsAtStart(trace);
      while left != {}
        invariant done !! left && done + left == memAccessMap.Keys
        invariant accesses == AccessTotal(trace, done) && sharedAccesses == SharedTotal(trace, done)
        decreases left
      {
        var a :| a in left;
        var e := memAccessMap[a];
        AddressCounted(trace, totalThreads, memAccessMap, done, a);
        accesses := Wrap(accesses + e.accessCount);
        if e.thread == totalThreads {
          sharedAccesses := Wrap(sharedAccesses + e.accessCount);
        }
        left := left - {a};
        done := done + {a};
      }
      assert done == memAccessMap.Keys;
      TotalsAtEnd(trace, totalThreads, memAccessMap);
    }
  }
}
