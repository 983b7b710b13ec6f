/** The matrix of counters per thread and mutex, and the report made from it when the program ends:
    totals, conflict rates, the three lists of suspicious locks, and the asymmetric call sites. */
module ProfileReport {

  const MAX_THREADS := 2048
  const MAX_SYNC_ENTRIES := 1_000_000
  const UINT32: nat := 0x1_0000_0000
  const THRESHOLD_CONFLICT := 5.0
  const THRESHOLD_FREQUENCY := 1.0

  newtype uint32 = x: int | 0 <= x < 0x1_0000_0000

  datatype Cell = Cell(accesses: uint32, failures: uint32, condWaits: uint32, trylockFailures: uint32,
                       condWait: real, lockWait: real)

  function Plus(x: uint32, y: uint32): uint32 {
    ((x as int + y as int) % UINT32) as uint32
  }

  // ----- The matrix ------------------------------------------------------------------------

  /** The cell of a mutex and a thread. */
  function CellIndex(mutex: nat, thread: nat): nat {
    thread * MAX_SYNC_ENTRIES + mutex
  }

  /** Cells are never shared, and their indices fit a signed 32-bit word. */
  lemma CellsAreApart(mutex: nat, thread: nat, mutex': nat, thread': nat)
    requires mutex < MAX_SYNC_ENTRIES && mutex' < MAX_SYNC_ENTRIES && thread < MAX_THREADS
    ensures CellIndex(mutex, thread) == CellIndex(mutex', thread') <==> mutex == mutex' && thread == thread'
    ensures CellIndex(mutex, thread) < MAX_THREADS * MAX_SYNC_ENTRIES < 0x8000_0000
  {
  }

  class Matrix {
    const cells: array<Cell>

    ghost predicate Valid() {
      cells.Length == MAX_THREADS * MAX_SYNC_ENTRIES
    }

    ghost function At(mutex: nat, thread: nat): Cell
      requires Valid() && mutex < MAX_SYNC_ENTRIES && thread < MAX_THREADS
      reads cells
    {
      cells[CellIndex(mutex, thread)]
    }

    constructor ()
      ensures Valid() && fresh(cells)
      ensures forall i :: 0 <= i < cells.Length ==> cells[i] == Cell(0, 0, 0, 0, 0.0, 0.0)
    {
      cells := new Cell[MAX_THREADS * MAX_SYNC_ENTRIES](_ => Cell(0, 0, 0, 0, 0.0, 0.0));
    }

    /** `inc_access_count`; no other cell changes. */
    method IncAccessCount(mutex: nat, thread: nat)
      requires Valid() && mutex < MAX_SYNC_ENTRIES && thread < MAX_THREADS
      modifies cells
      ensures At(mutex, thread) == old(At(mutex, thread)).(accesses := Plus(old(At(mutex, thread)).accesses, 1))
      ensures OthersSame(mutex, thread)
    {
      var i := thread * MAX_SYNC_ENTRIES + mutex;
      cells[i] := cells[i].(accesses := Plus(cells[i].accesses, 1));
    }

    method IncFailCount(mutex: nat, thread: nat)
      requires Valid() && mutex < MAX_SYNC_ENTRIES && thread < MAX_THREADS
      modifies cells
      ensures At(mutex, thread) == old(At(mutex, thread)).(failures := Plus(old(At(mutex, thread)).failures, 1))
      ensures OthersSame(mutex, thread)
    {
      var i := thread * MAX_SYNC_ENTRIES + mutex;
      cells[i] := cells[i].(failures := Plus(cells[i].failures, 1));
    }

    /** `inc_trylock_fail_count` moves two counters. */
    method IncTrylockFailCount(mutex: nat, thread: nat)
      requires Valid() && mutex < MAX_SYNC_ENTRIES && thread < MAX_THREADS
      modifies cells
      ensures At(mutex, thread).failures == Plus(old(At(mutex, thread)).failures, 1)
      ensures At(mutex, thread).trylockFailures == Plus(old(At(mutex, thread)).trylockFailures, 1)
      ensures At(mutex, thread) == old(At(mutex, thread)).(failures := At(mutex, thread).failures,
        trylockFailures := At(mutex, thread).trylockFailures)
      ensures OthersSame(mutex, thread)
    {
      var i := thread * MAX_SYNC_ENTRIES + mutex;
      cells[i] := cells[i].(failures := Plus(cells[i].failures, 1));
      cells[i] := cells[i].(trylockFailures := Plus(cells[i].trylockFailures, 1));
    }

    method AddFutexWait(mutex: nat, thread: nat, wait: real)
      requires Valid() && mutex < MAX_SYNC_ENTRIES && thread < MAX_THREADS
      modifies cells
      ensures At(mutex, thread) == old(At(mutex, thread)).(lockWait := old(At(mutex, thread)).lockWait + wait)
      ensures OthersSame(mutex, thread)
    {
      var i := thread * MAX_SYNC_ENTRIES + mutex;
      cells[i] := cells[i].(lockWait := cells[i].lockWait + wait);
    }

    twostate predicate OthersSame(mutex: nat, thread: nat)
      requires Valid()
      reads cells
    {
      forall m: nat, t: nat :: m < MAX_SYNC_ENTRIES && t < MAX_THREADS && (m != mutex || t != thread) ==>
        At(m, t) == old(At(m, t))
    }
  }

  // ----- Totals ----------------------------------------------------------------------------

  /** What the report adds up for one mutex; the counts are 32-bit words, too. */
  datatype Totals = Totals(accesses: uint32, failures: uint32, condWaits: uint32, trylockFailures: uint32,
                           condWait: real, lockWait: real)

  ghost predicate Fits(cells: seq<Cell>, mutexes: nat, threads: nat) {
    |cells| == MAX_THREADS * MAX_SYNC_ENTRIES && mutexes <= MAX_SYNC_ENTRIES && threads <= MAX_THREADS
  }

  ghost function CellOf(cells: seq<Cell>, mutex: nat, thread: nat): Cell
    requires Fits(cells, mutex + 1, thread + 1)
  {
    cells[CellIndex(mutex, thread)]
  }

  /** The sums over the first `threads` threads, as a mathematician adds. */
  ghost function CountOf(cells: seq<Cell>, mutex: nat, threads: nat, count: Cell -> uint32): nat
    requires Fits(cells, mutex + 1, threads)
  {
    if threads == 0 then 0
    else CountOf(cells, mutex, threads - 1, count) + count(CellOf(cells, mutex, threads - 1)) as nat
  }

  ghost function TimeOf(cells: seq<Cell>, mutex: nat, threads: nat, time: Cell -> real): real
    requires Fits(cells, mutex + 1, threads)
  {
    if threads == 0 then 0.0
    else TimeOf(cells, mutex, threads - 1, time) + time(CellOf(cells, mutex, threads - 1))
  }

  /** The time that a thread has waited for the first `mutexes` mutexes. */
  ghost function WaitOf(cells: seq<Cell>, mutexes: nat, thread: nat): real
    requires Fits(cells, mutexes, thread + 1)
  {
    if mutexes == 0 then 0.0
    else
      var cell := CellOf(cells, mutexes - 1, thread);
      WaitOf(cells, mutexes - 1, thread) + (cell.condWait + cell.lockWait)
  }

  function Accesses(c: Cell): uint32 { c.accesses }
  function Failures(c: Cell): uint32 { c.failures }
  function CondWaits(c: Cell): uint32 { c.condWaits }
  function TrylockFailures(c: Cell): uint32 { c.trylockFailures }
  function CondWait(c: Cell): real { c.condWait }
  function LockWait(c: Cell): real { c.lockWait }

  ghost predicate AddsUp(cells: seq<Cell>, mutex: nat, threads: nat, totals: Totals)
    requires Fits(cells, mutex + 1, threads)
  {
    && totals.accesses as int == CountOf(cells, mutex, threads, Accesses) % UINT32
    && totals.failures as int == CountOf(cells, mutex, threads, Failures) % UINT32
    && totals.condWaits as int == CountOf(cells, mutex, threads, CondWaits) % UINT32
    && totals.trylockFailures as int == CountOf(cells, mutex, threads, TrylockFailures) % UINT32
    && totals.condWait == TimeOf(cells, mutex, threads, CondWait)
    && totals.lockWait == TimeOf(cells, mutex, threads, LockWait)
  }

  lemma PlusWraps(x: uint32, exact: nat, y: uint32)
    requires x as int == exact % UINT32
    ensures Plus(x, y) as int == (exact + y as nat) % UINT32
  {
  }

  /** One round of the inner loop. */
  function Add(totals: Totals, c: Cell): Totals {
    Totals(Plus(totals.accesses, c.accesses), Plus(totals.failures, c.failures),
           Plus(totals.condWaits, c.condWaits), Plus(totals.trylockFailures, c.trylockFailures),
           totals.condWait + c.condWait, totals.lockWait + c.lockWait)
  }

  lemma AddKeepsSums(cells: seq<Cell>, mutex: nat, threads: nat, totals: Totals)
    requires Fits(cells, mutex + 1, threads + 1) && AddsUp(cells, mutex, threads, totals)
    ensures AddsUp(cells, mutex, threads + 1, Add(totals, CellOf(cells, mutex, threads)))
  {
    var c := CellOf(cells, mutex, threads);
    PlusWraps(totals.accesses, CountOf(cells, mutex, threads, Accesses), c.accesses);
    PlusWraps(totals.failures, CountOf(cells, mutex, threads, Failures), c.failures);
    PlusWraps(totals.condWaits, CountOf(cells, mutex, threads, CondWaits), c.condWaits);
    PlusWraps(totals.trylockFailures, CountOf(cells, mutex, threads, TrylockFailures), c.trylockFailures);
    hide Plus;
  }

  /** The inner loop, for one mutex: its totals, and its waits on top of each thread's. */
  method SumThreads(matrix: Matrix, mutex: nat, waits: array<real>) returns (totals: Totals)
    requires matrix.Valid() && mutex < MAX_SYNC_ENTRIES && waits.Length <= MAX_THREADS
    requires forall t :: 0 <= t < waits.Length ==> waits[t] == WaitOf(matrix.cells[..], mutex, t)
    modifies waits
    ensures AddsUp(matrix.cells[..], mutex, waits.Length, totals)
    ensures forall t :: 0 <= t < waits.Length ==> waits[t] == WaitOf(matrix.cells[..], mutex + 1, t)
  {
    ghost var cells := matrix.cells[..];
    totals := Totals(0, 0, 0, 0, 0.0, 0.0);
    assert AddsUp(cells, mutex, 0, totals);
    hide AddsUp, Plus;
    var t := 0;
    while t < waits.Length
      invariant 0 <= t <= waits.Length && cells == matrix.cells[..]
      invariant AddsUp(cells, mutex, t, totals)
      invariant forall u :: 0 <= u < waits.Length ==> waits[u] == WaitOf(cells, if u < t then mutex + 1 else mutex, u)
    {
      var c := matrix.cells[t * MAX_SYNC_ENTRIES + mutex];
      assert c == CellOf(cells, mutex, t);
      AddKeepsSums(cells, mutex, t, totals);
      totals := Totals(Plus(totals.accesses, c.accesses), Plus(totals.failures, c.failures),
                       Plus(totals.condWaits, c.condWaits), Plus(totals.trylockFailures, c.trylockFailures),
                       totals.condWait + c.condWait, totals.lockWait + c.lockWait);
      waits[t] := waits[t] + (c.condWait + c.lockWait);
      t := t + 1;
    }
  }

  /** The report's nested loops: every mutex's totals, and every thread's waits. */
  method SumAll(matrix: Matrix, mutexes: nat, threads: nat) returns (totals: seq<Totals>, waits: array<real>)
    requires matrix.Valid() && mutexes <= MAX_SYNC_ENTRIES && threads <= MAX_THREADS
    ensures fresh(waits) && waits.Length == threads && |totals| == mutexes
    ensures forall m :: 0 <= m < mutexes ==> AddsUp(matrix.cells[..], m, threads, totals[m])
    ensures forall t :: 0 <= t < threads ==> waits[t] == WaitOf(matrix.cells[..], mutexes, t)
    ensures Sum(waits[..]) == Sum(WaitsOf(totals))
  {
    waits := new real[threads](_ => 0.0);
    totals := [];
    hide AddsUp;
    var i := 0;
    while i < mutexes
      invariant 0 <= i <= mutexes && |totals| == i
      invariant forall m :: 0 <= m < i ==> AddsUp(matrix.cells[..], m, threads, totals[m])
      invariant forall t :: 0 <= t < threads ==> waits[t] == WaitOf(matrix.cells[..], i, t)
    {
      var one := SumThreads(matrix, i, waits);
      totals := totals + [one];
      i := i + 1;
    }
    WaitsAreConserved(matrix.cells[..], totals, waits[..]);
  }

  // ----- Conservation ----------------------------------------------------------------------

  ghost function Sum(xs: seq<real>): real {
    if xs == [] then 0.0 else Sum(xs[..|xs| - 1]) + xs[|xs| - 1]
  }

  ghost function WaitsOf(totals: seq<Totals>): seq<real> {
    seq(|totals|, i requires 0 <= i < |totals| => totals[i].condWait + totals[i].lockWait)
  }

  /** No waiting time is lost or counted twice: the threads' waits and the mutexes' waits have the
      same sum. */
  lemma {:induction false} WaitsAreConserved(cells: seq<Cell>, totals: seq<Totals>, waits: seq<real>)
    requires Fits(cells, |totals|, |waits|)
    requires forall m :: 0 <= m < |totals| ==> AddsUp(cells, m, |waits|, totals[m])
    requires forall t :: 0 <= t < |waits| ==> waits[t] == WaitOf(cells, |totals|, t)
    ensures Sum(waits) == Sum(WaitsOf(totals))
    decreases |totals|
  {
    if totals == [] {
      SumOfZeros(waits);
    } else {
      var m := |totals| - 1;
      var earlier := seq(|waits|, t requires 0 <= t < |waits| => WaitOf(cells, m, t));
      WaitsAreConserved(cells, totals[..m], earlier);
      assert WaitsOf(totals)[..m] == WaitsOf(totals[..m]);
      OneMoreMutex(cells, m, earlier, waits);
    }
  }

  lemma {:induction false} SumOfZeros(xs: seq<real>)
    requires forall i :: 0 <= i < |xs| ==> xs[i] == 0.0
    ensures Sum(xs) == 0.0
  {
    if xs != [] {
      SumOfZeros(xs[..|xs| - 1]);
    }
  }

  lemma {:induction false} OneMoreMutex(cells: seq<Cell>, mutex: nat, earlier: seq<real>, waits: seq<real>)
    requires Fits(cells, mutex + 1, |waits|) && |earlier| == |waits|
    requires forall t :: 0 <= t < |waits| ==>
      waits[t] == earlier[t] + (CellOf(cells, mutex, t).condWait + CellOf(cells, mutex, t).lockWait)
    ensures Sum(waits) ==
      Sum(earlier) + TimeOf(cells, mutex, |waits|, CondWait) + TimeOf(cells, mutex, |waits|, LockWait)
    decreases |waits|
  {
    if waits != [] {
      var n := |waits| - 1;
      OneMoreMutex(cells, mutex, earlier[..n], waits[..n]);
    }
  }

  // ----- Rates and lists -------------------------------------------------------------------

  /** The percentage of accesses that failed. */
  function ConflictRate(accesses: nat, failures: nat): real
    requires accesses > 0
  {
    100.0 * (failures as real) / (accesses as real)
  }

  /** What the report computes instead: the totals are 32-bit words, and so is the product. */
  function ReportedRate(t: Totals): real
    requires t.accesses != 0
  {
    ((100 * t.failures as int) % UINT32) as real / (t.accesses as int as real)
  }

  lemma QuotientsAgreeIff(p: int, q: int, r: int, s: int)
    requires q > 0 && s > 0
    ensures p as real / q as real == r as real / s as real <==> p * s == r * q
  {
    var x, y := p as real / q as real, r as real / s as real;
    assert x * q as real == p as real && y * s as real == r as real;
    ProductIsExact(p, s);
    ProductIsExact(r, q);
    if x == y {
      assert p as real * s as real == x * q as real * s as real == r as real * q as real;
    }
    if p * s == r * q {
      assert x * (q as real * s as real) == y * (q as real * s as real);
    }
  }

  lemma ProductIsExact(x: int, y: int)
    ensures (x * y) as real == x as real * y as real
  {
  }

  /** Reducing numerator and denominator modulo the word keeps a quotient exactly when both lose the
      same share of what they were. */
  lemma WrapsKeepQuotientIff(p: nat, q: nat)
    requires q % UINT32 != 0
    ensures p * (q % UINT32) == (p % UINT32) * q <==> (p / UINT32) * q == p * (q / UINT32)
  {
    var i, j := p / UINT32, q / UINT32;
    assert p % UINT32 == p - UINT32 * i && q % UINT32 == q - UINT32 * j;
    assert p * (q - UINT32 * j) == p * q - UINT32 * (p * j);
    assert (p - UINT32 * i) * q == p * q - UINT32 * (i * q);
  }

  lemma ProductWraps(f: nat)
    ensures (100 * (f % UINT32)) % UINT32 == (100 * f) % UINT32
  {
    MultiplesVanish(100 * (f % UINT32), 100 * (f / UINT32));
  }

  lemma {:induction false} MultiplesVanish(x: nat, n: nat)
    ensures (x + n * UINT32) % UINT32 == x % UINT32
  {
    if n > 0 {
      MultiplesVanish(x, n - 1);
      assert (x + (n - 1) * UINT32 + UINT32) % UINT32 == (x + (n - 1) * UINT32) % UINT32;
    }
  }

  /** When the reported rate of a mutex is the conflict rate of all the accesses that its cells count.
      While their number fits the word, the limit is on the failures alone. Beyond it the two are equal
      only if the wraps of the product and of the divisor are in proportion, which a few failures
      never achieve; and at a multiple of 2^32 the mutex is not reported at all. */
  lemma ReportedRateIsRightIff(cells: seq<Cell>, mutex: nat, threads: nat, totals: Totals)
    requires Fits(cells, mutex + 1, threads) && AddsUp(cells, mutex, threads, totals)
    ensures var accesses, failures :=
        CountOf(cells, mutex, threads, Accesses), CountOf(cells, mutex, threads, Failures);
      && (totals.accesses == 0 <==> accesses % UINT32 == 0)
      && (accesses % UINT32 != 0 ==>
           (ReportedRate(totals) == ConflictRate(accesses, failures) <==>
             (100 * failures / UINT32) * accesses == 100 * failures * (accesses / UINT32)))
      && (0 < accesses < UINT32 ==>
           (ReportedRate(totals) == ConflictRate(accesses, failures) <==> failures <= 42_949_672))
      && (accesses > UINT32 && accesses % UINT32 != 0 && 0 < failures <= 42_949_672 ==>
           ReportedRate(totals) != ConflictRate(accesses, failures))
  {
    var accesses, failures := CountOf(cells, mutex, threads, Accesses), CountOf(cells, mutex, threads, Failures);
    assert totals.accesses as int == accesses % UINT32 && totals.failures as int == failures % UINT32;
    hide AddsUp, CountOf;
    if accesses % UINT32 != 0 {
      RateOfCounts(accesses, failures, totals);
      SmallCases(accesses, failures);
    }
  }

  lemma RateOfCounts(accesses: nat, failures: nat, totals: Totals)
    requires accesses % UINT32 != 0
    requires totals.accesses as int == accesses % UINT32 && totals.failures as int == failures % UINT32
    ensures ReportedRate(totals) == ConflictRate(accesses, failures) <==>
      (100 * failures / UINT32) * accesses == 100 * failures * (accesses / UINT32)
  {
    var p, r := 100 * failures, (100 * failures) % UINT32;
    ProductWraps(failures);
    assert 100.0 * (failures as real) == p as real;
    QuotientsAgreeIff(p, accesses, r, accesses % UINT32);
    WrapsKeepQuotientIff(p, accesses);
  }

  lemma SmallCases(accesses: nat, failures: nat)
    requires accesses > 0
    ensures accesses < UINT32 ==>
      ((100 * failures / UINT32) * accesses == 100 * failures * (accesses / UINT32) <==> failures <= 42_949_672)
    ensures accesses > UINT32 && 0 < failures <= 42_949_672 ==>
      (100 * failures / UINT32) * accesses != 100 * failures * (accesses / UINT32)
  {
    var i, j := 100 * failures / UINT32, accesses / UINT32;
    assert i == 0 <==> failures <= 42_949_672;
    if accesses < UINT32 {
      assert j == 0;
      assert i > 0 ==> i * accesses > 0;
    } else if 0 < failures <= 42_949_672 {
      assert i * accesses == 0;
      assert 100 * failures * j > 0;
    }
  }

  /** A matrix in which only mutex 0 has been used, by two threads. */
  ghost function TwoCells(first: Cell, second: Cell): (cells: seq<Cell>)
    ensures Fits(cells, 1, 2) && CellOf(cells, 0, 0) == first && CellOf(cells, 0, 1) == second
  {
    seq(MAX_THREADS * MAX_SYNC_ENTRIES, i requires 0 <= i < MAX_THREADS * MAX_SYNC_ENTRIES =>
      if i == 0 then first else if i == MAX_SYNC_ENTRIES then second else Cell(0, 0, 0, 0, 0.0, 0.0))
  }

  lemma TwoCellsAddUp(first: Cell, second: Cell) returns (totals: Totals)
    ensures var cells := TwoCells(first, second);
      && AddsUp(cells, 0, 2, totals)
      && CountOf(cells, 0, 2, Accesses) == first.accesses as nat + second.accesses as nat
      && CountOf(cells, 0, 2, Failures) == first.failures as nat + second.failures as nat
  {
    var cells := TwoCells(first, second);
    totals := Totals(0, 0, 0, 0, 0.0, 0.0);
    assert AddsUp(cells, 0, 0, totals);
    assert CountOf(cells, 0, 1, Accesses) == first.accesses as nat;
    assert CountOf(cells, 0, 1, Failures) == first.failures as nat;
    hide AddsUp;
    AddKeepsSums(cells, 0, 0, totals);
    totals := Add(totals, first);
    AddKeepsSums(cells, 0, 1, totals);
    totals := Add(totals, second);
  }

  /** A lock on which every access fails, and which the report takes for one without conflicts. */
  lemma ContentionCanVanish() returns (cells: seq<Cell>, totals: Totals)
    ensures Fits(cells, 1, 2) && AddsUp(cells, 0, 2, totals) && totals.accesses != 0
    ensures CountOf(cells, 0, 2, Accesses) == CountOf(cells, 0, 2, Failures) == 42_949_673
    ensures ConflictRate(42_949_673, 42_949_673) == 100.0 && ReportedRate(totals) < 0.0001
  {
    var first, second := Cell(42_949_672, 42_949_672, 0, 0, 0.0, 0.0), Cell(1, 1, 0, 0, 0.0, 0.0);
    cells := TwoCells(first, second);
    totals := TwoCellsAddUp(first, second);
    assert (100 * 42_949_673) % UINT32 == 4;
  }

  /** A lock that hardly ever fails, and which the report takes for one that fails every other time:
      two threads' accesses together wrap. */
  lemma ContentionCanAppear() returns (cells: seq<Cell>, totals: Totals)
    ensures Fits(cells, 1, 2) && AddsUp(cells, 0, 2, totals) && totals.accesses != 0
    ensures CountOf(cells, 0, 2, Accesses) == UINT32 + 10 && CountOf(cells, 0, 2, Failures) == 5
    ensures ConflictRate(UINT32 + 10, 5) < 0.000001 && ReportedRate(totals) == 50.0
  {
    var first, second := Cell(0xffff_ffff, 5, 0, 0, 0.0, 0.0), Cell(11, 0, 0, 0, 0.0, 0.0);
    cells := TwoCells(first, second);
    totals := TwoCellsAddUp(first, second);
  }

  /** Each thread's failures are at most `k` times its accesses, as the lock code ensures with 1, or
      with 101 for an adaptive mutex. Then the conflict rate is at most `k` hundred percent, and so is
      the reported one while it is right. */
  lemma RateIsBounded(cells: seq<Cell>, mutex: nat, threads: nat, totals: Totals, k: nat)
    requires Fits(cells, mutex + 1, threads) && AddsUp(cells, mutex, threads, totals)
    requires CountOf(cells, mutex, threads, Accesses) > 0
    requires forall t :: 0 <= t < threads ==>
      CellOf(cells, mutex, t).failures as nat <= k * CellOf(cells, mutex, t).accesses as nat
    ensures var accesses, failures :=
        CountOf(cells, mutex, threads, Accesses), CountOf(cells, mutex, threads, Failures);
      && ConflictRate(accesses, failures) <= 100.0 * k as real
      && (accesses < UINT32 && failures <= 42_949_672 ==>
           totals.accesses != 0 && ReportedRate(totals) <= 100.0 * k as real)
  {
    hide AddsUp, CountOf, ReportedRate, CellOf, Fits;
    FailuresWithin(cells, mutex, threads, k);
    ReportedRateIsRightIff(cells, mutex, threads, totals);
    RateOfBounded(CountOf(cells, mutex, threads, Accesses), CountOf(cells, mutex, threads, Failures), k);
  }

  lemma RateOfBounded(accesses: nat, failures: nat, k: nat)
    requires accesses > 0 && failures <= k * accesses
    ensures ConflictRate(accesses, failures) <= 100.0 * k as real
    ensures accesses < UINT32 ==> accesses % UINT32 != 0
  {
    IntegerQuotient(failures, accesses, k);
  }

  lemma IntegerQuotient(f: int, a: int, k: nat)
    requires 0 < a && f <= k * a
    ensures 100.0 * (f as real) / (a as real) <= 100.0 * k as real
  {
    assert (k * a) as real == k as real * a as real;
  }

  lemma {:induction false} FailuresWithin(cells: seq<Cell>, mutex: nat, threads: nat, k: nat)
    requires Fits(cells, mutex + 1, threads)
    requires forall t :: 0 <= t < threads ==>
      CellOf(cells, mutex, t).failures as nat <= k * CellOf(cells, mutex, t).accesses as nat
    ensures CountOf(cells, mutex, threads, Failures) <= k * CountOf(cells, mutex, threads, Accesses)
  {
    if threads > 0 {
      FailuresWithin(cells, mutex, threads - 1, k);
    }
  }

  /** More than five failures in a hundred accesses, as far as the 32-bit product tells. */
  predicate HighConflict(t: Totals) {
    t.accesses != 0 && (100 * t.failures as int) % UINT32 > 5 * t.accesses as int
  }

  /** More than one access per millisecond of a time that counts as a second at least. */
  predicate HighFrequency(t: Totals, milliseconds: real) {
    t.accesses as int as real > milliseconds && t.accesses as int > 1000
  }

  /** The mutexes of the three lists. */
  function Contended(milliseconds: real): Totals -> bool {
    (t: Totals) => HighConflict(t) && HighFrequency(t, milliseconds)
  }

  function SeldomContended(milliseconds: real): Totals -> bool {
    (t: Totals) => HighConflict(t) && !HighFrequency(t, milliseconds)
  }

  function Busy(milliseconds: real): Totals -> bool {
    (t: Totals) => !HighConflict(t) && HighFrequency(t, milliseconds)
  }

  /** In order, without repetition, exactly the mutexes whose totals satisfy `p`. */
  ghost predicate Lists(list: seq<nat>, totals: seq<Totals>, p: Totals -> bool) {
    && (forall i, j :: 0 <= i < j < |list| ==> list[i] < list[j])
    && (forall m: nat :: m in list <==> m < |totals| && p(totals[m]))
  }

  lemma ListGrows(list: seq<nat>, totals: seq<Totals>, i: nat, p: Totals -> bool)
    requires i < |totals| && Lists(list, totals[..i], p)
    ensures Lists(if p(totals[i]) then list + [i] else list, totals[..i + 1], p)
  {
    var longer := if p(totals[i]) then list + [i] else list;
    forall k | 0 <= k < |list| ensures list[k] < i {
      assert list[k] in list;
    }
    forall m: nat ensures m in longer <==> m < i + 1 && p(totals[..i + 1][m]) {
      assert m in list <==> m < i && p(totals[..i][m]);
    }
  }

  /** A quotient is compared with a threshold as the numerator is with the product. */
  lemma ExceedsThreshold(x: real, y: real, threshold: real)
    requires y > 0.0
    ensures x / y > threshold <==> x > threshold * y
  {
    assert x / y * y == x;
    if x / y <= threshold {
      assert x / y * y <= threshold * y;
    }
  }

  /** The comparisons that the report makes, in terms of the counts. */
  lemma ThresholdsAreOfCounts(t: Totals, milliseconds: real)
    requires t.accesses != 0
    ensures ReportedRate(t) > THRESHOLD_CONFLICT <==> HighConflict(t)
    ensures var elapsed := if milliseconds < 1000.0 then 1000.0 else milliseconds;
      t.accesses as int as real / elapsed > THRESHOLD_FREQUENCY <==> HighFrequency(t, milliseconds)
  {
    var elapsed := if milliseconds < 1000.0 then 1000.0 else milliseconds;
    ExceedsThreshold(((100 * t.failures as int) % UINT32) as real, t.accesses as int as real, THRESHOLD_CONFLICT);
    ExceedsThreshold(t.accesses as int as real, elapsed, THRESHOLD_FREQUENCY);
  }

  /** The three lists of the report, by what the counts and the running time say of each mutex. */
  method Classify(totals: seq<Totals>, milliseconds: real)
    returns (frequent: seq<nat>, rare: seq<nat>, busy: seq<nat>)
    ensures Lists(frequent, totals, Contended(milliseconds))
    ensures Lists(rare, totals, SeldomContended(milliseconds))
    ensures Lists(busy, totals, Busy(milliseconds))
  {
    frequent, rare, busy := [], [], [];
    var elapsed := if milliseconds < 1000.0 then 1000.0 else milliseconds;
    var i := 0;
    while i < |totals|
      invariant 0 <= i <= |totals|
      invariant Lists(frequent, totals[..i], Contended(milliseconds))
      invariant Lists(rare, totals[..i], SeldomContended(milliseconds))
      invariant Lists(busy, totals[..i], Busy(milliseconds))
    {
      hide Lists, ReportedRate, HighConflict, HighFrequency;
      ListGrows(frequent, totals, i, Contended(milliseconds));
      ListGrows(rare, totals, i, SeldomContended(milliseconds));
      ListGrows(busy, totals, i, Busy(milliseconds));
      if totals[i].accesses != 0 {
        ThresholdsAreOfCounts(totals[i], milliseconds);
        var rate := ReportedRate(totals[i]);
        var frequency := totals[i].accesses as int as real / elapsed;
        if rate > THRESHOLD_CONFLICT {
          if frequency > THRESHOLD_FREQUENCY {
            frequent := frequent + [i];
          } else {
            rare := rare + [i];
          }
        } else if frequency > THRESHOLD_FREQUENCY {
          busy := busy + [i];
        }
      } else {
        NothingWithoutAccesses(totals[i], milliseconds);
      }
      i := i + 1;
    }
    assert totals[..|totals|] == totals;
  }

  lemma NothingWithoutAccesses(t: Totals, milliseconds: real)
    requires t.accesses == 0
    ensures !HighConflict(t) && !HighFrequency(t, milliseconds)
  {
  }

  // ----- Asymmetric locks ------------------------------------------------------------------

  /** A call site, known by the text of its call stack. */
  datatype Site = Site(text: string)

  /** The rate of one lock at one of the call sites that used it. */
  datatype Use = Use(site: Site, rate: real)

  /** Two locks used at the site differ by more than ten points. */
  ghost predicate Asymmetric(uses: seq<Use>, site: Site) {
    exists i, j :: 0 <= i < |uses| && 0 <= j < |uses| && uses[i].site == uses[j].site == site
                   && uses[i].rate - uses[j].rate > 10.0
  }

  /** The rates of the uses at a site, in order. */
  function RatesAt(uses: seq<Use>, site: Site): seq<real> {
    if uses == [] then []
    else
      var last := uses[|uses| - 1];
      RatesAt(uses[..|uses| - 1], site) + if last.site == site then [last.rate] else []
  }

  /** The map holds, per site that was used, the rates of its uses. */
  ghost predicate Groups(sites: map<Site, seq<real>>, uses: seq<Use>) {
    && (forall s :: s in sites <==> RatesAt(uses, s) != [])
    && (forall s :: s in sites ==> sites[s] == RatesAt(uses, s))
  }

  method UpdateCallStackMap(sites: map<Site, seq<real>>, use: Use, ghost uses: seq<Use>)
    returns (updated: map<Site, seq<real>>)
    requires Groups(sites, uses)
    ensures Groups(updated, uses + [use])
  {
    if use.site in sites {
      updated := sites[use.site := sites[use.site] + [use.rate]];
    } else {
      updated := sites[use.site := [use.rate]];
    }
    assert (uses + [use])[..|uses|] == uses;
  }

  lemma {:induction false} RatesAtAreThoseOfUses(uses: seq<Use>, site: Site, rate: real)
    ensures rate in RatesAt(uses, site) <==> Use(site, rate) in uses
  {
    if uses != [] {
      RatesAtAreThoseOfUses(uses[..|uses| - 1], site, rate);
      assert uses == uses[..|uses| - 1] + [uses[|uses| - 1]];
    }
  }

  method Extremes(rates: seq<real>) returns (min: real, max: real)
    requires |rates| > 0
    ensures min in rates && max in rates && forall r :: r in rates ==> min <= r <= max
  {
    min, max := rates[0], rates[0];
    var i := 0;
    while i < |rates|
      invariant 0 <= i <= |rates| && min in rates && max in rates
      invariant min <= rates[0] <= max
      invariant forall k :: 0 <= k < i ==> min <= rates[k] <= max
    {
      if min > rates[i] {
        min := rates[i];
      }
      if max < rates[i] {
        max := rates[i];
      }
      i := i + 1;
    }
  }

  /** `findAsymmetricLock` reports exactly the asymmetric sites, each once. */
  method FindAsymmetricLocks(sites: map<Site, seq<real>>, ghost uses: seq<Use>) returns (results: seq<Site>)
    requires Groups(sites, uses)
    ensures forall s :: s in results <==> Asymmetric(uses, s)
    ensures forall i, j :: 0 <= i < j < |results| ==> results[i] != results[j]
  {
    hide Groups, Asymmetric, RatesAt;
    results := [];
    AsymmetricSitesAreKnown(sites, uses);
    var left := sites.Keys;
    while left != {}
      invariant left <= sites.Keys
      invariant forall s :: s in results ==> s in sites && s !in left
      invariant forall s :: s in sites && s !in left ==> (s in results <==> Asymmetric(uses, s))
      invariant forall i, j :: 0 <= i < j < |results| ==> results[i] != results[j]
      decreases |left|
    {
      var site :| site in left;
      var spread := Spreads(sites[site]);
      SpreadShowsAsymmetry(sites, uses, site);
      if spread {
        results := results + [site];
      }
      left := left - {site};
    }
  }

  /** The test of one site: more than one rate, and more than ten points between the extremes. */
  method Spreads(rates: seq<real>) returns (wide: bool)
    ensures wide <==> exists r, q :: r in rates && q in rates && r - q > 10.0
  {
    wide := false;
    if |rates| > 1 {
      var min, max := Extremes(rates);
      wide := max - min > 10.0;
    } else {
      assert forall r, q :: r in rates && q in rates ==> r == q;
    }
  }

  lemma AsymmetricSitesAreKnown(sites: map<Site, seq<real>>, uses: seq<Use>)
    requires Groups(sites, uses)
    ensures forall s :: Asymmetric(uses, s) ==> s in sites
  {
    forall s | Asymmetric(uses, s) ensures s in sites {
      SpreadShowsAsymmetry(sites, uses, s);
    }
  }

  lemma SpreadShowsAsymmetry(sites: map<Site, seq<real>>, uses: seq<Use>, site: Site)
    requires Groups(sites, uses)
    ensures Asymmetric(uses, site) ==> site in sites && |sites[site]| > 1
    ensures site in sites ==>
      (Asymmetric(uses, site) <==> exists r, q :: r in sites[site] && q in sites[site] && r - q > 10.0)
  {
    forall rate ensures rate in RatesAt(uses, site) <==> Use(site, rate) in uses {
      RatesAtAreThoseOfUses(uses, site, rate);
    }
    hide RatesAt;
    if Asymmetric(uses, site) {
      var i, j :| 0 <= i < |uses| && 0 <= j < |uses| && uses[i].site == uses[j].site == site
        && uses[i].rate - uses[j].rate > 10.0;
      assert uses[i] == Use(site, uses[i].rate) && uses[j] == Use(site, uses[j].rate);
    }
    if site in sites {
      forall r, q | r in sites[site] && q in sites[site] && r - q > 10.0 ensures Asymmetric(uses, site) {
        assert Use(site, r) in uses && Use(site, q) in uses;
      }
    }
  }
}
