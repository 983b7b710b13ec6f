/** Counting and summing over the threads of a state, which every protocol below keeps in a
    sequence indexed by thread. */
module Counting {

  datatype Option<+T> = None | Some(value: T)

  function Total<T>(xs: seq<T>, weight: T -> int): int {
    if xs == [] then 0 else weight(xs[0]) + Total(xs[1..], weight)
  }

  function Itself(): nat -> int {
    (n: nat) => n
  }

  lemma {:induction false} TotalUpdate<T>(xs: seq<T>, i: nat, x: T, weight: T -> int)
    requires i < |xs|
    ensures Total(xs[i := x], weight) == Total(xs, weight) - weight(xs[i]) + weight(x)
  {
    if i == 0 {
      assert xs[0 := x][1..] == xs[1..];
    } else {
      assert xs[i := x][1..] == xs[1..][i - 1 := x];
      TotalUpdate(xs[1..], i - 1, x, weight);
    }
  }

  lemma {:induction false} TotalNonnegative<T>(xs: seq<T>, weight: T -> int)
    requires forall i :: 0 <= i < |xs| ==> weight(xs[i]) >= 0
    ensures Total(xs, weight) >= 0
  {
    if xs != [] {
      TotalNonnegative(xs[1..], weight);
    }
  }

  lemma {:induction false} TotalBounds<T>(xs: seq<T>, weight: T -> int, low: int, high: int)
    requires forall i :: 0 <= i < |xs| ==> low <= weight(xs[i]) <= high
    ensures low * |xs| <= Total(xs, weight) <= high * |xs|
  {
    if xs == [] {
    } else {
      TotalBounds(xs[1..], weight, low, high);
    }
  }

  function Count<T>(xs: seq<T>, p: T -> bool): (n: nat)
    ensures n <= |xs|
  {
    if xs == [] then 0 else (if p(xs[0]) then 1 else 0) + Count(xs[1..], p)
  }

  /** The change of a count when one element becomes another. */
  function Delta<T>(before: T, after: T, p: T -> bool): int {
    (if p(after) then 1 else 0) - (if p(before) then 1 else 0)
  }

  lemma {:induction false} CountUpdate<T>(xs: seq<T>, i: nat, x: T, p: T -> bool)
    requires i < |xs|
    ensures Count(xs[i := x], p) == Count(xs, p) + Delta(xs[i], x, p)
  {
    if i == 0 {
      assert xs[0 := x][1..] == xs[1..];
    } else {
      assert xs[i := x][1..] == xs[1..][i - 1 := x];
      CountUpdate(xs[1..], i - 1, x, p);
    }
  }

  lemma {:induction false} CountAppend<T>(xs: seq<T>, x: T, p: T -> bool)
    ensures Count(xs + [x], p) == Count(xs, p) + (if p(x) then 1 else 0)
  {
    if xs != [] {
      assert (xs + [x])[1..] == xs[1..] + [x];
      CountAppend(xs[1..], x, p);
    }
  }

  /** A pointwise comparison of two predicates over two equally long sequences. */
  lemma {:induction false} CountMonotone<T, U>(xs: seq<T>, p: T -> bool, ys: seq<U>, q: U -> bool)
    requires |xs| == |ys|
    requires forall i :: 0 <= i < |xs| && p(xs[i]) ==> q(ys[i])
    ensures Count(xs, p) <= Count(ys, q)
  {
    if xs == [] {
    } else {
      assert forall i :: 0 <= i < |xs[1..]| ==> xs[1..][i] == xs[i + 1] && ys[1..][i] == ys[i + 1];
      CountMonotone(xs[1..], p, ys[1..], q);
    }
  }

  lemma CountAgree<T, U>(xs: seq<T>, p: T -> bool, ys: seq<U>, q: U -> bool)
    requires |xs| == |ys|
    requires forall i :: 0 <= i < |xs| ==> p(xs[i]) == q(ys[i])
    ensures Count(xs, p) == Count(ys, q)
  {
    CountMonotone(xs, p, ys, q);
    CountMonotone(ys, q, xs, p);
  }

  lemma {:induction false} CountSplit<T>(xs: seq<T>, p: T -> bool, q: T -> bool, r: T -> bool)
    requires forall i :: 0 <= i < |xs| ==> (p(xs[i]) <==> q(xs[i]) || r(xs[i])) && !(q(xs[i]) && r(xs[i]))
    ensures Count(xs, p) == Count(xs, q) + Count(xs, r)
  {
    if xs == [] {
    } else {
      assert forall i :: 0 <= i < |xs[1..]| ==> xs[1..][i] == xs[i + 1];
      CountSplit(xs[1..], p, q, r);
    }
  }

  lemma {:induction false} CountZero<T>(xs: seq<T>, p: T -> bool)
    ensures Count(xs, p) == 0 <==> forall i :: 0 <= i < |xs| ==> !p(xs[i])
  {
    if xs == [] {
    } else {
      CountZero(xs[1..], p);
      assert forall i :: 0 <= i < |xs| ==> xs[i] == if i == 0 then xs[0] else xs[1..][i - 1];
    }
  }

  /** A measure with a leading component `x` of the given unit. */
  function Scaled(unit: nat, x: int, low: int): int {
    unit * x + low
  }

  /** One unit of the leading component outweighs any change of the rest. */
  lemma {:induction false} Outweighs(unit: nat, x: int, y: int, low: int, high: int)
    requires x < y && low < unit && 0 <= high
    ensures Scaled(unit, x, low) < Scaled(unit, y, high)
    decreases y - x
  {
    if x + 1 < y {
      Outweighs(unit, x, y - 1, low, high);
    }
    assert unit * y == unit * (y - 1) + unit;
  }

  lemma ScaledNonnegative(unit: nat, x: nat, low: nat)
    ensures Scaled(unit, x, low) >= 0
  {
    assert unit * x >= 0;
  }
}
