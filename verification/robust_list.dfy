/** The list of robust mutexes that a thread holds: `ENQUEUE_MUTEX_BOTH` and `DEQUEUE_MUTEX`, in the
    doubly and the singly linked variant. The low bit of a stored pointer says whether the mutex it
    points to is a priority-inheriting one. Both variants keep the same sequence of entries. */
module RobustList {

  datatype Entry<T> = Entry(node: T, pi: bool)

  /** The entry of the given node leaves the sequence. */
  function Removed<T(==)>(entries: seq<Entry<T>>, node: T): seq<Entry<T>> {
    if entries == [] then [] else if entries[0].node == node then entries[1..]
    else [entries[0]] + Removed(entries[1..], node)
  }

  ghost predicate Distinct<T>(entries: seq<Entry<T>>) {
    forall i, j :: 0 <= i < j < |entries| ==> entries[i].node != entries[j].node
  }

  ghost predicate Listed<T>(entries: seq<Entry<T>>, node: T) {
    exists i :: 0 <= i < |entries| && entries[i].node == node
  }

  lemma {:induction false} RemovedAt<T>(entries: seq<Entry<T>>, i: nat)
    requires Distinct(entries) && i < |entries|
    ensures Removed(entries, entries[i].node) == entries[..i] + entries[i + 1..]
    ensures Distinct(Removed(entries, entries[i].node)) && !Listed(Removed(entries, entries[i].node), entries[i].node)
  {
    if i == 0 {
      assert entries[..0] + entries[1..] == entries[1..];
    } else {
      var rest := entries[1..];
      RemovedAt(rest, i - 1);
      assert entries[0].node != entries[i].node;
      assert entries[..i] + entries[i + 1..] == [entries[0]] + (rest[..i - 1] + rest[i..]);
    }
    CutStaysDistinct(entries, i);
  }

  lemma CutStaysDistinct<T>(entries: seq<Entry<T>>, i: nat)
    requires Distinct(entries) && i < |entries|
    ensures Distinct(entries[..i] + entries[i + 1..]) && !Listed(entries[..i] + entries[i + 1..], entries[i].node)
  {
    var cut := entries[..i] + entries[i + 1..];
    assert forall p :: 0 <= p < |cut| ==> cut[p] == entries[if p < i then p else p + 1];
  }

  lemma RemovalListsNothingNew<T>(entries: seq<Entry<T>>, node: T, other: T)
    ensures Listed(Removed(entries, node), other) ==> Listed(entries, other)
  {
    if entries != [] && entries[0].node != node {
      RemovalListsNothingNew(entries[1..], node, other);
    }
  }

  lemma {:induction false} RemovalsCommute<T>(entries: seq<Entry<T>>, x: T, y: T)
    requires x != y
    ensures Removed(Removed(entries, x), y) == Removed(Removed(entries, y), x)
  {
    if entries != [] {
      RemovalsCommute(entries[1..], x, y);
    }
  }

  // ----- Sequences of calls ----------------------------------------------------------------

  datatype Call<T> = EnqueueCall(node: T, pi: bool) | DequeueCall(node: T)

  /** The entries after the calls, which both variants refine. */
  function Replay<T(==)>(calls: seq<Call<T>>): seq<Entry<T>> {
    if calls == [] then [] else After(Replay(calls[..|calls| - 1]), calls[|calls| - 1])
  }

  function After<T(==)>(entries: seq<Entry<T>>, call: Call<T>): seq<Entry<T>> {
    match call
    case EnqueueCall(node, pi) => [Entry(node, pi)] + entries
    case DequeueCall(node) => Removed(entries, node)
  }

  /** A mutex is enqueued when it is taken and dequeued when it is given up. */
  ghost predicate Legal<T>(calls: seq<Call<T>>) {
    forall i :: 0 <= i < |calls| ==> (Listed(Replay(calls[..i]), calls[i].node) <==> calls[i].DequeueCall?)
  }

  /** Call `i` took a mutex that no later call names. */
  predicate Held<T(==)>(calls: seq<Call<T>>, i: nat)
    requires i < |calls|
  {
    calls[i].EnqueueCall? && forall j :: i < j < |calls| ==> calls[j].node != calls[i].node
  }

  /** The mutexes taken by the first `n` calls and held after all, the latest first. */
  function HeldOf<T(==)>(calls: seq<Call<T>>, n: nat): seq<Entry<T>>
    requires n <= |calls|
  {
    if n == 0 then []
    else if Held(calls, n - 1) then [Entry(calls[n - 1].node, calls[n - 1].pi)] + HeldOf(calls, n - 1)
    else HeldOf(calls, n - 1)
  }

  lemma {:induction false} NothingToRemove<T>(entries: seq<Entry<T>>, node: T)
    requires !Listed(entries, node)
    ensures Removed(entries, node) == entries
  {
    if entries != [] {
      assert entries[0].node != node;
      assert Listed(entries[1..], node) ==> Listed(entries, node);
      NothingToRemove(entries[1..], node);
    }
  }

  /** A node named later is not among the mutexes held from before. */
  lemma {:induction false} NamedLater<T>(calls: seq<Call<T>>, n: nat, j: nat)
    requires n <= j < |calls|
    ensures !Listed(HeldOf(calls, n), calls[j].node)
  {
    if n > 0 {
      NamedLater(calls, n - 1, j);
      var earlier := HeldOf(calls, n - 1);
      var all := HeldOf(calls, n);
      forall p | 0 <= p < |all| ensures all[p].node != calls[j].node {
        assert Held(calls, n - 1) ==> all == [Entry(calls[n - 1].node, calls[n - 1].pi)] + earlier;
        assert !Held(calls, n - 1) ==> all == earlier;
      }
    }
  }

  /** One more call takes its node out of what was held from before. */
  lemma {:induction false} OneMoreCall<T>(calls: seq<Call<T>>, call: Call<T>, n: nat)
    requires n <= |calls|
    ensures HeldOf(calls + [call], n) == Removed(HeldOf(calls, n), call.node)
  {
    if n > 0 {
      var more := calls + [call];
      OneMoreCall(calls, call, n - 1);
      NamedLater(calls, n - 1, n - 1);
      assert more[n - 1] == calls[n - 1] && more[|calls|] == call;
      assert Held(more, n - 1) <==> Held(calls, n - 1) && calls[n - 1].node != call.node by {
        assert forall j :: n - 1 < j < |calls| ==> more[j] == calls[j];
      }
      if Held(calls, n - 1) {
        var first, rest := [Entry(calls[n - 1].node, calls[n - 1].pi)], HeldOf(calls, n - 1);
        assert (first + rest)[1..] == rest;
        if calls[n - 1].node == call.node {
          NothingToRemove(rest, call.node);
        }
      }
    }
  }

  lemma LastIsHeld<T>(calls: seq<Call<T>>)
    requires calls != []
    ensures Held(calls, |calls| - 1) <==> calls[|calls| - 1].EnqueueCall?
  {
  }

  lemma ReplayStep<T>(calls: seq<Call<T>>, i: nat)
    requires i < |calls|
    ensures Replay(calls[..i + 1]) == After(Replay(calls[..i]), calls[i])
  {
    assert calls[..i + 1][..i] == calls[..i];
  }

  lemma LegalPrefix<T>(calls: seq<Call<T>>, n: nat)
    requires Legal(calls) && n <= |calls|
    ensures Legal(calls[..n])
    ensures n < |calls| ==> (Listed(Replay(calls[..n]), calls[n].node) <==> calls[n].DequeueCall?)
  {
    hide Replay, Listed;
    forall i | 0 <= i < n ensures calls[..n][..i] == calls[..i] {
    }
  }

  /** The list holds the mutexes whose last call was an enqueue, each with the bit of that call, the
      latest first. */
  lemma {:induction false} ListHoldsTheHeld<T>(calls: seq<Call<T>>)
    requires Legal(calls)
    ensures Replay(calls) == HeldOf(calls, |calls|)
  {
    if calls != [] {
      var n := |calls| - 1;
      var before, call := calls[..n], calls[n];
      LegalPrefix(calls, n);
      ListHoldsTheHeld(before);
      ReplayStep(calls, n);
      assert calls == before + [call] && calls[..n + 1] == calls;
      OneMoreCall(before, call, n);
      LastIsHeld(calls);
      hide Held, Legal, Replay;
      if call.EnqueueCall? {
        NothingToRemove(Replay(before), call.node);
      }
    }
  }

  /** A mutex that is taken and given up leaves the list as if it had not been, whatever was taken
      and given up in between. */
  lemma {:induction false} DequeueUndoesEnqueue<T>(before: seq<Call<T>>, node: T, pi: bool, between: seq<Call<T>>)
    requires forall i :: 0 <= i < |between| ==> between[i].node != node
    ensures Replay(before + [EnqueueCall(node, pi)] + between + [DequeueCall(node)]) == Replay(before + between)
  {
    var taken := before + [EnqueueCall(node, pi)];
    assert (taken + between + [DequeueCall(node)])[..|taken + between|] == taken + between;
    RemovedFromReplay(before, node, pi, between);
  }

  lemma {:induction false} RemovedFromReplay<T>(before: seq<Call<T>>, node: T, pi: bool, between: seq<Call<T>>)
    requires forall i :: 0 <= i < |between| ==> between[i].node != node
    ensures Removed(Replay(before + [EnqueueCall(node, pi)] + between), node) == Replay(before + between)
  {
    var taken := before + [EnqueueCall(node, pi)];
    if between == [] {
      assert taken + between == taken && taken[..|taken| - 1] == before && before + between == before;
    } else {
      var n := |between| - 1;
      RemovedFromReplay(before, node, pi, between[..n]);
      assert (taken + between)[..|taken| + n] == taken + between[..n];
      assert (before + between)[..|before| + n] == before + between[..n];
      if between[n].DequeueCall? {
        RemovalsCommute(Replay(taken + between[..n]), node, between[n].node);
      }
    }
  }

  /** From the head through the entries back to the head, whose own bit is clear. */
  ghost function Around<T>(head: T, entries: seq<Entry<T>>): seq<Entry<T>> {
    [Entry(head, false)] + entries + [Entry(head, false)]
  }

  lemma AroundSplits<T>(head: T, before: seq<Entry<T>>, here: Entry<T>, after: seq<Entry<T>>)
    ensures Around(head, before + [here] + after) ==
      ([Entry(head, false)] + before) + [here] + (after + [Entry(head, false)])
    ensures Around(head, before + after) == ([Entry(head, false)] + before) + (after + [Entry(head, false)])
  {
  }

  /** The path splits at entry `i`, and without that entry it closes up. */
  lemma SplitAt<T>(head: T, entries: seq<Entry<T>>, i: nat) returns (left: seq<Entry<T>>, right: seq<Entry<T>>)
    requires Distinct(entries) && i < |entries|
    ensures |left| == i + 1 && |right| > 0
    ensures Around(head, entries) == left + [entries[i]] + right
    ensures Around(head, Removed(entries, entries[i].node)) == left + right
  {
    RemovedAt(entries, i);
    hide *;
    assert entries == entries[..i] + [entries[i]] + entries[i + 1..];
    AroundSplits(head, entries[..i], entries[i], entries[i + 1..]);
    left, right := [Entry(head, false)] + entries[..i], entries[i + 1..] + [Entry(head, false)];
  }

  /** Apart from the head at both ends, nodes on the path differ. */
  ghost predicate OnceAround<T>(path: seq<Entry<T>>) {
    forall i, j :: 0 <= i < j < |path| && (i > 0 || j < |path| - 1) ==> path[i].node != path[j].node
  }

  lemma AroundIsOnceAround<T>(head: T, entries: seq<Entry<T>>)
    requires Distinct(entries) && !Listed(entries, head)
    ensures var path := Around(head, entries);
      OnceAround(path) && path[0].node == path[|path| - 1].node == head
  {
    var path := Around(head, entries);
    assert forall i :: 0 < i < |path| - 1 ==> path[i] == entries[i - 1];
  }

  /** What a dequeue of entry `i` relies on, and what it establishes apart from the pointers. */
  lemma ReadyToRemove<T>(head: T, entries: seq<Entry<T>>, i: nat) returns (left: seq<Entry<T>>, right: seq<Entry<T>>)
    requires Distinct(entries) && !Listed(entries, head) && i < |entries|
    ensures |left| == i + 1 && |right| > 0
    ensures Around(head, entries) == left + [entries[i]] + right && OnceAround(left + [entries[i]] + right)
    ensures Around(head, Removed(entries, entries[i].node)) == left + right
    ensures Distinct(Removed(entries, entries[i].node)) && !Listed(Removed(entries, entries[i].node), head)
  {
    AroundIsOnceAround(head, entries);
    RemovedAt(entries, i);
    RemovalListsNothingNew(entries, entries[i].node, head);
    hide *;
    left, right := SplitAt(head, entries, i);
  }

  ghost function Called<T>(calls: seq<Call<T>>): (nodes: set<T>)
    ensures forall i :: 0 <= i < |calls| ==> calls[i].node in nodes
  {
    set c | c in calls :: c.node
  }

  ghost function NodesOf<T>(path: seq<Entry<T>>): (nodes: set<T>)
    ensures forall i :: 0 <= i < |path| ==> path[i].node in nodes
  {
    set e | e in path :: e.node
  }

  ghost predicate Within<T>(entries: seq<Entry<T>>, nodes: set<T>) {
    forall p :: 0 <= p < |entries| ==> entries[p].node in nodes
  }

  lemma PathIsWithin<T>(head: T, entries: seq<Entry<T>>, nodes: set<T>)
    requires Within(entries, nodes)
    ensures NodesOf(Around(head, entries)) <= {head} + nodes
  {
  }

  lemma StaysWithin<T>(entries: seq<Entry<T>>, call: Call<T>, nodes: set<T>)
    requires Within(entries, nodes) && call.node in nodes
    ensures Within(After(entries, call), nodes)
  {
    if call.DequeueCall? {
      RemovedIsWithin(entries, call.node, nodes);
    }
  }

  lemma {:induction false} RemovedIsWithin<T>(entries: seq<Entry<T>>, gone: T, nodes: set<T>)
    requires Within(entries, nodes)
    ensures Within(Removed(entries, gone), nodes)
  {
    if entries != [] && entries[0].node != gone {
      RemovedIsWithin(entries[1..], gone, nodes);
      assert entries[0].node in nodes;
    }
  }

  // ----- Doubly linked ---------------------------------------------------------------------

  datatype Link = Null | To(node: Node, pi: bool)

  class Node {
    var next: Link
    var prev: Node?
  }

  /** Neighbours point at each other, and each pointer forward carries the bit of its target. */
  ghost predicate Linked(path: seq<Entry<Node>>)
    reads NodesOf(path)
  {
    forall i :: 0 < i < |path| ==>
      path[i - 1].node.next == To(path[i].node, path[i].pi) && path[i].node.prev == path[i - 1].node
  }

  /** The pointer writes of the doubly linked `DEQUEUE_MUTEX`: the paths on both sides close up. */
  method Unlink(mutex: Node, ghost left: seq<Entry<Node>>, ghost pi: bool, ghost right: seq<Entry<Node>>)
    requires |left| > 0 && |right| > 0
    requires Linked(left + [Entry(mutex, pi)] + right) && OnceAround(left + [Entry(mutex, pi)] + right)
    modifies mutex, left[|left| - 1].node, right[0].node
    ensures mutex.next == Null && mutex.prev == null
    ensures Linked(left + right)
  {
    ghost var path, l := left + [Entry(mutex, pi)] + right, |left|;
    assert path[l] == Entry(mutex, pi) && path[l - 1] == left[l - 1] && path[l + 1] == right[0];
    assert path[l + 1].node.prev == mutex;
    var next := mutex.next.node;
    next.prev := mutex.prev;
    var prev := mutex.prev;
    prev.next := mutex.next;
    mutex.prev := null;
    mutex.next := Null;
    ghost var shorter := left + right;
    forall k | 0 < k < |shorter|
      ensures shorter[k - 1].node.next == To(shorter[k].node, shorter[k].pi)
      ensures shorter[k].node.prev == shorter[k - 1].node
    {
      assert k < l ==> shorter[k] == path[k] && shorter[k - 1] == path[k - 1];
      assert k > l ==> shorter[k] == path[k + 1] && shorter[k - 1] == path[k];
    }
  }

  class DoublyLinkedList {
    const head: Node   // the thread's `robust_prev` and `robust_head`
    ghost var entries: seq<Entry<Node>>

    ghost function Path(): seq<Entry<Node>>
      reads `entries
    {
      Around(head, entries)
    }

    ghost predicate Valid()
      reads this, NodesOf(Path())
    {
      Distinct(entries) && !Listed(entries, head) && Linked(Path())
    }

    constructor ()
      ensures Valid() && entries == [] && fresh(head)
    {
      var node := new Node;
      head := node;
      entries := [];
      new;
      node.next, node.prev := To(node, false), node;
    }

    method Enqueue(mutex: Node, pi: bool)
      requires Valid() && mutex != head && !Listed(entries, mutex)
      modifies this, NodesOf(Path()), mutex
      ensures Valid() && entries == [Entry(mutex, pi)] + old(entries)
    {
      ghost var was, path := entries, Path();
      AroundIsOnceAround(head, entries);
      assert head.next == To(path[1].node, path[1].pi) && path[1].node.prev == path[0].node;
      var next := head.next.node;
      next.prev := mutex;
      mutex.next := head.next;
      mutex.prev := head;
      head.next := To(mutex, pi);
      entries := [Entry(mutex, pi)] + entries;
      assert forall i :: 0 < i < |entries| ==> entries[i] == was[i - 1];
      ghost var longer := Path();
      forall i | 0 < i < |longer|
        ensures longer[i - 1].node.next == To(longer[i].node, longer[i].pi) && longer[i].node.prev == longer[i - 1].node
      {
        assert i > 1 ==> longer[i] == path[i - 1];
        assert i > 2 ==> longer[i - 1] == path[i - 2];
      }
    }

    method Dequeue(mutex: Node)
      requires Valid() && Listed(entries, mutex)
      modifies this, NodesOf(Path())
      ensures Valid() && entries == Removed(old(entries), mutex)
      ensures mutex.next == Null && mutex.prev == null
    {
      ghost var i :| 0 <= i < |entries| && entries[i].node == mutex;
      ghost var left, right := ReadyToRemove(head, entries, i);
      hide Distinct, Listed, Removed, Around, Linked, OnceAround;
      Unlink(mutex, left, entries[i].pi, right);
      entries := Removed(entries, mutex);
    }

    /** One call, on a list whose nodes are among `nodes`. */
    method Perform(call: Call<Node>, ghost nodes: set<Node>)
      requires Valid() && Within(entries, nodes) && call.node in nodes && head !in nodes
      requires Listed(entries, call.node) <==> call.DequeueCall?
      modifies this, head, nodes
      ensures Valid() && entries == After(old(entries), call) && Within(entries, nodes)
    {
      PathIsWithin(head, entries, nodes);
      StaysWithin(entries, call, nodes);
      hide Within, Distinct, Listed, Around, Removed;
      match call {
        case EnqueueCall(node, pi) => Enqueue(node, pi);
        case DequeueCall(node) => Dequeue(node);
      }
    }

    /** Any legal sequence of calls, starting with no mutex held. */
    method PerformAll(calls: seq<Call<Node>>)
      requires Valid() && entries == [] && Legal(calls) && head !in Called(calls)
      modifies this, head, Called(calls)
      ensures Valid() && entries == Replay(calls) == HeldOf(calls, |calls|)
    {
      ListHoldsTheHeld(calls);
      assert Replay(calls[..0]) == [];
      hide Linked, Distinct, Listed, Around, HeldOf, Legal, After, Called, Replay;
      var i := 0;
      while i < |calls|
        invariant 0 <= i <= |calls| && Valid() && entries == Replay(calls[..i]) && Within(entries, Called(calls))
      {
        LegalPrefix(calls, i);
        ReplayStep(calls, i);
        Perform(calls[i], Called(calls));
        i := i + 1;
      }
      assert calls[..|calls|] == calls;
    }
  }

  // ----- Singly linked ---------------------------------------------------------------------

  datatype ShortLink = Nowhere | Toward(node: ShortNode, pi: bool)

  class ShortNode {
    var next: ShortLink
  }

  ghost predicate Chained(path: seq<Entry<ShortNode>>)
    reads NodesOf(path)
  {
    forall i :: 0 < i < |path| ==> path[i - 1].node.next == Toward(path[i].node, path[i].pi)
  }

  /** The search loop of the singly linked `DEQUEUE_MUTEX`: it stops, at the node before. */
  method Predecessor(first: ShortNode, mutex: ShortNode, ghost path: seq<Entry<ShortNode>>, ghost i: nat)
    returns (runp: ShortNode)
    requires Chained(path) && 1 < i < |path| && path[1].node == first && path[i].node == mutex
    requires forall k :: 0 < k < i ==> path[k].node != mutex
    ensures runp == path[i - 1].node
  {
    runp := first;
    ghost var j := 1;
    assert path[2].node == runp.next.node;
    var next := runp.next.node;
    while next != mutex
      invariant 1 <= j < i && runp == path[j].node && next == path[j + 1].node
      decreases i - j
    {
      runp := next;
      j := j + 1;
      assert path[j + 1].node == runp.next.node;
      next := runp.next.node;
    }
  }

  /** The path skips the mutex; its own pointer is cleared only on request. */
  method Bypass(prev: ShortNode, mutex: ShortNode, clear: bool,
                ghost left: seq<Entry<ShortNode>>, ghost pi: bool, ghost right: seq<Entry<ShortNode>>)
    requires |left| > 0 && |right| > 0 && left[|left| - 1].node == prev
    requires Chained(left + [Entry(mutex, pi)] + right) && OnceAround(left + [Entry(mutex, pi)] + right)
    modifies prev, mutex
    ensures Chained(left + right)
    ensures mutex.next == if clear then Nowhere else old(mutex.next)
  {
    ghost var path, l := left + [Entry(mutex, pi)] + right, |left|;
    assert path[l] == Entry(mutex, pi) && path[l - 1] == left[l - 1] && path[l + 1] == right[0];
    prev.next := mutex.next;
    if clear {
      mutex.next := Nowhere;
    }
    ghost var shorter := left + right;
    forall k | 0 < k < |shorter| ensures shorter[k - 1].node.next == Toward(shorter[k].node, shorter[k].pi) {
      assert k < l ==> shorter[k] == path[k] && shorter[k - 1] == path[k - 1];
      assert k > l ==> shorter[k] == path[k + 1] && shorter[k - 1] == path[k];
    }
  }

  class SinglyLinkedList {
    const head: ShortNode   // the thread's `robust_list`
    ghost var entries: seq<Entry<ShortNode>>

    ghost function Path(): seq<Entry<ShortNode>>
      reads `entries
    {
      Around(head, entries)
    }

    ghost predicate Valid()
      reads this, NodesOf(Path())
    {
      Distinct(entries) && !Listed(entries, head) && Chained(Path())
    }

    constructor ()
      ensures Valid() && entries == [] && fresh(head)
    {
      var node := new ShortNode;
      head := node;
      entries := [];
      new;
      node.next := Toward(node, false);
    }

    method Enqueue(mutex: ShortNode, pi: bool)
      requires Valid() && mutex != head && !Listed(entries, mutex)
      modifies this, NodesOf(Path()), mutex
      ensures Valid() && entries == [Entry(mutex, pi)] + old(entries)
    {
      ghost var path := Path();
      assert path[0].node == head && head.next == Toward(path[1].node, path[1].pi);
      assert forall i :: 0 < i < |path| - 1 ==> path[i] == entries[i - 1];
      mutex.next := head.next;
      head.next := Toward(mutex, pi);
      entries := [Entry(mutex, pi)] + entries;
      ghost var longer := Path();
      forall i | 0 < i < |longer| ensures longer[i - 1].node.next == Toward(longer[i].node, longer[i].pi) {
        assert i > 1 ==> longer[i] == path[i - 1];
        assert i > 2 ==> longer[i - 1] == path[i - 2];
      }
    }

    /** The search finds the mutex. Only a mutex that was not the first gets its own pointer
        cleared. */
    method Dequeue(mutex: ShortNode)
      requires Valid() && Listed(entries, mutex)
      modifies this, NodesOf(Path())
      ensures Valid() && entries == Removed(old(entries), mutex)
      ensures mutex.next == if old(entries)[0].node == mutex then old(mutex.next) else Nowhere
    {
      ghost var i :| 0 <= i < |entries| && entries[i].node == mutex;
      ghost var path := Path();
      FirstLink(i);
      ghost var left, right := ReadyToRemove(head, entries, i);
      hide Distinct, Listed, Removed, Around, Chained, OnceAround;
      var runp := head.next.node;
      if runp == mutex {
        Bypass(head, mutex, false, left, entries[i].pi, right);
      } else {
        runp := Predecessor(runp, mutex, path, i + 1);
        Bypass(runp, mutex, true, left, entries[i].pi, right);
      }
      entries := Removed(entries, mutex);
    }

    /** One call, on a list whose nodes are among `nodes`. */
    method Perform(call: Call<ShortNode>, ghost nodes: set<ShortNode>)
      requires Valid() && Within(entries, nodes) && call.node in nodes && head !in nodes
      requires Listed(entries, call.node) <==> call.DequeueCall?
      modifies this, head, nodes
      ensures Valid() && entries == After(old(entries), call) && Within(entries, nodes)
    {
      PathIsWithin(head, entries, nodes);
      StaysWithin(entries, call, nodes);
      hide Within, Distinct, Listed, Around, Removed;
      match call {
        case EnqueueCall(node, pi) => Enqueue(node, pi);
        case DequeueCall(node) => Dequeue(node);
      }
    }

    /** Any legal sequence of calls, starting with no mutex held. */
    method PerformAll(calls: seq<Call<ShortNode>>)
      requires Valid() && entries == [] && Legal(calls) && head !in Called(calls)
      modifies this, head, Called(calls)
      ensures Valid() && entries == Replay(calls) == HeldOf(calls, |calls|)
    {
      ListHoldsTheHeld(calls);
      assert Replay(calls[..0]) == [];
      hide Chained, Distinct, Listed, Around, HeldOf, Legal, After, Called, Replay;
      var i := 0;
      while i < |calls|
        invariant 0 <= i <= |calls| && Valid() && entries == Replay(calls[..i]) && Within(entries, Called(calls))
      {
        LegalPrefix(calls, i);
        ReplayStep(calls, i);
        Perform(calls[i], Called(calls));
        i := i + 1;
      }
      assert calls[..|calls|] == calls;
    }

    lemma FirstLink(i: nat)
      requires Valid() && i < |entries|
      ensures var path := Path();
        && head.next == Toward(entries[0].node, entries[0].pi)
        && path[0].node == head && path[1] == entries[0] && path[i + 1] == entries[i]
        && forall k :: 0 < k <= i ==> path[k].node != entries[i].node
    {
      var path := Path();
      assert forall k :: 0 < k < |path| - 1 ==> path[k] == entries[k - 1];
      assert path[0].node.next == Toward(path[1].node, path[1].pi);
    }
  }
}
