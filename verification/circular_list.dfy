/** The circular doubly linked lists of `list_add`, `list_del` and `list_splice`: each operation
    rewrites at most four pointers, and together they keep every list of a family of disjoint
    lists in shape. */
module CircularList {

  class Node {
    var next: Node?
    var prev: Node?

    /** A list head starts as a ring of its own. */
    constructor ()
      ensures Ring([this])
    {
      next, prev := this, this;
    }
  }

  ghost predicate Distinct(nodes: seq<Node>) {
    forall i, j :: 0 <= i < j < |nodes| ==> nodes[i] != nodes[j]
  }

  /** Neighbours in the path point at each other. */
  ghost predicate Linked(path: seq<Node>)
    reads path
  {
    forall i :: 0 < i < |path| ==> path[i - 1].next == path[i] && path[i].prev == path[i - 1]
  }

  /** The distinct nodes of `ring`, in order, linked both ways and closed into a circle. */
  ghost predicate Ring(ring: seq<Node>)
    reads ring
  {
    && |ring| > 0
    && Distinct(ring)
    && Linked(ring + [ring[0]])
  }

  // ----- The three operations --------------------------------------------------------------

  /** `list_add`: the new node becomes the first element. */
  method ListAdd(added: Node, head: Node, ghost ring: seq<Node>)
    requires Ring(ring) && ring[0] == head && added !in ring
    modifies added, head, head.next
    ensures Ring([head, added] + ring[1..])
  {
    ghost var closed := ring + [head];
    assert closed[0] == head && head.next == closed[1];
    added.next := head.next;
    added.prev := head;
    head.next.prev := added;
    head.next := added;
    assert ([head, added] + ring[1..]) + [head] == [head, added] + closed[1..];
  }

  /** `list_del`: the element leaves its list, its own pointers untouched. */
  method ListDel(elem: Node, ghost ring: seq<Node>, ghost i: nat)
    requires Ring(ring) && 0 < i < |ring| && ring[i] == elem
    modifies elem.next, elem.prev
    ensures Ring(ring[..i] + ring[i + 1..])
    ensures elem.next == old(elem.next) && elem.prev == old(elem.prev)
  {
    ghost var closed := ring + [ring[0]];
    assert closed[i] == elem && elem.prev == closed[i - 1] && closed[i + 1].prev == closed[i];
    elem.next.prev := elem.prev;
    elem.prev.next := elem.next;
    assert (ring[..i] + ring[i + 1..]) + [ring[0]] == closed[..i] + closed[i + 1..];
  }

  /** Paths that share an end join into one. */
  lemma PathsJoin(left: seq<Node>, right: seq<Node>)
    requires |left| > 0 && |right| > 0 && left[|left| - 1] == right[0]
    requires Linked(left) && Linked(right)
    ensures Linked(left + right[1..])
  {
    var joined := left + right[1..];
    forall i | 0 < i < |joined| ensures joined[i - 1].next == joined[i] && joined[i].prev == joined[i - 1] {
      if i >= |left| {
        assert joined[i] == right[i - |left| + 1] && joined[i - 1] == right[i - |left|];
      }
    }
  }

  lemma SplicedNodes(source: seq<Node>, target: seq<Node>)
    requires |source| > 0 && |target| > 0 && Distinct(source) && Distinct(target)
    requires forall n :: n in source ==> n !in target
    ensures Distinct([target[0]] + source[1..] + target[1..])
  {
    var joined := [target[0]] + source[1..] + target[1..];
    forall i, j | 0 <= i < j < |joined| ensures joined[i] != joined[j] {
      assert joined[j] == if j < |source| then source[j] else target[j - |source| + 1];
      assert joined[i] == if i == 0 then target[0] else if i < |source| then source[i] else target[i - |source| + 1];
      assert j < |source| ==> joined[j] in source;
      assert joined[i] in source || joined[i] in target;
    }
  }

  /** `list_splice`: the elements of the added list, in order, right after the head. An empty list
      adds nothing; a nonempty one leaves its old head pointing in. */
  method ListSplice(add: Node, head: Node, ghost source: seq<Node>, ghost target: seq<Node>)
    requires Ring(source) && source[0] == add && Ring(target) && target[0] == head
    requires forall n :: n in source ==> n !in target
    modifies add.next, add.prev, head, head.next
    ensures Ring([head] + source[1..] + target[1..])
    ensures |source| == 1 ==> Ring(source)
  {
    SplicedNodes(source, target);
    ghost var added, closed := source + [add], target + [head];
    ghost var last := source[|source| - 1];
    assert added[0] == add && added[|source| - 1] == last && added[|source|] == add && closed[0] == head;
    assert add.next == added[1] && add.prev == last && head.next == closed[1];
    ghost var left, right := [head] + source[1..], [last] + closed[1..];
    if add != add.next {
      assert added[1] == source[1];
      assert head in target && closed[1] in target && source[1] in source && last in source;
      add.next.prev := head;
      add.prev.next := head.next;
      head.next.prev := add.prev;
      head.next := add.next;
      forall i | 0 < i < |left| ensures left[i - 1].next == left[i] && left[i].prev == left[i - 1] {
        assert left[i] == added[i] && left[i] in source;
        assert i > 1 ==> left[i - 1] == added[i - 1] && left[i - 1] in source;
      }
      forall i | 0 < i < |right| ensures right[i - 1].next == right[i] && right[i].prev == right[i - 1] {
        assert right[i] == closed[i] && right[i] in target;
        assert i > 1 ==> right[i - 1] == closed[i - 1] && right[i - 1] in target;
      }
      PathsJoin(left, right);
      assert ([head] + source[1..] + target[1..]) + [head] == left + right[1..];
    } else {
      assert [head] + source[1..] + target[1..] == target;
    }
  }

  /** `list_for_each` visits the elements in order and stops at the head. */
  method ForEach(head: Node, ghost ring: seq<Node>) returns (visited: seq<Node>)
    requires Ring(ring) && ring[0] == head
    ensures visited == ring[1..]
  {
    ghost var closed := ring + [head];
    assert closed[0] == head && closed[1] == head.next;
    assert forall i :: 0 < i < |ring| ==> closed[i] == ring[i] != head;
    visited := [];
    var pos := head.next;
    while pos != head
      invariant |visited| < |ring| && visited == closed[1..|visited| + 1] && pos == closed[|visited| + 1]
      decreases |ring| - |visited|
    {
      visited := visited + [pos];
      pos := pos.next;
    }
  }

  /** The pointers determine the list: there is one ring from each node. */
  lemma RingIsUnique(s: seq<Node>, t: seq<Node>)
    requires Ring(s) && Ring(t) && s[0] == t[0]
    ensures s == t
  {
    if |s| <= |t| {
      NoShorterRing(s, t);
    } else {
      NoShorterRing(t, s);
    }
  }

  lemma NoShorterRing(s: seq<Node>, t: seq<Node>)
    requires Ring(s) && Ring(t) && s[0] == t[0] && |s| <= |t|
    ensures s == t
  {
    var around, further := s + [s[0]], t + [t[0]];
    SameSteps(around, further, |s|);
    assert forall i :: 0 < i < |t| ==> further[i] == t[i] != t[0];
    assert further[|s|] == around[|s|] == t[0];
    assert forall i :: 0 <= i < |s| ==> s[i] == around[i] == further[i] == t[i];
  }

  lemma {:induction false} SameSteps(s: seq<Node>, t: seq<Node>, k: nat)
    requires Linked(s) && Linked(t) && k < |s| <= |t| && s[0] == t[0]
    ensures forall i :: 0 <= i <= k ==> s[i] == t[i]
  {
    if k > 0 {
      SameSteps(s, t, k - 1);
      assert s[k - 1].next == s[k] && t[k - 1].next == t[k];
    }
  }

  // ----- Families of lists -----------------------------------------------------------------

  datatype Operation = Add(added: Node, head: Node) | Delete(elem: Node, head: Node) | Splice(add: Node, head: Node)

  /** Lists are known by their heads, and no two share a node. */
  ghost predicate Apart(lists: map<Node, seq<Node>>) {
    && (forall h :: h in lists ==> |lists[h]| > 0 && lists[h][0] == h)
    && (forall h, k, n :: h in lists && k in lists && n in lists[h] && n in lists[k] ==> h == k)
  }

  ghost function Nodes(lists: map<Node, seq<Node>>): (nodes: set<Node>)
    ensures forall h, n :: h in lists && n in lists[h] ==> n in nodes
  {
    set h, n | h in lists && n in lists[h] :: n
  }

  /** Every list of the family is in shape. */
  ghost predicate Lists(lists: map<Node, seq<Node>>)
    reads Nodes(lists)
  {
    && Apart(lists)
    && (forall h :: h in lists ==> Ring(lists[h]))
  }

  function Without(s: seq<Node>, gone: Node): seq<Node> {
    if s == [] then [] else if s[0] == gone then s[1..] else [s[0]] + Without(s[1..], gone)
  }

  lemma {:induction false} WithoutAt(s: seq<Node>, i: nat)
    requires Distinct(s) && i < |s|
    ensures Without(s, s[i]) == s[..i] + s[i + 1..]
  {
    if i > 0 {
      WithoutAt(s[1..], i - 1);
    }
  }

  /** A node is added once, an element is deleted from the list it is in, and a list is not spliced
      into itself. */
  ghost predicate Allowed(lists: map<Node, seq<Node>>, op: Operation) {
    && op.head in lists
    && match op
       case Add(added, _) => forall h :: h in lists ==> added !in lists[h]
       case Delete(elem, head) => elem in lists[head] && elem != head
       case Splice(add, head) => add in lists && add != head
  }

  /** What an operation means for the sequences. A spliced list is gone, unless it was empty. */
  ghost function After(lists: map<Node, seq<Node>>, op: Operation): map<Node, seq<Node>>
    requires Apart(lists) && Allowed(lists, op)
  {
    match op
    case Add(added, head) => lists[head := [head, added] + lists[head][1..]]
    case Delete(elem, head) => lists[head := Without(lists[head], elem)]
    case Splice(add, head) =>
      if |lists[add]| == 1 then lists
      else (lists - {add})[head := [head] + lists[add][1..] + lists[head][1..]]
  }

  lemma {:induction false} WithoutKeeps(s: seq<Node>, gone: Node)
    ensures forall n :: n in Without(s, gone) ==> n in s
  {
    if s != [] && s[0] != gone {
      WithoutKeeps(s[1..], gone);
    }
  }

  lemma StillApart(lists: map<Node, seq<Node>>, op: Operation)
    requires Apart(lists) && Allowed(lists, op)
    ensures Apart(After(lists, op))
    ensures forall h :: h in After(lists, op) && h != op.head ==> h in lists && After(lists, op)[h] == lists[h]
  {
    if op.Delete? {
      WithoutKeeps(lists[op.head], op.elem);
    }
  }

  /** Deleting what was just added undoes the addition. */
  lemma DeleteUndoesAdd(lists: map<Node, seq<Node>>, added: Node, head: Node)
    requires Apart(lists) && Allowed(lists, Add(added, head))
    ensures var longer := After(lists, Add(added, head));
      && Apart(longer) && Allowed(longer, Delete(added, head))
      && After(longer, Delete(added, head)) == lists
  {
    StillApart(lists, Add(added, head));
    var ring := [head, added] + lists[head][1..];
    assert ring[0] == head && ring[1] == added && added in ring && head in lists[head];
    assert ring[1..][0] == added;
    assert Without(ring, added) == lists[head];
  }

  lemma NeighboursAreInside(ring: seq<Node>)
    requires Ring(ring)
    ensures forall n :: n in ring ==> n.next in ring && n.prev in ring
  {
    var closed := ring + [ring[0]];
    forall n | n in ring ensures n.next in ring && n.prev in ring {
      var i :| 0 <= i < |ring| && ring[i] == n;
      assert closed[i] == n && closed[i + 1] in ring;
      assert closed[|ring|] == closed[0] && closed[|ring| - 1] in ring;
      assert i > 0 ==> closed[i - 1] in ring;
    }
  }

  method Perform(op: Operation, ghost lists: map<Node, seq<Node>>)
    requires Lists(lists) && Allowed(lists, op)
    modifies Nodes(lists), if op.Add? then {op.added} else {}
    ensures Lists(After(lists, op))
  {
    StillApart(lists, op);
    NeighboursAreInside(lists[op.head]);
    hide Linked, Distinct;
    match op {
      case Add(added, head) =>
        ListAdd(added, head, lists[head]);
      case Delete(elem, head) =>
        ghost var i :| 0 <= i < |lists[head]| && lists[head][i] == elem;
        WithoutAt(lists[head], i);
        ListDel(elem, lists[head], i);
      case Splice(add, head) =>
        NeighboursAreInside(lists[add]);
        ListSplice(add, head, lists[add], lists[head]);
        assert |lists[add]| == 1 ==> [head] + lists[add][1..] + lists[head][1..] == lists[head];
    }
  }

  // ----- Whole sequences of operations -----------------------------------------------------

  ghost predicate AllAllowed(lists: map<Node, seq<Node>>, ops: seq<Operation>)
    requires Apart(lists)
    decreases |ops|
  {
    ops != [] ==>
      && Allowed(lists, ops[0])
      && Apart(After(lists, ops[0]))
      && AllAllowed(After(lists, ops[0]), ops[1..])
  }

  ghost function AfterAll(lists: map<Node, seq<Node>>, ops: seq<Operation>): map<Node, seq<Node>>
    requires Apart(lists) && AllAllowed(lists, ops)
    decreases |ops|
  {
    if ops == [] then lists else AfterAll(After(lists, ops[0]), ops[1..])
  }

  ghost function Added(ops: seq<Operation>): set<Node> {
    set op | op in ops && op.Add? :: op.added
  }

  /** After any sequence of operations on a family of disjoint lists, the pointers hold exactly the
      lists that the operations mean for the sequences. */
  method PerformAll(ops: seq<Operation>, ghost lists: map<Node, seq<Node>>)
    requires Lists(lists) && AllAllowed(lists, ops)
    modifies Nodes(lists), Added(ops)
    ensures Lists(AfterAll(lists, ops))
    decreases |ops|
  {
    if ops != [] {
      assert ops[0] in ops;
      Perform(ops[0], lists);
      if ops[0].Delete? {
        WithoutKeeps(lists[ops[0].head], ops[0].elem);
      }
      assert Nodes(After(lists, ops[0])) <= Nodes(lists) + Added(ops);
      assert Added(ops[1..]) <= Added(ops);
      PerformAll(ops[1..], After(lists, ops[0]));
    }
  }
}
