/** The doubly linked list of the simulator and of the channels: sorted or head insertion, removal by node,
    search by value. */
module LinkedList {

  /** The first place whose element is not below x; a list without a comparison inserts at the head. */
  function Place<T>(compare: (T, T) -> int, q: seq<T>, x: T): (i: nat)
    ensures i <= |q|
    ensures forall k :: 0 <= k < i ==> compare(q[k], x) < 0
    ensures i < |q| ==> compare(q[i], x) >= 0
  {
    if q == [] || compare(q[0], x) >= 0 then 0
    else
      var i := Place(compare, q[1..], x);
      assert forall k :: 0 < k < i + 1 ==> q[k] == q[1..][k - 1];
      i + 1
  }

  function Inserted<T>(compare: (T, T) -> int, q: seq<T>, x: T): seq<T> {
    q[..Place(compare, q, x)] + [x] + q[Place(compare, q, x)..]
  }

  /** No comparison: every element counts as not below the new one. */
  function AtHead<T>(a: T, b: T): int { 0 }

  /** Every element counts as below it: MLFQ's comparison, and what the channels' list does. */
  function AtTail<T>(a: T, b: T): int { -1 }

  lemma {:induction false} InsertsAtTheEnds<T>(q: seq<T>, x: T)
    ensures Inserted(AtHead, q, x) == [x] + q
    ensures Inserted(AtTail, q, x) == q + [x]
  {
    PlaceIs(AtHead, q, x, 0);
    PlaceIs(AtTail, q, x, |q|);
  }

  class Node<T> {
    const data: T
    var next: Node?<T>
    var prev: Node?<T>

    constructor (data: T)
      ensures this.data == data && next == null && prev == null
    {
      this.data, next, prev := data, null, null;
    }
  }

  ghost function NextIn<T>(s: seq<Node<T>>, i: int): Node?<T> { if 0 <= i + 1 < |s| then s[i + 1] else null }
  ghost function PrevIn<T>(s: seq<Node<T>>, i: int): Node?<T> { if 0 <= i - 1 < |s| then s[i - 1] else null }

  ghost function DataOf<T>(s: seq<Node<T>>): seq<T> { seq(|s|, i requires 0 <= i < |s| => s[i].data) }

  ghost predicate IsAt<T>(s: seq<Node<T>>, i: int) { 0 <= i < |s| }

  ghost predicate Distinct<T>(s: seq<Node<T>>) {
    forall i, k {:trigger s[i], s[k]} :: 0 <= i < k < |s| ==> s[i] != s[k]
  }

  class List<T(==)> {
    const compare: (T, T) -> int
    var head: Node?<T>
    var tail: Node?<T>
    var count: nat
    ghost var nodes: seq<Node<T>>

    /** The links run along `nodes` in both directions. */
    ghost predicate Valid()
      reads this, nodes
    {
      && count == |nodes| && head == NextIn(nodes, -1) && tail == PrevIn(nodes, |nodes|)
      && Distinct(nodes)
      && (forall i {:trigger IsAt(nodes, i)} :: IsAt(nodes, i) ==>
            nodes[i].next == NextIn(nodes, i) && nodes[i].prev == PrevIn(nodes, i))
    }

    ghost function Contents(): (s: seq<T>)
      reads this
      ensures |s| == |nodes|
    {
      DataOf(nodes)
    }

    constructor (compare: (T, T) -> int)
      ensures Valid() && nodes == [] && this.compare == compare
    {
      this.compare := compare;
      head, tail, count, nodes := null, null, 0, [];
    }

    /** list_find: the first node with the data, or null. */
    method Find(data: T) returns (node: Node?<T>, ghost i: nat)
      requires Valid()
      ensures node == null <==> data !in Contents()
      ensures node != null ==> i < |nodes| && nodes[i] == node && node.data == data
      ensures forall k :: 0 <= k < (if node == null then |nodes| else i) ==> nodes[k].data != data
    {
      i := 0;
      node := head;
      while node != null
        invariant i <= |nodes| && node == (if i < |nodes| then nodes[i] else null)
        invariant forall k :: 0 <= k < i ==> nodes[k].data != data
        decreases |nodes| - i
      {
        assert Contents()[i] == nodes[i].data;
        assert IsAt(nodes, i);
        if node.data == data { return; }
        node := node.next;
        i := i + 1;
      }
    }

    /** list_insert. */
    method Insert(data: T) returns (node: Node<T>)
      requires Valid()
      modifies this, nodes
      ensures Valid() && fresh(node) && node.data == data
      ensures nodes == Spliced(old(nodes), Place(compare, old(Contents()), data), node)
      ensures Contents() == Inserted(compare, old(Contents()), data)
    {
      ghost var s := Contents();
      node := new Node(data);
      var curr, i := FindPlace(data);
      SplicedData(nodes, i, node);
      LinkBefore(node, curr, i);
    }

    /** The search of list_insert: the first node whose data is not below the new data. */
    method FindPlace(data: T) returns (curr: Node?<T>, ghost i: nat)
      requires Valid()
      ensures curr == NextIn(nodes, Place(compare, Contents(), data) - 1) && i == Place(compare, Contents(), data)
    {
      i := 0;
      curr := head;
      while curr != null && compare(curr.data, data) < 0
        invariant i <= |nodes| && curr == NextIn(nodes, i - 1)
        invariant forall k :: 0 <= k < i ==> compare(nodes[k].data, data) < 0
        decreases |nodes| - i
      {
        assert IsAt(nodes, i) && curr == nodes[i];
        curr := curr.next;
        i := i + 1;
      }
      PlaceIs(compare, Contents(), data, i);
    }

    /** The relinking of list_insert: the node goes before the i-th one, curr, or to the end. */
    method LinkBefore(node: Node<T>, curr: Node?<T>, ghost i: nat)
      requires Valid() && node !in nodes && node.next == null && node.prev == null
      requires i <= |nodes| && curr == NextIn(nodes, i - 1)
      modifies this, nodes, node
      ensures Valid() && nodes == Spliced(old(nodes), i, node)
    {
      ghost var was := nodes;
      Relink(node, curr, i);
      count := count + 1;
      nodes := Spliced(was, i, node);
      SplicedDistinct(was, i, node);
      forall k | IsAt(nodes, k) ensures nodes[k].next == NextIn(nodes, k) && nodes[k].prev == PrevIn(nodes, k) {
        SplicedLinks(was, i, node, k);
        hide Spliced, NextIn, PrevIn, Distinct;
        var m := if k < i then k else k - 1;
        assert k != i ==> IsAt(was, m);
      }
    }

    method Relink(node: Node<T>, curr: Node?<T>, ghost i: nat)
      requires Valid() && node !in nodes && node.next == null && node.prev == null
      requires i <= |nodes| && curr == NextIn(nodes, i - 1)
      modifies this`head, this`tail, nodes, node
      ensures node.next == NextIn(nodes, i - 1) && node.prev == PrevIn(nodes, i)
      ensures forall k {:trigger IsAt(nodes, k)} :: IsAt(nodes, k) ==>
        && nodes[k].next == (if k == i - 1 then node else NextIn(nodes, k))
        && nodes[k].prev == (if k == i then node else PrevIn(nodes, k))
      ensures head == (if i == 0 then node else NextIn(nodes, -1))
      ensures tail == (if i == |nodes| then node else PrevIn(nodes, |nodes|))
    {
      assert i > 0 ==> IsAt(nodes, i - 1);
      assert i < |nodes| ==> IsAt(nodes, i);
      if curr == null {
        node.prev := tail;
        if tail != null { tail.next := node; } else { head := node; }
        tail := node;
      } else {
        node.next := curr;
        node.prev := curr.prev;
        if curr.prev != null { curr.prev.next := node; } else { head := node; }
        curr.prev := node;
      }
      forall k | IsAt(nodes, k)
        ensures nodes[k].next == (if k == i - 1 then node else NextIn(nodes, k))
        ensures nodes[k].prev == (if k == i then node else PrevIn(nodes, k))
      {
        assert i < |nodes| && k != i ==> nodes[k] != nodes[i];
        assert i > 0 && k != i - 1 ==> nodes[k] != nodes[i - 1];
      }
    }

    /** list_remove: the node goes, and nothing else moves; null is ignored. */
    method Remove(node: Node?<T>, ghost i: nat)
      requires Valid() && (node != null ==> i < |nodes| && nodes[i] == node)
      modifies this, nodes
      ensures Valid() && nodes == (if node == null then old(nodes) else Cut(old(nodes), i))
      ensures node != null ==> Contents() == old(Contents())[..i] + old(Contents())[i + 1..]
      ensures node != null ==> node.next == null && node.prev == null
    {
      if node == null { return; }
      ghost var was := nodes;
      CutData(nodes, i);
      Unlink(node, i);
      count := count - 1;
      nodes := Cut(was, i);
      assert Distinct(nodes);
      forall k | IsAt(nodes, k) ensures nodes[k].next == NextIn(nodes, k) && nodes[k].prev == PrevIn(nodes, k) {
        CutLinks(was, i, k);
        var m := if k < i then k else k + 1;
        assert IsAt(was, m) && was[m] == nodes[k];
      }
    }

    method Unlink(node: Node<T>, ghost i: nat)
      requires Valid() && i < |nodes| && nodes[i] == node
      modifies this`head, this`tail, nodes
      ensures node.next == null && node.prev == null
      ensures forall k {:trigger IsAt(nodes, k)} :: IsAt(nodes, k) && k != i ==>
        && nodes[k].next == (if k == i - 1 then NextIn(nodes, i) else NextIn(nodes, k))
        && nodes[k].prev == (if k == i + 1 then PrevIn(nodes, i) else PrevIn(nodes, k))
      ensures head == (if i == 0 then NextIn(nodes, 0) else NextIn(nodes, -1))
      ensures tail == (if i == |nodes| - 1 then PrevIn(nodes, i) else PrevIn(nodes, |nodes|))
    {
      assert IsAt(nodes, i) && (i > 0 ==> IsAt(nodes, i - 1)) && (i + 1 < |nodes| ==> IsAt(nodes, i + 1));
      if node == head { head := node.next; }
      if node == tail { tail := node.prev; }
      if node.prev != null { node.prev.next := node.next; }
      if node.next != null { node.next.prev := node.prev; }
      node.next := null;
      node.prev := null;
    }
  }

  // ---------- The nodes after a change ----------

  ghost function Spliced<T>(s: seq<Node<T>>, i: nat, n: Node<T>): seq<Node<T>>
    requires i <= |s|
  {
    s[..i] + [n] + s[i..]
  }

  ghost function Cut<T>(s: seq<Node<T>>, i: nat): seq<Node<T>>
    requires i < |s|
  {
    s[..i] + s[i + 1..]
  }

  lemma SplicedDistinct<T>(s: seq<Node<T>>, i: nat, n: Node<T>)
    requires i <= |s| && Distinct(s) && n !in s
    ensures Distinct(Spliced(s, i, n))
  {
  }

  lemma SplicedData<T>(s: seq<Node<T>>, i: nat, n: Node<T>)
    requires i <= |s|
    ensures DataOf(Spliced(s, i, n)) == DataOf(s)[..i] + [n.data] + DataOf(s)[i..]
  {
  }

  lemma CutData<T>(s: seq<Node<T>>, i: nat)
    requires i < |s|
    ensures DataOf(Cut(s, i)) == DataOf(s)[..i] + DataOf(s)[i + 1..]
  {
  }

  lemma SplicedLinks<T>(s: seq<Node<T>>, i: nat, n: Node<T>, k: nat)
    requires i <= |s| && k <= |s|
    ensures var r, m := Spliced(s, i, n), if k < i then k else k - 1;
      && |r| == |s| + 1 && (k == i ==> r[k] == n) && (k != i ==> r[k] == s[m])
      && (k == i ==> NextIn(r, k) == NextIn(s, i - 1) && PrevIn(r, k) == PrevIn(s, i))
      && (k != i ==> NextIn(r, k) == if m == i - 1 then n else NextIn(s, m))
      && (k != i ==> PrevIn(r, k) == if m == i then n else PrevIn(s, m))
  {
  }

  lemma CutLinks<T>(s: seq<Node<T>>, i: nat, k: nat)
    requires i < |s| && k < |s| - 1
    ensures var r, m := Cut(s, i), if k < i then k else k + 1;
      && NextIn(r, k) == (if m == i - 1 then NextIn(s, i) else NextIn(s, m))
      && PrevIn(r, k) == (if m == i + 1 then PrevIn(s, i) else PrevIn(s, m))
  {
  }

  lemma PlaceIs<T>(compare: (T, T) -> int, q: seq<T>, x: T, i: nat)
    requires i <= |q| && (forall k :: 0 <= k < i ==> compare(q[k], x) < 0)
    requires i < |q| ==> compare(q[i], x) >= 0
    ensures Place(compare, q, x) == i
  {
  }
}
