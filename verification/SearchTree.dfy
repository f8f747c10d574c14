/** Binary search trees of linked nodes as values, and what rotations, additions and removals do to them. */
module SearchTree {
  import opened Basics

  type Key = k: int | -0x8000_0000_0000_0000 <= k < 0x8000_0000_0000_0000
  type Record = int     // the address of user data

  const BELOW: int := -0x8000_0000_0000_0001
  const ABOVE: int := 0x8000_0000_0000_0000

  class Node {
    const key: Key
    const record: Record
    var left: Node?
    var right: Node?
    var parent: Node?

    constructor (key: Key, record: Record, parent: Node?)
      ensures this.key == key && this.record == record && this.parent == parent
      ensures left == null && right == null
    {
      this.key, this.record, this.parent := key, record, parent;
      left, right := null, null;
    }
  }

  // ---------- The shape of a tree, as a value ----------

  /** A node's links, and the bounds between which its subtree holds exactly the tree's keys. */
  datatype Pos = Pos(left: Node?, right: Node?, parent: Node?, lo: int, hi: int)

  type Shape = map<Node, Pos>

  /** Node n agrees with its parent and children, and covers the part of the keys it should. */
  ghost predicate Sound(M: Shape, root: Node?, n: Node)
    requires n in M
  {
    LeftSound(M, n) && RightSound(M, n) && UpSound(M, root, n)
  }

  ghost predicate LeftSound(M: Shape, n: Node)
    requires n in M
  {
    BELOW <= M[n].lo < n.key && (M[n].left != null ==>
      M[n].left in M && M[M[n].left].parent == n && M[M[n].left].lo == M[n].lo && M[M[n].left].hi == n.key)
  }

  ghost predicate RightSound(M: Shape, n: Node)
    requires n in M
  {
    n.key < M[n].hi <= ABOVE && (M[n].right != null ==>
      M[n].right in M && M[M[n].right].parent == n && M[M[n].right].lo == n.key && M[M[n].right].hi == M[n].hi)
  }

  ghost predicate UpSound(M: Shape, root: Node?, n: Node)
    requires n in M
  {
    && (M[n].parent == null ==> n == root)
    && (M[n].parent != null ==> M[n].parent in M && (n == M[M[n].parent].left || n == M[M[n].parent].right))
  }

  /** A missing child of n leaves no key out. */
  ghost predicate NoGap(M: Shape, n: Node, m: Node)
    requires n in M
  {
    && (M[n].left == null ==> !(M[n].lo < m.key < n.key))
    && (M[n].right == null ==> !(n.key < m.key < M[n].hi))
  }

  ghost predicate UniqueKeys(nodes: set<Node>) {
    forall n, m {:trigger n in nodes, m in nodes} :: n in nodes && m in nodes && n.key == m.key ==> n == m
  }

  /** A binary search tree on exactly the nodes of M. */
  ghost predicate Shaped(M: Shape, root: Node?) {
    && (root == null <==> M == map[])
    && (root != null ==> root in M && M[root].parent == null && M[root].lo == BELOW && M[root].hi == ABOVE)
    && (forall n {:trigger Sound(M, root, n)} :: n in M ==> Sound(M, root, n))
    && (forall n, m {:trigger NoGap(M, n, m)} :: n in M && m in M ==> NoGap(M, n, m))
    && UniqueKeys(M.Keys)
  }

  // ---------- Rotations ----------

  /** x's right child y takes x's place; x becomes its left child. */
  ghost function LeftRotation(M: Shape, x: Node, y: Node): Shape
    requires x in M && y in M
  {
    var p, c := M[x].parent, M[y].left;
    map n | n in M ::
      if n == x then Pos(M[x].left, c, y, M[x].lo, y.key)
      else if n == y then Pos(x, M[y].right, p, M[x].lo, M[x].hi)
      else Pos(if n == p && M[n].left == x then y else M[n].left,
               if n == p && M[n].left != x then y else M[n].right,
               if n == c then x else M[n].parent, M[n].lo, M[n].hi)
  }

  ghost function RightRotation(M: Shape, x: Node, y: Node): Shape
    requires x in M && y in M
  {
    var p, c := M[x].parent, M[y].right;
    map n | n in M ::
      if n == x then Pos(c, M[x].right, y, y.key, M[x].hi)
      else if n == y then Pos(M[y].left, x, p, M[x].lo, M[x].hi)
      else Pos(if n == p && M[n].left == x then y else M[n].left,
               if n == p && M[n].left != x then y else M[n].right,
               if n == c then x else M[n].parent, M[n].lo, M[n].hi)
  }

  /** v where u hangs from its parent. */
  ghost function HungInstead(M: Shape, u: Node, v: Node?): Shape
    requires u in M && (M[u].parent != null ==> M[u].parent in M)
  {
    var p := M[u].parent;
    if p == null then M else if M[p].left == u then M[p := M[p].(left := v)] else M[p := M[p].(right := v)]
  }

  /** The nodes that the rotation of x and y touches, c being the child that changes hands. */
  ghost predicate Apart(M: Shape, x: Node, y: Node, c: Node?)
    requires x in M
  {
    var p := M[x].parent;
    && x != y && p != x && p != y && c != x && c != y && (p == c ==> p == null)
    && (p != null ==> p in M) && (c != null ==> c in M)
  }

  ghost function RotatedRoot(M: Shape, root: Node?, x: Node, y: Node): Node?
    requires x in M
  {
    if M[x].parent == null then y else root
  }

  /** The nodes a rotation touches are four different ones. */
  lemma LeftRotationApart(M: Shape, root: Node?, x: Node, y: Node)
    requires Shaped(M, root) && x in M && M[x].right == y
    ensures y in M && Apart(M, x, y, M[y].left)
  {
    assert Sound(M, root, x) && Sound(M, root, y);
    assert M[x].parent != null ==> Sound(M, root, M[x].parent);
    assert M[y].left != null ==> Sound(M, root, M[y].left);
  }

  /** The rotation as the assignments make it, one after the other. */
  lemma LeftRotationByFields(M: Shape, M1: Shape, M2: Shape, M3: Shape, x: Node, y: Node)
    requires x in M && y in M && Apart(M, x, y, M[y].left)
    requires var p, c := M[x].parent, M[y].left;
      var N := M[x := M[x].(right := c)];
      && M1 == (if c == null then N else N[c := N[c].(parent := x)])
      && M2 == HungInstead(M1[y := M1[y].(parent := p)], x, y)
      && M3 == M2[y := M2[y].(left := x)][x := M2[x].(parent := y)]
    ensures M3[y := M3[y].(lo := M[x].lo, hi := M[x].hi)][x := M3[x].(lo := M[x].lo, hi := y.key)] == LeftRotation(M, x, y)
  {
    var R := M3[y := M3[y].(lo := M[x].lo, hi := M[x].hi)][x := M3[x].(lo := M[x].lo, hi := y.key)];
    forall n | n in M ensures n in R && R[n] == LeftRotation(M, x, y)[n] {
      if n == x { } else if n == y { } else if n == M[x].parent { } else { }
    }
  }

  lemma LeftRotationShaped(M: Shape, root: Node?, x: Node, y: Node)
    requires Shaped(M, root) && x in M && y in M && M[x].right == y
    ensures Shaped(LeftRotation(M, x, y), RotatedRoot(M, root, x, y))
  {
    var R, r := LeftRotation(M, x, y), RotatedRoot(M, root, x, y);
    assert Sound(M, root, x) && Sound(M, root, y) && Sound(M, root, root);
    forall n | n in R ensures Sound(R, r, n) { LeftRotationSound(M, root, x, y, n); }
    forall n, m | n in R && m in R ensures NoGap(R, n, m) { assert NoGap(M, n, m) && NoGap(M, y, m); }
    assert R.Keys == M.Keys;
  }

  lemma LeftRotationLeftSound(M: Shape, root: Node?, x: Node, y: Node, n: Node)
    requires Shaped(M, root) && x in M && y in M && M[x].right == y && n in M
    ensures LeftSound(LeftRotation(M, x, y), n)
  {
    assert Sound(M, root, x) && Sound(M, root, y) && Sound(M, root, n);
    assert M[x].parent != null ==> Sound(M, root, M[x].parent);
    assert M[y].left != null ==> Sound(M, root, M[y].left);
  }

  lemma LeftRotationRightSound(M: Shape, root: Node?, x: Node, y: Node, n: Node)
    requires Shaped(M, root) && x in M && y in M && M[x].right == y && n in M
    ensures RightSound(LeftRotation(M, x, y), n)
  {
    assert Sound(M, root, x) && Sound(M, root, y) && Sound(M, root, n);
    assert M[x].parent != null ==> Sound(M, root, M[x].parent);
    assert M[y].left != null ==> Sound(M, root, M[y].left);
  }

  lemma LeftRotationUpSound(M: Shape, root: Node?, x: Node, y: Node, n: Node)
    requires Shaped(M, root) && x in M && y in M && M[x].right == y && n in M
    ensures UpSound(LeftRotation(M, x, y), RotatedRoot(M, root, x, y), n)
  {
    assert Sound(M, root, x) && Sound(M, root, y) && Sound(M, root, n);
    assert M[x].parent != null ==> Sound(M, root, M[x].parent);
    assert M[y].left != null ==> Sound(M, root, M[y].left);
  }

  lemma LeftRotationSound(M: Shape, root: Node?, x: Node, y: Node, n: Node)
    requires Shaped(M, root) && x in M && y in M && M[x].right == y && n in M
    ensures Sound(LeftRotation(M, x, y), RotatedRoot(M, root, x, y), n)
  {
    LeftRotationLeftSound(M, root, x, y, n);
    LeftRotationRightSound(M, root, x, y, n);
    LeftRotationUpSound(M, root, x, y, n);
  }

  /** The nodes a rotation touches are four different ones. */
  lemma RightRotationApart(M: Shape, root: Node?, x: Node, y: Node)
    requires Shaped(M, root) && x in M && M[x].left == y
    ensures y in M && Apart(M, x, y, M[y].right)
  {
    assert Sound(M, root, x) && Sound(M, root, y);
    assert M[x].parent != null ==> Sound(M, root, M[x].parent);
    assert M[y].right != null ==> Sound(M, root, M[y].right);
  }

  /** The rotation as the assignments make it, one after the other. */
  lemma RightRotationByFields(M: Shape, M1: Shape, M2: Shape, M3: Shape, x: Node, y: Node)
    requires x in M && y in M && Apart(M, x, y, M[y].right)
    requires var p, c := M[x].parent, M[y].right;
      var N := M[x := M[x].(left := c)];
      && M1 == (if c == null then N else N[c := N[c].(parent := x)])
      && M2 == HungInstead(M1[y := M1[y].(parent := p)], x, y)
      && M3 == M2[y := M2[y].(right := x)][x := M2[x].(parent := y)]
    ensures M3[y := M3[y].(lo := M[x].lo, hi := M[x].hi)][x := M3[x].(lo := y.key, hi := M[x].hi)] == RightRotation(M, x, y)
  {
    var R := M3[y := M3[y].(lo := M[x].lo, hi := M[x].hi)][x := M3[x].(lo := y.key, hi := M[x].hi)];
    forall n | n in M ensures n in R && R[n] == RightRotation(M, x, y)[n] {
      if n == x { } else if n == y { } else if n == M[x].parent { } else { }
    }
  }

  lemma RightRotationShaped(M: Shape, root: Node?, x: Node, y: Node)
    requires Shaped(M, root) && x in M && y in M && M[x].left == y
    ensures Shaped(RightRotation(M, x, y), RotatedRoot(M, root, x, y))
  {
    var R, r := RightRotation(M, x, y), RotatedRoot(M, root, x, y);
    assert Sound(M, root, x) && Sound(M, root, y) && Sound(M, root, root);
    forall n | n in R ensures Sound(R, r, n) { RightRotationSound(M, root, x, y, n); }
    forall n, m | n in R && m in R ensures NoGap(R, n, m) { assert NoGap(M, n, m) && NoGap(M, y, m); }
    assert R.Keys == M.Keys;
  }

  lemma RightRotationLeftSound(M: Shape, root: Node?, x: Node, y: Node, n: Node)
    requires Shaped(M, root) && x in M && y in M && M[x].left == y && n in M
    ensures LeftSound(RightRotation(M, x, y), n)
  {
    assert Sound(M, root, x) && Sound(M, root, y) && Sound(M, root, n);
    assert M[x].parent != null ==> Sound(M, root, M[x].parent);
    assert M[y].right != null ==> Sound(M, root, M[y].right);
  }

  lemma RightRotationRightSound(M: Shape, root: Node?, x: Node, y: Node, n: Node)
    requires Shaped(M, root) && x in M && y in M && M[x].left == y && n in M
    ensures RightSound(RightRotation(M, x, y), n)
  {
    assert Sound(M, root, x) && Sound(M, root, y) && Sound(M, root, n);
    assert M[x].parent != null ==> Sound(M, root, M[x].parent);
    assert M[y].right != null ==> Sound(M, root, M[y].right);
  }

  lemma RightRotationUpSound(M: Shape, root: Node?, x: Node, y: Node, n: Node)
    requires Shaped(M, root) && x in M && y in M && M[x].left == y && n in M
    ensures UpSound(RightRotation(M, x, y), RotatedRoot(M, root, x, y), n)
  {
    assert Sound(M, root, x) && Sound(M, root, y) && Sound(M, root, n);
    assert M[x].parent != null ==> Sound(M, root, M[x].parent);
    assert M[y].right != null ==> Sound(M, root, M[y].right);
  }

  lemma RightRotationSound(M: Shape, root: Node?, x: Node, y: Node, n: Node)
    requires Shaped(M, root) && x in M && y in M && M[x].left == y && n in M
    ensures Sound(RightRotation(M, x, y), RotatedRoot(M, root, x, y), n)
  {
    RightRotationLeftSound(M, root, x, y, n);
    RightRotationRightSound(M, root, x, y, n);
    RightRotationUpSound(M, root, x, y, n);
  }

  // ---------- Removing the root ----------

  /** The tree without its root z, which has no left child: bounds at z's key move out to z's lower bound. */
  ghost function DropLeftless(M: Shape, z: Node): Shape
    requires z in M
  {
    var v := M[z].right;
    map n | n in M && n != z ::
      Pos(M[n].left, M[n].right, if n == v then null else M[n].parent,
          if M[n].lo == z.key then M[z].lo else M[n].lo, M[n].hi)
  }

  ghost function DropRightless(M: Shape, z: Node): Shape
    requires z in M
  {
    var v := M[z].left;
    map n | n in M && n != z ::
      Pos(M[n].left, M[n].right, if n == v then null else M[n].parent,
          M[n].lo, if M[n].hi == z.key then M[z].hi else M[n].hi)
  }

  /** The tree with y, the least node right of the root z, in z's place. */
  ghost function DropFull(M: Shape, z: Node, y: Node): Shape
    requires z in M && y in M
  {
    var q, r := M[y].parent, M[y].right;
    map n | n in M && n != z ::
      if n == y then Pos(M[z].left, if q == z then r else M[z].right, null, M[z].lo, M[z].hi)
      else Pos(if n == q then r else M[n].left, M[n].right,
               if n == M[z].left || n == M[z].right then y else if n == r && q != z then q else M[n].parent,
               if M[n].lo == z.key then y.key else M[n].lo,
               if M[n].hi == z.key then y.key else M[n].hi)
  }

  lemma DropLeftlessShaped(M: Shape, z: Node)
    requires Shaped(M, z) && z in M && M[z].left == null
    ensures Shaped(DropLeftless(M, z), M[z].right)
  {
    var R, v := DropLeftless(M, z), M[z].right;
    assert Sound(M, z, z);
    forall n | n in R ensures Sound(R, v, n) {
      assert Sound(M, z, n);
      assert M[n].parent != null ==> Sound(M, z, M[n].parent);
      assert M[n].left != null ==> Sound(M, z, M[n].left);
      assert M[n].right != null ==> Sound(M, z, M[n].right);
    }
    forall n, m | n in R && m in R ensures NoGap(R, n, m) { assert NoGap(M, n, m) && NoGap(M, z, m) && Sound(M, z, n); }
    if v == null {
      forall n | n in M ensures n == z { assert NoGap(M, z, n) && Sound(M, z, n); }
      assert R.Keys == {};
    } else {
      assert Sound(M, z, v) && v in R;
    }
  }

  lemma DropRightlessShaped(M: Shape, z: Node)
    requires Shaped(M, z) && z in M && M[z].right == null
    ensures Shaped(DropRightless(M, z), M[z].left)
  {
    var R, v := DropRightless(M, z), M[z].left;
    assert Sound(M, z, z);
    forall n | n in R ensures Sound(R, v, n) {
      assert Sound(M, z, n);
      assert M[n].parent != null ==> Sound(M, z, M[n].parent);
      assert M[n].left != null ==> Sound(M, z, M[n].left);
      assert M[n].right != null ==> Sound(M, z, M[n].right);
    }
    forall n, m | n in R && m in R ensures NoGap(R, n, m) { assert NoGap(M, n, m) && NoGap(M, z, m) && Sound(M, z, n); }
    if v == null {
      forall n | n in M ensures n == z { assert NoGap(M, z, n) && Sound(M, z, n); }
      assert R.Keys == {};
    } else {
      assert Sound(M, z, v) && v in R;
    }
  }

  /** y is the least node above the root z. */
  ghost predicate LeastAbove(M: Shape, z: Node, y: Node) {
    && z in M && M[z].left != null && M[z].right != null
    && y in M && M[y].left == null && M[y].lo == z.key
  }

  lemma DropFullShaped(M: Shape, z: Node, y: Node)
    requires Shaped(M, z) && LeastAbove(M, z, y)
    ensures Shaped(DropFull(M, z, y), y)
  {
    var R := DropFull(M, z, y);
    LeastFacts(M, z, y);
    assert y in R && R.Keys == M.Keys - {z};
    forall n | n in R ensures Sound(R, y, n) {
      DropFullLeftSound(M, z, y, n);
      DropFullRightSound(M, z, y, n);
      DropFullUpSound(M, z, y, n);
    }
    forall n, m | n in R && m in R ensures NoGap(R, n, m) {
      assert NoGap(M, n, m) && NoGap(M, y, m) && NoGap(M, y, n) && Sound(M, z, n) && Sound(M, z, m);
    }
  }

  lemma LeastFacts(M: Shape, z: Node, y: Node)
    requires Shaped(M, z) && LeastAbove(M, z, y)
    ensures Sound(M, z, z) && Sound(M, z, y) && y != z && M[y].parent in M && Sound(M, z, M[y].parent)
    ensures M[z].left in M && M[z].right in M && Sound(M, z, M[z].left) && Sound(M, z, M[z].right)
    ensures M[y].right != null ==> M[y].right in M && Sound(M, z, M[y].right)
    ensures M[y].parent == z <==> M[z].right == y
    ensures M[y].parent != z ==> M[M[y].parent].left == y && M[M[y].parent].lo == z.key
    ensures z.key < y.key
  {
    assert Sound(M, z, z) && Sound(M, z, y);
    assert M[y].parent != null;
    var q := M[y].parent;
    assert Sound(M, z, q) && Sound(M, z, M[z].left) && Sound(M, z, M[z].right);
    assert M[y].right != null ==> Sound(M, z, M[y].right);
    if M[q].right == y { assert q.key == z.key; }
  }

  lemma DropFullLeftSound(M: Shape, z: Node, y: Node, n: Node)
    requires Shaped(M, z) && LeastAbove(M, z, y) && n in M && n != z
    ensures LeftSound(DropFull(M, z, y), n)
  {
    LeastFacts(M, z, y);
    assert Sound(M, z, n) && NoGap(M, y, n);
    assert M[n].left != null ==> Sound(M, z, M[n].left);
  }

  lemma DropFullRightSound(M: Shape, z: Node, y: Node, n: Node)
    requires Shaped(M, z) && LeastAbove(M, z, y) && n in M && n != z
    ensures RightSound(DropFull(M, z, y), n)
  {
    LeastFacts(M, z, y);
    assert Sound(M, z, n) && NoGap(M, y, n);
    assert M[n].right != null ==> Sound(M, z, M[n].right);
  }

  lemma DropFullUpSound(M: Shape, z: Node, y: Node, n: Node)
    requires Shaped(M, z) && LeastAbove(M, z, y) && n in M && n != z
    ensures UpSound(DropFull(M, z, y), y, n)
  {
    LeastFacts(M, z, y);
    assert Sound(M, z, n);
    assert M[n].parent != null ==> Sound(M, z, M[n].parent);
  }

  // ---------- What a tree means ----------

  /** The map that a set of nodes stands for. */
  ghost function Contents(nodes: set<Node>): (m: map<int, Record>)
    requires UniqueKeys(nodes)
    ensures forall n {:trigger n in nodes} :: n in nodes ==> n.key in m && m[n.key] == n.record
    ensures forall k {:trigger k in m} :: k in m ==> exists n :: n in nodes && n.key == k
  {
    map n | n in nodes :: n.key := n.record
  }

  lemma ContentsSize(nodes: set<Node>)
    requires UniqueKeys(nodes)
    ensures |Contents(nodes)| == |nodes|
    decreases |nodes|
  {
    if nodes == {} {
      assert Contents(nodes) == map[];
    } else {
      var n :| n in nodes;
      var rest := nodes - {n};
      ContentsSize(rest);
      assert Contents(nodes) == Contents(rest)[n.key := n.record];
    }
  }

  /** The keys from left to right. */
  ghost function InOrder(M: Shape, root: Node?, n: Node?): seq<int>
    requires Shaped(M, root) && (n != null ==> n in M)
    decreases if n == null then 0 else 1 + M[n].hi - M[n].lo
  {
    if n == null then [] else
      assert Sound(M, root, n);
      assert M[n].left != null ==> Sound(M, root, M[n].left);
      assert M[n].right != null ==> Sound(M, root, M[n].right);
      InOrder(M, root, M[n].left) + [n.key] + InOrder(M, root, M[n].right)
  }

  ghost predicate Increasing(s: seq<int>) {
    forall i, j :: 0 <= i < j < |s| ==> s[i] < s[j]
  }

  ghost predicate HasKey(M: Shape, k: int) {
    exists n :: n in M && n.key == k
  }

  /** s lists the tree's keys between lo and hi in increasing order. */
  ghost predicate Lists(s: seq<int>, M: Shape, lo: int, hi: int) {
    Increasing(s) && forall k {:trigger k in s} :: k in s <==> lo < k < hi && HasKey(M, k)
  }

  lemma InOrderLists(M: Shape, root: Node?, n: Node)
    requires Shaped(M, root) && n in M
    ensures Lists(InOrder(M, root, n), M, M[n].lo, M[n].hi)
    decreases 1 + M[n].hi - M[n].lo
  {
    assert Sound(M, root, n);
    var l, r := M[n].left, M[n].right;
    if l != null { assert Sound(M, root, l); InOrderLists(M, root, l); }
    else { forall m | m in M ensures NoGap(M, n, m) { } }
    if r != null { assert Sound(M, root, r); InOrderLists(M, root, r); }
    else { forall m | m in M ensures NoGap(M, n, m) { } }
    JoinLists(InOrder(M, root, l), n.key, InOrder(M, root, r), M, M[n].lo, M[n].hi);
  }

  lemma JoinLists(L: seq<int>, key: int, R: seq<int>, M: Shape, lo: int, hi: int)
    requires lo < key < hi && HasKey(M, key) && Lists(L, M, lo, key) && Lists(R, M, key, hi)
    ensures Lists(L + [key] + R, M, lo, hi)
  {
    var s := L + [key] + R;
    assert forall i :: 0 <= i < |L| ==> L[i] in L && s[i] == L[i];
    assert forall i :: |L| < i < |s| ==> s[i] == R[i - |L| - 1] && s[i] in R;
    forall k ensures k in s <==> k in L || k == key || k in R { }
  }

  lemma {:induction false} SortedUnique(s: seq<int>, t: seq<int>)
    requires Increasing(s) && Increasing(t) && forall k :: k in s <==> k in t
    ensures s == t
  {
    assert (s != [] ==> s[0] in s) && (t != [] ==> t[0] in t);
    if s != [] && t != [] {
      assert s[0] in t && t[0] in s;
      assert s[0] == t[0];
      forall k ensures k in s[1..] <==> k in t[1..] {
        assert k in s[1..] ==> k in s && k != s[0];
        assert k in t[1..] ==> k in t && k != t[0];
      }
      SortedUnique(s[1..], t[1..]);
    }
  }

  lemma SameKeys(M: Shape, M': Shape, k: int)
    requires M.Keys == M'.Keys
    ensures HasKey(M, k) <==> HasKey(M', k)
  {
    assert forall n :: n in M <==> n in M.Keys;
    assert forall n :: n in M' <==> n in M'.Keys;
  }

  /** Two search trees on the same nodes read the same from left to right. */
  lemma SameOrder(M: Shape, root: Node?, M': Shape, root': Node?)
    requires Shaped(M, root) && Shaped(M', root') && M.Keys == M'.Keys
    ensures InOrder(M, root, root) == InOrder(M', root', root')
  {
    if root != null {
      assert root' != null by { assert root in M'; }
      InOrderLists(M, root, root);
      InOrderLists(M', root', root');
      forall k ensures HasKey(M, k) <==> HasKey(M', k) { SameKeys(M, M', k); }
      SortedUnique(InOrder(M, root, root), InOrder(M', root', root'));
    } else {
      assert M'.Keys == {};
      assert M' == map[];
    }
  }

  /** Following the search from n, key k can only be in n's subtree. */
  lemma SearchStep(M: Shape, root: Node?, z: Node, k: int)
    requires Shaped(M, root) && z in M && M[z].lo < k < M[z].hi && k != z.key
    ensures var c := if k > z.key then M[z].right else M[z].left;
      if c == null then k !in Contents(M.Keys)
      else c in M && M[c].lo < k < M[c].hi && M[c].hi - M[c].lo < M[z].hi - M[z].lo
  {
    assert Sound(M, root, z);
    var c := if k > z.key then M[z].right else M[z].left;
    if c == null {
      forall m | m in M ensures m.key != k { assert NoGap(M, z, m); }
    } else {
      assert Sound(M, root, c);
    }
  }

  // ---------- Adding a leaf ----------

  /** Where the search for an absent key k ends, from x down. */
  ghost function SearchEnd(M: Shape, root: Node?, x: Node, k: int): Node
    requires Shaped(M, root) && x in M && M[x].lo < k < M[x].hi && !HasKey(M, k)
    decreases M[x].hi - M[x].lo
  {
    SearchStep(M, root, x, k);
    var c := if k > x.key then M[x].right else M[x].left;
    if c == null then x else SearchEnd(M, root, c, k)
  }

  /** Every node whose bounds contain k is on the search path of k. */
  lemma OnePath(M: Shape, root: Node, n: Node, k: int)
    requires Shaped(M, root) && root in M && n in M && M[n].lo < k < M[n].hi && !HasKey(M, k)
    ensures BELOW < k < ABOVE && SearchEnd(M, root, root, k) == SearchEnd(M, root, n, k)
    decreases (ABOVE - BELOW) - (M[n].hi - M[n].lo)
  {
    assert Sound(M, root, n);
    if n != root {
      assert Sound(M, root, M[n].parent);
      OnePath(M, root, M[n].parent, k);
    }
  }

  /** z as a leaf under p, or as the whole tree. */
  ghost function Attached(M: Shape, p: Node?, z: Node): Shape
    requires p != null ==> p in M
  {
    if p == null then map[z := Pos(null, null, null, BELOW, ABOVE)]
    else if p.key < z.key then M[p := M[p].(right := z)][z := Pos(null, null, p, p.key, M[p].hi)]
    else M[p := M[p].(left := z)][z := Pos(null, null, p, M[p].lo, p.key)]
  }

  ghost predicate FreeSpot(M: Shape, root: Node?, p: Node, z: Node) {
    && root != null && root in M && p in M && z !in M && !HasKey(M, z.key) && M[p].lo < z.key < M[p].hi && p.key != z.key
    && (if p.key < z.key then M[p].right == null else M[p].left == null)
  }

  lemma AttachedShaped(M: Shape, root: Node?, p: Node?, z: Node)
    requires Shaped(M, root) && !HasKey(M, z.key) && (p == null <==> root == null)
    requires p != null ==> FreeSpot(M, root, p, z)
    ensures Shaped(Attached(M, p, z), if p == null then z else root) && z in Attached(M, p, z)
  {
    var R, r := Attached(M, p, z), if p == null then z else root;
    if p == null {
      assert Sound(R, r, z) && NoGap(R, z, z);
    } else {
      assert R.Keys == M.Keys + {z};
      assert Sound(M, root, root);
      forall n | n in R ensures Sound(R, r, n) { AttachedSound(M, root, p, z, n); }
      forall n, m | n in R && m in R ensures NoGap(R, n, m) { AttachedNoGap(M, root, p, z, n, m); }
      forall n, m {:trigger n in R.Keys, m in R.Keys} | n in R.Keys && m in R.Keys && n.key == m.key ensures n == m {
        assert n in M ==> n in M.Keys && HasKey(M, n.key);
        assert m in M ==> m in M.Keys && HasKey(M, m.key);
      }
    }
  }

  lemma AttachedSound(M: Shape, root: Node?, p: Node, z: Node, n: Node)
    requires Shaped(M, root) && FreeSpot(M, root, p, z) && (n in M || n == z)
    ensures n in Attached(M, p, z) && Sound(Attached(M, p, z), root, n)
  {
    assert Sound(M, root, p);
    if n != z {
      assert Sound(M, root, n);
      assert M[n].left != null ==> Sound(M, root, M[n].left);
      assert M[n].right != null ==> Sound(M, root, M[n].right);
    }
  }

  lemma AttachedNoGap(M: Shape, root: Node?, p: Node, z: Node, n: Node, m: Node)
    requires Shaped(M, root) && FreeSpot(M, root, p, z) && (n in M || n == z) && (m in M || m == z)
    ensures n in Attached(M, p, z) && NoGap(Attached(M, p, z), n, m)
  {
    assert n != z && m != z ==> NoGap(M, n, m);
    assert m != z ==> NoGap(M, p, m);
    if n != z && n != p && m == z { NoOtherGap(M, root, p, n, z.key); }
    if n == p && m == z { assert Sound(M, root, p); }
  }

  lemma NoOtherGap(M: Shape, root: Node, p: Node, n: Node, k: int)
    requires Shaped(M, root) && root in M && p in M && n in M && n != p && !HasKey(M, k)
    requires M[p].lo < k < M[p].hi && (if p.key < k then M[p].right == null else M[p].left == null)
    ensures M[n].left == null ==> !(M[n].lo < k < n.key)
    ensures M[n].right == null ==> !(n.key < k < M[n].hi)
  {
    assert Sound(M, root, n) && Sound(M, root, p);
    OnePath(M, root, p, k);
    if M[n].lo < k < M[n].hi { OnePath(M, root, n, k); }
  }

  lemma ContentsPlus(nodes: set<Node>, z: Node)
    requires UniqueKeys(nodes) && UniqueKeys(nodes + {z}) && z !in nodes
    ensures Contents(nodes + {z}) == Contents(nodes)[z.key := z.record] && z.key !in Contents(nodes)
  {
  }

  lemma ContentsMinus(nodes: set<Node>, z: Node)
    requires UniqueKeys(nodes) && z in nodes
    ensures UniqueKeys(nodes - {z}) && Contents(nodes - {z}) == Contents(nodes) - {z.key}
    ensures z.key in Contents(nodes) && Contents(nodes)[z.key] == z.record
  {
    var C := Contents(nodes - {z});
    forall k | k in Contents(nodes) && k != z.key ensures k in C && C[k] == Contents(nodes)[k] {
      var n :| n in nodes && n.key == k;
      assert n in nodes - {z};
    }
  }

  /** `replace`: v, whose subtree may be empty, where u hangs. */
  ghost function Replaced(M: Shape, u: Node, v: Node?): Shape
    requires u in M && (M[u].parent != null ==> M[u].parent in M)
  {
    var N := HungInstead(M, u, v);
    if v == null || v !in N then N else N[v := N[v].(parent := M[u].parent)]
  }

  /** R has the links of N, for R's own nodes. */
  ghost predicate SameLinks(N: Shape, R: Shape) {
    forall n {:trigger n in R} {:trigger R[n]} :: n in R ==> n in N && R[n].left == N[n].left && R[n].right == N[n].right && R[n].parent == N[n].parent
  }

  lemma DropLeftlessLinks(M: Shape, z: Node)
    requires Shaped(M, z) && z in M && M[z].left == null
    ensures SameLinks(Replaced(M, z, M[z].right), DropLeftless(M, z))
  {
    assert Sound(M, z, z);
  }

  lemma DropRightlessLinks(M: Shape, z: Node)
    requires Shaped(M, z) && z in M && M[z].right == null
    ensures SameLinks(Replaced(M, z, M[z].left), DropRightless(M, z))
  {
    assert Sound(M, z, z);
  }

  ghost predicate Liftable(M: Shape, z: Node, y: Node) {
    && z in M && y in M && y != z && M[z].right != null && M[z].right in M && M[y].parent != null && M[y].parent in M
    && M[y].right != z && (M[y].right != null ==> M[y].right in M)
  }

  lemma LiftableMeans(M: Shape, z: Node, y: Node)
    requires Liftable(M, z, y)
    ensures z in M && y in M && y != z && M[z].right != null && M[z].right in M && M[y].parent != null && M[y].parent in M
    ensures M[y].right != z && (M[y].right != null ==> M[y].right in M)
    ensures M[y].parent != z ==> var N := Replaced(M, y, M[y].right); y in N && z in N && N[z] == M[z] && M[z].right in N
  {
  }

  /** y out of its place, with z's right child below it. */
  ghost function Lifted(M: Shape, z: Node, y: Node): Shape
    requires Liftable(M, z, y)
  {
    if M[y].parent == z then M
    else
      var N := Replaced(M, y, M[y].right);
      var N1 := N[y := N[y].(right := M[z].right)];
      N1[M[z].right := N1[M[z].right].(parent := y)]
  }

  lemma LiftedMeans(M: Shape, z: Node, y: Node)
    requires Liftable(M, z, y)
    ensures M[y].parent == z ==> Lifted(M, z, y) == M
    ensures M[y].parent != z ==>
      var N := Replaced(M, y, M[y].right);
      y in N && M[z].right in N && var N1 := N[y := N[y].(right := M[z].right)];
      Lifted(M, z, y) == N1[M[z].right := N1[M[z].right].(parent := y)]
  {
  }

  ghost function SwappedIn(M: Shape, z: Node, y: Node): Shape
    requires z in M && y in M && y != z && M[z].parent == null && M[z].left != null && M[z].left in M
  {
    var N := Replaced(M, z, y);
    var N1 := N[y := N[y].(left := M[z].left)];
    N1[M[z].left := N1[M[z].left].(parent := y)]
  }

  lemma SwappedInMeans(M: Shape, z: Node, y: Node)
    requires z in M && y in M && y != z && M[z].parent == null && M[z].left != null && M[z].left in M
    ensures var N := Replaced(M, z, y);
      z in N && N[z] == M[z] && y in N && M[z].left in N && var N1 := N[y := N[y].(left := M[z].left)];
      SwappedIn(M, z, y) == N1[M[z].left := N1[M[z].left].(parent := y)]
  {
  }

  lemma LiftedFacts(M: Shape, z: Node, y: Node)
    requires Shaped(M, z) && LeastAbove(M, z, y)
    ensures Liftable(M, z, y)
    ensures var N := Lifted(M, z, y); N.Keys == M.Keys && N[z] == M[z] && M[z].parent == null && M[z].left in M
  {
    LeastFacts(M, z, y);
  }

  /** The assignments that put y in the place of the root z. */
  lemma DropFullLinks(M: Shape, z: Node, y: Node)
    requires Shaped(M, z) && LeastAbove(M, z, y) && Liftable(M, z, y)
    requires var N := Lifted(M, z, y); N.Keys == M.Keys && z != y && N[z] == M[z] && M[z].parent == null && M[z].left in M
    ensures SameLinks(SwappedIn(Lifted(M, z, y), z, y), DropFull(M, z, y))
  {
    LeastFacts(M, z, y);
    var R, N := DropFull(M, z, y), SwappedIn(Lifted(M, z, y), z, y);
    forall n | n in R ensures n in N && R[n].left == N[n].left && R[n].right == N[n].right && R[n].parent == N[n].parent {
      assert Sound(M, z, n);
    }
  }
}
