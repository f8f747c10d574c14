/** A splay tree with parent pointers, rotated in place, as a map from keys to records. */
module SplayTree {
  import opened Basics
  import opened SearchTree
  import opened TreeDepth
  import opened SplayPasses

  class Tree {
    var root: Node?
    var nodeCount: int
    var comparisonCount: int
    ghost var nodes: set<Node>
    ghost var lo: map<Node, int>
    ghost var hi: map<Node, int>

    ghost function View(): Shape
      requires Spanned()
      reads `nodes, `lo, `hi, nodes
    {
      map n | n in nodes :: Pos(n.left, n.right, n.parent, lo[n], hi[n])
    }

    ghost predicate Spanned()
      reads `nodes, `lo, `hi
    {
      lo.Keys == nodes && hi.Keys == nodes
    }

    ghost predicate Good()
      reads `root, `nodes, `lo, `hi, nodes
    {
      Spanned() && Shaped(View(), root)
    }

    ghost predicate Valid()
      reads `root, `nodeCount, `nodes, `lo, `hi, nodes
    {
      Good() && nodeCount == |nodes|
    }

    constructor ()
      ensures Valid() && nodes == {}
    {
      root, nodeCount, comparisonCount, nodes := null, 0, 0, {};
      lo, hi := map[], map[];
    }

    lemma ValidMeans()
      ensures Valid() <==> Good() && nodeCount == |nodes|
    {
    }

    // The assignments of the rotations and of `replace`, one field at a time.

    method SetLeft(n: Node, v: Node?)
      requires Spanned() && n in nodes
      modifies n`left
      ensures n.left == v && Spanned() && View() == old(View())[n := old(View())[n].(left := v)]
    {
      n.left := v;
    }

    method SetRight(n: Node, v: Node?)
      requires Spanned() && n in nodes
      modifies n`right
      ensures n.right == v && Spanned() && View() == old(View())[n := old(View())[n].(right := v)]
    {
      n.right := v;
    }

    method SetParent(n: Node, v: Node?)
      requires Spanned() && n in nodes
      modifies n`parent
      ensures n.parent == v && Spanned() && View() == old(View())[n := old(View())[n].(parent := v)]
    {
      n.parent := v;
    }

    ghost method SetSpans(n: Node, l: int, h: int, n': Node, l': int, h': int)
      requires Spanned() && n in nodes && n' in nodes && n != n'
      modifies `lo, `hi
      ensures Spanned()
      ensures View() == old(View())[n := old(View())[n].(lo := l, hi := h)][n' := old(View())[n'].(lo := l', hi := h')]
    {
      lo, hi := lo[n := l][n' := l'], hi[n := h][n' := h'];
    }

    /** The three-way test by which a rotation and `replace` put v where u hangs from its parent. */
    method HangInstead(u: Node, v: Node?)
      requires Spanned() && u in nodes && (u.parent != null ==> u.parent in nodes)
      modifies `root, nodes
      ensures Spanned() && View() == HungInstead(old(View()), u, v)
      ensures root == if old(u.parent) == null then v else old(root)
      ensures nodes == old(nodes) && lo == old(lo) && hi == old(hi)
    {
      if u.parent == null { root := v; }
      else if u == u.parent.left { SetLeft(u.parent, v); }
      else { SetRight(u.parent, v); }
    }

    ghost method AddNode(z: Node, l: int, h: int)
      requires Spanned() && z !in nodes
      modifies `nodes, `lo, `hi
      ensures Spanned() && nodes == old(nodes) + {z}
      ensures View() == old(View())[z := Pos(z.left, z.right, z.parent, l, h)]
    {
      nodes, lo, hi := nodes + {z}, lo[z := l], hi[z := h];
    }

    method LeftRotate(x: Node)
      requires Good() && x in nodes && x.right != null
      modifies `root, `lo, `hi, nodes
      ensures Good() && nodes == old(nodes) && x in old(View()) && old(x.right) in old(View())
      ensures View() == LeftRotation(old(View()), x, old(x.right))
      ensures root == RotatedRoot(old(View()), old(root), x, old(x.right))
    {
      LeftRotationApart(View(), root, x, x.right);
      LeftRotationShaped(View(), root, x, x.right);
      LeftRotateLinks(x);
    }

    method LeftRotateLinks(x: Node)
      requires Spanned() && x in nodes && x.right != null && x.right in nodes && Apart(View(), x, x.right, x.right.left)
      modifies `root, `lo, `hi, nodes
      ensures Spanned() && nodes == old(nodes) && View() == LeftRotation(old(View()), x, old(x.right))
      ensures root == RotatedRoot(old(View()), old(root), x, old(x.right))
    {
      hide LeftRotation, HungInstead, Shaped;
      ghost var M := View();
      var y := x.right;
      SetRight(x, y.left);
      if y.left != null { SetParent(y.left, x); }
      ghost var M1 := View();
      SetParent(y, x.parent);
      HangInstead(x, y);
      ghost var M2 := View();
      SetLeft(y, x);
      SetParent(x, y);
      LeftRotationByFields(M, M1, M2, View(), x, y);
      SetSpans(y, lo[x], hi[x], x, lo[x], y.key);
    }

    method RightRotate(x: Node)
      requires Good() && x in nodes && x.left != null
      modifies `root, `lo, `hi, nodes
      ensures Good() && nodes == old(nodes) && x in old(View()) && old(x.left) in old(View())
      ensures View() == RightRotation(old(View()), x, old(x.left))
      ensures root == RotatedRoot(old(View()), old(root), x, old(x.left))
    {
      RightRotationApart(View(), root, x, x.left);
      RightRotationShaped(View(), root, x, x.left);
      RightRotateLinks(x);
    }

    method RightRotateLinks(x: Node)
      requires Spanned() && x in nodes && x.left != null && x.left in nodes && Apart(View(), x, x.left, x.left.right)
      modifies `root, `lo, `hi, nodes
      ensures Spanned() && nodes == old(nodes) && View() == RightRotation(old(View()), x, old(x.left))
      ensures root == RotatedRoot(old(View()), old(root), x, old(x.left))
    {
      hide RightRotation, HungInstead, Shaped;
      ghost var M := View();
      var y := x.left;
      SetLeft(x, y.right);
      if y.right != null { SetParent(y.right, x); }
      ghost var M1 := View();
      SetParent(y, x.parent);
      HangInstead(x, y);
      ghost var M2 := View();
      SetRight(y, x);
      SetParent(x, y);
      RightRotationByFields(M, M1, M2, View(), x, y);
      SetSpans(y, lo[x], hi[x], x, y.key, hi[x]);
    }

    /** Rotate x up to the root, by the passes listed in `trees`. */
    method Splay(x: Node) returns (ghost trees: seq<Shape>)
      requires Good() && x in nodes
      modifies `root, `lo, `hi, nodes
      ensures Good() && nodes == old(nodes) && root == x
      ensures InOrder(View(), root, root) == old(InOrder(View(), root, root)) && Map() == old(Map())
      ensures |trees| > 0 && Passes(trees, x) && trees[0] == old(View()) && trees[|trees| - 1] == View()
      ensures View().Keys == old(View()).Keys && PathHalved(old(View()), old(root), View(), root, x)
    {
      hide *;
      ViewMeans();
      ghost var M, r := View(), root;
      trees := [M];
      MapMeans();
      StartOfPasses(x);
      while x.parent != null
        invariant Good() && Spanned() && Shaped(View(), root)
        invariant nodes == old(nodes) && x in nodes && x in M && View().Keys == M.Keys
        invariant Halving(M, r, View(), root, x)
        invariant |trees| > 0 && Passes(trees, x) && trees[0] == M && trees[|trees| - 1] == View()
        decreases Depth(View(), root, x)
      {
        ghost var before, top := View(), root;
        ViewMeans();
        SplayPass(x);
        ViewMeans();
        RaisedHalves(M, r, before, top, View(), root, x);
        OnePass(before, top, View(), root, x);
        MorePasses(trees, View(), x);
        trees := trees + [View()];
      }
      ViewMeans();
      SplayEnds(M, r, x);
      MapMeans();
    }

    lemma StartOfPasses(x: Node)
      requires Good() && x in nodes
      ensures x in View() && View().Keys == nodes && Shaped(View(), root) && Halving(View(), root, View(), root, x)
      ensures Passes([View()], x)
    {
      HalvingStarts(View(), root, x);
    }

    lemma SplayEnds(M: Shape, r: Node?, x: Node)
      requires Good() && x in nodes && x.parent == null && Shaped(M, r) && M.Keys == nodes && Halving(M, r, View(), root, x)
      ensures root == x && PathHalved(M, r, View(), root, x)
      ensures InOrder(View(), root, root) == InOrder(M, r, r) && Map() == Contents(M.Keys)
    {
      assert Sound(View(), root, x) && Depth(View(), root, x) == 0;
      SameOrder(M, r, View(), root);
      HalvingEnds(M, r, View(), root, x);
    }

    /** Lines 195 to 209: one round of the loop. */
    method SplayPass(x: Node)
      requires Good() && x in nodes && x.parent != null
      modifies `root, `lo, `hi, nodes
      ensures Good() && nodes == old(nodes)
      ensures Raised(old(View()), old(root), View(), root, x)
    {
      hide *;
      ViewMeans();
      ghost var M, r, p := View(), root, x.parent;
      ParentLinks(M, r, x);
      ghost var g := p.parent;
      if x.parent.parent == null {
        if x.parent.left == x {
          ZigRightRaises(M, r, x, p);
          RightRotate(x.parent);
        } else {
          ZigLeftRaises(M, r, x, p);
          LeftRotate(x.parent);
        }
      } else if x.parent.left == x && x.parent.parent.left == x.parent {
        ZigZigRightRaises(M, r, x, p, g);
        RightRotate(x.parent.parent);
        ViewMeans();
        RightRotate(x.parent);
      } else if x.parent.right == x && x.parent.parent.right == x.parent {
        ZigZigLeftRaises(M, r, x, p, g);
        LeftRotate(x.parent.parent);
        ViewMeans();
        LeftRotate(x.parent);
      } else if x.parent.left == x && x.parent.parent.right == x.parent {
        ZigZagRightRaises(M, r, x, p, g);
        RightRotate(x.parent);
        ViewMeans();
        LeftRotate(x.parent);
      } else {
        ZigZagLeftRaises(M, r, x, p, g);
        LeftRotate(x.parent);
        ViewMeans();
        RightRotate(x.parent);
      }
      ViewMeans();
    }

    lemma ViewMeans()
      ensures Good() <==> Spanned() && Shaped(View(), root)
      ensures Spanned() ==> View().Keys == nodes && lo.Keys == nodes && hi.Keys == nodes
      ensures Spanned() ==> forall n {:trigger n in nodes} {:trigger View()[n]} :: n in nodes ==>
        View()[n].left == n.left && View()[n].right == n.right && View()[n].parent == n.parent
    {
    }

    lemma BoundsMean()
      requires Spanned()
      ensures forall n {:trigger lo[n]} {:trigger View()[n]} :: n in nodes ==> View()[n].lo == lo[n] && View()[n].hi == hi[n]
    {
    }

    lemma MapMeans()
      requires Good()
      ensures UniqueKeys(nodes) && Map() == Contents(nodes)
    {
      assert View().Keys == nodes;
    }

    ghost function Map(): map<int, Record>
      requires Good()
      reads `root, `nodes, `lo, `hi, nodes
    {
      assert View().Keys == nodes;
      Contents(nodes)
    }

    method Replace(u: Node, v: Node?)
      requires Spanned() && u in nodes && (u.parent != null ==> u.parent in nodes) && (v != null ==> v in nodes)
      modifies `root, nodes
      ensures Spanned() && View() == Replaced(old(View()), u, v)
      ensures root == if old(u.parent) == null then v else old(root)
      ensures nodes == old(nodes) && lo == old(lo) && hi == old(hi)
    {
      ViewMeans();
      HangInstead(u, v);
      ViewMeans();
      if v != null { SetParent(v, u.parent); }
    }

    method SubtreeMinimum(x: Node) returns (u: Node)
      requires Good() && x in nodes
      ensures u in nodes && u.left == null && lo[u] == lo[x]
    {
      ghost var M := View();
      u := x;
      while u.left != null
        invariant u in nodes && lo[u] == lo[x]
        decreases hi[u] - lo[u]
      {
        assert Sound(M, root, u) && Sound(M, root, u.left);
        u := u.left;
      }
    }

    /** The record of z is gone; the remaining nodes get the bounds they have in R. */
    ghost method Forget(z: Node, R: Shape)
      requires Spanned() && R.Keys == nodes - {z} && SameLinks(View(), R)
      modifies `nodes, `lo, `hi
      ensures Spanned() && nodes == old(nodes) - {z} && View() == R
    {
      nodes := nodes - {z};
      lo := map n | n in R :: R[n].lo;
      hi := map n | n in R :: R[n].hi;
    }

    /** node_count is the size of the map. */
    lemma CountIsMapSize()
      requires Valid()
      ensures nodeCount == |Map()|
    {
      MapMeans();
      ContentsSize(nodes);
    }

    /** tree_find; NULL is None. */
    method Find(key: Key) returns (r: Option<Record>)
      requires Valid()
      modifies `comparisonCount
      ensures r == if key in Map() then Some(Map()[key]) else None
    {
      hide Shaped, Contents;
      var z := root;
      ghost var M := View();
      assert M.Keys == nodes;
      ShapedBasics(M, root);
      ContentsAt(nodes);
      while z != null
        invariant if z == null then key !in Contents(nodes) else z in nodes && M[z].lo < key < M[z].hi
        decreases if z == null then 0 else 1 + M[z].hi - M[z].lo
      {
        comparisonCount := comparisonCount + 1;
        if key == z.key { return Some(z.record); }
        comparisonCount := comparisonCount + 1;
        SearchStep(M, root, z, key);
        if key > z.key { z := z.right; } else { z := z.left; }
      }
      r := None;
    }

    /** tree_find_nearest: the record of the greatest key not above `key`. */
    method FindNearest(key: Key) returns (r: Option<Record>)
      requires Valid()
      modifies `comparisonCount
      ensures NearestIs(Map(), key, r)
    {
      hide Shaped, Contents, NearestIs;
      var z := root;
      var n: Node? := null;
      ghost var M := View();
      assert M.Keys == nodes;
      ShapedBasics(M, root);
      while z != null
        invariant z != null ==> z in nodes && M[z].lo < key < M[z].hi
        invariant n != null ==> n in nodes && n.key < key
        invariant Narrowed(nodes, key, n, if z == null then None else Some(M[z].lo))
        decreases if z == null then 0 else 1 + M[z].hi - M[z].lo
      {
        comparisonCount := comparisonCount + 1;
        if key == z.key {
          FloorFound(nodes, key, z);
          return Some(z.record);
        }
        comparisonCount := comparisonCount + 1;
        SearchStep(M, root, z, key);
        NarrowStep(M, root, nodes, key, z, n);
        if key > z.key {
          if n == null || n.key < z.key { n := z; }
          z := z.right;
        } else {
          z := z.left;
        }
      }
      if n != null {
        FloorFound(nodes, key, n);
        r := Some(n.record);
      } else {
        NoFloor(nodes, key);
        r := None;
      }
    }

    /** tree_remove; NULL is None. */
    method Remove(key: Key) returns (r: Option<Record>)
      requires Valid()
      modifies this, nodes
      ensures Valid()
      ensures r == if key in old(Map()) then Some(old(Map())[key]) else None
      ensures Map() == old(Map()) - {key} && nodes <= old(nodes)
    {
      hide *;
      ValidMeans();
      MapMeans();
      var z := SearchFor(key);
      if z == null {
        AbsentKey(nodes, key);
        return None;
      }
      ghost var trees := Splay(z);
      UnlinkRoot(z);
      ContentsMinus(old(nodes), z);
      MapMeans();
      r := Some(z.record);
      nodeCount := nodeCount - 1;
      CardinalityMinus(old(nodes), z);
      ValidMeans();
    }

    /** Lines 111 to 119: the node with the key, if any. */
    method SearchFor(key: Key) returns (z: Node?)
      requires Valid()
      modifies `comparisonCount
      ensures if z == null then key !in Map() else z in nodes && z.key == key
    {
      hide Shaped, Contents;
      z := root;
      ghost var M := View();
      assert M.Keys == nodes;
      ShapedBasics(M, root);
      ContentsAt(nodes);
      while z != null && z.key != key
        invariant if z == null then key !in Contents(nodes) else z in nodes && M[z].lo < key < M[z].hi
        decreases if z == null then 0 else 1 + M[z].hi - M[z].lo
      {
        comparisonCount := comparisonCount + 1;
        SearchStep(M, root, z, key);
        if key > z.key { z := z.right; } else { z := z.left; }
      }
    }

    /** Lines 123 to 135: take the root out, its in-order successor taking its place if need be. */
    method UnlinkRoot(z: Node)
      requires Good() && z in nodes && root == z
      modifies `root, `nodes, `lo, `hi, nodes
      ensures Good() && nodes == old(nodes) - {z}
    {
      hide *;
      ViewMeans();
      ghost var M := View();
      RootLinks(M, z);
      if z.left == null {
        DropLeftlessShaped(M, z);
        DropLeftlessLinks(M, z);
        Replace(z, z.right);
        DropKeys(M, z, z);
        Forget(z, DropLeftless(M, z));
      } else if z.right == null {
        DropRightlessShaped(M, z);
        DropRightlessLinks(M, z);
        Replace(z, z.left);
        DropKeys(M, z, z);
        Forget(z, DropRightless(M, z));
      } else {
        UnlinkFullRoot(z);
      }
      ViewMeans();
    }

    /** Lines 127 to 131: y leaves its place, unless it hangs from z, and takes z's right child. */
    method Lift(z: Node, y: Node)
      requires Spanned() && Liftable(View(), z, y)
      modifies `root, nodes
      ensures Spanned() && View() == Lifted(old(View()), z, y)
      ensures nodes == old(nodes) && lo == old(lo) && hi == old(hi) && root == old(root)
    {
      hide *;
      ViewMeans();
      LiftableMeans(View(), z, y);
      ghost var M := View();
      if y.parent != z {
        Replace(y, y.right);
        ViewMeans();
        SetRight(y, z.right);
        SetParent(y.right, y);
      }
      LiftedMeans(M, z, y);
    }

    /** Lines 132 to 134: y in the place of the root z. */
    method SwapIn(z: Node, y: Node)
      requires Spanned() && z in nodes && y in nodes && y != z && z.parent == null && z.left != null && z.left in nodes
      modifies `root, nodes
      ensures Spanned() && root == y && View() == SwappedIn(old(View()), z, y)
      ensures nodes == old(nodes) && lo == old(lo) && hi == old(hi)
    {
      hide *;
      ViewMeans();
      ghost var M := View();
      SwappedInMeans(M, z, y);
      Replace(z, y);
      ViewMeans();
      SetLeft(y, z.left);
      SetParent(y.left, y);
    }

    method UnlinkFullRoot(z: Node)
      requires Good() && z in nodes && root == z && z.left != null && z.right != null
      modifies `root, `nodes, `lo, `hi, nodes
      ensures Good() && nodes == old(nodes) - {z}
    {
      hide *;
      ViewMeans();
      ghost var M := View();
      RootLinks(M, z);
      var y := SubtreeMinimum(z.right);
      BoundsMean();
      LeastAboveHolds(M, z, y);
      LeastFacts(M, z, y);
      DropFullShaped(M, z, y);
      LiftedFacts(M, z, y);
      Lift(z, y);
      ViewMeans();
      SwapIn(z, y);
      DropFullLinks(M, z, y);
      DropKeys(M, z, y);
      Forget(z, DropFull(M, z, y));
      ViewMeans();
    }

    /** tree_insert */
    method Insert(key: Key, record: Record) returns (added: bool)
      requires Valid()
      modifies this, nodes
      ensures Valid() && (added <==> key !in old(Map()))
      ensures !added ==> nodes == old(nodes) && root == old(root) && unchanged(nodes)
      ensures added ==> Map() == old(Map())[key := record] && root != null && root.key == key && fresh(root) && nodes == old(nodes) + {root}
    {
      hide *;
      ValidMeans();
      var found, p := Descend(key);
      if found { return false; }
      var leaf := AddLeaf(p, key, record);
      ghost var trees := Splay(leaf);
      nodeCount := nodeCount + 1;
      ValidMeans();
      added := true;
    }

    /** Lines 42 to 56: the search; without the key, the node below which it belongs. */
    method Descend(key: Key) returns (found: bool, p: Node?)
      requires Valid()
      modifies `comparisonCount
      ensures found <==> key in Map()
      ensures !found ==> (p == null <==> root == null)
      ensures !found && p != null ==> p in nodes && View()[p].lo < key < View()[p].hi
      ensures !found && p != null ==> if key > p.key then p.right == null else p.left == null
    {
      hide Shaped, Contents;
      ghost var M := View();
      assert M.Keys == nodes;
      ShapedBasics(M, root);
      ContentsAt(nodes);
      var z := root;
      p := null;
      while z != null
        invariant z != null ==> z in nodes && M[z].lo < key < M[z].hi
        invariant p == null ==> z == root
        invariant p != null ==> p in nodes && M[p].lo < key < M[p].hi && p.key != key
        invariant p != null ==> z == if key > p.key then M[p].right else M[p].left
        invariant z == null ==> key !in Contents(nodes)
        decreases if z == null then 0 else 1 + M[z].hi - M[z].lo
      {
        p := z;
        comparisonCount := comparisonCount + 1;
        if key == z.key { KeyIn(nodes, z); return true, p; }
        comparisonCount := comparisonCount + 1;
        SearchStep(M, root, z, key);
        if key > z.key { z := z.right; } else { z := z.left; }
      }
      found := false;
    }

    method Attach(p: Node?, z: Node)
      requires Spanned() && z !in nodes && z.left == null && z.right == null && z.parent == p
      requires (p != null ==> p in nodes) && (p == null ==> View() == map[]) && z in Attached(View(), p, z)
      modifies `root, `nodes, `lo, `hi, nodes
      ensures Spanned() && nodes == old(nodes) + {z} && View() == Attached(old(View()), p, z)
      ensures root == if p == null then z else old(root)
    {
      hide *;
      ViewMeans();
      ghost var M, R := View(), Attached(View(), p, z);
      AddNode(z, R[z].lo, R[z].hi);
      ghost var M1 := View();
      if p == null { root := z; }
      else if p.key < z.key { SetRight(p, z); }
      else { SetLeft(p, z); }
      AttachedByFields(M, M1, View(), p, z);
    }

    /** Lines 58 to 69: the new node, hung below p. */
    method AddLeaf(p: Node?, key: Key, record: Record) returns (z: Node)
      requires Valid() && key !in Map() && (p == null <==> root == null)
      requires p != null ==> p in nodes && View()[p].lo < key < View()[p].hi
      requires p != null ==> if key > p.key then p.right == null else p.left == null
      modifies `root, `nodes, `lo, `hi, nodes
      ensures Good() && fresh(z) && nodes == old(nodes) + {z} && z.key == key
      ensures Map() == old(Map())[key := record]
    {
      hide *;
      ValidMeans();
      ViewMeans();
      MapMeans();
      ghost var M, r := View(), root;
      NotHasKey(nodes, M, key);
      ShapedBasics(M, r);
      z := new Node(key, record, p);
      AttachedShaped(M, r, p, z);
      Attach(p, z);
      ViewMeans();
      ShapedBasics(View(), root);
      ContentsPlus(old(nodes), z);
      MapMeans();
    }
  }

  lemma AttachedByFields(M: Shape, M1: Shape, M2: Shape, p: Node?, z: Node)
    requires (p != null ==> p in M && p != z) && (p == null ==> M == map[]) && z !in M
    requires z in Attached(M, p, z) && M1 == M[z := Pos(null, null, p, Attached(M, p, z)[z].lo, Attached(M, p, z)[z].hi)]
    requires M2 == if p == null then M1 else if p.key < z.key then M1[p := M1[p].(right := z)] else M1[p := M1[p].(left := z)]
    ensures M2 == Attached(M, p, z)
  {
  }

  lemma KeyIn(nodes: set<Node>, z: Node)
    requires UniqueKeys(nodes) && z in nodes
    ensures z.key in Contents(nodes)
  {
  }

  lemma NotHasKey(nodes: set<Node>, M: Shape, k: int)
    requires UniqueKeys(nodes) && M.Keys == nodes && k !in Contents(nodes)
    ensures !HasKey(M, k)
  {
    forall n | n in M ensures n.key != k { assert n in nodes; }
  }

  lemma RootLinks(M: Shape, z: Node)
    requires Shaped(M, z) && z in M
    ensures M[z].parent == null && (M[z].left != null ==> M[z].left in M) && (M[z].right != null ==> M[z].right in M)
  {
    assert Sound(M, z, z);
  }

  lemma DropKeys(M: Shape, z: Node, y: Node)
    requires z in M && y in M
    ensures DropLeftless(M, z).Keys == M.Keys - {z} && DropRightless(M, z).Keys == M.Keys - {z}
    ensures DropFull(M, z, y).Keys == M.Keys - {z}
  {
  }

  lemma LeastAboveHolds(M: Shape, z: Node, y: Node)
    requires Shaped(M, z) && z in M && M[z].left != null && M[z].right != null && M[z].right in M
    requires y in M && M[y].left == null && M[y].lo == M[M[z].right].lo
    ensures LeastAbove(M, z, y)
  {
    assert Sound(M, z, z);
  }

  lemma AbsentKey(nodes: set<Node>, k: int)
    requires UniqueKeys(nodes) && k !in Contents(nodes)
    ensures Contents(nodes) == Contents(nodes) - {k}
  {
  }

  lemma CardinalityMinus(nodes: set<Node>, z: Node)
    requires z in nodes
    ensures |nodes - {z}| == |nodes| - 1
  {
  }

  lemma ContentsAt(nodes: set<Node>)
    requires UniqueKeys(nodes)
    ensures nodes == {} ==> Contents(nodes) == map[]
  {
  }

  lemma ShapedBasics(M: Shape, root: Node?)
    requires Shaped(M, root)
    ensures UniqueKeys(M.Keys) && (root == null ==> M == map[])
    ensures root != null ==> root in M && M[root].lo == BELOW && M[root].hi == ABOVE
  {
  }

  /** Every key not above `key` is at most n's, or lies above the bound. */
  ghost predicate Narrowed(nodes: set<Node>, key: int, n: Node?, above: Option<int>) {
    forall m {:trigger m in nodes} :: m in nodes && m.key <= key ==>
      (n != null && m.key <= n.key) || (above != None && above.value < m.key)
  }

  lemma NarrowStep(M: Shape, root: Node?, nodes: set<Node>, key: int, z: Node, n: Node?)
    requires Shaped(M, root) && M.Keys == nodes && z in M && M[z].lo < key < M[z].hi && key != z.key
    requires Narrowed(nodes, key, n, Some(M[z].lo))
    ensures var c := if key > z.key then M[z].right else M[z].left;
      var n' := if key > z.key && (n == null || n.key < z.key) then z else n;
      (c != null ==> c in M) && Narrowed(nodes, key, n', if c == null then None else Some(M[c].lo))
  {
    assert Sound(M, root, z);
    forall m | m in M ensures NoGap(M, z, m) { }
    var c := if key > z.key then M[z].right else M[z].left;
    var n' := if key > z.key && (n == null || n.key < z.key) then z else n;
    forall m {:trigger m in nodes} | m in nodes && m.key <= key
      ensures (n' != null && m.key <= n'.key) || (c != null && M[c].lo < m.key)
    {
      assert NoGap(M, z, m) && m in M;
    }
  }

  lemma FloorFound(nodes: set<Node>, key: int, n: Node)
    requires UniqueKeys(nodes) && n in nodes && n.key <= key
    requires Narrowed(nodes, key, n, None) || n.key == key
    ensures NearestIs(Contents(nodes), key, Some(n.record))
  {
    assert IsFloor(Contents(nodes), key, n.key);
  }

  lemma NoFloor(nodes: set<Node>, key: int)
    requires UniqueKeys(nodes) && Narrowed(nodes, key, null, None)
    ensures NearestIs(Contents(nodes), key, None)
  {
  }

  /** r is the record of the greatest key not above `key`; None when there is no such key. */
  ghost predicate NearestIs(m: map<int, Record>, key: int, r: Option<Record>) {
    match r
    case None => forall k :: k in m ==> k > key
    case Some(v) => exists k :: IsFloor(m, key, k) && m[k] == v
  }

  /** k is the greatest key of m that is not above `key`. */
  ghost predicate IsFloor(m: map<int, Record>, key: int, k: int) {
    k in m && k <= key && forall j :: j in m && j <= key ==> j <= k
  }
}
