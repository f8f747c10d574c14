/** How deep the nodes of a search tree lie, and how rotations move them. */
module TreeDepth {
  import opened SearchTree

  // ---------- Subtrees ----------

  /** Key k lies in the subtree of a. */
  predicate Under(M: Shape, a: Node, k: int)
    requires a in M
  {
    M[a].lo < k < M[a].hi
  }

  /** A node in a's subtree other than a has its parent there. */
  lemma ParentUnder(M: Shape, root: Node?, a: Node, b: Node)
    requires Shaped(M, root) && a in M && b in M && Under(M, a, b.key) && b != a
    ensures M[b].parent != null && M[b].parent in M && Under(M, a, M[b].parent.key)
  {
    ParentBelow(M, root, a, a, b);
  }

  lemma ParentBelow(M: Shape, root: Node?, a: Node, z: Node, b: Node)
    requires Shaped(M, root) && a in M && z in M && b in M && b != z
    requires M[a].lo <= M[z].lo && M[z].hi <= M[a].hi && Under(M, z, b.key)
    ensures M[b].parent != null && M[b].parent in M && Under(M, a, M[b].parent.key)
    decreases M[z].hi - M[z].lo
  {
    assert Sound(M, root, z) && NoGap(M, z, b);
    assert z in M.Keys && b in M.Keys;
    var c := if b.key > z.key then M[z].right else M[z].left;
    if c != b {
      assert Sound(M, root, c);
      ParentBelow(M, root, a, c, b);
    }
  }

  /** The span of a node in a's subtree is part of a's. */
  lemma SpanInside(M: Shape, root: Node?, a: Node, b: Node)
    requires Shaped(M, root) && a in M && b in M && Under(M, a, b.key)
    ensures M[a].lo <= M[b].lo && M[b].hi <= M[a].hi
    decreases (ABOVE - BELOW) - (M[b].hi - M[b].lo)
  {
    if b != a {
      ParentUnder(M, root, a, b);
      assert Sound(M, root, b) && Sound(M, root, M[b].parent);
      SpanInside(M, root, a, M[b].parent);
    }
  }

  /** The whole subtree of a node below a lies on that node's side of a. */
  lemma SameSide(M: Shape, root: Node?, a: Node, q: Node, k: int)
    requires Shaped(M, root) && a in M && q in M && Under(M, a, q.key) && q != a && Under(M, q, k)
    ensures Under(M, a, k) && k != a.key && (k < a.key <==> q.key < a.key)
  {
    assert Sound(M, root, a) && NoGap(M, a, q);
    assert a in M.Keys && q in M.Keys;
    var c := if q.key > a.key then M[a].right else M[a].left;
    assert Sound(M, root, c);
    SpanInside(M, root, c, q);
  }

  // ---------- Depth ----------

  ghost function Depth(M: Shape, root: Node?, n: Node): nat
    requires Shaped(M, root) && n in M
    decreases (ABOVE - BELOW) - (M[n].hi - M[n].lo)
  {
    assert Sound(M, root, n);
    if M[n].parent == null then 0
    else
      assert Sound(M, root, M[n].parent);
      1 + Depth(M, root, M[n].parent)
  }

  /** A node is deeper than those it is below. */
  lemma Shallower(M: Shape, root: Node?, a: Node, b: Node)
    requires Shaped(M, root) && a in M && b in M && Under(M, a, b.key) && b != a
    ensures Depth(M, root, a) < Depth(M, root, b)
    decreases (ABOVE - BELOW) - (M[b].hi - M[b].lo)
  {
    ParentUnder(M, root, a, b);
    assert Sound(M, root, b) && Sound(M, root, M[b].parent);
    if M[b].parent != a { Shallower(M, root, a, M[b].parent); }
  }

  // ---------- Rotations ----------

  /** How a right rotation of x and its left child y moves key k: y and what is left of it up, x and what is right
      of it down. */
  function RightShift(M: Shape, x: Node, y: Node, k: int): int
    requires x in M
  {
    if !Under(M, x, k) then 0 else if k <= y.key then -1 else if k < x.key then 0 else 1
  }

  function LeftShift(M: Shape, x: Node, y: Node, k: int): int
    requires x in M
  {
    if !Under(M, x, k) then 0 else if k >= y.key then -1 else if k > x.key then 0 else 1
  }

  /** A node and its parent move alike, unless the edge between them is one that the rotation changes. */
  lemma RightShiftAlike(M: Shape, root: Node?, x: Node, y: Node, n: Node)
    requires Shaped(M, root) && x in M && y in M && M[x].left == y && n in M && n != x && n != y && n != M[y].right
    requires M[n].parent != null
    ensures M[n].parent in M && RightShift(M, x, y, n.key) == RightShift(M, x, y, M[n].parent.key)
  {
    var q := M[n].parent;
    assert Sound(M, root, n) && Sound(M, root, x) && Sound(M, root, y) && Sound(M, root, q);
    if Under(M, x, q.key) {
      if q != x {
        SameSide(M, root, x, q, n.key);
        if Under(M, y, q.key) && q != y { SameSide(M, root, y, q, n.key); }
      }
    } else if Under(M, x, n.key) {
      ParentUnder(M, root, x, n);
    }
  }

  lemma RightRotationDepth(M: Shape, root: Node?, x: Node, y: Node, n: Node)
    requires Shaped(M, root) && x in M && y in M && M[x].left == y && n in M
    ensures var R, r := RightRotation(M, x, y), RotatedRoot(M, root, x, y);
      Shaped(R, r) && n in R && Depth(R, r, n) == Depth(M, root, n) + RightShift(M, x, y, n.key)
    decreases (ABOVE - BELOW) - (M[n].hi - M[n].lo)
  {
    var R, r, p := RightRotation(M, x, y), RotatedRoot(M, root, x, y), M[x].parent;
    RightRotationShaped(M, root, x, y);
    RightRotationApart(M, root, x, y);
    assert Sound(M, root, x) && Sound(M, root, y) && Sound(M, root, n);
    assert p != null ==> Sound(M, root, p);
    if n == x || n == y {
      if p != null { RightRotationDepth(M, root, x, y, p); }
      assert Depth(R, r, y) == Depth(M, root, x);
      assert Depth(R, r, x) == 1 + Depth(R, r, y) && Depth(M, root, y) == 1 + Depth(M, root, x);
    } else if n == M[y].right {
      RightRotationDepth(M, root, x, y, x);
    } else if M[n].parent != null {
      RightShiftAlike(M, root, x, y, n);
      assert Sound(M, root, M[n].parent);
      RightRotationDepth(M, root, x, y, M[n].parent);
    } else if Under(M, x, n.key) {
      ParentUnder(M, root, x, n);
    }
  }

  lemma LeftShiftAlike(M: Shape, root: Node?, x: Node, y: Node, n: Node)
    requires Shaped(M, root) && x in M && y in M && M[x].right == y && n in M && n != x && n != y && n != M[y].left
    requires M[n].parent != null
    ensures M[n].parent in M && LeftShift(M, x, y, n.key) == LeftShift(M, x, y, M[n].parent.key)
  {
    var q := M[n].parent;
    assert Sound(M, root, n) && Sound(M, root, x) && Sound(M, root, y) && Sound(M, root, q);
    if Under(M, x, q.key) {
      if q != x {
        SameSide(M, root, x, q, n.key);
        if Under(M, y, q.key) && q != y { SameSide(M, root, y, q, n.key); }
      }
    } else if Under(M, x, n.key) {
      ParentUnder(M, root, x, n);
    }
  }

  lemma LeftRotationDepth(M: Shape, root: Node?, x: Node, y: Node, n: Node)
    requires Shaped(M, root) && x in M && y in M && M[x].right == y && n in M
    ensures var R, r := LeftRotation(M, x, y), RotatedRoot(M, root, x, y);
      Shaped(R, r) && n in R && Depth(R, r, n) == Depth(M, root, n) + LeftShift(M, x, y, n.key)
    decreases (ABOVE - BELOW) - (M[n].hi - M[n].lo)
  {
    var R, r, p := LeftRotation(M, x, y), RotatedRoot(M, root, x, y), M[x].parent;
    LeftRotationShaped(M, root, x, y);
    LeftRotationApart(M, root, x, y);
    assert Sound(M, root, x) && Sound(M, root, y) && Sound(M, root, n);
    assert p != null ==> Sound(M, root, p);
    if n == x || n == y {
      if p != null { LeftRotationDepth(M, root, x, y, p); }
      assert Depth(R, r, y) == Depth(M, root, x);
      assert Depth(R, r, x) == 1 + Depth(R, r, y) && Depth(M, root, y) == 1 + Depth(M, root, x);
    } else if n == M[y].left {
      LeftRotationDepth(M, root, x, y, x);
    } else if M[n].parent != null {
      LeftShiftAlike(M, root, x, y, n);
      assert Sound(M, root, M[n].parent);
      LeftRotationDepth(M, root, x, y, M[n].parent);
    } else if Under(M, x, n.key) {
      ParentUnder(M, root, x, n);
    }
  }

  // ---------- One pass of splay ----------

  /** What a pass over parent p and grandparent g does to the depths, x rising by two: what was under x sinks by one
      against x at most, p and g end at most two below x, and nothing outside g's subtree moves. */
  ghost predicate Rises(M: Shape, root: Node?, R: Shape, r: Node?, x: Node, p: Node, g: Node)
    requires Shaped(M, root) && x in M && p in M && g in M
  {
    && Shaped(R, r) && R.Keys == M.Keys
    && R[x].lo == M[g].lo && R[x].hi == M[g].hi
    && Depth(R, r, x) + 2 == Depth(M, root, x)
    && Depth(R, r, p) <= Depth(M, root, x) && Depth(R, r, g) <= Depth(M, root, x)
    && forall n {:trigger n in M} :: n in M ==> RisesWith(M, root, R, r, x, g, n)
  }

  ghost predicate RisesWith(M: Shape, root: Node?, R: Shape, r: Node?, x: Node, g: Node, n: Node)
    requires Shaped(M, root) && x in M && g in M && n in M && Shaped(R, r) && R.Keys == M.Keys
  {
    assert n in R.Keys;
    && (Under(M, x, n.key) ==> Depth(R, r, n) + 1 <= Depth(M, root, n))
    && (!Under(M, g, n.key) ==> Depth(R, r, n) == Depth(M, root, n) && R[n].lo == M[n].lo && R[n].hi == M[n].hi)
  }

  /** A pass that shifts every node's depth by `shift` of its key, if the shifts are as they should be. */
  lemma RisesByShifts(M: Shape, root: Node?, R: Shape, r: Node?, x: Node, p: Node, g: Node, s1: map<Node, int>, s2: map<Node, int>)
    requires Shaped(M, root) && Shaped(R, r) && R.Keys == M.Keys == s1.Keys == s2.Keys
    requires x in M && p in M && g in M && M[x].parent == p && M[p].parent == g
    requires R[x].lo == M[g].lo && R[x].hi == M[g].hi
    requires forall n {:trigger n in M} :: n in M ==> Depth(R, r, n) == Depth(M, root, n) + s1[n] + s2[n]
    requires s1[x] + s2[x] == -2 && s1[p] + s2[p] <= 1 && s1[g] + s2[g] <= 2
    requires forall n {:trigger n in M} :: n in M && Under(M, x, n.key) ==> s1[n] + s2[n] <= -1
    requires forall n {:trigger n in M} :: n in M && !Under(M, g, n.key) ==>
               s1[n] == 0 && s2[n] == 0 && R[n].lo == M[n].lo && R[n].hi == M[n].hi
    ensures Rises(M, root, R, r, x, p, g)
  {
    assert Depth(M, root, x) == Depth(M, root, p) + 1 && Depth(M, root, p) == Depth(M, root, g) + 1;
    hide Shaped, Depth;
  }

  /** Grandparent first, then parent. */
  ghost function ZigZigRight(M: Shape, x: Node, p: Node, g: Node): Shape
    requires x in M && p in M && g in M
  {
    RightRotation(RightRotation(M, g, p), p, x)
  }

  ghost function ZigZigLeft(M: Shape, x: Node, p: Node, g: Node): Shape
    requires x in M && p in M && g in M
  {
    LeftRotation(LeftRotation(M, g, p), p, x)
  }

  /** Parent first, then grandparent. */
  ghost function ZigZagRight(M: Shape, x: Node, p: Node, g: Node): Shape
    requires x in M && p in M && g in M
  {
    LeftRotation(RightRotation(M, p, x), g, x)
  }

  ghost function ZigZagLeft(M: Shape, x: Node, p: Node, g: Node): Shape
    requires x in M && p in M && g in M
  {
    RightRotation(LeftRotation(M, p, x), g, x)
  }

  ghost function PassRoot(M: Shape, root: Node?, x: Node, g: Node): Node?
    requires g in M
  {
    if M[g].parent == null then x else root
  }

  function RightShifts(M: Shape, x: Node, y: Node): map<Node, int>
    requires x in M
  {
    map n | n in M :: RightShift(M, x, y, n.key)
  }

  function LeftShifts(M: Shape, x: Node, y: Node): map<Node, int>
    requires x in M
  {
    map n | n in M :: LeftShift(M, x, y, n.key)
  }

  /** Spans and keys of a node, its parent and its grandparent. */
  lemma Spans(M: Shape, root: Node?, x: Node, p: Node, g: Node)
    requires Shaped(M, root) && x in M && p in M && g in M
    requires (M[g].left == p || M[g].right == p) && (M[p].left == x || M[p].right == x)
    ensures M[x].parent == p && M[p].parent == g && x != p && p != g && x != g
    ensures M[x].lo < x.key < M[x].hi && M[p].lo < p.key < M[p].hi && M[g].lo < g.key < M[g].hi
    ensures M[g].left == p ==> M[p].lo == M[g].lo && M[p].hi == g.key
    ensures M[g].right == p ==> M[p].lo == g.key && M[p].hi == M[g].hi
    ensures M[p].left == x ==> M[x].lo == M[p].lo && M[x].hi == p.key
    ensures M[p].right == x ==> M[x].lo == p.key && M[x].hi == M[p].hi
  {
    assert Sound(M, root, g) && Sound(M, root, p) && Sound(M, root, x);
  }

  lemma ZigZigRightShapes(M: Shape, root: Node?, x: Node, p: Node, g: Node)
    requires Shaped(M, root) && x in M && p in M && g in M && M[g].left == p && M[p].left == x
    ensures var R1, r1, R := RightRotation(M, g, p), RotatedRoot(M, root, g, p), ZigZigRight(M, x, p, g);
      && Shaped(R1, r1) && R1.Keys == M.Keys && R1[p].left == x && RotatedRoot(R1, r1, p, x) == PassRoot(M, root, x, g)
      && R1[p].lo == M[g].lo && R1[p].hi == M[g].hi
      && Shaped(R, PassRoot(M, root, x, g)) && R.Keys == M.Keys && R[x].lo == M[g].lo && R[x].hi == M[g].hi
      && forall n {:trigger R[n]} :: n in M && n != x && n != p && n != g ==> R[n].lo == M[n].lo && R[n].hi == M[n].hi
  {
    var R1, r1 := RightRotation(M, g, p), RotatedRoot(M, root, g, p);
    Spans(M, root, x, p, g);
    RightRotationShaped(M, root, g, p);
    RightRotationApart(M, root, g, p);
    hide Shaped;
    RightRotationShaped(R1, r1, p, x);
  }

  lemma ZigZigRightDepth(M: Shape, root: Node?, x: Node, p: Node, g: Node, n: Node)
    requires Shaped(M, root) && x in M && p in M && g in M && M[g].left == p && M[p].left == x && n in M
    ensures var R1 := RightRotation(M, g, p);
      p in R1 && Shaped(ZigZigRight(M, x, p, g), PassRoot(M, root, x, g)) && n in ZigZigRight(M, x, p, g)
      && Depth(ZigZigRight(M, x, p, g), PassRoot(M, root, x, g), n) ==
           Depth(M, root, n) + RightShift(M, g, p, n.key) + RightShift(R1, p, x, n.key)
  {
    ZigZigRightShapes(M, root, x, p, g);
    hide Shaped, Depth;
    RightRotationDepth(M, root, g, p, n);
    RightRotationDepth(RightRotation(M, g, p), RotatedRoot(M, root, g, p), p, x, n);
  }

  lemma ZigZigRightRises(M: Shape, root: Node?, x: Node, p: Node, g: Node)
    requires Shaped(M, root) && x in M && p in M && g in M && M[g].left == p && M[p].left == x
    ensures Rises(M, root, ZigZigRight(M, x, p, g), PassRoot(M, root, x, g), x, p, g)
  {
    var R1, R, r := RightRotation(M, g, p), ZigZigRight(M, x, p, g), PassRoot(M, root, x, g);
    Spans(M, root, x, p, g);
    ZigZigRightShapes(M, root, x, p, g);
    hide Shaped, Depth, Rises, ZigZigRight, RightRotation, LeftRotation, PassRoot;
    forall n {:trigger n in M} | n in M
      ensures n in R && Depth(R, r, n) == Depth(M, root, n) + RightShift(M, g, p, n.key) + RightShift(R1, p, x, n.key)
    {
      ZigZigRightDepth(M, root, x, p, g, n);
    }
    RisesByShifts(M, root, R, r, x, p, g, RightShifts(M, g, p), RightShifts(R1, p, x));
  }

  lemma ZigZigLeftShapes(M: Shape, root: Node?, x: Node, p: Node, g: Node)
    requires Shaped(M, root) && x in M && p in M && g in M && M[g].right == p && M[p].right == x
    ensures var R1, r1, R := LeftRotation(M, g, p), RotatedRoot(M, root, g, p), ZigZigLeft(M, x, p, g);
      && Shaped(R1, r1) && R1.Keys == M.Keys && R1[p].right == x && RotatedRoot(R1, r1, p, x) == PassRoot(M, root, x, g)
      && R1[p].lo == M[g].lo && R1[p].hi == M[g].hi
      && Shaped(R, PassRoot(M, root, x, g)) && R.Keys == M.Keys && R[x].lo == M[g].lo && R[x].hi == M[g].hi
      && forall n {:trigger R[n]} :: n in M && n != x && n != p && n != g ==> R[n].lo == M[n].lo && R[n].hi == M[n].hi
  {
    var R1, r1 := LeftRotation(M, g, p), RotatedRoot(M, root, g, p);
    Spans(M, root, x, p, g);
    LeftRotationShaped(M, root, g, p);
    LeftRotationApart(M, root, g, p);
    hide Shaped;
    LeftRotationShaped(R1, r1, p, x);
  }

  lemma ZigZigLeftDepth(M: Shape, root: Node?, x: Node, p: Node, g: Node, n: Node)
    requires Shaped(M, root) && x in M && p in M && g in M && M[g].right == p && M[p].right == x && n in M
    ensures var R1 := LeftRotation(M, g, p);
      p in R1 && Shaped(ZigZigLeft(M, x, p, g), PassRoot(M, root, x, g)) && n in ZigZigLeft(M, x, p, g)
      && Depth(ZigZigLeft(M, x, p, g), PassRoot(M, root, x, g), n) ==
           Depth(M, root, n) + LeftShift(M, g, p, n.key) + LeftShift(R1, p, x, n.key)
  {
    ZigZigLeftShapes(M, root, x, p, g);
    hide Shaped, Depth;
    LeftRotationDepth(M, root, g, p, n);
    LeftRotationDepth(LeftRotation(M, g, p), RotatedRoot(M, root, g, p), p, x, n);
  }

  lemma ZigZigLeftRises(M: Shape, root: Node?, x: Node, p: Node, g: Node)
    requires Shaped(M, root) && x in M && p in M && g in M && M[g].right == p && M[p].right == x
    ensures Rises(M, root, ZigZigLeft(M, x, p, g), PassRoot(M, root, x, g), x, p, g)
  {
    var R1, R, r := LeftRotation(M, g, p), ZigZigLeft(M, x, p, g), PassRoot(M, root, x, g);
    Spans(M, root, x, p, g);
    ZigZigLeftShapes(M, root, x, p, g);
    hide Shaped, Depth, Rises, ZigZigLeft, RightRotation, LeftRotation, PassRoot;
    forall n {:trigger n in M} | n in M
      ensures n in R && Depth(R, r, n) == Depth(M, root, n) + LeftShift(M, g, p, n.key) + LeftShift(R1, p, x, n.key)
    {
      ZigZigLeftDepth(M, root, x, p, g, n);
    }
    RisesByShifts(M, root, R, r, x, p, g, LeftShifts(M, g, p), LeftShifts(R1, p, x));
  }

  lemma ZigZagRightShapes(M: Shape, root: Node?, x: Node, p: Node, g: Node)
    requires Shaped(M, root) && x in M && p in M && g in M && M[g].right == p && M[p].left == x
    ensures var R1, r1, R := RightRotation(M, p, x), RotatedRoot(M, root, p, x), ZigZagRight(M, x, p, g);
      && Shaped(R1, r1) && R1.Keys == M.Keys && R1[g].right == x && RotatedRoot(R1, r1, g, x) == PassRoot(M, root, x, g)
      && R1[g].lo == M[g].lo && R1[g].hi == M[g].hi
      && Shaped(R, PassRoot(M, root, x, g)) && R.Keys == M.Keys && R[x].lo == M[g].lo && R[x].hi == M[g].hi
      && forall n {:trigger R[n]} :: n in M && n != x && n != p && n != g ==> R[n].lo == M[n].lo && R[n].hi == M[n].hi
  {
    var R1, r1 := RightRotation(M, p, x), RotatedRoot(M, root, p, x);
    Spans(M, root, x, p, g);
    RightRotationShaped(M, root, p, x);
    RightRotationApart(M, root, p, x);
    hide Shaped;
    LeftRotationShaped(R1, r1, g, x);
  }

  lemma ZigZagRightDepth(M: Shape, root: Node?, x: Node, p: Node, g: Node, n: Node)
    requires Shaped(M, root) && x in M && p in M && g in M && M[g].right == p && M[p].left == x && n in M
    ensures var R1 := RightRotation(M, p, x);
      g in R1 && Shaped(ZigZagRight(M, x, p, g), PassRoot(M, root, x, g)) && n in ZigZagRight(M, x, p, g)
      && Depth(ZigZagRight(M, x, p, g), PassRoot(M, root, x, g), n) ==
           Depth(M, root, n) + RightShift(M, p, x, n.key) + LeftShift(R1, g, x, n.key)
  {
    ZigZagRightShapes(M, root, x, p, g);
    hide Shaped, Depth;
    RightRotationDepth(M, root, p, x, n);
    LeftRotationDepth(RightRotation(M, p, x), RotatedRoot(M, root, p, x), g, x, n);
  }

  lemma ZigZagRightRises(M: Shape, root: Node?, x: Node, p: Node, g: Node)
    requires Shaped(M, root) && x in M && p in M && g in M && M[g].right == p && M[p].left == x
    ensures Rises(M, root, ZigZagRight(M, x, p, g), PassRoot(M, root, x, g), x, p, g)
  {
    var R1, R, r := RightRotation(M, p, x), ZigZagRight(M, x, p, g), PassRoot(M, root, x, g);
    Spans(M, root, x, p, g);
    ZigZagRightShapes(M, root, x, p, g);
    hide Shaped, Depth, Rises, ZigZagRight, RightRotation, LeftRotation, PassRoot;
    forall n {:trigger n in M} | n in M
      ensures n in R && Depth(R, r, n) == Depth(M, root, n) + RightShift(M, p, x, n.key) + LeftShift(R1, g, x, n.key)
    {
      ZigZagRightDepth(M, root, x, p, g, n);
    }
    RisesByShifts(M, root, R, r, x, p, g, RightShifts(M, p, x), LeftShifts(R1, g, x));
  }

  lemma ZigZagLeftShapes(M: Shape, root: Node?, x: Node, p: Node, g: Node)
    requires Shaped(M, root) && x in M && p in M && g in M && M[g].left == p && M[p].right == x
    ensures var R1, r1, R := LeftRotation(M, p, x), RotatedRoot(M, root, p, x), ZigZagLeft(M, x, p, g);
      && Shaped(R1, r1) && R1.Keys == M.Keys && R1[g].left == x && RotatedRoot(R1, r1, g, x) == PassRoot(M, root, x, g)
      && R1[g].lo == M[g].lo && R1[g].hi == M[g].hi
      && Shaped(R, PassRoot(M, root, x, g)) && R.Keys == M.Keys && R[x].lo == M[g].lo && R[x].hi == M[g].hi
      && forall n {:trigger R[n]} :: n in M && n != x && n != p && n != g ==> R[n].lo == M[n].lo && R[n].hi == M[n].hi
  {
    var R1, r1 := LeftRotation(M, p, x), RotatedRoot(M, root, p, x);
    Spans(M, root, x, p, g);
    LeftRotationShaped(M, root, p, x);
    LeftRotationApart(M, root, p, x);
    hide Shaped;
    RightRotationShaped(R1, r1, g, x);
  }

  lemma ZigZagLeftDepth(M: Shape, root: Node?, x: Node, p: Node, g: Node, n: Node)
    requires Shaped(M, root) && x in M && p in M && g in M && M[g].left == p && M[p].right == x && n in M
    ensures var R1 := LeftRotation(M, p, x);
      g in R1 && Shaped(ZigZagLeft(M, x, p, g), PassRoot(M, root, x, g)) && n in ZigZagLeft(M, x, p, g)
      && Depth(ZigZagLeft(M, x, p, g), PassRoot(M, root, x, g), n) ==
           Depth(M, root, n) + LeftShift(M, p, x, n.key) + RightShift(R1, g, x, n.key)
  {
    ZigZagLeftShapes(M, root, x, p, g);
    hide Shaped, Depth;
    LeftRotationDepth(M, root, p, x, n);
    RightRotationDepth(LeftRotation(M, p, x), RotatedRoot(M, root, p, x), g, x, n);
  }

  lemma ZigZagLeftRises(M: Shape, root: Node?, x: Node, p: Node, g: Node)
    requires Shaped(M, root) && x in M && p in M && g in M && M[g].left == p && M[p].right == x
    ensures Rises(M, root, ZigZagLeft(M, x, p, g), PassRoot(M, root, x, g), x, p, g)
  {
    var R1, R, r := LeftRotation(M, p, x), ZigZagLeft(M, x, p, g), PassRoot(M, root, x, g);
    Spans(M, root, x, p, g);
    ZigZagLeftShapes(M, root, x, p, g);
    hide Shaped, Depth, Rises, ZigZagLeft, RightRotation, LeftRotation, PassRoot;
    forall n {:trigger n in M} | n in M
      ensures n in R && Depth(R, r, n) == Depth(M, root, n) + LeftShift(M, p, x, n.key) + RightShift(R1, g, x, n.key)
    {
      ZigZagLeftDepth(M, root, x, p, g, n);
    }
    RisesByShifts(M, root, R, r, x, p, g, LeftShifts(M, p, x), RightShifts(R1, g, x));
  }
}
