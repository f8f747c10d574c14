/** What one pass of splaying does to the links and to the depths, and what all of them do together. */
module SplayPasses {
  import opened SearchTree
  import opened TreeDepth

  // ---------- Links ----------

  /** Only `old` is replaced, by x, among the children of the nodes that a pass does not turn. */
  ghost predicate Rehung(M: Shape, R: Shape, turned: set<Node>, out: Node, x: Node) {
    && R.Keys == M.Keys
    && forall n {:trigger R[n]} :: n in M && n !in turned ==>
         && R[n].left == (if M[n].left == out then x else M[n].left)
         && R[n].right == (if M[n].right == out then x else M[n].right)
  }

  ghost predicate Children(R: Shape, n: Node, left: Node?, right: Node?)
    requires n in R
  {
    R[n].left == left && R[n].right == right
  }

  /** One pass over x, its parent p and its grandparent g, by the children that each of them has afterwards. */
  ghost predicate Turned(M: Shape, R: Shape, x: Node, p: Node, g: Node)
    requires x in M && p in M && g in M && R.Keys == M.Keys
  {
    var a, b := M[x].left, M[x].right;
    && Rehung(M, R, {x, p, g}, g, x) && R[x].parent == M[g].parent
    && (if M[g].left == p && M[p].left == x then
          Children(R, x, a, p) && Children(R, p, b, g) && Children(R, g, M[p].right, M[g].right)
        else if M[g].right == p && M[p].right == x then
          Children(R, x, p, b) && Children(R, p, g, a) && Children(R, g, M[g].left, M[p].left)
        else if M[g].right == p then
          Children(R, x, g, p) && Children(R, g, M[g].left, a) && Children(R, p, b, M[p].right)
        else
          Children(R, x, p, g) && Children(R, p, M[p].left, a) && Children(R, g, b, M[g].right))
  }

  /** The last pass, if the parent is the root. */
  ghost predicate TurnedOnce(M: Shape, R: Shape, x: Node, p: Node)
    requires x in M && p in M && R.Keys == M.Keys
  {
    && Rehung(M, R, {x, p}, p, x) && R[x].parent == null
    && (if M[p].left == x then Children(R, x, M[x].left, p) && Children(R, p, M[x].right, M[p].right)
        else Children(R, x, p, M[x].right) && Children(R, p, M[p].left, M[x].left))
  }

  ghost predicate Pass(M: Shape, R: Shape, x: Node) {
    && x in M && R.Keys == M.Keys
    && var p := M[x].parent;
       p != null && p in M &&
       var g := M[p].parent;
       if g == null then TurnedOnce(M, R, x, p) else g in M && Turned(M, R, x, p, g)
  }

  /** Passes over x, one after the other. */
  ghost predicate Passes(trees: seq<Shape>, x: Node) {
    |trees| > 0 && forall i {:trigger trees[i]} :: 0 < i < |trees| ==> Pass(trees[i - 1], trees[i], x)
  }

  lemma RightRotationChildren(M: Shape, root: Node?, x: Node, y: Node)
    requires Shaped(M, root) && x in M && y in M && M[x].left == y
    ensures var R := RightRotation(M, x, y);
      && Rehung(M, R, {x, y}, x, y) && x != y && R[y].parent == M[x].parent
      && Children(R, y, M[y].left, x) && Children(R, x, M[y].right, M[x].right)
  {
    assert Sound(M, root, x) && Sound(M, root, y);
    forall n | n in M && n != x && n != y
      ensures (M[n].left == x || M[n].right == x) <==> n == M[x].parent
      ensures M[n].left == x ==> M[n].right != x
    {
      assert Sound(M, root, n);
    }
  }

  lemma LeftRotationChildren(M: Shape, root: Node?, x: Node, y: Node)
    requires Shaped(M, root) && x in M && y in M && M[x].right == y
    ensures var R := LeftRotation(M, x, y);
      && Rehung(M, R, {x, y}, x, y) && x != y && R[y].parent == M[x].parent
      && Children(R, y, x, M[y].right) && Children(R, x, M[x].left, M[y].left)
  {
    assert Sound(M, root, x) && Sound(M, root, y);
    forall n | n in M && n != x && n != y
      ensures (M[n].left == x || M[n].right == x) <==> n == M[x].parent
      ensures M[n].left == x ==> M[n].right != x
    {
      assert Sound(M, root, n);
    }
  }

  /** p hangs from g and x from p; no other node has either for a child, and neither has g. */
  lemma HangsOnce(M: Shape, root: Node?, x: Node, p: Node, g: Node)
    requires Shaped(M, root) && x in M && p in M && g in M
    requires (M[g].left == p || M[g].right == p) && (M[p].left == x || M[p].right == x)
    ensures forall m {:trigger M[m]} :: m in M && (M[m].left == x || M[m].right == x) ==> m == p
    ensures forall m {:trigger M[m]} :: m in M && (M[m].left == p || M[m].right == p) ==> m == g
    ensures M[p].left != M[p].right && M[g].left != M[g].right
    ensures M[x].left != g && M[x].right != g && M[p].left != g && M[p].right != g
  {
    Spans(M, root, x, p, g);
    assert Sound(M, root, x) && Sound(M, root, p) && Sound(M, root, g);
    forall m {:trigger M[m]} | m in M
      ensures (M[m].left == x || M[m].right == x ==> m == p) && (M[m].left == p || M[m].right == p ==> m == g)
    {
      assert Sound(M, root, m);
    }
  }

  lemma ZigZigRightLinks(M: Shape, root: Node?, x: Node, p: Node, g: Node)
    requires Shaped(M, root) && x in M && p in M && g in M && M[g].left == p && M[p].left == x
    ensures Pass(M, ZigZigRight(M, x, p, g), x)
  {
    var R1, r1 := RightRotation(M, g, p), RotatedRoot(M, root, g, p);
    Spans(M, root, x, p, g);
    HangsOnce(M, root, x, p, g);
    ZigZigRightShapes(M, root, x, p, g);
    hide Shaped, RightRotation;
    RightRotationChildren(M, root, g, p);
    RightRotationChildren(R1, r1, p, x);
  }

  lemma ZigZigLeftLinks(M: Shape, root: Node?, x: Node, p: Node, g: Node)
    requires Shaped(M, root) && x in M && p in M && g in M && M[g].right == p && M[p].right == x
    ensures Pass(M, ZigZigLeft(M, x, p, g), x)
  {
    var R1, r1 := LeftRotation(M, g, p), RotatedRoot(M, root, g, p);
    Spans(M, root, x, p, g);
    HangsOnce(M, root, x, p, g);
    ZigZigLeftShapes(M, root, x, p, g);
    hide Shaped, LeftRotation;
    LeftRotationChildren(M, root, g, p);
    LeftRotationChildren(R1, r1, p, x);
  }

  lemma ZigZagRightLinks(M: Shape, root: Node?, x: Node, p: Node, g: Node)
    requires Shaped(M, root) && x in M && p in M && g in M && M[g].right == p && M[p].left == x
    ensures Pass(M, ZigZagRight(M, x, p, g), x)
  {
    var R1, r1 := RightRotation(M, p, x), RotatedRoot(M, root, p, x);
    Spans(M, root, x, p, g);
    HangsOnce(M, root, x, p, g);
    ZigZagRightShapes(M, root, x, p, g);
    hide Shaped, RightRotation, LeftRotation;
    RightRotationChildren(M, root, p, x);
    LeftRotationChildren(R1, r1, g, x);
  }

  lemma ZigZagLeftLinks(M: Shape, root: Node?, x: Node, p: Node, g: Node)
    requires Shaped(M, root) && x in M && p in M && g in M && M[g].left == p && M[p].right == x
    ensures Pass(M, ZigZagLeft(M, x, p, g), x)
  {
    var R1, r1 := LeftRotation(M, p, x), RotatedRoot(M, root, p, x);
    Spans(M, root, x, p, g);
    HangsOnce(M, root, x, p, g);
    ZigZagLeftShapes(M, root, x, p, g);
    hide Shaped, RightRotation, LeftRotation;
    LeftRotationChildren(M, root, p, x);
    RightRotationChildren(R1, r1, g, x);
  }

  // ---------- Depths ----------

  /** The last pass puts x on top of the old root p. */
  ghost predicate RisesOnce(M: Shape, root: Node?, R: Shape, r: Node?, x: Node, p: Node)
    requires Shaped(M, root) && x in M && p in M
  {
    && Shaped(R, r) && R.Keys == M.Keys && r == x && root == p
    && Depth(M, root, x) == 1 && Depth(R, r, x) == 0 && Depth(R, r, p) == 1
    && R[x].lo == BELOW && R[x].hi == ABOVE
    && forall n {:trigger n in M} :: n in M && Under(M, x, n.key) ==> n in R.Keys && Depth(R, r, n) <= Depth(M, root, n)
  }

  /** One round of the loop. */
  ghost predicate Raised(M: Shape, root: Node?, R: Shape, r: Node?, x: Node)
    requires Shaped(M, root)
  {
    && Pass(M, R, x)
    && var p := M[x].parent;
       if M[p].parent == null then RisesOnce(M, root, R, r, x, p) else Rises(M, root, R, r, x, p, M[p].parent)
  }

  lemma ZigRightRaises(M: Shape, root: Node?, x: Node, p: Node)
    requires Shaped(M, root) && x in M && p in M && M[p].left == x && M[p].parent == null
    ensures RotatedRoot(M, root, p, x) == x && Shaped(RightRotation(M, p, x), x) && Raised(M, root, RightRotation(M, p, x), x, x)
  {
    var R := RightRotation(M, p, x);
    RightRotationShaped(M, root, p, x);
    RightRotationChildren(M, root, p, x);
    assert Sound(M, root, p) && Sound(M, root, x) && Sound(R, x, x);
    assert Depth(M, root, p) == 0;
    assert Depth(M, root, x) == 1;
    hide Shaped, Depth, RightRotation;
    forall n | n in M && (Under(M, x, n.key) || n == p)
      ensures n in R && Depth(R, x, n) == Depth(M, root, n) + RightShift(M, p, x, n.key)
    {
      RightRotationDepth(M, root, p, x, n);
    }
    RightRotationDepth(M, root, p, x, x);
  }

  lemma ZigLeftRaises(M: Shape, root: Node?, x: Node, p: Node)
    requires Shaped(M, root) && x in M && p in M && M[p].right == x && M[p].parent == null
    ensures RotatedRoot(M, root, p, x) == x && Shaped(LeftRotation(M, p, x), x) && Raised(M, root, LeftRotation(M, p, x), x, x)
  {
    var R := LeftRotation(M, p, x);
    LeftRotationShaped(M, root, p, x);
    LeftRotationChildren(M, root, p, x);
    assert Sound(M, root, p) && Sound(M, root, x) && Sound(R, x, x);
    assert Depth(M, root, p) == 0;
    assert Depth(M, root, x) == 1;
    hide Shaped, Depth, LeftRotation;
    forall n | n in M && (Under(M, x, n.key) || n == p)
      ensures n in R && Depth(R, x, n) == Depth(M, root, n) + LeftShift(M, p, x, n.key)
    {
      LeftRotationDepth(M, root, p, x, n);
    }
    LeftRotationDepth(M, root, p, x, x);
  }

  lemma ZigZigRightRaises(M: Shape, root: Node?, x: Node, p: Node, g: Node)
    requires Shaped(M, root) && x in M && p in M && g in M && M[g].left == p && M[p].left == x
    ensures var R1, r1, R := RightRotation(M, g, p), RotatedRoot(M, root, g, p), ZigZigRight(M, x, p, g);
      && R1.Keys == M.Keys && R1[p].left == x && R1[x].parent == p
      && R == RightRotation(R1, p, x) && RotatedRoot(R1, r1, p, x) == PassRoot(M, root, x, g)
      && Raised(M, root, R, PassRoot(M, root, x, g), x)
  {
    var R1, r1 := RightRotation(M, g, p), RotatedRoot(M, root, g, p);
    Spans(M, root, x, p, g);
    ZigZigRightShapes(M, root, x, p, g);
    ZigZigRightLinks(M, root, x, p, g);
    ZigZigRightRises(M, root, x, p, g);
    assert Sound(R1, r1, p);
    hide Shaped, Depth, Rises, RightRotation;
  }

  lemma ZigZigLeftRaises(M: Shape, root: Node?, x: Node, p: Node, g: Node)
    requires Shaped(M, root) && x in M && p in M && g in M && M[g].right == p && M[p].right == x
    ensures var R1, r1, R := LeftRotation(M, g, p), RotatedRoot(M, root, g, p), ZigZigLeft(M, x, p, g);
      && R1.Keys == M.Keys && R1[p].right == x && R1[x].parent == p
      && R == LeftRotation(R1, p, x) && RotatedRoot(R1, r1, p, x) == PassRoot(M, root, x, g)
      && Raised(M, root, R, PassRoot(M, root, x, g), x)
  {
    var R1, r1 := LeftRotation(M, g, p), RotatedRoot(M, root, g, p);
    Spans(M, root, x, p, g);
    ZigZigLeftShapes(M, root, x, p, g);
    ZigZigLeftLinks(M, root, x, p, g);
    ZigZigLeftRises(M, root, x, p, g);
    assert Sound(R1, r1, p);
    hide Shaped, Depth, Rises, LeftRotation;
  }

  lemma ZigZagRightRaises(M: Shape, root: Node?, x: Node, p: Node, g: Node)
    requires Shaped(M, root) && x in M && p in M && g in M && M[g].right == p && M[p].left == x
    ensures var R1, r1, R := RightRotation(M, p, x), RotatedRoot(M, root, p, x), ZigZagRight(M, x, p, g);
      && R1.Keys == M.Keys && R1[g].right == x && R1[x].parent == g
      && R == LeftRotation(R1, g, x) && RotatedRoot(R1, r1, g, x) == PassRoot(M, root, x, g)
      && Raised(M, root, R, PassRoot(M, root, x, g), x)
  {
    var R1, r1 := RightRotation(M, p, x), RotatedRoot(M, root, p, x);
    Spans(M, root, x, p, g);
    ZigZagRightShapes(M, root, x, p, g);
    ZigZagRightLinks(M, root, x, p, g);
    ZigZagRightRises(M, root, x, p, g);
    assert Sound(R1, r1, g);
    hide Shaped, Depth, Rises, RightRotation, LeftRotation;
  }

  lemma ZigZagLeftRaises(M: Shape, root: Node?, x: Node, p: Node, g: Node)
    requires Shaped(M, root) && x in M && p in M && g in M && M[g].left == p && M[p].right == x
    ensures var R1, r1, R := LeftRotation(M, p, x), RotatedRoot(M, root, p, x), ZigZagLeft(M, x, p, g);
      && R1.Keys == M.Keys && R1[g].left == x && R1[x].parent == g
      && R == RightRotation(R1, g, x) && RotatedRoot(R1, r1, g, x) == PassRoot(M, root, x, g)
      && Raised(M, root, R, PassRoot(M, root, x, g), x)
  {
    var R1, r1 := LeftRotation(M, p, x), RotatedRoot(M, root, p, x);
    Spans(M, root, x, p, g);
    ZigZagLeftShapes(M, root, x, p, g);
    ZigZagLeftLinks(M, root, x, p, g);
    ZigZagLeftRises(M, root, x, p, g);
    assert Sound(R1, r1, g);
    hide Shaped, Depth, Rises, LeftRotation, RightRotation;
  }

  /** x has its parent's place for it, and the parent its own parent's. */
  lemma ParentLinks(M: Shape, root: Node?, x: Node)
    requires Shaped(M, root) && x in M && M[x].parent != null
    ensures var p := M[x].parent;
      && p in M && (M[p].left == x || M[p].right == x)
      && (M[p].parent != null ==> M[p].parent in M && (M[M[p].parent].left == p || M[M[p].parent].right == p))
  {
    assert Sound(M, root, x) && Sound(M, root, M[x].parent);
  }

  // ---------- All passes together ----------

  /** Every node on the old path to x ends at half its old depth, and three at most. */
  ghost predicate PathHalved(M: Shape, root: Node?, R: Shape, r: Node?, x: Node)
    requires Shaped(M, root) && Shaped(R, r) && R.Keys == M.Keys && x in M
  {
    forall y {:trigger y in M} :: y in M && Under(M, y, x.key) ==>
      y in R.Keys && 2 * Depth(R, r, y) <= Depth(M, root, y) + 6
  }

  /** In the midst of it, with x at depth d: nodes that were above depth d are where they were and still above
      x; the others are below x, by half of what they were below depth d and two at most (three, in the end). */
  ghost predicate Halving(M: Shape, root: Node?, R: Shape, r: Node?, x: Node)
    requires Shaped(M, root) && Shaped(R, r) && R.Keys == M.Keys && x in M
  {
    assert x in R.Keys;
    forall y {:trigger y in M} :: y in M && Under(M, y, x.key) ==> HalvedSoFar(Depth(M, root, y), R, r, x, y)
  }

  ghost predicate HalvedSoFar(e: nat, R: Shape, r: Node?, x: Node, y: Node)
    requires Shaped(R, r) && x in R
  {
    && y in R
    && var d := Depth(R, r, x);
       if e < d then Depth(R, r, y) == e && Under(R, y, x.key)
       else Under(R, x, y.key) && 2 * (Depth(R, r, y) - d - 2) <= e - d + (if d == 0 then 2 else 0)
  }

  lemma HalvingStarts(M: Shape, root: Node?, x: Node)
    requires Shaped(M, root) && x in M
    ensures Halving(M, root, M, root, x)
  {
    forall y {:trigger y in M} | y in M && Under(M, y, x.key) ensures HalvedSoFar(Depth(M, root, y), M, root, x, y) {
      if y != x { Shallower(M, root, y, x); }
      assert Sound(M, root, x);
    }
  }

  lemma HalvingEnds(M: Shape, root: Node?, R: Shape, r: Node?, x: Node)
    requires Shaped(M, root) && Shaped(R, r) && R.Keys == M.Keys && x in M && x in R && Depth(R, r, x) == 0
    requires Halving(M, root, R, r, x)
    ensures PathHalved(M, root, R, r, x)
  {
    hide Shaped, Depth;
    assert M.Keys == R.Keys;
    forall y {:trigger y in M} | y in M && Under(M, y, x.key) ensures y in R.Keys && 2 * Depth(R, r, y) <= Depth(M, root, y) + 6 {
      assert HalvedSoFar(Depth(M, root, y), R, r, x, y);
    }
  }

  /** The path ends with g, p and x. */
  lemma AboveGrandparent(M: Shape, root: Node?, x: Node, p: Node, g: Node, y: Node)
    requires Shaped(M, root) && x in M && p in M && g in M && M[x].parent == p && M[p].parent == g
    requires y in M && Under(M, y, x.key) && Depth(M, root, y) < Depth(M, root, x)
    ensures Depth(M, root, x) == Depth(M, root, g) + 2 && Depth(M, root, p) == Depth(M, root, g) + 1
    ensures y == p || y == g || (Depth(M, root, y) < Depth(M, root, g) && Under(M, y, g.key) && !Under(M, g, y.key))
  {
    assert Sound(M, root, x) && Sound(M, root, p);
    ParentUnder(M, root, y, x);
    if y != p {
      ParentUnder(M, root, y, p);
      if y != g {
        Shallower(M, root, y, g);
        if Under(M, g, y.key) { Shallower(M, root, g, y); }
      }
    }
  }

  lemma PassKeepsAbove(M: Shape, root: Node?, R: Shape, r: Node?, x: Node, p: Node, g: Node, y: Node)
    requires Shaped(M, root) && x in M && p in M && g in M && M[x].parent == p && M[p].parent == g
    requires y in M && Rises(M, root, R, r, x, p, g)
    requires Under(M, y, x.key) && Depth(M, root, y) < Depth(M, root, x)
    ensures x in R && HalvedSoFar(Depth(M, root, y), R, r, x, y)
  {
    assert R.Keys == M.Keys;
    assert RisesWith(M, root, R, r, x, g, y);
    assert Sound(R, r, x) && Sound(M, root, g) && Sound(M, root, p);
    AboveGrandparent(M, root, x, p, g, y);
    hide Shaped, Depth;
    if y == p || y == g { SpanInside(M, root, g, p); } else { SpanInside(M, root, y, g); }
  }

  lemma PassHalves(M: Shape, root: Node?, R: Shape, r: Node?, x: Node, p: Node, g: Node, e: nat, y: Node)
    requires Shaped(M, root) && x in M && p in M && g in M && M[x].parent == p && M[p].parent == g
    requires Rises(M, root, R, r, x, p, g) && HalvedSoFar(e, M, root, x, y)
    ensures x in R && HalvedSoFar(e, R, r, x, y)
  {
    assert R.Keys == M.Keys;
    assert RisesWith(M, root, R, r, x, g, y);
    assert Sound(M, root, g) && Sound(M, root, p) && Sound(M, root, x);
    hide Shaped, Depth;
    if e < Depth(M, root, x) {
      PassKeepsAbove(M, root, R, r, x, p, g, y);
    } else {
      SpanInside(M, root, g, p);
      SpanInside(M, root, p, x);
    }
  }

  lemma LastHalves(M: Shape, root: Node?, R: Shape, r: Node?, x: Node, p: Node, e: nat, y: Node)
    requires Shaped(M, root) && x in M && p in M && M[x].parent == p && M[p].parent == null
    requires RisesOnce(M, root, R, r, x, p) && HalvedSoFar(e, M, root, x, y)
    ensures x in R && HalvedSoFar(e, R, r, x, y)
  {
    assert R.Keys == M.Keys;
    assert Sound(R, r, y) && Sound(R, r, x);
    if e < 1 {
      assert Sound(M, root, y);
      assert y == p;
    }
  }

  lemma RaisedHalves(M0: Shape, r0: Node?, M: Shape, root: Node?, R: Shape, r: Node?, x: Node)
    requires Shaped(M0, r0) && Shaped(M, root) && M.Keys == M0.Keys && x in M0 && Halving(M0, r0, M, root, x)
    requires Raised(M, root, R, r, x)
    ensures Shaped(R, r) && R.Keys == M0.Keys && Halving(M0, r0, R, r, x) && Depth(R, r, x) < Depth(M, root, x)
  {
    var p := M[x].parent;
    hide Shaped, Depth, HalvedSoFar, Pass;
    assert Pass(M, R, x);
    forall y {:trigger y in M0} | y in M0 && Under(M0, y, x.key) ensures HalvedSoFar(Depth(M0, r0, y), R, r, x, y) {
      assert HalvedSoFar(Depth(M0, r0, y), M, root, x, y);
      if M[p].parent == null { LastHalves(M, root, R, r, x, p, Depth(M0, r0, y), y); }
      else { PassHalves(M, root, R, r, x, p, M[p].parent, Depth(M0, r0, y), y); }
    }
  }

  lemma MorePasses(trees: seq<Shape>, R: Shape, x: Node)
    requires Passes(trees, x) && Pass(trees[|trees| - 1], R, x)
    ensures Passes(trees + [R], x)
  {
    hide Pass;
    forall i {:trigger (trees + [R])[i]} | 0 < i < |trees + [R]| ensures Pass((trees + [R])[i - 1], (trees + [R])[i], x) {
      assert i < |trees| ==> Pass(trees[i - 1], trees[i], x);
    }
  }

  lemma OnePass(M: Shape, root: Node?, R: Shape, r: Node?, x: Node)
    requires Shaped(M, root) && Raised(M, root, R, r, x)
    ensures Pass(M, R, x)
  {
    hide Pass;
  }
}
