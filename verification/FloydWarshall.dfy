/** All least costs at once, updated in place in 32-bit arithmetic. */
module FloydWarshall {
  import opened Walks

  /** All nodes of w but its ends are below k. */
  ghost predicate Inside(w: seq<int>, k: int) {
    forall x :: 1 <= x < |w| - 1 ==> w[x] < k
  }

  ghost predicate NoneCheaperInside(T: Matrix, i: int, j: int, d: int, k: int) {
    forall w {:trigger Walk(T, w, i, j)} :: Walk(T, w, i, j) && Inside(w, k) ==> d <= Cost(T, w)
  }

  ghost predicate CellOk(T: Matrix, g: Matrix, i: int, j: int, k: int)
    requires 0 <= i < |g| && 0 <= j < |g[i]|
  {
    g[i][j] <= INF && NoneCheaperInside(T, i, j, g[i][j], k) && Reached(T, i, j, g[i][j])
  }

  /** Least costs over walks whose inner nodes are below k. */
  ghost predicate RoundOk(T: Matrix, g: Matrix, n: nat, k: int) {
    Square(g, n) && forall i, j {:trigger CellOk(T, g, i, j, k)} :: 0 <= i < n && 0 <= j < n ==> CellOk(T, g, i, j, k)
  }

  /** One cell's relaxation through k. */
  ghost function Relaxed(g: Matrix, i: int, j: int, k: int): int
    requires 0 <= i < |g| && 0 <= k < |g| && 0 <= j < |g[i]| && k < |g[i]| && j < |g[k]|
  {
    var through := g[i][k] as int + g[k][j] as int;
    var known: int := g[i][j];
    if through < known then through else known
  }

  lemma StartOk(T: Matrix, n: nat)
    requires Capped(T, n)
    ensures RoundOk(T, T, n, 0)
  {
    forall i, j | 0 <= i < n && 0 <= j < n ensures CellOk(T, T, i, j, 0) {
      forall w | Walk(T, w, i, j) && Inside(w, 0) ensures T[i][j] <= Cost(T, w) {
        assert Cost(T, w) == Link(T, w[0], w[1]) + Cost(T, w[1..]);
      }
      if T[i][j] != INF {
        var w := [i, j];
        assert Walk(T, w, i, j) && Cost(T, w) == T[i][j] by { assert Cost(T, w[1..]) == 0; }
      }
    }
  }

  lemma {:induction false} FirstVisit(w: seq<int>, k: int, from: int, x: int) returns (p: int)
    requires 0 <= from <= x < |w| && w[x] == k
    ensures from <= p <= x && w[p] == k && forall y :: from <= y < p ==> w[y] != k
    decreases x - from
  {
    if w[from] == k { p := from; } else { p := FirstVisit(w, k, from + 1, x); }
  }

  lemma {:induction false} LastVisit(w: seq<int>, k: int, x: int, upTo: int) returns (q: int)
    requires 0 <= x <= upTo < |w| && w[x] == k
    ensures x <= q <= upTo && w[q] == k
    ensures forall y :: q < y <= upTo ==> w[y] != k
    decreases upTo - x
  {
    if w[upTo] == k { q := upTo; } else { q := LastVisit(w, k, x, upTo - 1); }
  }

  /** Leaving out the part of a walk between p and q does not make it dearer. */
  lemma CutCost(T: Matrix, w: seq<int>, p: int, q: int)
    requires 0 <= p <= q < |w|
    ensures Cost(T, w[..p + 1]) + Cost(T, w[q..]) <= Cost(T, w)
  {
    CostSplits(T, w, p);
    CostSplits(T, w[p..], q - p);
    CostNonnegative(T, w[p..][..q - p + 1]);
    assert w[p..][q - p..] == w[q..];
  }

  lemma PartInside(w: seq<int>, k: int, p: int, q: int)
    requires 0 <= p < q < |w| && forall y :: p < y < q ==> w[y] < k
    ensures Inside(w[p..q + 1], k)
  {
    var u := w[p..q + 1];
    forall y | 1 <= y < |u| - 1 ensures u[y] < k { assert u[y] == w[p + y]; }
  }

  /** A walk through k is no cheaper than going to k and on from k without passing k in between. */
  lemma ThroughCosts(T: Matrix, g: Matrix, n: nat, k: nat, w: seq<int>, i: int, j: int)
    requires Square(T, n) && RoundOk(T, g, n, k) && k < n && Walk(T, w, i, j) && Inside(w, k + 1) && !Inside(w, k)
    ensures 0 <= i < n && 0 <= j < n && g[i][k] as int + g[k][j] as int <= Cost(T, w)
  {
    var x :| 1 <= x < |w| - 1 && w[x] >= k;
    var p := FirstVisit(w, k, 1, x);
    var q := LastVisit(w, k, x, |w| - 2);
    AroundCosts(T, g, n, k, w, i, j, p, q);
  }

  lemma AroundCosts(T: Matrix, g: Matrix, n: nat, k: nat, w: seq<int>, i: int, j: int, p: int, q: int)
    requires Square(T, n) && RoundOk(T, g, n, k) && k < n && Walk(T, w, i, j)
    requires 1 <= p <= q < |w| - 1 && w[p] == k && w[q] == k
    requires forall y :: 0 < y < p ==> w[y] < k
    requires forall y :: q < y < |w| - 1 ==> w[y] < k
    ensures 0 <= i < n && 0 <= j < n && g[i][k] as int + g[k][j] as int <= Cost(T, w)
  {
    hide Cost, Link;
    var last := |w| - 1;
    WalkPart(T, w, i, j, 0, p);
    WalkPart(T, w, i, j, q, last);
    PartInside(w, k, 0, p);
    PartInside(w, k, q, last);
    CutCost(T, w, p, q);
    assert w[..p + 1] == w[0..p + 1] && w[q..] == w[q..last + 1];
    hide Walk;
    assert CellOk(T, g, i, k, k) && CellOk(T, g, k, j, k);
  }

  lemma RelaxedOk(T: Matrix, g: Matrix, n: nat, k: nat, i: int, j: int, d: int)
    requires Square(T, n) && RoundOk(T, g, n, k) && k < n && 0 <= i < n && 0 <= j < n && d == Relaxed(g, i, j, k)
    ensures d <= INF && NoneCheaperInside(T, i, j, d, k + 1) && Reached(T, i, j, d)
  {
    assert CellOk(T, g, i, j, k) && CellOk(T, g, i, k, k) && CellOk(T, g, k, j, k);
    forall w | Walk(T, w, i, j) && Inside(w, k + 1) ensures d <= Cost(T, w) {
      if !Inside(w, k) { ThroughCosts(T, g, n, k, w, i, j); }
    }
    if d != g[i][j] {
      var u :| Walk(T, u, i, k) && Cost(T, u) == g[i][k];
      var v :| Walk(T, v, k, j) && Cost(T, v) == g[k][j];
      WalkJoin(T, u, v, i, k, j);
    }
  }

  lemma RoundKeeps(T: Matrix, g: Matrix, g': Matrix, n: nat, k: nat)
    requires Square(T, n) && RoundOk(T, g, n, k) && k < n && Square(g', n)
    requires forall i, j :: 0 <= i < n && 0 <= j < n ==> g'[i][j] == Relaxed(g, i, j, k)
    ensures RoundOk(T, g', n, k + 1)
  {
    forall i, j {:trigger CellOk(T, g', i, j, k + 1)} | 0 <= i < n && 0 <= j < n ensures CellOk(T, g', i, j, k + 1) {
      RelaxedOk(T, g, n, k, i, j, g'[i][j]);
    }
  }

  lemma AllRoundsDone(T: Matrix, g: Matrix, n: nat, i: int, j: int)
    requires Square(T, n) && RoundOk(T, g, n, n) && 0 <= i < n && 0 <= j < n
    ensures LeastCost(T, i, j, g[i][j])
  {
    assert CellOk(T, g, i, j, n);
    forall w | Walk(T, w, i, j) ensures g[i][j] <= Cost(T, w) { assert Inside(w, n); }
  }

  // ---------- The algorithm ----------

  ghost function Grid(a: array2<Dist>): Matrix
    reads a
  {
    seq(a.Length0, i requires 0 <= i < a.Length0 reads a => GridRow(a, i))
  }

  ghost function GridRow(a: array2<Dist>, i: int): (r: seq<Dist>)
    requires 0 <= i < a.Length0
    reads a
    ensures |r| == a.Length1 && forall j :: 0 <= j < a.Length1 ==> r[j] == a[i, j]
  {
    seq(a.Length1, j requires 0 <= j < a.Length1 reads a => a[i, j])
  }

  /** Neither row k nor column k changes while k is the intermediate node. */
  lemma PivotUnchanged(g: Matrix, n: nat, k: nat, x: int)
    requires Square(g, n) && k < n && 0 <= x < n
    ensures Relaxed(g, k, x, k) == g[k][x] && Relaxed(g, x, k, k) == g[x][k]
  {
  }

  /** What the matrix holds when the cells before (i, j) are relaxed through k. */
  ghost function PartlyRelaxed(g: Matrix, n: nat, k: int, i: int, j: int, x: int, y: int): int
    requires Square(g, n) && 0 <= k < n && 0 <= x < n && 0 <= y < n
  {
    if x < i || (x == i && y < j) then Relaxed(g, x, y, k) else g[x][y]
  }

  method FloydWarshall(topology: array2<Dist>, solution: array2<Dist>, n: nat)
    requires topology.Length0 == topology.Length1 == solution.Length0 == solution.Length1 == n
    requires topology != solution && Capped(Grid(topology), n)
    modifies solution
    ensures forall i, j :: 0 <= i < n && 0 <= j < n ==> LeastCost(Grid(topology), i, j, solution[i, j])
  {
    ghost var T := Grid(topology);
    forall i, j | 0 <= i < n && 0 <= j < n { solution[i, j] := topology[i, j]; }
    forall i | 0 <= i < n ensures Grid(solution)[i] == T[i] {
      assert GridRow(solution, i) == GridRow(topology, i);
    }
    assert Grid(solution) == T;
    StartOk(T, n);
    for k := 0 to n
      invariant Square(T, n) && T == Grid(topology) && RoundOk(T, Grid(solution), n, k)
    {
      ghost var g := Grid(solution);
      RoundCapped(T, g, n, k);
      Round(solution, n, k);
      RoundKeeps(T, g, Grid(solution), n, k);
    }
    forall i, j | 0 <= i < n && 0 <= j < n ensures LeastCost(T, i, j, solution[i, j]) {
      AllRoundsDone(T, Grid(solution), n, i, j);
    }
  }

  lemma RoundCapped(T: Matrix, g: Matrix, n: nat, k: int)
    requires RoundOk(T, g, n, k)
    ensures Capped(g, n)
  {
    forall i, j | 0 <= i < n && 0 <= j < n ensures g[i][j] <= INF { assert CellOk(T, g, i, j, k); }
  }

  /** The two inner loops. The sums never wrap. */
  method Round(solution: array2<Dist>, n: nat, k: nat)
    requires solution.Length0 == solution.Length1 == n && k < n && Capped(Grid(solution), n)
    modifies solution
    ensures Square(Grid(solution), n)
    ensures forall x, y :: 0 <= x < n && 0 <= y < n ==> Grid(solution)[x][y] == Relaxed(old(Grid(solution)), x, y, k)
  {
    ghost var g := Grid(solution);
    for i := 0 to n
      invariant forall x, y :: 0 <= x < n && 0 <= y < n ==> solution[x, y] == PartlyRelaxed(g, n, k, i, 0, x, y)
    {
      for j := 0 to n
        invariant forall x, y :: 0 <= x < n && 0 <= y < n ==> solution[x, y] == PartlyRelaxed(g, n, k, i, j, x, y)
      {
        PivotUnchanged(g, n, k, i);
        PivotUnchanged(g, n, k, j);
        assert solution[i, k] == g[i][k] && solution[k, j] == g[k][j] && solution[i, j] == g[i][j];
        if Add32(solution[i, k], solution[k, j]) < solution[i, j] {
          solution[i, j] := Add32(solution[i, k], solution[k, j]);
        }
      }
    }
  }
}
