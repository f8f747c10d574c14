/** Walks in a graph given by a matrix of link distances, and their least costs. */
module Walks {

  const INF: int := 0x7fff_ffff    // no link, no known route

  /** distance_t: an unsigned 32-bit integer. */
  type Dist = d: int | 0 <= d < 0x1_0000_0000

  type Matrix = seq<seq<Dist>>

  /** Unsigned 32-bit addition. */
  function Add32(a: Dist, b: Dist): Dist { (a + b) % 0x1_0000_0000 }

  ghost predicate Square(T: Matrix, n: nat) {
    |T| == n && forall i :: 0 <= i < n ==> |T[i]| == n
  }

  /** Every entry is a distance or INF. */
  ghost predicate Capped(T: Matrix, n: nat) {
    Square(T, n) && forall i, j :: 0 <= i < n && 0 <= j < n ==> T[i][j] <= INF
  }

  /** One or more finite links, one after the other, from i to j. */
  ghost predicate Walk(T: Matrix, w: seq<int>, i: int, j: int) {
    && |w| >= 2 && w[0] == i && w[|w| - 1] == j
    && (forall x :: 0 <= x < |w| ==> 0 <= w[x] < |T|)
    && (forall x :: 0 <= x < |w| - 1 ==> w[x + 1] < |T[w[x]]| && T[w[x]][w[x + 1]] < INF)
  }

  ghost function Cost(T: Matrix, w: seq<int>): int
  {
    if |w| < 2 then 0 else Link(T, w[0], w[1]) + Cost(T, w[1..])
  }

  ghost function Link(T: Matrix, i: int, j: int): (d: int)
    ensures d >= 0
  {
    if 0 <= i < |T| && 0 <= j < |T[i]| then T[i][j] else 0
  }

  /** d is the least cost of a walk from i to j, or INF when every walk costs that much or there is none. */
  ghost predicate LeastCost(T: Matrix, i: int, j: int, d: int) {
    d <= INF && NoneCheaper(T, i, j, d) && Reached(T, i, j, d)
  }

  ghost predicate NoneCheaper(T: Matrix, i: int, j: int, d: int) {
    forall w {:trigger Walk(T, w, i, j)} :: Walk(T, w, i, j) ==> d <= Cost(T, w)
  }

  ghost predicate Reached(T: Matrix, i: int, j: int, d: int) {
    d == INF || exists w {:trigger Walk(T, w, i, j)} :: Walk(T, w, i, j) && Cost(T, w) == d
  }

  lemma LeastCostUnique(T: Matrix, i: int, j: int, d: int, e: int)
    requires LeastCost(T, i, j, d) && LeastCost(T, i, j, e)
    ensures d == e
  {
  }

  lemma {:induction false} CostNonnegative(T: Matrix, w: seq<int>)
    ensures Cost(T, w) >= 0
  {
    if |w| >= 2 { CostNonnegative(T, w[1..]); }
  }

  /** Cost is additive where a walk is cut at one of its nodes. */
  lemma {:induction false} CostSplits(T: Matrix, w: seq<int>, p: nat)
    requires p < |w|
    ensures Cost(T, w) == Cost(T, w[..p + 1]) + Cost(T, w[p..])
  {
    if p == 0 {
      assert w[0..] == w;
    } else {
      CostSplits(T, w[1..], p - 1);
      assert w[1..][..p] == w[..p + 1][1..] && w[1..][p - 1..] == w[p..];
    }
  }

  lemma WalkPart(T: Matrix, w: seq<int>, i: int, j: int, p: nat, q: nat)
    requires Walk(T, w, i, j) && p < q < |w|
    ensures Walk(T, w[p..q + 1], w[p], w[q])
  {
    var v := w[p..q + 1];
    forall x | 0 <= x < |v| - 1 ensures v[x + 1] < |T[v[x]]| && T[v[x]][v[x + 1]] < INF {
      assert v[x] == w[p + x] && v[x + 1] == w[p + x + 1];
    }
  }

  /** Two walks that meet make one, and the costs add up. */
  lemma WalkJoin(T: Matrix, u: seq<int>, v: seq<int>, i: int, k: int, j: int)
    requires Walk(T, u, i, k) && Walk(T, v, k, j)
    ensures Walk(T, u + v[1..], i, j) && Cost(T, u + v[1..]) == Cost(T, u) + Cost(T, v)
  {
    var w := u + v[1..];
    forall x | 0 <= x < |w| - 1 ensures w[x + 1] < |T[w[x]]| && T[w[x]][w[x + 1]] < INF {
      if x < |u| - 1 {
        assert w[x] == u[x] && w[x + 1] == u[x + 1];
      } else {
        assert w[x] == v[x - |u| + 1] && w[x + 1] == v[x - |u| + 2];
      }
    }
    CostSplits(T, w, |u| - 1);
    assert w[..|u|] == u && w[|u| - 1..] == v;
  }

  /** One more link in front. */
  lemma WalkCons(T: Matrix, r: int, w: seq<int>, k: int, j: int)
    requires Capped(T, |T|) && 0 <= r < |T| && 0 <= k < |T| && T[r][k] < INF && Walk(T, w, k, j)
    ensures Walk(T, [r] + w, r, j) && Cost(T, [r] + w) == T[r][k] + Cost(T, w)
  {
    var u := [r] + w;
    assert u[1..] == w && u[0] == r && u[1] == k;
    forall x | 0 <= x < |u| - 1 ensures u[x + 1] < |T[u[x]]| && T[u[x]][u[x + 1]] < INF {
      if x > 0 { assert u[x] == w[x - 1] && u[x + 1] == w[x]; }
    }
  }
}
