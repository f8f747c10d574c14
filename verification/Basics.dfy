/** What several modules share. */
module Basics {

  datatype Option<T> = None | Some(value: T)

  function Min(a: nat, b: nat): nat { if a < b then a else b }
  function Max(a: nat, b: nat): nat { if a < b then b else a }

  /** list_remove of what list_find found: the first x goes, if there is one. */
  function RemoveFirst<T(==)>(q: seq<T>, x: T): seq<T> {
    if q == [] then [] else if q[0] == x then q[1..] else [q[0]] + RemoveFirst(q[1..], x)
  }

  lemma {:induction false} RemoveFirstTakesOne<T>(q: seq<T>, x: T)
    ensures multiset(RemoveFirst(q, x)) == multiset(q) - multiset{x}
    ensures x !in q ==> RemoveFirst(q, x) == q
  {
    if q != [] {
      assert q == [q[0]] + q[1..];
      if q[0] != x { RemoveFirstTakesOne(q[1..], x); }
    }
  }

  lemma SubsetSize<X>(a: set<X>, b: set<X>)
    requires a <= b
    ensures |a| <= |b|
  {
    assert b == a + (b - a);
  }
}
