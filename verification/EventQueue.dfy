/** The simulator's queue: events sorted by time, then completions before arrivals, then age. */
module EventQueue {
  import L = LinkedList

  datatype Kind = Completion | Arrival

  datatype Event = Event(time: nat, kind: Kind, id: nat)

  function Rank(k: Kind): nat { if k == Completion then 0 else 1 }

  /** simulatorEventCompare. */
  function Compare(a: Event, b: Event): int {
    if a.time < b.time then -1
    else if a.time == b.time then
      if Rank(a.kind) < Rank(b.kind) then -1
      else if a.kind == b.kind then
        if a.id < b.id then -1 else if a.id == b.id then 0 else 1
      else 1
    else 1
  }

  /** The comparison is a strict total order on events. */
  lemma CompareOrders(a: Event, b: Event, c: Event)
    ensures Compare(a, b) == -Compare(b, a)
    ensures Compare(a, b) == 0 <==> a == b
    ensures Compare(a, b) < 0 && Compare(b, c) < 0 ==> Compare(a, c) < 0
  {
  }

  ghost predicate Sorted(q: seq<Event>) {
    forall i, k {:trigger q[i], q[k]} :: 0 <= i < k < |q| ==> Compare(q[i], q[k]) < 0
  }

  /** Where list_insert puts e, and the queue it leaves. */
  function Place(q: seq<Event>, e: Event): nat { L.Place(Compare, q, e) }
  function Insert(q: seq<Event>, e: Event): seq<Event> { L.Inserted(Compare, q, e) }

  /** list_remove of the node with the given event. */
  function Without(q: seq<Event>, id: nat): seq<Event> {
    if q == [] then [] else if q[0].id == id then q[1..] else [q[0]] + Without(q[1..], id)
  }

  // ---------- What the queue holds ----------

  function Elements(q: seq<Event>): set<Event> { set e | e in q }

  ghost predicate DistinctIds(s: set<Event>) {
    forall a, b {:trigger a in s, b in s} :: a in s && b in s && a.id == b.id ==> a == b
  }

  /** The queue holds exactly the events of s, in order, with ids below the next one. */
  ghost predicate Holds(q: seq<Event>, s: set<Event>, next: nat) {
    && Sorted(q) && Elements(q) == s && DistinctIds(s)
    && forall e {:trigger e in s} :: e in s ==> e.id < next
  }

  lemma InsertElements(q: seq<Event>, e: Event)
    ensures Elements(Insert(q, e)) == Elements(q) + {e}
  {
    var i := Place(q, e);
    assert q == q[..i] + q[i..];
  }

  /** Everything from e's place on comes after e, if e is new. */
  lemma AfterPlace(q: seq<Event>, e: Event, k: nat)
    requires Sorted(q) && e !in q && Place(q, e) <= k < |q|
    ensures Compare(e, q[k]) < 0
  {
    var i := Place(q, e);
    CompareOrders(e, q[i], q[k]);
    assert i < k ==> Compare(q[i], q[k]) < 0;
  }

  lemma InsertSorted(q: seq<Event>, e: Event)
    requires Sorted(q) && e !in q
    ensures Sorted(Insert(q, e))
  {
    var i, r := Place(q, e), Insert(q, e);
    forall j, k | 0 <= j < k < |r| ensures Compare(r[j], r[k]) < 0 {
      if j == i { AfterPlace(q, e, k - 1); }
    }
  }

  lemma InsertHolds(q: seq<Event>, s: set<Event>, next: nat, e: Event)
    requires Holds(q, s, next) && e.id == next
    ensures Holds(Insert(q, e), s + {e}, next + 1) && e !in s
  {
    assert e !in s;
    InsertElements(q, e);
    InsertSorted(q, e);
  }

  lemma {:induction false} WithoutIncluded(q: seq<Event>, id: nat)
    ensures forall e :: e in Without(q, id) ==> e in q
  {
    if q != [] && q[0].id != id { WithoutIncluded(q[1..], id); }
  }

  lemma {:induction false} WithoutSorted(q: seq<Event>, id: nat)
    requires Sorted(q)
    ensures Sorted(Without(q, id))
  {
    if q != [] && q[0].id != id {
      WithoutSorted(q[1..], id);
      WithoutIncluded(q[1..], id);
      var r := Without(q[1..], id);
      forall k | 0 <= k < |r| ensures Compare(q[0], r[k]) < 0 {
        assert r[k] in q[1..];
        var m :| 0 <= m < |q| - 1 && q[1..][m] == r[k];
        assert Compare(q[0], q[m + 1]) < 0;
      }
    }
  }

  lemma HeadIsNotBehind(q: seq<Event>, e: Event)
    requires Sorted(q) && q != [] && e in q[1..]
    ensures e != q[0]
  {
    var t := q[1..];
    var k :| 0 <= k < |t| && t[k] == e;
    assert Compare(q[0], q[k + 1]) < 0;
  }

  lemma {:induction false} WithoutKeeps(q: seq<Event>, x: Event, e: Event)
    requires Sorted(q)
    requires forall y :: y in q && y.id == x.id ==> y == x
    ensures x in q ==> (e in Without(q, x.id) <==> e in q && e != x)
    ensures x in q ==> |Without(q, x.id)| == |q| - 1
  {
    if q != [] {
      var t := q[1..];
      assert q == [q[0]] + t;
      if e in t { HeadIsNotBehind(q, e); }
      if q[0].id != x.id { WithoutKeeps(t, x, e); }
    }
  }

  lemma WithoutHolds(q: seq<Event>, s: set<Event>, next: nat, x: Event)
    requires Holds(q, s, next) && x in s
    ensures Holds(Without(q, x.id), s - {x}, next) && |Without(q, x.id)| == |q| - 1
  {
    assert x in Elements(q);
    forall e | e in q && e.id == x.id ensures e == x { assert e in Elements(q); }
    forall e ensures e in Without(q, x.id) <==> e in q && e != x { WithoutKeeps(q, x, e); }
    WithoutKeeps(q, x, x);
    WithoutSorted(q, x.id);
  }

  /** The head comes before everything else. */
  lemma HeadFirst(q: seq<Event>, s: set<Event>, next: nat, e: Event)
    requires Holds(q, s, next) && q != [] && e in s
    ensures q[0] in s && (e == q[0] || Compare(q[0], e) < 0)
  {
    assert q[0] in Elements(q) && e in Elements(q);
    var k :| 0 <= k < |q| && q[k] == e;
  }
}
