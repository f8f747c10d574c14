/** One router's own state, updated in place: its distance vectors and the part of its select list that
    holds the sends it still has to make. */
module RouterThread {
  import opened Walks
  import opened DistanceVector

  class Thread {
    const index: nat
    const links: Vector            // the router's row of the topology
    ghost const T: Matrix
    var curr: Vector               // curr_state, a snapshot once it is being sent
    const next: array<Dist>        // next_state
    const targets: array<int>      // select_list from entry 2 on
    var count: nat                 // select_count - 2
    var changed: bool

    ghost predicate Valid()
      reads this, next, targets
    {
      && index < |T| && links == T[index] && Capped(T, |T|) && next.Length == |curr| == |T|
      && count <= targets.Length && Distinct(targets[..])
      && (forall i {:trigger i in targets[..]} :: i in targets[..] <==> i in Neighbours(T, index))
    }

    ghost function View(): Router
      requires count <= targets.Length
      reads this, next, targets
    {
      Router(curr, next[..], Elements(targets[..count]), changed)
    }

    constructor (index: nat, links: Vector, ghost T: Matrix)
      requires Capped(T, |T|) && index < |T| && links == T[index]
      ensures Valid() && View() == Router(T[index], T[index], Neighbours(T, index), false)
      ensures this.index == index && this.T == T && fresh(next) && fresh(targets)
    {
      this.index, this.links, this.T := index, links, T;
      curr, changed := links, false;
      var list: seq<int> := [];
      for i := 0 to |links|
        invariant Distinct(list)
        invariant forall k {:trigger k in list} :: k in list <==> 0 <= k < i && k != index && links[k] != INF
      {
        if i != index && links[i] != INF {
          AppendDistinct(list, i);
          list := list + [i];
        }
      }
      var x := new Dist[|links|](i requires 0 <= i < |links| => links[i]);
      next := x;
      var t := new int[|list|](i requires 0 <= i < |list| => list[i]);
      targets, count := t, |list|;
      new;
      assert next[..] == links && targets[..] == list;
      assert targets[..count] == list;
    }

    /** Lines 207 to 228: with everything sent, news starts the next broadcast. */
    method MaybeRestart()
      requires Valid()
      modifies this
      ensures Valid() && View() == Settle(T, index, old(View()))
    {
      assert count > 0 ==> targets[..count][0] in Elements(targets[..count]);
      if count == 0 {
        if changed {
          curr := next[..];
          count := targets.Length;
          changed := false;
          assert targets[..count] == targets[..];
        }
      }
    }

    /** Lines 201 to 205: entry k of the list was sent; the last entry takes its place. */
    method Sent(k: nat)
      requires Valid() && k < count
      modifies this, targets
      ensures Valid() && View() == AfterSend(T, index, old(View()), old(targets[k]))
    {
      ghost var before := targets[..];
      count := count - 1;
      targets[count], targets[k] := targets[k], targets[count];
      SwapOut(before, targets[..], k, count);
      assert before[..count + 1] == old(targets[..count]);
      assert targets[..][..count] == targets[..count];
      MaybeRestart();
    }

    /** Lines 184 to 193: relax with a neighbour's vector. */
    method Received(m: Message)
      requires Valid() && 0 <= m.src < |T| && |m.dist| == |T|
      modifies this, next
      ensures Valid() && View() == AfterReceive(T, index, old(View()), m)
    {
      ghost var x, y := next[..], Relax(next[..], links[m.src], m.dist);
      var neighborDist := links[m.src];
      var news := false;
      for i := 0 to next.Length
        modifies next
        invariant forall j :: 0 <= j < |T| ==> next[j] == if j < i then y[j] else x[j]
        invariant news <==> exists j :: 0 <= j < i && y[j] != x[j]
      {
        var newDist := Add32(neighborDist, m.dist[i]);
        if newDist < next[i] {
          next[i] := newDist;
          news := true;
        }
      }
      assert next[..] == y;
      assert news <==> y != x;
      changed := changed || news;
      assert View() == old(View()).(next := y, changed := old(changed) || y != x);
      MaybeRestart();
    }
  }

  ghost predicate Distinct(s: seq<int>) {
    forall i, j :: 0 <= i < j < |s| ==> s[i] != s[j]
  }

  ghost function Elements(s: seq<int>): set<int> {
    set i | i in s
  }

  lemma AppendDistinct(s: seq<int>, x: int)
    requires Distinct(s) && x !in s
    ensures Distinct(s + [x])
  {
  }

  /** Entries k and c change places; the first c entries then are what they were but for the old entry k. */
  lemma SwapOut(s: seq<int>, t: seq<int>, k: nat, c: nat)
    requires Distinct(s) && k <= c < |s| && t == s[c := s[k]][k := s[c]]
    ensures Distinct(t) && Elements(t[..c]) == Elements(s[..c + 1]) - {s[k]}
    ensures forall x {:trigger x in t} :: x in t <==> x in s
  {
    forall x ensures x in t[..c] <==> x in s[..c + 1] && x != s[k] {
      if x in s[..c + 1] && x != s[k] {
        var j :| 0 <= j <= c && s[j] == x;
        assert if j == c then t[..c][k] == x else t[..c][j] == x;
      }
      if x in t[..c] {
        var j :| 0 <= j < c && t[j] == x;
        assert if j == k then s[..c + 1][c] == x else s[..c + 1][j] == x;
      }
    }
    forall x ensures x in t <==> x in s {
      if x in s {
        var j :| 0 <= j < |s| && s[j] == x;
        assert t[if j == c then k else if j == k then c else j] == x;
      }
      if x in t {
        var j :| 0 <= j < |t| && t[j] == x;
        assert s[if j == c then k else if j == k then c else j] == x;
      }
    }
  }
}
