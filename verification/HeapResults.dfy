/** What malloc, free and realloc do to the blocks, the list and the end of the heap, said of these alone. */
module HeapResults {
  import opened Layout
  import opened Memory
  import opened Allocator

  // ---------- malloc ----------

  /** Block k of the list is the first that can hold `need` words. */
  ghost predicate FirstThatFits(st: State, need: nat, k: nat)
    requires st.Valid()
  {
    ListedAreBlocks(st);
    k < |st.list| && st.blocks[st.list[k]].size >= need && forall i :: 0 <= i < k ==> st.blocks[st.list[i]].size < need
  }

  /** Some free block can hold `need` words. */
  ghost predicate Fits(st: State, need: nat) {
    exists h {:trigger st.blocks[h]} :: h in st.blocks && !st.blocks[h].used && st.blocks[h].size >= need
  }

  /** Block h has the size and the state it had. */
  ghost predicate AsItWas(st: State, st': State, h: int)
    requires h in st.blocks
  {
    h in st'.blocks && st'.blocks[h].size == st.blocks[h].size && st'.blocks[h].used == st.blocks[h].used
  }

  lemma FitIsListed(st: State, need: nat)
    requires st.Valid()
    ensures Fits(st, need) <==> exists k: nat {:trigger FirstThatFits(st, need, k)} :: FirstThatFits(st, need, k)
  {
    ListedAreBlocks(st);
    var k := FirstFit(st.blocks, st.list, need);
    if k < |st.list| {
      assert FirstThatFits(st, need, k);
      assert st.list[k] in st.list && !st.blocks[st.list[k]].used;
    } else {
      forall h {:trigger st.blocks[h]} | h in st.blocks && !st.blocks[h].used ensures st.blocks[h].size < need {
        assert h in st.list;
        var i :| 0 <= i < |st.list| && st.list[i] == h;
      }
    }
  }

  /** malloc(0) is NULL. A nonzero request fails exactly when no free block is large enough and the region has no
      room to grow by the block it needs; then nothing changes. */
  lemma MallocSucceedsIff(st: State, bytes: nat, limit: nat)
    requires st.Valid()
    ensures var (st', q) := Malloced(st, bytes, limit);
      && (q != 0 <==> bytes != 0 && (Fits(st, Need(bytes)) || st.end + 1 + Need(bytes) <= limit))
      && (q == 0 ==> st' == st)
  {
    ListedAreBlocks(st);
    if bytes != 0 {
      var need := Need(bytes);
      FitIsListed(st, need);
      var k := FirstFit(st.blocks, st.list, need);
      FitFacts(st.blocks, st.list, st.end, k);
      if k < |st.list| {
        assert FirstThatFits(st, need, k);
      } else {
        EndIsPositive(st);
      }
    }
  }

  lemma EndIsPositive(st: State)
    requires st.Valid()
    ensures st.end >= 1 && st.end in st.blocks && 1 in st.blocks
  {
  }

  /** With a block that fits: the first in the list serves the request with its tail, or with the whole of it when
      at most 4 words would remain; the rest stays free and listed, and every other block is as it was. */
  lemma MallocServes(st: State, bytes: nat, limit: nat, k: nat)
    requires st.Valid() && bytes != 0 && FirstThatFits(st, Need(bytes), k)
    ensures var (st', q), need, b := Malloced(st, bytes, limit), Need(bytes), st.list[k];
      && b in st.blocks && q - 1 in st'.blocks && st'.end == st.end
      && var size, got := st.blocks[b].size, st'.blocks[q - 1].size;
         && st'.blocks[q - 1].used && need <= got <= need + 4 && q - 1 + got == b + size
         && (size <= need + 4 ==>
               q - 1 == b && st'.blocks.Keys == st.blocks.Keys && st'.list == st.list[..k] + st.list[k + 1..])
         && (size > need + 4 ==>
               && got == need && st'.blocks.Keys == st.blocks.Keys + {q - 1} && q - 1 !in st.blocks && st'.list == st.list
               && b in st'.blocks && !st'.blocks[b].used && st'.blocks[b].size == size - need)
    ensures forall h {:trigger AsItWas(st, Malloced(st, bytes, limit).0, h)} ::
              h in st.blocks && h != st.list[k] ==> AsItWas(st, Malloced(st, bytes, limit).0, h)
  {
    ListedAreBlocks(st);
    var need, b := Need(bytes), st.list[k];
    FirstFitIs(st.blocks, st.list, need, k);
    FitFacts(st.blocks, st.list, st.end, k);
    assert Joined(st.blocks, st.end, b);
    var size := st.blocks[b].size;
    var a := b + size - need;
    if size > need + 4 {
      assert a !in st.blocks by { assert a in st.blocks ==> Before(st.blocks, b, a); }
    } else {
      assert b in st.list;
      WithoutAt(st.list, k);
    }
  }

  /** Without one, the heap grows by exactly the block it needs, and everything else is as it was. */
  lemma MallocExtends(st: State, bytes: nat, limit: nat)
    requires st.Valid() && bytes != 0 && !Fits(st, Need(bytes)) && st.end + 1 + Need(bytes) <= limit
    ensures var (st', q), need := Malloced(st, bytes, limit), Need(bytes);
      && q == st.end + 1 && st'.end == st.end + need && st'.list == st.list
      && st'.blocks.Keys == st.blocks.Keys + {st.end + need} && st.end in st'.blocks
      && st'.blocks[st.end].used && st'.blocks[st.end].size == need
    ensures forall h {:trigger AsItWas(st, Malloced(st, bytes, limit).0, h)} ::
              h in st.blocks && h != st.end ==> AsItWas(st, Malloced(st, bytes, limit).0, h)
  {
    ListedAreBlocks(st);
    var need := Need(bytes);
    FitIsListed(st, need);
    var k := FirstFit(st.blocks, st.list, need);
    assert k < |st.list| ==> FirstThatFits(st, need, k);
    AboveEnd(st.blocks, st.end, st.end + need);
  }

  // ---------- free ----------

  /** The right neighbour of the block at s is free and merged with it: any but a last block under 64 bytes. */
  ghost predicate TakesRight(st: State, s: int)
    requires s in st.blocks
  {
    var n := s + st.blocks[s].size;
    n in st.blocks && !st.blocks[n].used && (n + st.blocks[n].size == st.end ==> st.blocks[n].size >= 8)
  }

  ghost predicate TakesLeft(st: State, s: int)
    requires s in st.blocks
  {
    st.blocks[s].left in st.blocks && !st.blocks[st.blocks[s].left].used
  }

  /** free takes exactly one block out of use. It becomes one free block with a free neighbour on the left, and with
      one on the right that is not a last block under 64 bytes; that block comes first in the list, and the rest of
      the list keeps its order. Every other block is as it was. */
  lemma FreeDoes(st: State, p: int)
    requires st.Valid() && st.Live(p)
    ensures var st', s := FreedState(st, p), p - 1;
      var n := s + st.blocks[s].size;
      var lo := if TakesLeft(st, s) then st.blocks[s].left else s;
      var hi := if TakesRight(st, s) then n + st.blocks[n].size else n;
      && st'.end == st.end && lo in st'.blocks && !st'.blocks[lo].used && st'.blocks[lo].size == hi - lo
      && st'.blocks.Keys == st.blocks.Keys - (if lo != s then {s} else {}) - (if hi != n then {n} else {})
      && (forall h {:trigger AsItWas(st, st', h)} :: h in st.blocks && h != lo && h != s && (h != n || hi == n) ==> AsItWas(st, st', h))
      && st'.list == [lo] + Without(Without(st.list, lo), if hi != n then n else lo)
  {
    var st', s := FreedState(st, p), p - 1;
    var B, end := st.blocks, st.end;
    assert Joined(B, end, s);
    var n := s + B[s].size;
    assert Joined(B, end, n);
    if !B[n].used { RightTestFailsOnlyOnSmallLast(B, end, s); }
    MergeEnds(B, end, s);
    var lo, hi := MergeLo(B, s), MergeHi(B, s, end);
    forall h | h in B && lo < h < hi ensures h == s || (h == n && hi != n) { MergedInside(B, end, s, h); }
    if lo == s { WithoutAbsent(st.list, s); }
    if hi == n { NotAfter(st.list, lo); }
  }

  lemma NotAfter(L: seq<int>, x: int)
    ensures Without(Without(L, x), x) == Without(L, x)
  {
    WithoutAbsent(Without(L, x), x);
  }

  // ---------- realloc ----------

  /** realloc of a live block to a nonzero size gives a new block exactly when malloc would, one with room and not
      live before; the old block is free afterwards either way, and every other live block is as it was. */
  lemma ReallocDoes(st: State, p: int, bytes: nat, limit: nat)
    requires st.Valid() && st.Live(p) && bytes != 0
    ensures var (st', q) := Realloced(st, p, bytes, limit);
      && (q != 0 <==> Fits(st, Need(bytes)) || st.end + 1 + Need(bytes) <= limit)
      && !st'.Live(p) && q != p
      && (q != 0 ==> !st.Live(q) && st'.Live(q) && 8 * (st'.blocks[q - 1].size - 1) >= bytes)
      && (forall r {:trigger st.Live(r)} :: st.Live(r) && r != p ==> st'.Live(r) && st'.blocks[r - 1].size == st.blocks[r - 1].size)
  {
    MallocSucceedsIff(st, bytes, limit);
    MallocHandsOut(st, bytes, limit);
    MallocKeepsLive(st, bytes, limit, p);
    var (st1, q) := Malloced(st, bytes, limit);
    FreeTakesOut(st1, p);
    hide Malloced, FreedState;
    forall r {:trigger st.Live(r)} | st.Live(r) && r != p
      ensures st1.Live(r) && st1.blocks[r - 1].size == st.blocks[r - 1].size
    {
      MallocKeepsLive(st, bytes, limit, r);
    }
  }

  /** The live blocks after a free are those before, but the one freed. */
  lemma FreeTakesOut(st: State, p: int)
    requires st.Valid() && st.Live(p)
    ensures var st' := FreedState(st, p);
      && !st'.Live(p)
      && (forall r {:trigger st.Live(r)} :: st.Live(r) && r != p ==> st'.Live(r) && st'.blocks[r - 1].size == st.blocks[r - 1].size)
  {
    FreeDoes(st, p);
    var st', s := FreedState(st, p), p - 1;
    var n := s + st.blocks[s].size;
    hide FreedState;
    forall r {:trigger st.Live(r)} | st.Live(r) && r != p
      ensures st'.Live(r) && st'.blocks[r - 1].size == st.blocks[r - 1].size
    {
      assert AsItWas(st, st', r - 1);
    }
  }
}
