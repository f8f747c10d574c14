/** Why whole runs need requests of at least 41 bytes: every smaller size breaks them. */
module SmallRequests {
  import opened Layout
  import opened Allocator
  import opened HeapRuns

  const LIMIT: nat := 2000

  /** A request of 1 to 40 bytes makes a block of 32 or 48 bytes. */
  lemma SmallNeed(n: nat)
    requires 1 <= n <= 40
    ensures Need(n) == if n <= 24 then 4 else 6
  {
  }

  predicate Small(w: int) { w == 4 || w == 6 }

  // With blocks of w words: the heap after one and after two requests, after the first and after both blocks
  // are freed, and after it has grown behind them.
  function One(w: int): State
    requires Small(w)
  {
    State(map[1 := Block(512 - w, false, 0), 513 - w := Block(w, true, 1), 513 := Block(0, true, 513 - w)], [1], 513)
  }

  function Two(w: int): State
    requires Small(w)
  {
    State(map[1 := Block(512 - 2 * w, false, 0), 513 - 2 * w := Block(w, true, 1), 513 - w := Block(w, true, 513 - 2 * w),
              513 := Block(0, true, 513 - w)], [1], 513)
  }

  function OneFreed(w: int): State
    requires Small(w)
  {
    State(map[1 := Block(512 - 2 * w, false, 0), 513 - 2 * w := Block(w, true, 1), 513 - w := Block(w, false, 513 - 2 * w),
              513 := Block(0, true, 513 - w)], [513 - w, 1], 513)
  }

  function Apart(w: int): State
    requires Small(w)
  {
    State(map[1 := Block(512 - w, false, 0), 513 - w := Block(w, false, 1), 513 := Block(0, true, 513 - w)], [1, 513 - w], 513)
  }

  function Grown(w: int): State
    requires Small(w)
  {
    State(map[1 := Block(512 - w, false, 0), 513 - w := Block(w, false, 1), 513 := Block(626, true, 513 - w),
              1139 := Block(0, true, 513)], [1, 513 - w], 1139)
  }

  lemma FirstRequest(n: nat, w: int)
    requires 1 <= n <= 40 && w == Need(n) && Small(w)
    ensures INITIAL.Valid() && Step(INITIAL, MallocCall(n), LIMIT) == One(w)
  {
    InitIsWellFormed();
    SmallNeed(n);
    hide Need;
    assert FirstFit(INITIAL.blocks, [1], w) == 0;
    assert Split(INITIAL.blocks, 1, 513 - w) == One(w).blocks;
  }

  lemma SecondRequest(n: nat, w: int)
    requires 1 <= n <= 40 && w == Need(n) && Small(w)
    ensures One(w).Valid() && Step(One(w), MallocCall(n), LIMIT) == Two(w)
  {
    FirstRequest(n, w);
    SmallNeed(n);
    hide Need;
    assert One(w).blocks[1].size == 512 - w && FirstFit(One(w).blocks, [1], w) == 0;
    assert Split(One(w).blocks, 1, 513 - 2 * w) == Two(w).blocks;
  }

  lemma FirstFree(n: nat, w: int)
    requires 1 <= n <= 40 && w == Need(n) && Small(w)
    ensures Two(w).Valid() && Allowed(Two(w), FreeCall(514 - w))
    ensures Step(Two(w), FreeCall(514 - w), LIMIT) == OneFreed(w)
  {
    SecondRequest(n, w);
    SmallNeed(n);
    hide Need;
    var B, b := Two(w).blocks, 513 - w;
    assert B[b] == Block(w, true, 513 - 2 * w) && B[513 - 2 * w].used && B[513].used;
    assert MergeLo(B, b) == b && MergeHi(B, b, 513) == 513;
    assert Collapse(Release(B, b), b, 513) == OneFreed(w).blocks;
    assert Unmerged([1], b, 513, b, 513) == [1];
  }

  /** The free block on the right is too small and too close to the break to be merged; the left one is merged. */
  lemma SecondFreeMerges(w: int)
    requires Small(w)
    ensures var B, a, b := OneFreed(w).blocks, 513 - 2 * w, 513 - w;
      && a in B && b in B && B[a] == Block(w, true, 1) && a + B[a].size == b
      && MergeLo(B, a) == 1 && MergeHi(B, a, 513) == b
      && 1 in B && Collapse(Release(B, a), 1, b) == Apart(w).blocks
  {
    var B, a, b := OneFreed(w).blocks, 513 - 2 * w, 513 - w;
    assert B[a] == Block(w, true, 1) && !B[1].used && !B[b].used && B[b].size == w;
    assert !InBounds(b, 513);
  }

  lemma SecondFree(n: nat, w: int)
    requires 1 <= n <= 40 && w == Need(n) && Small(w)
    ensures OneFreed(w).Valid() && Allowed(OneFreed(w), FreeCall(514 - 2 * w))
    ensures Step(OneFreed(w), FreeCall(514 - 2 * w), LIMIT) == Apart(w)
  {
    FirstFree(n, w);
    SecondFreeMerges(w);
    var a, b := 513 - 2 * w, 513 - w;
    assert Without([b, 1], 1) == [b];
    assert Unmerged([b, 1], a, b, 1, b) == [b];
    hide Need, Collapse, Release, MergeLo, MergeHi, Unmerged, Without;
  }

  lemma FreeNeighbours(w: int)
    requires Small(w)
    ensures !Coalesced(Apart(w).blocks)
  {
    var B := Apart(w).blocks;
    assert !B[513 - w].used && B[513 - w].left == 1 && !B[1].used;
    assert !LeftUsed(B, 513 - w);
  }

  lemma NothingFits(w: int)
    requires Small(w)
    ensures var B := Apart(w).blocks; 1 in B && 513 - w in B && FirstFit(B, [1, 513 - w], 626) == 2
    ensures 513 in Apart(w).blocks && Extend(Apart(w).blocks, 513, 626) == Grown(w).blocks
  {
    var B := Apart(w).blocks;
    assert B[1].size == 512 - w && B[513 - w].size == w;
    FirstFitIs(B, [1, 513 - w], 626, 2);
  }

  lemma Growth(n: nat, w: int)
    requires 1 <= n <= 40 && w == Need(n) && Small(w)
    ensures Apart(w).Valid() && Step(Apart(w), MallocCall(5000), LIMIT) == Grown(w)
  {
    SecondFree(n, w);
    NothingFits(w);
    assert Need(5000) == 626;
    hide Need, FirstFit, Extend;
  }

  lemma LastFreeHarms(n: nat, w: int)
    requires 1 <= n <= 40 && w == Need(n) && Small(w)
    ensures Grown(w).Valid() && Allowed(Grown(w), FreeCall(514)) && !Harmless(Grown(w), FreeCall(514), LIMIT)
  {
    Growth(n, w);
    var B := Grown(w).blocks;
    assert B[513] == Block(626, true, 513 - w) && B[513 - w] == Block(w, false, 1) && !B[1].used;
  }

  /** A step of each call in turn. */
  lemma FourCalls(s0: State, c0: Call, s1: State, c1: Call, s2: State, c2: Call, s3: State, c3: Call, s4: State, limit: nat)
    requires s0.Valid() && Allowed(s0, c0) && Step(s0, c0, limit) == s1
    requires s1.Valid() && Allowed(s1, c1) && Step(s1, c1, limit) == s2
    requires s2.Valid() && Allowed(s2, c2) && Step(s2, c2, limit) == s3
    requires s3.Valid() && Allowed(s3, c3) && Step(s3, c3, limit) == s4
    ensures AllAllowed(s0, [c0, c1, c2, c3], limit) && Run(s0, [c0, c1, c2, c3], limit) == s4
  {
    hide Step, Allowed;
    assert [c0, c1, c2, c3][1..] == [c1, c2, c3] && [c1, c2, c3][1..] == [c2, c3] && [c2, c3][1..] == [c3] && [c3][1..] == [];
    assert AllAllowed(s4, [], limit) && Run(s4, [], limit) == s4;
    assert AllAllowed(s3, [c3], limit) && Run(s3, [c3], limit) == s4;
    assert AllAllowed(s2, [c2, c3], limit) && Run(s2, [c2, c3], limit) == s4;
    assert AllAllowed(s1, [c1, c2, c3], limit) && Run(s1, [c1, c2, c3], limit) == s4;
  }

  lemma {:induction false} OneCallMore(st: State, calls: seq<Call>, c: Call, limit: nat)
    requires st.Valid() && AllAllowed(st, calls, limit) && Allowed(Run(st, calls, limit), c)
    ensures AllAllowed(st, calls + [c], limit) && Run(st, calls + [c], limit) == Step(Run(st, calls, limit), c, limit)
    decreases |calls|
  {
    hide Step, Allowed;
    if calls == [] {
      assert calls + [c] == [c] && [c][1..] == [];
    } else {
      assert (calls + [c])[1..] == calls[1..] + [c];
      OneCallMore(Step(st, calls[0], limit), calls[1..], c, limit);
    }
  }

  function FourSmall(n: nat): seq<Call> {
    [MallocCall(n), MallocCall(n), FreeCall(514 - Need(n)), FreeCall(514 - 2 * Need(n))]
  }

  lemma FourSmallRun(n: nat, w: int)
    requires 1 <= n <= 40 && w == Need(n) && Small(w)
    ensures INITIAL.Valid() && AllAllowed(INITIAL, FourSmall(n), LIMIT) && Run(INITIAL, FourSmall(n), LIMIT) == Apart(w)
  {
    FirstRequest(n, w);
    SecondRequest(n, w);
    FirstFree(n, w);
    SecondFree(n, w);
    hide Step, Need, One, Two, OneFreed, Apart, INITIAL, Run, AllAllowed;
    FourCalls(INITIAL, MallocCall(n), One(w), MallocCall(n), Two(w), FreeCall(514 - w), OneFreed(w), FreeCall(514 - 2 * w),
              Apart(w), LIMIT);
  }

  /** Two requests of any size from 1 to 40 bytes, freed in turn, leave two free neighbours: the block that was
      freed first is the last one and has 32 or 48 bytes. */
  lemma SmallRequestsLeaveFreeNeighbours(n: nat)
    requires 1 <= n <= 40
    ensures INITIAL.Valid() && AllAllowed(INITIAL, FourSmall(n), LIMIT)
    ensures !Coalesced(Run(INITIAL, FourSmall(n), LIMIT).blocks)
  {
    SmallNeed(n);
    FourSmallRun(n, Need(n));
    FreeNeighbours(Need(n));
  }

  /** After that, a large block behind the two free neighbours cannot be freed without a wrong tag. */
  lemma SmallRequestsBreakFree(n: nat)
    requires 1 <= n <= 40
    ensures INITIAL.Valid() && AllAllowed(INITIAL, FourSmall(n) + [MallocCall(5000)], LIMIT)
    ensures var st := Run(INITIAL, FourSmall(n) + [MallocCall(5000)], LIMIT);
      Allowed(st, FreeCall(514)) && !Harmless(st, FreeCall(514), LIMIT)
  {
    SmallNeed(n);
    var w := Need(n);
    FourSmallRun(n, w);
    Growth(n, w);
    LastFreeHarms(n, w);
    hide Step, Need, Apart, Grown, INITIAL, Run, AllAllowed, Harmless, FourSmall;
    OneCallMore(INITIAL, FourSmall(n), MallocCall(5000), LIMIT);
  }
}
