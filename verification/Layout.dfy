/** The block structure of the heap, apart from how it is written into memory words.

    Addresses and sizes are counted in 8-byte words from the first heap word. Word 0 is
    the prologue, so block headers start at word 1. `end` is the word of the epilogue
    header, the last word below the break. */
module Layout {

  /** `size` counts the header. `left` is the header of the block to the left, 0 for the first block.
      The epilogue is kept as a used block of size 0. */
  datatype Block = Block(size: nat, used: bool, left: int)

  type Blocks = map<int, Block>

  const MIN_BLOCK: nat := 4        // 32 bytes
  const SMALLEST_MERGEABLE_LAST: nat := 8   // 64 bytes

  // ---------- What a well-formed heap is ----------

  /** Header h agrees with its two neighbours. */
  ghost predicate Joined(B: Blocks, end: int, h: int)
    requires h in B
  {
    && 1 <= h <= end && h % 2 == 1
    && (h == end ==> B[h].size == 0 && B[h].used)
    && (h != end ==> B[h].size >= MIN_BLOCK && B[h].size % 2 == 0
                     && h + B[h].size in B && B[h + B[h].size].left == h)
    && (if h == 1 then B[h].left == 0
        else B[h].left in B && B[h].left < h && B[h].left + B[B[h].left].size == h)
  }

  ghost predicate Before(B: Blocks, h: int, t: int) {
    h in B ==> h + B[h].size <= t
  }

  /** The blocks cover the words from 1 up to the epilogue exactly, in even sizes. */
  ghost predicate Tiled(B: Blocks, end: int)
  {
    && 1 in B && end in B && 1 < end
    && (forall h {:trigger Joined(B, end, h)} :: h in B ==> Joined(B, end, h))
    && (forall h, t {:trigger Before(B, h, t)} :: h in B && t in B && h < t ==> Before(B, h, t))
  }

  /** Whether what lies left of header h is in use; the prologue counts as used. */
  ghost predicate LeftUsed(B: Blocks, h: int)
    requires h in B
  {
    B[h].left in B ==> B[B[h].left].used
  }

  ghost predicate NoDup(L: seq<int>) {
    forall i, j :: 0 <= i < j < |L| ==> L[i] != L[j]
  }

  /** L lists every free block once, and nothing else. */
  ghost predicate ListsFree(B: Blocks, L: seq<int>) {
    && NoDup(L)
    && (forall s {:trigger s in L} :: s in L <==> s in B && !B[s].used)
  }

  ghost predicate WellFormed(B: Blocks, L: seq<int>, end: int) {
    Tiled(B, end) && ListsFree(B, L)
  }

  /** No two free blocks are neighbours. */
  ghost predicate Coalesced(B: Blocks)
  {
    forall h {:trigger LeftUsed(B, h)} :: h in B && !B[h].used ==> LeftUsed(B, h)
  }

  lemma TilesCoverOnce(B: Blocks, end: int, i: int) returns (s: int)
    requires Tiled(B, end) && 1 <= i < end
    ensures s in B && s <= i < s + B[s].size
    ensures forall t :: t in B && t <= i < t + B[t].size ==> t == s
  {
    s := 1;
    assert Joined(B, end, 1);
    while s + B[s].size <= i
      invariant s in B && s <= i
      decreases i - s
    {
      assert Joined(B, end, s);
      s := s + B[s].size;
      assert Joined(B, end, s);
    }
    forall t | t in B && t <= i < t + B[t].size ensures t == s {
      assert t < s ==> Before(B, t, s);
      assert s < t ==> Before(B, s, t);
    }
  }

  // ---------- The operations ----------

  function Align(x: nat): nat { 16 * ((x + 16 - 1) / 16) }

  lemma AlignMeans(x: nat) returns (q: nat)
    ensures Align(x) == 16 * q && x <= 16 * q < x + 16
  {
    q := (x + 16 - 1) / 16;
  }

  lemma Eighth(q: nat)
    ensures 16 * q / 8 == 2 * q
  {
  }

  /** Block size in words for a request of `bytes` bytes: header and payload rounded up to 16 bytes, and at least
      32 bytes. */
  function Need(bytes: nat): (n: nat)
    ensures n >= MIN_BLOCK && n % 2 == 0 && 8 * n >= bytes + 8
    ensures n == MIN_BLOCK || 8 * n < bytes + 8 + 16
    ensures bytes >= 41 ==> n >= SMALLEST_MERGEABLE_LAST
  {
    var b := Align(bytes + 8);
    NeedMeans(bytes);
    if b < 32 then 4 else b / 8
  }

  lemma NeedMeans(bytes: nat)
    ensures var b := Align(bytes + 8); b >= 32 ==>
      (b / 8) % 2 == 0 && 4 <= b / 8 && bytes + 8 <= 8 * (b / 8) < bytes + 24
    ensures Align(bytes + 8) < 32 ==> bytes < 25
  {
    var q := AlignMeans(bytes + 8);
    Eighth(q);
    hide Align;
  }

  function Without(L: seq<int>, x: int): (r: seq<int>)
    ensures forall y :: y in r <==> y in L && y != x
    ensures |r| <= |L|
  {
    if L == [] then [] else if L[0] == x then Without(L[1..], x) else [L[0]] + Without(L[1..], x)
  }

  /** Removing the element at index k of a list without repetitions. */
  lemma {:induction false} WithoutAt(L: seq<int>, k: nat)
    requires NoDup(L) && k < |L|
    ensures Without(L, L[k]) == L[..k] + L[k+1..]
  {
    if k == 0 {
      WithoutAbsent(L[1..], L[0]);
    } else {
      WithoutAt(L[1..], k - 1);
      assert L[1..][k-1] == L[k];
      assert L[..k] + L[k+1..] == [L[0]] + (L[1..][..k-1] + L[1..][k..]);
    }
  }

  lemma {:induction false} WithoutAbsent(L: seq<int>, x: int)
    requires x !in L
    ensures Without(L, x) == L
  {
    if L != [] { WithoutAbsent(L[1..], x); }
  }

  lemma {:induction false} WithoutNoDup(L: seq<int>, x: int)
    requires NoDup(L)
    ensures NoDup(Without(L, x))
  {
    if L != [] {
      WithoutNoDup(L[1..], x);
      var r := Without(L[1..], x);
      forall j | 0 <= j < |r| ensures r[j] != L[0] {
        assert r[j] in r && r[j] in L[1..];
      }
    }
  }

  /** The first block of the list that can hold `need` words; |L| when there is none. */
  function FirstFit(B: Blocks, L: seq<int>, need: nat): (k: nat)
    requires forall i :: 0 <= i < |L| ==> L[i] in B
    ensures k <= |L|
    ensures k < |L| ==> B[L[k]].size >= need
    ensures forall i :: 0 <= i < k ==> B[L[i]].size < need
  {
    if L == [] || B[L[0]].size >= need then 0 else 1 + FirstFit(B, L[1..], need)
  }

  /** Serving `need` words from free block b: the whole block when at most 32 bytes would remain,
      otherwise its right part. Returns the header of the block handed out. */
  function Place(B: Blocks, L: seq<int>, b: int, need: nat): (r: (Blocks, seq<int>, int))
    requires b in B && need <= B[b].size && b + B[b].size in B
  {
    var size := B[b].size;
    var n := b + size;
    if 8 * (size - need) <= 32 || size == need then
      (B[b := B[b].(used := true)], Without(L, b), b)
    else
      var a := n - need;
      (Split(B, b, a), L, a)
  }

  /** Block b cut at a; the right part is in use. */
  function Split(B: Blocks, b: int, a: int): Blocks
    requires b in B && b + B[b].size in B && b <= a <= b + B[b].size
  {
    var n := b + B[b].size;
    B[b := B[b].(size := a - b)][a := Block(n - a, true, b)][n := B[n].(left := a)]
  }

  /** Growing the heap: the old epilogue word becomes the header of the new block. */
  function Extend(B: Blocks, end: int, need: nat): Blocks
    requires end in B
  {
    B[end := Block(need, true, B[end].left)][end + need := Block(0, true, end)]
  }

  /** The bounds test that `coalesce` makes on a neighbour's header, in bytes from the heap start.
      mm_heap_hi is the byte before the break, and 7 words are subtracted from it. */
  predicate InBounds(h: int, end: int) {
    8 * h >= 8 && 8 * h < 8 * (end + 1) - 1 - 56
  }

  /** Where the merged block starts, and where it ends. */
  function MergeLo(B: Blocks, s: int): int
    requires s in B
  {
    if B[s].left in B && !B[B[s].left].used then B[s].left else s
  }

  function MergeHi(B: Blocks, s: int, end: int): int
    requires s in B && s + B[s].size in B
  {
    var n := s + B[s].size;
    if InBounds(n, end) && !B[n].used then n + B[n].size else n
  }

  /** A free left neighbour of s has a used block on its own left. */
  ghost predicate MergeSafe(B: Blocks, s: int)
    requires s in B
  {
    B[s].left in B && !B[B[s].left].used ==> LeftUsed(B, B[s].left)
  }

  /** One free block from lo to hi in place of all blocks between. */
  function Collapse(B: Blocks, lo: int, hi: int): Blocks
    requires lo in B && hi in B && lo < hi
  {
    map t | t in B && !(lo < t < hi) ::
      if t == lo then Block(hi - lo, false, B[lo].left)
      else if t == hi then B[hi].(left := lo) else B[t]
  }

  function Release(B: Blocks, s: int): Blocks
    requires s in B
  {
    B[s := B[s].(used := false)]
  }

  /** Freeing block s, coalescing included. */
  ghost function Freed(B: Blocks, L: seq<int>, end: int, s: int): (Blocks, seq<int>)
    requires Tiled(B, end) && s in B && s != end
  {
    assert Joined(B, end, s);
    var lo, hi := MergeLo(B, s), MergeHi(B, s, end);
    MergeEnds(B, end, s);
    (Collapse(Release(B, s), lo, hi), [lo] + Unmerged(L, s, s + B[s].size, lo, hi))
  }

  /** The list without the neighbours of s that are merged; n is where s ends. */
  function Unmerged(L: seq<int>, s: int, n: int, lo: int, hi: int): seq<int> {
    var L1 := if lo != s then Without(L, lo) else L;
    if hi != n then Without(L1, n) else L1
  }

  lemma MergeEnds(B: Blocks, end: int, s: int)
    requires Tiled(B, end) && s in B && s != end
    ensures Joined(B, end, s)
    ensures var lo, hi := MergeLo(B, s), MergeHi(B, s, end);
            lo in B && hi in B && lo <= s < s + B[s].size <= hi <= end
  {
    assert Joined(B, end, s) && (0 in B ==> Joined(B, end, 0));
    var n := s + B[s].size;
    assert Joined(B, end, n);
    if n != end { assert Joined(B, end, n + B[n].size); }
  }

  // ---------- Every operation keeps the heap well formed ----------

  lemma SplitJoined(B: Blocks, end: int, b: int, a: int, h: int)
    requires Tiled(B, end) && b in B && b != end && Joined(B, end, b) && a !in B
    requires b + MIN_BLOCK <= a && a + MIN_BLOCK <= b + B[b].size && a % 2 == 1
    requires h in Split(B, b, a)
    ensures Joined(Split(B, b, a), end, h)
  {
    if h == a { assert Joined(B, end, b + B[b].size); } else { assert Joined(B, end, h); }
  }

  lemma SplitBefore(B: Blocks, end: int, b: int, a: int, h: int, t: int)
    requires Tiled(B, end) && b in B && b != end && Joined(B, end, b) && a !in B
    requires b < a < b + B[b].size
    requires h in Split(B, b, a) && t in Split(B, b, a) && h < t
    ensures Before(Split(B, b, a), h, t)
  {
    assert h in B && t in B ==> Before(B, h, t);
    assert h in B && h < b ==> Before(B, h, b);
    assert h in B && b < h ==> Before(B, b, h);
    assert t in B && b < t ==> Before(B, b, t);
  }

  lemma SplitTiled(B: Blocks, end: int, b: int, a: int)
    requires Tiled(B, end) && b in B && b != end && Joined(B, end, b)
    requires b + MIN_BLOCK <= a && a + MIN_BLOCK <= b + B[b].size && a % 2 == 1
    ensures Tiled(Split(B, b, a), end)
  {
    var C := Split(B, b, a);
    assert Joined(B, end, b + B[b].size) && Joined(B, end, 1) && Joined(B, end, end);
    assert a !in B by { assert a in B ==> Before(B, b, a); }
    forall h | h in C ensures Joined(C, end, h) { SplitJoined(B, end, b, a, h); }
    forall h, t | h in C && t in C && h < t ensures Before(C, h, t) { SplitBefore(B, end, b, a, h, t); }
  }

  lemma UseTiled(B: Blocks, end: int, b: int, u: bool)
    requires Tiled(B, end) && b in B && b != end
    ensures Tiled(B[b := B[b].(used := u)], end)
  {
    var C := B[b := B[b].(used := u)];
    forall h | h in C ensures Joined(C, end, h) { assert Joined(B, end, h); }
    forall h, t | h in C && t in C && h < t ensures Before(C, h, t) { assert Before(B, h, t); }
  }

  lemma AboveEnd(B: Blocks, end: int, h: int)
    requires Tiled(B, end) && h > end
    ensures h !in B
  {
    assert h in B ==> Joined(B, end, h);
  }

  lemma ExtendTiled(B: Blocks, end: int, need: nat)
    requires Tiled(B, end) && MIN_BLOCK <= need && need % 2 == 0
    ensures Tiled(Extend(B, end, need), end + need)
  {
    var C := Extend(B, end, need);
    assert Joined(B, end, end);
    AboveEnd(B, end, end + need);
    forall h | h in C ensures Joined(C, end + need, h) {
      if h in B { assert Joined(B, end, h); }
    }
    forall h, t | h in C && t in C && h < t ensures Before(C, h, t) { ExtendBefore(B, end, need, h, t); }
  }

  lemma ExtendBefore(B: Blocks, end: int, need: nat, h: int, t: int)
    requires Tiled(B, end) && MIN_BLOCK <= need && need % 2 == 0
    requires h in Extend(B, end, need) && t in Extend(B, end, need) && h < t
    ensures Before(Extend(B, end, need), h, t)
  {
    AboveEnd(B, end, end + need);
    assert h in B ==> Joined(B, end, h);
    assert t in B ==> Joined(B, end, t);
    assert h in B && t in B ==> Before(B, h, t);
    assert h in B && h < end ==> Before(B, h, end);
  }

  lemma CollapseTiled(B: Blocks, end: int, lo: int, hi: int)
    requires Tiled(B, end) && lo in B && hi in B && lo < hi
    ensures Tiled(Collapse(B, lo, hi), end)
  {
    var C := Collapse(B, lo, hi);
    assert Joined(B, end, lo) && Joined(B, end, hi) && Before(B, lo, hi) && Joined(B, end, 1);
    assert 1 in C && end in C by { assert Joined(B, end, end); }
    hide Joined, Before;
    forall h | h in C ensures Joined(C, end, h) { CollapseJoined(B, end, lo, hi, h); }
    forall h, t | h in C && t in C && h < t ensures Before(C, h, t) { CollapseBefore(B, end, lo, hi, h, t); }
  }

  lemma CollapseBefore(B: Blocks, end: int, lo: int, hi: int, h: int, t: int)
    requires Tiled(B, end) && lo in B && hi in B && lo < hi
    requires h in Collapse(B, lo, hi) && t in Collapse(B, lo, hi) && h < t
    ensures Before(Collapse(B, lo, hi), h, t)
  {
    assert Before(B, h, t);
    assert Joined(B, end, lo) && Joined(B, end, hi);
  }

  lemma CollapseJoined(B: Blocks, end: int, lo: int, hi: int, h: int)
    requires Tiled(B, end) && lo in B && hi in B && lo < hi && h in Collapse(B, lo, hi)
    ensures Joined(Collapse(B, lo, hi), end, h)
  {
    var C := Collapse(B, lo, hi);
    assert Joined(B, end, lo) && Joined(B, end, hi) && Before(B, lo, hi);
    assert Joined(B, end, h);
    if h != end && h < lo { assert Before(B, h, lo); }
    if h != 1 && h > hi {
      var l := B[h].left;
      assert Before(B, hi, h);
      assert l < hi ==> Before(B, l, hi);
    }
  }

  lemma PlaceWellFormed(B: Blocks, L: seq<int>, end: int, b: int, need: nat)
    requires WellFormed(B, L, end) && b in L && MIN_BLOCK <= need <= B[b].size && need % 2 == 0
    ensures Joined(B, end, b)
    ensures var (B', L', a) := Place(B, L, b, need);
            WellFormed(B', L', end) && a in B' && B'[a].used && B'[a].size >= need && a != end
  {
    assert Joined(B, end, b);
    var (B', L', a) := Place(B, L, b, need);
    WithoutNoDup(L, b);
    if a == b {
      UseTiled(B, end, b, true);
    } else {
      SplitTiled(B, end, b, a);
      assert a !in B by { assert a in B ==> Before(B, b, a); }
      assert Joined(B, end, b + B[b].size);
    }
  }

  lemma ExtendWellFormed(B: Blocks, L: seq<int>, end: int, need: nat)
    requires WellFormed(B, L, end) && MIN_BLOCK <= need && need % 2 == 0
    ensures WellFormed(Extend(B, end, need), L, end + need)
  {
    ExtendTiled(B, end, need);
    assert Joined(B, end, end);
    AboveEnd(B, end, end + need);
  }

  /** The list names block h after a free exactly if h is free then. */
  lemma FreeLists(B: Blocks, L: seq<int>, end: int, s: int, h: int)
    requires WellFormed(B, L, end) && s in B && s != end && B[s].used
    ensures var (C, L') := Freed(B, L, end, s); h in L' <==> h in C && !C[h].used
  {
    MergeEnds(B, end, s);
    assert Joined(B, end, s + B[s].size);
    if h in B && MergeLo(B, s) < h < MergeHi(B, s, end) { MergedInside(B, end, s, h); }
  }

  lemma FreeWellFormed(B: Blocks, L: seq<int>, end: int, s: int)
    requires WellFormed(B, L, end) && s in B && s != end && B[s].used
    ensures var (B', L') := Freed(B, L, end, s); WellFormed(B', L', end)
  {
    MergeEnds(B, end, s);
    var lo, hi := MergeLo(B, s), MergeHi(B, s, end);
    var n := s + B[s].size;
    UseTiled(B, end, s, false);
    CollapseTiled(Release(B, s), end, lo, hi);
    var (C, L') := Freed(B, L, end, s);
    WithoutNoDup(L, lo);
    WithoutNoDup(if lo != s then Without(L, lo) else L, n);
    assert lo !in Unmerged(L, s, n, lo, hi);
    hide Tiled, Joined, Before, Collapse;
    forall h ensures h in L' <==> h in C && !C[h].used { FreeLists(B, L, end, s, h); }
  }

  /** The only headers strictly inside the merged range are s and its right neighbour. */
  lemma MergedInside(B: Blocks, end: int, s: int, h: int)
    requires Tiled(B, end) && s in B && s != end && Joined(B, end, s)
    requires h in B && MergeLo(B, s) < h < MergeHi(B, s, end)
    ensures h == s || (h == s + B[s].size && !B[h].used)
  {
    var n := s + B[s].size;
    assert Joined(B, end, n);
    if h < s { assert Before(B, MergeLo(B, s), h); }
    else { assert Before(B, s, h) || s == h; assert Before(B, n, h) || h <= n; }
  }

  // ---------- Coalescing ----------

  lemma PlaceCoalesced(B: Blocks, L: seq<int>, end: int, b: int, need: nat)
    requires WellFormed(B, L, end) && Coalesced(B) && b in L && MIN_BLOCK <= need <= B[b].size
    requires Joined(B, end, b) && need % 2 == 0
    ensures Coalesced(Place(B, L, b, need).0)
  {
    var (C, _, a) := Place(B, L, b, need);
    if a != b { assert a !in B by { assert a in B ==> Before(B, b, a); } }
    forall h | h in C && !C[h].used ensures LeftUsed(C, h) {
      assert Joined(B, end, h) && LeftUsed(B, h);
    }
  }

  lemma ExtendCoalesced(B: Blocks, L: seq<int>, end: int, need: nat)
    requires WellFormed(B, L, end) && Coalesced(B)
    requires MIN_BLOCK <= need && need % 2 == 0
    ensures Coalesced(Extend(B, end, need))
  {
    var C := Extend(B, end, need);
    AboveEnd(B, end, end + need);
    forall h | h in C && !C[h].used ensures LeftUsed(C, h) {
      assert Joined(B, end, h) && LeftUsed(B, h);
    }
  }

  /** The right neighbour of s is free but too close to the break for `coalesce` to take it. */
  predicate SmallFreeLast(B: Blocks, end: int, s: int)
    requires s in B
  {
    var n := s + B[s].size;
    n in B && !B[n].used && n + B[n].size == end && B[n].size < SMALLEST_MERGEABLE_LAST
  }

  /** The bounds test stops a merge to the right exactly at a last block under 64 bytes... */
  lemma RightTestFailsOnlyOnSmallLast(B: Blocks, end: int, s: int)
    requires Tiled(B, end) && s in B && s != end && Joined(B, end, s)
    requires !B[s + B[s].size].used
    ensures !InBounds(s + B[s].size, end) <==> SmallFreeLast(B, end, s)
  {
    var n := s + B[s].size;
    assert Joined(B, end, n) && Joined(B, end, n + B[n].size);
    if n + B[n].size != end { assert Joined(B, end, n + B[n].size + B[n + B[n].size].size); }
  }

  /** ... and never stops a merge to the left. */
  lemma LeftTestPasses(B: Blocks, end: int, s: int)
    requires Tiled(B, end) && s in B && s != end && s != 1 && Joined(B, end, s)
    ensures InBounds(B[s].left, end)
  {
    assert Joined(B, end, B[s].left) && Joined(B, end, s + B[s].size);
  }

  /** Freeing keeps the heap coalesced if and only if the block to the right is not a free last block
      of 32 or 48 bytes. */
  lemma FreeCoalescedIff(B: Blocks, L: seq<int>, end: int, s: int)
    requires WellFormed(B, L, end) && Coalesced(B) && s in B && s != end && B[s].used
    ensures Coalesced(Freed(B, L, end, s).0) <==> !SmallFreeLast(B, end, s)
  {
    MergeEnds(B, end, s);
    var n := s + B[s].size;
    var lo, hi := MergeLo(B, s), MergeHi(B, s, end);
    var C := Freed(B, L, end, s).0;
    assert Joined(B, end, n);
    if !B[n].used { RightTestFailsOnlyOnSmallLast(B, end, s); }
    if SmallFreeLast(B, end, s) {
      assert hi == n && C[n].left == lo && !LeftUsed(C, n);
    } else {
      forall h | h in C && !C[h].used ensures LeftUsed(C, h) {
        assert Joined(B, end, h) && LeftUsed(B, h);
        if h == lo { LoLeftUsed(B, end, s); CoalescedIsMergeSafe(B, s); }
        else if h == hi { HiUsed(B, end, s); }
        else if lo < B[h].left < hi { LeftOutside(B, end, lo, hi, h); }
      }
    }
  }

  lemma LeftOutside(B: Blocks, end: int, lo: int, hi: int, h: int)
    requires Tiled(B, end) && lo in B && hi in B && lo < hi && h in B && (h < lo || h > hi)
    ensures !(lo <= B[h].left < hi)
  {
    assert Joined(B, end, h);
    var l := B[h].left;
    assert Before(B, l, hi) || l >= hi;
    assert Before(B, l, lo) || l >= lo;
    assert Before(B, lo, hi);
  }

  lemma LoLeftUsed(B: Blocks, end: int, s: int)
    requires Tiled(B, end) && s in B && s != end
    ensures var lo := MergeLo(B, s); lo in B && (LeftUsed(B, lo) <==> MergeSafe(B, s)) && (B[lo].left in B ==> B[lo].left < lo)
  {
    var lo := MergeLo(B, s);
    assert Joined(B, end, s) && Joined(B, end, lo);
    assert 0 !in B by { assert 0 in B ==> Joined(B, end, 0); }
  }

  /** In a coalesced heap every block can be freed. */
  lemma CoalescedIsMergeSafe(B: Blocks, s: int)
    requires Coalesced(B) && s in B
    ensures MergeSafe(B, s)
  {
  }

  lemma HiUsed(B: Blocks, end: int, s: int)
    requires Tiled(B, end) && Coalesced(B) && s in B && s != end && Joined(B, end, s)
    requires !SmallFreeLast(B, end, s)
    ensures var hi := MergeHi(B, s, end); hi in B && B[hi].used
  {
    var n := s + B[s].size;
    assert Joined(B, end, n);
    if !B[n].used {
      RightTestFailsOnlyOnSmallLast(B, end, s);
      assert Joined(B, end, n + B[n].size) && (B[n + B[n].size].used || LeftUsed(B, n + B[n].size));
    }
  }

  // ---------- Calls ----------

  datatype State = State(blocks: Blocks, list: seq<int>, end: int) {
    ghost predicate Valid() { WellFormed(blocks, list, end) }

    /** A payload pointer that malloc handed out and that was not freed since. */
    ghost predicate Live(p: int) { p - 1 in blocks && blocks[p - 1].used && p - 1 != end }
  }

  lemma ListedAreBlocks(st: State)
    requires st.Valid()
    ensures forall i {:trigger st.list[i]} :: 0 <= i < |st.list| ==> st.list[i] in st.blocks && st.list[i] in st.list
  {
    forall i {:trigger st.list[i]} | 0 <= i < |st.list| ensures st.list[i] in st.blocks && st.list[i] in st.list {
      var x := st.list[i];
      assert x in st.list;
      assert x in st.blocks;
    }
  }

  ghost function Malloced(st: State, bytes: nat, limit: nat): (r: (State, int))
    requires st.Valid()
    ensures r.0.Valid()
  {
    if bytes == 0 then (st, 0) else
      var need := Need(bytes);
      ListedAreBlocks(st);
      var k := FirstFit(st.blocks, st.list, need);
      if k < |st.list| then
        PlaceWellFormed(st.blocks, st.list, st.end, st.list[k], need);
        var (B, L, a) := Place(st.blocks, st.list, st.list[k], need);
        (State(B, L, st.end), a + 1)
      else if st.end + 1 + need <= limit then
        ExtendWellFormed(st.blocks, st.list, st.end, need);
        (State(Extend(st.blocks, st.end, need), st.list, st.end + need), st.end + 1)
      else (st, 0)
  }

  ghost function FreedState(st: State, p: int): (r: State)
    requires st.Valid() && (p != 0 ==> st.Live(p))
    ensures r.Valid()
  {
    if p == 0 then st else
      FreeWellFormed(st.blocks, st.list, st.end, p - 1);
      var (B, L) := Freed(st.blocks, st.list, st.end, p - 1);
      State(B, L, st.end)
  }

  /** The old block is freed whether or not the new one could be had. */
  ghost function Realloced(st: State, p: int, bytes: nat, limit: nat): (r: (State, int))
    requires st.Valid() && (p != 0 ==> st.Live(p))
    ensures r.0.Valid()
  {
    if p == 0 then Malloced(st, bytes, limit)
    else if bytes == 0 then (FreedState(st, p), 0)
    else
      MallocKeepsLive(st, bytes, limit, p);
      var (st', q) := Malloced(st, bytes, limit);
      (FreedState(st', p), q)
  }

  /** malloc leaves every live block where it is and as it is, and hands out a block that was not live. */
  lemma MallocKeepsLive(st: State, bytes: nat, limit: nat, p: int)
    requires st.Valid() && st.Live(p)
    ensures var (st', q) := Malloced(st, bytes, limit);
            st'.Live(p) && st'.blocks[p - 1].size == st.blocks[p - 1].size && q != p && p >= 2
  {
    assert Joined(st.blocks, st.end, p - 1);
    if bytes != 0 {
      var need := Need(bytes);
      ListedAreBlocks(st);
      var k := FirstFit(st.blocks, st.list, need);
      if k < |st.list| {
        var b := st.list[k];
        assert b in st.list && Joined(st.blocks, st.end, b);
        assert Before(st.blocks, b, p - 1) || p - 1 < b;
      } else {
        AboveEnd(st.blocks, st.end, st.end + need);
      }
    }
  }

  /** A successful malloc hands out a block with room for the request. */
  lemma MallocHandsOut(st: State, bytes: nat, limit: nat)
    requires st.Valid()
    ensures var (st', q) := Malloced(st, bytes, limit);
            && (q != 0 ==> st'.Live(q) && 8 * (st'.blocks[q - 1].size - 1) >= bytes && !st.Live(q))
            && (q == 0 ==> st' == st) && q >= 0
  {
    if bytes != 0 {
      var need := Need(bytes);
      ListedAreBlocks(st);
      var k := FirstFit(st.blocks, st.list, need);
      if k < |st.list| {
        var b := st.list[k];
        assert b in st.list && Joined(st.blocks, st.end, b);
        PlaceWellFormed(st.blocks, st.list, st.end, b, need);
        var a := Place(st.blocks, st.list, b, need).2;
        assert a in st.blocks ==> Before(st.blocks, b, a) || a == b;
      }
    }
  }

  lemma MallocKeepsCoalesced(st: State, bytes: nat, limit: nat)
    requires st.Valid() && Coalesced(st.blocks)
    ensures Coalesced(Malloced(st, bytes, limit).0.blocks)
  {
    if bytes != 0 {
      var need := Need(bytes);
      ListedAreBlocks(st);
      var k := FirstFit(st.blocks, st.list, need);
      if k < |st.list| {
        PlaceWellFormed(st.blocks, st.list, st.end, st.list[k], need);
        PlaceCoalesced(st.blocks, st.list, st.end, st.list[k], need);
      } else {
        ExtendCoalesced(st.blocks, st.list, st.end, need);
      }
    }
  }
}
