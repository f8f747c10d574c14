/** How a block structure is written into memory words: boundary tags and the links of the free list. */
module Memory {
  import opened Words
  import opened Layout

  type Mem = seq<word>

  // ---------- Boundary tags ----------

  /** The header of h gives its size, its state and its left neighbour's; a free block repeats its size
      in its last word. */
  ghost predicate TagOk(m: Mem, B: Blocks, h: int)
    requires h in B
  {
    && 0 <= h < |m| && B[h].size <= MAX_HEAP_WORDS
    && m[h] == Tag(B[h].size, B[h].used, LeftUsed(B, h))
    && (!B[h].used ==> 0 <= h + B[h].size - 1 < |m| && m[h + B[h].size - 1] == 8 * B[h].size)
  }

  ghost predicate Tagged(m: Mem, B: Blocks, end: int) {
    && 0 <= end < |m| <= MAX_HEAP_WORDS && m[0] == 1
    && (forall h {:trigger TagOk(m, B, h)} :: h in B ==> TagOk(m, B, h))
  }

  // ---------- Links ----------

  /** The element at index i; 0, the null pointer, outside the list. */
  function At(L: seq<int>, i: int): int {
    if 0 <= i < |L| then L[i] else 0
  }

  /** Words 1 and 2 of a free block hold next_node and prev_node. */
  ghost predicate NodeOk(m: Mem, L: seq<int>, i: int)
    requires 0 <= i < |L|
  {
    && 1 <= L[i] && L[i] + 2 < |m|
    && m[L[i] + 1] == At(L, i + 1) && m[L[i] + 2] == At(L, i - 1)
  }

  ghost predicate Linked(m: Mem, first: int, L: seq<int>) {
    && first == At(L, 0)
    && (forall i {:trigger NodeOk(m, L, i)} :: 0 <= i < |L| ==> NodeOk(m, L, i))
  }

  /** The link words of any two listed blocks are apart. */
  ghost predicate Spaced(L: seq<int>, bound: int) {
    && (forall x {:trigger x in L} :: x in L ==> 1 <= x && x + 3 < bound)
    && (forall x, y {:trigger x in L, y in L} :: x in L && y in L && x != y ==> x + 4 <= y || y + 4 <= x)
  }

  /** Only link words of blocks in F differ between m and m'. */
  ghost predicate LinksChanged(m: Mem, m': Mem, F: set<int>) {
    && |m| == |m'|
    && (forall j {:trigger m'[j]} :: 0 <= j < |m| && m'[j] != m[j] ==> j - 1 in F || j - 2 in F)
  }

  ghost function FreeOf(B: Blocks): set<int> {
    set h | h in B && !B[h].used
  }

  lemma FreeSpaced(B: Blocks, L: seq<int>, end: int)
    requires Tiled(B, end) && forall x {:trigger x in L} :: x in L ==> x in B && !B[x].used
    ensures Spaced(L, end)
  {
    forall x {:trigger x in L} | x in L ensures 1 <= x && x + 3 < end { FreeFits(B, end, x); }
    forall x, y {:trigger x in L, y in L} | x in L && y in L && x != y ensures x + 4 <= y || y + 4 <= x {
      FreeFits(B, end, x);
      FreeFits(B, end, y);
      assert Before(B, x, y) || Before(B, y, x);
    }
  }

  lemma FreeFits(B: Blocks, end: int, x: int)
    requires Tiled(B, end) && x in B && !B[x].used
    ensures Joined(B, end, x) && x != end && 1 <= x && B[x].size >= 4 && x + B[x].size <= end
  {
    assert Joined(B, end, x) && Joined(B, end, x + B[x].size);
  }

  // ---------- What link updates and tag updates leave alone ----------

  lemma TagsSurviveLinks(m: Mem, m': Mem, B: Blocks, end: int)
    requires Tiled(B, end) && Tagged(m, B, end) && LinksChanged(m, m', FreeOf(B))
    ensures Tagged(m', B, end)
  {
    assert m'[0] == m[0] by { NotALink(B, end, 0); }
    forall h | h in B ensures TagOk(m', B, h) {
      assert TagOk(m, B, h) && Joined(B, end, h);
      HeaderNotALink(B, end, h);
      assert m'[h] == m[h];
      if !B[h].used { assert m'[h + B[h].size - 1] == m[h + B[h].size - 1]; }
    }
  }

  lemma NotALink(B: Blocks, end: int, j: int)
    requires Tiled(B, end) && j <= 0
    ensures j - 1 !in FreeOf(B) && j - 2 !in FreeOf(B)
  {
    assert j - 1 in B ==> Joined(B, end, j - 1);
    assert j - 2 in B ==> Joined(B, end, j - 2);
  }

  /** Headers and footers are not link words. */
  lemma HeaderNotALink(B: Blocks, end: int, h: int)
    requires Tiled(B, end) && h in B
    ensures h - 1 !in FreeOf(B) && h - 2 !in FreeOf(B)
    ensures !B[h].used ==> h + B[h].size - 2 !in FreeOf(B) && h + B[h].size - 3 !in FreeOf(B)
  {
    InsideNotFree(B, end, h);
    forall x | x in FreeOf(B) && x < h ensures x + 4 <= h {
      FreeFits(B, end, x);
      assert Before(B, x, h);
    }
    if !B[h].used { FreeFits(B, end, h); }
  }

  lemma InsideNotFree(B: Blocks, end: int, h: int)
    requires Tiled(B, end) && h in B
    ensures forall x {:trigger x in FreeOf(B)} :: h < x < h + B[h].size ==> x !in FreeOf(B)
  {
    forall x {:trigger x in FreeOf(B)} | x in FreeOf(B) && h < x ensures h + B[h].size <= x {
      assert Before(B, h, x);
    }
  }

  /** Every payload word of block h is the same in m and m'. */
  ghost predicate SamePayload(m: Mem, m': Mem, B: Blocks, h: int)
    requires h in B
  {
    forall j {:trigger m'[j]} :: h < j < h + B[h].size && 0 <= j < |m| && j < |m'| ==> m'[j] == m[j]
  }

  /** The payloads of all used blocks, except the one at header `except`. */
  ghost predicate KeepsPayloads(m: Mem, m': Mem, B: Blocks, except: int) {
    forall h {:trigger SamePayload(m, m', B, h)} ::
      h in B && B[h].used && h != except ==> SamePayload(m, m', B, h)
  }

  lemma PayloadsSurviveLinks(m: Mem, m': Mem, B: Blocks, end: int)
    requires Tiled(B, end) && LinksChanged(m, m', FreeOf(B))
    ensures KeepsPayloads(m, m', B, 0)
  {
    forall h | h in B && B[h].used ensures SamePayload(m, m', B, h) {
      InsideNotFree(B, end, h);
      HeaderNotALink(B, end, h);
      forall j {:trigger m'[j]} | h < j < h + B[h].size && 0 <= j < |m| ensures m'[j] == m[j] {
        assert j - 1 !in FreeOf(B) by { assert j - 1 == h || h < j - 1 < h + B[h].size; }
        assert j - 2 !in FreeOf(B) by { assert j - 2 == h - 1 || j - 2 == h || h < j - 2 < h + B[h].size; }
      }
    }
  }

  /** Writes outside its link words leave a list linked. */
  lemma LinksSurvive(m: Mem, m': Mem, first: int, L: seq<int>)
    requires Linked(m, first, L) && |m| == |m'|
    requires forall x {:trigger x in L} :: x in L && 1 <= x && x + 2 < |m| ==> m'[x + 1] == m[x + 1] && m'[x + 2] == m[x + 2]
    ensures Linked(m', first, L)
  {
    forall i | 0 <= i < |L| ensures NodeOk(m', L, i) { assert NodeOk(m, L, i) && L[i] in L; }
  }

  // ---------- List surgery ----------

  /** The memory after unlinking the element at index k; the two writes touch its neighbours only. */
  lemma UnlinkKeepsLinked(m: Mem, m': Mem, first: int, first': int, L: seq<int>, k: nat)
    requires Linked(m, first, L) && Spaced(L, |m|) && NoDup(L) && k < |L| && |m'| == |m|
    requires first' == if k == 0 then At(L, 1) else first
    requires forall j {:trigger m'[j]} :: 0 <= j < |m| ==>
      m'[j] == if k > 0 && j == L[k-1] + 1 then At(L, k + 1)
               else if k + 1 < |L| && j == L[k+1] + 2 then At(L, k - 1) else m[j]
    ensures Linked(m', first', L[..k] + L[k+1..])
  {
    var R := L[..k] + L[k+1..];
    forall i | 0 <= i < |R| ensures NodeOk(m', R, i) {
      var o := if i < k then i else i + 1;
      assert NodeOk(m, L, o) && R[i] == L[o] && L[o] in L;
      assert k > 0 ==> L[k-1] in L && (o != k - 1 ==> L[o] != L[k-1]);
      assert k + 1 < |L| ==> L[k+1] in L && (o != k + 1 ==> L[o] != L[k+1]);
    }
  }

  /** The memory after linking b in front. */
  lemma PushKeepsLinked(m: Mem, m': Mem, first: int, L: seq<int>, b: int)
    requires Linked(m, first, L) && |m'| == |m| && Spaced([b] + L, |m|) && b !in L && NoDup(L)
    requires forall j {:trigger m'[j]} :: 0 <= j < |m| ==>
      m'[j] == if j == b + 2 then 0 else if j == b + 1 then first
               else if L != [] && j == L[0] + 2 then b else m[j]
    ensures Linked(m', b, [b] + L)
  {
    var R := [b] + L;
    assert forall x :: x in L ==> x in R;
    forall i | 0 <= i < |R| ensures NodeOk(m', R, i) {
      assert R[i] in R && b in R;
      if i > 0 {
        assert NodeOk(m, L, i - 1) && R[i] == L[i-1] && L[i-1] in L;
        assert L[0] in R && (i > 1 ==> L[0] != L[i-1]);
      }
    }
  }

  // ---------- Tag updates ----------

  /** Headers, and footers of free blocks, of two different blocks are different words. */
  lemma TagWordsApart(B: Blocks, end: int, h: int, b: int)
    requires Tiled(B, end) && h in B && b in B && h != b
    ensures b <= h < b + B[b].size ==> false
    ensures !B[h].used ==> !(b <= h + B[h].size - 1 < b + B[b].size) && h + B[h].size - 1 != b
  {
    assert Before(B, h, b) || Before(B, b, h);
    if !B[h].used { FreeFits(B, end, h); }
  }

  /** Only the right neighbour has b on its left. */
  lemma OnlyRightNeighbour(B: Blocks, end: int, b: int, h: int)
    requires Tiled(B, end) && b in B && h in B && B[h].left == b
    ensures h == b + B[b].size
  {
    assert Joined(B, end, h) && Joined(B, end, b);
  }

  lemma TagsAfterUse(m: Mem, m': Mem, B: Blocks, end: int, b: int)
    requires Tiled(B, end) && Tagged(m, B, end) && b in B && !B[b].used && Joined(B, end, b) && b != end
    requires b + B[b].size < |m| && B[b].size <= MAX_HEAP_WORDS
    requires m' == m[b := Tag(B[b].size, true, LeftUsed(B, b))][b + B[b].size := TogglePrev(m[b + B[b].size])]
    ensures Tagged(m', B[b := B[b].(used := true)], end)
  {
    var C, n := B[b := B[b].(used := true)], b + B[b].size;
    forall h | h in C ensures TagOk(m', C, h) {
      assert TagOk(m, B, h) && Joined(B, end, h);
      if h != b { TagWordsApart(B, end, h, b); }
      if h != n {
        TagWordsApart(B, end, h, n);
        if B[h].left == b { OnlyRightNeighbour(B, end, b, h); }
      } else {
        TagBits(B[n].size, B[n].used, false);
      }
    }
    assert Joined(B, end, n);
  }

  lemma TagsAfterSplit(m: Mem, m': Mem, B: Blocks, end: int, b: int, a: int)
    requires Tiled(B, end) && Tagged(m, B, end) && b in B && !B[b].used && Joined(B, end, b) && b != end
    requires b + B[b].size < |m| && B[b].size <= MAX_HEAP_WORDS
    requires b + MIN_BLOCK <= a && a + MIN_BLOCK <= b + B[b].size
    requires var n := b + B[b].size;
      m' == m[b := Tag(a - b, false, LeftUsed(B, b))][a - 1 := 8 * (a - b)][a := Tag(n - a, true, false)][n := TogglePrev(m[n])]
    ensures Tagged(m', Split(B, b, a), end)
  {
    var C, n := Split(B, b, a), b + B[b].size;
    forall h | h in C ensures TagOk(m', C, h) {
      if h in B && h != b && h != n { TagAwayFromSplit(m, m', B, end, b, a, h); }
      else { TagAtSplit(m, m', B, end, b, a, h); }
    }
    assert Joined(B, end, n);
  }

  lemma TagAtSplit(m: Mem, m': Mem, B: Blocks, end: int, b: int, a: int, h: int)
    requires Tiled(B, end) && Tagged(m, B, end) && b in B && !B[b].used && Joined(B, end, b) && b != end
    requires b + B[b].size < |m| && B[b].size <= MAX_HEAP_WORDS
    requires b + MIN_BLOCK <= a && a + MIN_BLOCK <= b + B[b].size
    requires var n := b + B[b].size;
      m' == m[b := Tag(a - b, false, LeftUsed(B, b))][a - 1 := 8 * (a - b)][a := Tag(n - a, true, false)][n := TogglePrev(m[n])]
    requires h == b || h == a || h == b + B[b].size
    ensures h in Split(B, b, a) && TagOk(m', Split(B, b, a), h)
  {
    var n := b + B[b].size;
    assert TagOk(m, B, b) && TagOk(m, B, n) && Joined(B, end, n);
    NotInside(B, end, b, a);
    if h == n {
      TagBits(B[n].size, B[n].used, false);
      TagWordsApart(B, end, n, b);
    }
  }

  lemma TagAwayFromSplit(m: Mem, m': Mem, B: Blocks, end: int, b: int, a: int, h: int)
    requires Tiled(B, end) && Tagged(m, B, end) && b in B && Joined(B, end, b) && b != end
    requires b < a < b + B[b].size && h in B && h != b && h != b + B[b].size && |m'| == |m|
    requires forall j {:trigger m'[j]} :: 0 <= j < |m| && !(b <= j <= b + B[b].size) ==> m'[j] == m[j]
    ensures h in Split(B, b, a) && TagOk(m', Split(B, b, a), h)
  {
    assert TagOk(m, B, h) && Joined(B, end, h);
    TagWordsApart(B, end, h, b);
    TagWordsApart(B, end, h, b + B[b].size);
    if B[h].left == b { OnlyRightNeighbour(B, end, b, h); }
    NotInside(B, end, b, a);
  }

  lemma NotInside(B: Blocks, end: int, b: int, a: int)
    requires Tiled(B, end) && b in B && b < a < b + B[b].size
    ensures a !in B
  {
    assert a in B ==> Before(B, b, a);
  }

  lemma TagsAfterExtend(m: Mem, m': Mem, B: Blocks, end: int, need: nat)
    requires Tiled(B, end) && Tagged(m, B, end) && Joined(B, end, end)
    requires MIN_BLOCK <= need && end + need < |m|
    requires m' == m[end := Tag(need, true, LeftUsed(B, end))][end + need := 3]
    ensures Tagged(m', Extend(B, end, need), end + need)
  {
    var C := Extend(B, end, need);
    AboveEnd(B, end, end + need);
    forall h | h in C ensures TagOk(m', C, h) {
      if h in B {
        assert TagOk(m, B, h) && Joined(B, end, h);
        if h != end { TagWordsApart(B, end, h, end); FootInside(B, end, h); }
      }
    }
  }

  lemma FootInside(B: Blocks, end: int, h: int)
    requires Tiled(B, end) && h in B && h != end
    ensures h + B[h].size <= end && B[h].left != end
  {
    assert Joined(B, end, h) && Joined(B, end, h + B[h].size);
  }

  lemma TagsAfterRelease(m: Mem, m': Mem, B: Blocks, end: int, s: int)
    requires Tiled(B, end) && Tagged(m, B, end) && s in B && B[s].used && Joined(B, end, s) && s != end
    requires s + B[s].size < |m| && B[s].size <= MAX_HEAP_WORDS
    requires var n := s + B[s].size;
      m' == m[s := ClearAlloc(m[s])][n - 1 := 8 * B[s].size][n := ClearPrev(m[n])]
    ensures Tagged(m', Release(B, s), end)
  {
    var C, n := Release(B, s), s + B[s].size;
    forall h | h in C ensures TagOk(m', C, h) {
      assert TagOk(m, B, h) && Joined(B, end, h);
      TagBits(B[h].size, B[h].used, LeftUsed(B, h));
      if h != s { TagWordsApart(B, end, h, s); }
      if h != n {
        TagWordsApart(B, end, h, n);
        if B[h].left == s { OnlyRightNeighbour(B, end, s, h); }
      }
    }
    assert Joined(B, end, n);
  }

  /** All tags are right, but the one of free block x, which says that x's left neighbour is used. */
  ghost predicate MergeTagged(m: Mem, B: Blocks, end: int, x: int) {
    && 0 <= end < |m| <= MAX_HEAP_WORDS && m[0] == 1
    && (forall h {:trigger TagOk(m, B, h)} :: h in B && h != x ==> TagOk(m, B, h))
    && x in B && !B[x].used && 0 <= x < |m| && 0 <= B[x].size <= MAX_HEAP_WORDS && m[x] == Tag(B[x].size, false, true)
    && 0 <= x + B[x].size - 1 < |m| && m[x + B[x].size - 1] == 8 * B[x].size
  }

  /** That tag is right exactly if the neighbour is. */
  lemma MergeTaggedIff(m: Mem, B: Blocks, end: int, x: int)
    requires MergeTagged(m, B, end, x)
    ensures Tagged(m, B, end) <==> LeftUsed(B, x)
  {
    if Tagged(m, B, end) { assert TagOk(m, B, x); }
    if LeftUsed(B, x) { assert TagOk(m, B, x); }
  }

  lemma MergeTagsSurviveLinks(m: Mem, m': Mem, B: Blocks, end: int, x: int)
    requires Tiled(B, end) && MergeTagged(m, B, end, x) && LinksChanged(m, m', FreeOf(B))
    ensures MergeTagged(m', B, end, x)
  {
    assert m'[0] == m[0] by { NotALink(B, end, 0); }
    HeaderNotALink(B, end, x);
    assert m'[x] == m[x] && m'[x + B[x].size - 1] == m[x + B[x].size - 1];
    forall h | h in B && h != x ensures TagOk(m', B, h) {
      assert TagOk(m, B, h);
      HeaderNotALink(B, end, h);
      assert m'[h] == m[h];
      if !B[h].used { assert m'[h + B[h].size - 1] == m[h + B[h].size - 1]; }
    }
  }

  /** One header and one footer turn the free blocks from lo to hi into one. */
  lemma TagsAfterCollapse(m: Mem, m': Mem, B: Blocks, end: int, lo: int, hi: int)
    requires Tiled(B, end) && Tagged(m, B, end) && lo in B && hi in B && 1 <= lo < hi < |m|
    requires Joined(B, end, hi) && !LeftUsed(B, hi) && (B[lo].left in B ==> B[lo].left < lo)
    requires hi - lo >= MIN_BLOCK
    requires m' == m[lo := Tag(hi - lo, false, true)][hi - 1 := 8 * (hi - lo)]
    ensures MergeTagged(m', Collapse(B, lo, hi), end, lo)
  {
    var C := Collapse(B, lo, hi);
    assert Joined(B, end, lo);
    forall h | h in C && h != lo ensures TagOk(m', C, h) {
      assert TagOk(m, B, h) && Joined(B, end, h);
      if h != lo {
        assert Before(B, lo, h) || Before(B, h, lo);
        assert Before(B, hi, h) || h <= hi;
        if h != hi { LeftOutside(B, end, lo, hi, h); }
        if h < lo { FootInside(B, end, h); }
      }
    }
    assert Joined(B, end, end);
  }
}
