/** malloc, free and realloc over an array of words. Pointers are word indices; 0 is NULL. */
module Allocator {
  import opened Basics
  import opened Words
  import opened Layout
  import opened Memory

  class Heap {
    const mem: array<word>      // the whole region; mem.Length plays the part of mem_max_addr
    var brk: nat                // words below the break
    var freeBlock: int          // free_block_pointer

    ghost var blocks: Blocks    // the blocks from word 1 to the epilogue
    ghost var list: seq<int>    // the free list, in the order `search` meets it

    ghost predicate Valid()
      reads this, mem
    {
      Laid() && Tagged(mem[..], blocks, brk - 1)
    }

    /** The blocks tile the heap and the free list runs through the free ones. */
    ghost predicate Laid()
      reads this, mem
    {
      && brk <= mem.Length <= MAX_HEAP_WORDS
      && 1 <= brk && WellFormed(blocks, list, brk - 1)
      && Linked(mem[..], freeBlock, list)
    }

    /** The region is there, the heap is still empty: the state after mem_init. */
    constructor (maxWords: nat)
      requires maxWords <= MAX_HEAP_WORDS
      ensures mem.Length == maxWords && brk == 0 && fresh(mem)
    {
      mem := new word[maxWords](i => 0);
      brk, freeBlock := 0, 0;
    }

    /** mm_sbrk: the old break, or nothing when the region is exhausted; the heap never shrinks. */
    method Sbrk(words: int) returns (ok: bool, oldBrk: nat)
      modifies `brk
      ensures ok <==> 0 <= words && old(brk) + words <= mem.Length
      ensures oldBrk == old(brk)
      ensures brk == if ok then old(brk) + words else old(brk)
    {
      oldBrk := brk;
      ok := 0 <= words && brk + words <= mem.Length;
      if ok { brk := brk + words; }
    }

    method Init() returns (ok: bool)
      requires brk == 0 && mem.Length <= MAX_HEAP_WORDS
      modifies this, mem
      ensures ok <==> 514 <= mem.Length
      ensures ok ==> Valid() && brk == 514 && blocks == InitBlocks() && list == [1]
    {
      var start;
      ok, start := Sbrk((4096 + 16) / 8);
      if !ok { return; }
      mem[start] := 1;
      var b := start + 1;
      mem[b] := 4096;
      mem[b + 2] := 0;
      mem[b + 1] := 0;
      mem[b] := TogglePrev(mem[b]);
      freeBlock := b;
      mem[brk - 2] := 4096;
      mem[brk - 1] := 1;
      blocks, list := InitBlocks(), [1];
      InitIsWellFormed();
      InitIsRepresented(mem[..]);
    }

    /** remove_from_free_list; L is the list before. */
    method RemoveFromFreeList(b: int, ghost L: seq<int>)
      requires Linked(mem[..], freeBlock, L) && NoDup(L) && Spaced(L, mem.Length) && b in L
      modifies mem, `freeBlock
      ensures Linked(mem[..], freeBlock, Without(L, b))
      ensures LinksChanged(old(mem[..]), mem[..], set x | x in L)
    {
      ghost var m: Mem := mem[..];
      ghost var k :| 0 <= k < |L| && L[k] == b;
      assert NodeOk(m, L, k);
      assert k > 0 ==> L[k-1] in L;
      assert k + 1 < |L| ==> L[k+1] in L;
      var prev, next := mem[b + 2], mem[b + 1];
      if prev != 0 {
        mem[prev + 1] := next;
      } else {
        freeBlock := next;
      }
      if mem[b + 1] != 0 {
        mem[mem[b + 1] + 2] := mem[b + 2];
      }
      UnlinkKeepsLinked(m, mem[..], old(freeBlock), freeBlock, L, k);
      WithoutAt(L, k);
    }

    /** add_to_free_list */
    method AddToFreeList(b: int, ghost L: seq<int>)
      requires Linked(mem[..], freeBlock, L) && NoDup(L) && b !in L
      requires Spaced([b] + L, mem.Length) && mem.Length <= MAX_HEAP_WORDS
      modifies mem, `freeBlock
      ensures Linked(mem[..], freeBlock, [b] + L)
      ensures LinksChanged(old(mem[..]), mem[..], set x | x in [b] + L)
    {
      ghost var m: Mem := mem[..];
      assert b in [b] + L;
      assert L != [] ==> L[0] in [b] + L && NodeOk(m, L, 0);
      mem[b + 2] := 0;
      mem[b + 1] := freeBlock;
      if freeBlock != 0 {
        mem[freeBlock + 2] := b;
      }
      freeBlock := b;
      PushKeepsLinked(m, mem[..], old(freeBlock), L, b);
    }

    /** search: the first listed block with room for `need` words, 0 if there is none. */
    method Search(need: nat) returns (look: int)
      requires Valid()
      ensures forall i :: 0 <= i < |list| ==> list[i] in blocks
      ensures look == At(list, FirstFit(blocks, list, need))
    {
      hide PrevBit, SetAlloc, TogglePrev, ClearPrev, ClearAlloc, Joined, Before;
      look := freeBlock;
      ghost var k := 0;
      assert forall i :: 0 <= i < |list| ==> list[i] in list;
      assert list != [] ==> NodeOk(mem[..], list, 0);
      while look != 0
        invariant k <= |list| && look == At(list, k) && (look == 0 <==> k == |list|)
        invariant forall i :: 0 <= i < k ==> list[i] in blocks && blocks[list[i]].size < need
        decreases |list| - k
      {
        assert NodeOk(mem[..], list, k) && list[k] in list;
        assert TagOk(mem[..], blocks, look);
        TagBits(blocks[look].size, false, LeftUsed(blocks, look));
        if SizeBits(mem[look]) >= 8 * need {
          FirstFitIs(blocks, list, need, k);
          return;
        }
        assert k + 1 < |list| ==> NodeOk(mem[..], list, k + 1);
        look := mem[look + 1];
        k := k + 1;
      }
      FirstFitIs(blocks, list, need, k);
    }

    /** What `coalesce` starts from: s was released and put in front of the list L0 of the other free
        blocks; B0 is the layout before. */
    ghost predicate JustReleased(s: int, B0: Blocks, L0: seq<int>)
      reads this, mem
    {
      && 1 <= brk <= mem.Length <= MAX_HEAP_WORDS
      && WellFormed(B0, L0, brk - 1) && s in B0 && s != brk - 1 && B0[s].used
      && blocks == Release(B0, s) && list == [s] + L0
      && Tagged(mem[..], blocks, brk - 1) && Linked(mem[..], freeBlock, list)
    }

    /** The left step of `coalesce`: take a free left neighbour off the list. */
    method TakeLeft(s: int, ghost B0: Blocks, ghost L0: seq<int>) returns (merged: int, added: nat)
      requires JustReleased(s, B0, L0)
      modifies mem, `freeBlock
      ensures merged == MergeLo(B0, s) && added == 8 * (s - merged)
      ensures Linked(mem[..], freeBlock, [s] + WithoutLeft(L0, s, merged))
      ensures LinksChanged(old(mem[..]), mem[..], FreeOf(blocks))
    {
      ghost var end, B := brk - 1, blocks;
      ghost var m: Mem := mem[..];
      ReleasedFacts(m, B0, L0, end, s);
      merged, added := s, 0;
      var prevFree := !PrevBit(mem[s]);
      var prevSize := SizeBits(mem[s - 1]);
      var prevHeader := s - prevSize / 8;
      if !LeftUsed(B, s) { LeftTestPasses(B0, end, s); }
      if prevFree && 8 * prevHeader >= 8 && 8 * prevHeader < 8 * brk - 1 - 56 {
        RemoveFromFreeList(prevHeader, list);
        LinksWithin(m, mem[..], list, FreeOf(B));
        HeaderKept(m, mem[..], B, end, prevHeader);
        added := SizeBits(mem[prevHeader]);
        merged := prevHeader;
      }
    }

    /** The right step: take a free right neighbour off the list, unless it fails the bounds test. */
    method TakeRight(s: int, ghost B0: Blocks, ghost L0: seq<int>, ghost U: seq<int>) returns (added: nat)
      requires 1 <= brk <= mem.Length <= MAX_HEAP_WORDS
      requires WellFormed(B0, L0, brk - 1) && s in B0 && s != brk - 1 && B0[s].used
      requires blocks == Release(B0, s) && Tagged(mem[..], blocks, brk - 1)
      requires Linked(mem[..], freeBlock, [s] + U) && NoDup(U) && forall x :: x in U ==> x in L0
      requires s + B0[s].size in B0 && (!B0[s + B0[s].size].used ==> s + B0[s].size in U)
      modifies mem, `freeBlock
      ensures var n, hi := s + B0[s].size, MergeHi(B0, s, brk - 1);
        added == 8 * (hi - n) && Linked(mem[..], freeBlock, [s] + if hi != n then Without(U, n) else U)
      ensures LinksChanged(old(mem[..]), mem[..], FreeOf(blocks))
    {
      ghost var end, B := brk - 1, blocks;
      ghost var m: Mem := mem[..];
      ReleasedFacts(m, B0, L0, end, s);
      SubListFacts(B, [s] + U, [s] + L0, end);
      assert s !in L0;
      added := 0;
      var nextHeader := s + SizeBits(mem[s]) / 8;
      if 8 * nextHeader >= 8 && 8 * nextHeader < 8 * brk - 1 - 56 && !AllocBit(mem[nextHeader]) {
        RemoveFromFreeList(nextHeader, [s] + U);
        LinksWithin(m, mem[..], [s] + U, FreeOf(B));
        HeaderKept(m, mem[..], B, end, nextHeader);
        added := SizeBits(mem[nextHeader]);
      }
    }

    method WriteMergedTags(merged: nat, mergedSize: nat, ghost words: nat)
      requires mergedSize == 8 * words && 2 <= words && merged + words <= mem.Length <= MAX_HEAP_WORDS
      modifies mem
      ensures mem[..] == old(mem[..])[merged := Tag(words, false, true)][merged + words - 1 := 8 * words]
    {
      TagBits(words, false, false);
      hide PrevBit;
      mem[merged] := mergedSize;
      mem[merged] := TogglePrev(mem[merged]);
      mem[merged + mergedSize / 8 - 1] := mergedSize;
    }

    /** The last step: one header and one footer for the whole range, in front of the list. */
    method PutMerged(s: int, merged: int, mergedSize: nat, ghost hi: int, ghost U: seq<int>)
      requires 1 <= brk <= mem.Length <= MAX_HEAP_WORDS
      requires MergeRange(blocks, brk - 1, merged, hi, U) && mergedSize == 8 * (hi - merged)
      requires Tagged(mem[..], blocks, brk - 1) && Linked(mem[..], freeBlock, [s] + U)
      requires NoDup([s] + U) && Spaced([s] + U, brk - 1) && s in blocks && !blocks[s].used
      modifies mem, `freeBlock, `blocks, `list
      ensures Laid() && blocks == Collapse(old(blocks), merged, hi) && list == [merged] + U
      ensures MergeTagged(mem[..], blocks, brk - 1, merged)
      ensures KeepsPayloads(old(mem[..]), mem[..], old(blocks), 0)
    {
      hide TagOk, NodeOk, NoDup, KeepsPayloads;
      ghost var end, B := brk - 1, blocks;
      ghost var m1: Mem := mem[..];
      RemoveFromFreeList(s, [s] + U);
      DistinctHead(s, U);
      DistinctHead(merged, U);
      LinksWithin(m1, mem[..], [s] + U, FreeOf(B));
      ghost var m2: Mem := mem[..];
      TagsSurviveLinks(m1, m2, B, end);
      WriteMergedTags(merged, mergedSize, hi - merged);
      ghost var m3: Mem := mem[..];
      AfterMergeWrites(m2, m3, freeBlock, B, end, merged, hi, U);
      blocks, list := Collapse(B, merged, hi), [merged] + U;
      AddToFreeList(merged, U);
      LinksWithin(m3, mem[..], [merged] + U, FreeOf(B));
      LinksWithin(m3, mem[..], [merged] + U, FreeOf(blocks));
      MergeTagsSurviveLinks(m3, mem[..], blocks, end, merged);
      ThreePayloadSteps(m1, m2, m3, mem[..], B, end);
    }

    method Coalesce(s: int, ghost B0: Blocks, ghost L0: seq<int>)
      requires JustReleased(s, B0, L0)
      modifies mem, `freeBlock, `blocks, `list
      ensures Laid() && (blocks, list) == Freed(B0, L0, brk - 1, s)
      ensures Valid() <==> MergeSafe(B0, s)
      ensures KeepsPayloads(old(mem[..]), mem[..], B0, s)
    {
      hide TagOk, NodeOk, KeepsPayloads, LinksChanged, Spaced, Before, AllocBit, PrevBit, MergeRange, ListsFree, SamePayload, Linked, Tagged, Tiled, Coalesced, NoDup, Freed, Collapse, MergeTagged, MergeSafe;
      ghost var end, B := brk - 1, blocks;
      ghost var m: Mem := mem[..];
      MergeEnds(B0, end, s);
      ReleasedFacts(m, B0, L0, end, s);
      var currentSize := SizeBits(mem[s]);
      var merged, left := TakeLeft(s, B0, L0);
      ghost var m1: Mem := mem[..];
      TagsSurviveLinks(m, m1, B, end);
      WithoutLeftFacts(B0, L0, end, s);
      var right := TakeRight(s, B0, L0, WithoutLeft(L0, s, merged));
      ghost var m2: Mem := mem[..];
      TagsSurviveLinks(m1, m2, B, end);
      LinksCompose(m, m1, m2, FreeOf(B));
      PayloadsSurviveLinks(m, m2, B, end);
      var mergedSize := left + currentSize + right;
      if mergedSize != currentSize {
        MergeRangeHolds(B0, L0, end, s);
        PutMerged(s, merged, mergedSize, MergeHi(B0, s, end), Unmerged(L0, s, s + B0[s].size, merged, MergeHi(B0, s, end)));
        PayloadsCompose(m, m2, mem[..], B, 0);
        MergeTaggedIff(mem[..], blocks, end, merged);
        MergedLeft(B0, end, s);
      } else {
        FreedAlone(B0, L0, end, s);
      }
      PayloadsBeforeRelease(m, mem[..], B0, s);
    }

    /** free. A pointer other than NULL must be a live payload. */
    method Free(ptr: int)
      requires Valid()
      requires ptr != 0 ==> ptr - 1 in blocks && blocks[ptr - 1].used && ptr - 1 != brk - 1
      modifies mem, `freeBlock, `blocks, `list
      ensures Laid() && (Valid() <==> (ptr != 0 ==> MergeSafe(old(blocks), ptr - 1)))
      ensures ptr == 0 ==> mem[..] == old(mem[..]) && blocks == old(blocks) && list == old(list)
      ensures ptr != 0 ==> (blocks, list) == Freed(old(blocks), old(list), brk - 1, ptr - 1)
      ensures KeepsPayloads(old(mem[..]), mem[..], old(blocks), ptr - 1)
    {
      ghost var B0, L0, end := blocks, list, brk - 1;
      ghost var m: Mem := mem[..];
      if ptr == 0 { return; }
      var s := ptr - 1;
      ReleaseTags(s);
      ghost var m1: Mem := mem[..];
      blocks := Release(B0, s);
      UseTiled(B0, end, s, false);
      FreeSpaced(blocks, [s] + L0, end);
      AddToFreeList(s, L0);
      list := [s] + L0;
      LinksWithin(m1, mem[..], list, FreeOf(blocks));
      TagsSurviveLinks(m1, mem[..], blocks, end);
      ghost var m2: Mem := mem[..];
      Coalesce(s, B0, L0);
      PayloadsAfterRelease(m, m1, m2, B0, end, s);
      PayloadsCompose(m, m2, mem[..], B0, s);
    }

    /** Lines 181 to 184: clear the block's own bit, write its footer, clear the bit its neighbour keeps. */
    method ReleaseTags(s: int)
      requires Valid() && s in blocks && blocks[s].used && s != brk - 1
      modifies mem
      ensures Tagged(mem[..], Release(blocks, s), brk - 1) && Linked(mem[..], freeBlock, list)
      ensures forall j {:trigger mem[j]} :: 0 <= j < mem.Length && !(s <= j <= s + blocks[s].size) ==> mem[j] == old(mem[j])
    {
      ghost var m: Mem := mem[..];
      ghost var end, n := brk - 1, s + blocks[s].size;
      assert Joined(blocks, end, s) && Joined(blocks, end, n) && TagOk(m, blocks, s) && TagOk(m, blocks, n);
      TagBits(blocks[s].size, true, LeftUsed(blocks, s));
      TagBits(blocks[s].size, false, LeftUsed(blocks, s));
      hide AllocBit, PrevBit, ClearAlloc, SizeBits, Before, NodeOk, ListsFree, NoDup;
      mem[s] := ClearAlloc(mem[s]);
      var size := SizeBits(mem[s]);
      mem[s + size / 8 - 1] := size;
      mem[s + size / 8] := ClearPrev(mem[s + size / 8]);
      assert mem[..] == m[s := ClearAlloc(m[s])][n - 1 := 8 * blocks[s].size][n := ClearPrev(m[n])];
      TagsAfterRelease(m, mem[..], blocks, end, s);
      LinksOutside(m, mem[..], freeBlock, blocks, list, end, s);
    }

    /** Lines 134 to 143: hand out the whole of free block b. */
    method UseWhole(b: int)
      requires Valid() && b in list && b in blocks && b + blocks[b].size in blocks
      modifies mem, `freeBlock, `blocks, `list
      ensures Valid() && blocks == old(blocks)[b := old(blocks)[b].(used := true)] && list == Without(old(list), b)
      ensures KeepsPayloads(old(mem[..]), mem[..], old(blocks), 0)
    {
      ghost var m: Mem := mem[..];
      ghost var B, L, end, n := blocks, list, brk - 1, b + blocks[b].size;
      HandOutFacts(m, B, L, end, b);
      HandOutTags(b);
      ghost var m1: Mem := mem[..];
      LinksAround(m, m1, freeBlock, B, L, end, b);
      FreeSpaced(B, L, end);
      TagsAfterUse(m, m1, B, end, b);
      RemoveFromFreeList(b, L);
      LinksWithin(m1, mem[..], L, FreeOf(B));
      UseTiled(B, end, b, true);
      WithoutNoDup(L, b);
      blocks, list := B[b := B[b].(used := true)], Without(L, b);
      TagsAfterUnlink(m1, mem[..], B, end, b);
      PayloadsAround(m, m1, B, end, b);
      PayloadsSurviveLinks(m1, mem[..], B, end);
      PayloadsCompose(m, m1, mem[..], B, 0);
    }

    method HandOutTags(b: int)
      requires Valid() && b in list && b in blocks && b + blocks[b].size in blocks
      modifies mem
      ensures 0 <= b < mem.Length && 0 <= b + blocks[b].size < mem.Length && blocks[b].size <= MAX_HEAP_WORDS
      ensures mem[..] == old(mem[..])[b := Tag(blocks[b].size, true, LeftUsed(blocks, b))]
                                     [b + blocks[b].size := TogglePrev(old(mem[b + blocks[b].size]))]
    {
      ghost var m: Mem := mem[..];
      HandOutFacts(m, blocks, list, brk - 1, b);
      ghost var lu := LeftUsed(blocks, b);
      TagBits(blocks[b].size, false, false);
      TagBits(blocks[b].size, true, false);
      hide AllocBit, PrevBit, SizeBits, SetAlloc, ClearAlloc, ClearPrev;
      var currentSize := SizeBits(mem[b]);
      if PrevBit(mem[b]) {
        mem[b] := SetAlloc(currentSize);
        mem[b] := TogglePrev(mem[b]);
      } else {
        mem[b] := SetAlloc(currentSize);
      }
      mem[b + currentSize / 8] := TogglePrev(mem[b + currentSize / 8]);
    }

    /** Lines 145 to 155: keep the front of free block b, hand out its last `need` words. */
    method SplitBlock(b: int, need: nat) returns (a: int)
      requires Valid() && b in list && b in blocks && b + blocks[b].size in blocks
      requires MIN_BLOCK <= need && need % 2 == 0 && need + MIN_BLOCK <= blocks[b].size
      modifies mem, `blocks
      ensures a == b + old(blocks)[b].size - need
      ensures Valid() && blocks == Split(old(blocks), b, a)
      ensures KeepsPayloads(old(mem[..]), mem[..], old(blocks), 0)
    {
      ghost var m: Mem := mem[..];
      ghost var B, end := blocks, brk - 1;
      HandOutFacts(m, B, list, end, b);
      a := SplitTags(b, need);
      LinksAround(m, mem[..], freeBlock, B, list, end, b);
      TagsAfterSplit(m, mem[..], B, end, b, a);
      PayloadsAround(m, mem[..], B, end, b);
      PlaceParity(B, end, b);
      SplitTiled(B, end, b, a);
      NotInside(B, end, b, a);
      blocks := Split(B, b, a);
      assert Joined(B, end, b + B[b].size);
    }

    method SplitTags(b: int, need: nat) returns (a: int)
      requires Valid() && b in list && b in blocks && b + blocks[b].size in blocks
      requires MIN_BLOCK <= need && need % 2 == 0 && need + MIN_BLOCK <= blocks[b].size
      modifies mem
      ensures var n := b + blocks[b].size;
        && 0 <= b < a < n < mem.Length && blocks[b].size <= MAX_HEAP_WORDS && a == n - need
        && mem[..] == old(mem[..])[b := Tag(a - b, false, LeftUsed(blocks, b))][a - 1 := 8 * (a - b)]
                                  [a := Tag(n - a, true, false)][n := TogglePrev(old(mem[n]))]
    {
      ghost var m: Mem := mem[..];
      HandOutFacts(m, blocks, list, brk - 1, b);
      TagBits(blocks[b].size - need, false, false);
      TagBits(need, false, false);
      hide AllocBit, PrevBit, SizeBits, ClearAlloc, ClearPrev;
      var currentSize := SizeBits(mem[b]);
      var extraSize := currentSize - 8 * need;
      if PrevBit(mem[b]) {
        mem[b] := extraSize;
        mem[b] := TogglePrev(mem[b]);
      } else {
        mem[b] := extraSize;
      }
      mem[b + extraSize / 8 - 1] := extraSize;
      a := b + extraSize / 8;
      mem[a] := SetAlloc(8 * need);
      mem[b + currentSize / 8] := TogglePrev(mem[b + currentSize / 8]);
    }

    /** Lines 159 to 170: the old epilogue becomes the new block's header. */
    method Grow(need: nat) returns (p: int)
      requires Valid() && MIN_BLOCK <= need && need % 2 == 0
      modifies mem, `brk, `blocks
      ensures Valid()
      ensures old(brk) + need <= mem.Length ==>
        p == old(brk) && brk == old(brk) + need && blocks == Extend(old(blocks), old(brk) - 1, need)
      ensures old(brk) + need > mem.Length ==>
        p == 0 && brk == old(brk) && blocks == old(blocks) && mem[..] == old(mem[..])
      ensures KeepsPayloads(old(mem[..]), mem[..], old(blocks), 0)
    {
      ghost var m: Mem := mem[..];
      ghost var B, end := blocks, brk - 1;
      var ok, newBlock := Sbrk(need);
      if !ok { return 0; }
      p := newBlock;
      var h := newBlock - 1;
      assert Joined(B, end, end) && TagOk(m, B, end);
      TagBits(0, true, LeftUsed(B, end));
      TagBits(need, false, false);
      TagBits(need, true, false);
      hide AllocBit, SizeBits, ClearAlloc, ClearPrev, PrevBit;
      if PrevBit(mem[h]) {
        mem[h] := SetAlloc(8 * need);
        mem[h] := TogglePrev(mem[h]);
      } else {
        mem[h] := SetAlloc(8 * need);
      }
      mem[brk - 1] := 3;
      ghost var m1: Mem := mem[..];
      assert m1 == m[end := Tag(need, true, LeftUsed(B, end))][end + need := 3];
      blocks := Extend(B, end, need);
      ExtendWellFormed(B, list, end, need);
      TagsAfterExtend(m, m1, B, end, need);
      GrowKeeps(m, m1, freeBlock, B, list, end, need);
    }

    ghost function View(): State
      reads this
    {
      State(blocks, list, brk - 1)
    }

    /** Lines 130 to 157: serve a request from free block b. */
    method Serve(b: int, need: nat) returns (p: int)
      requires Valid() && b in list && b in blocks && b + blocks[b].size in blocks
      requires MIN_BLOCK <= need <= blocks[b].size && need % 2 == 0
      modifies mem, `freeBlock, `blocks, `list
      ensures p > 0 && Valid() && (blocks, list, p - 1) == Place(old(blocks), old(list), b, need)
      ensures KeepsPayloads(old(mem[..]), mem[..], old(blocks), 0)
    {
      HandOutFacts(mem[..], blocks, list, brk - 1, b);
      SizeBitsOf(mem[..], blocks, b);
      hide SizeBits;
      var currentSize := SizeBits(mem[b]);
      var required := 8 * need;
      if currentSize - required <= 32 || currentSize == required {
        UseWhole(b);
        p := b + 1;
      } else {
        var a := SplitBlock(b, need);
        p := a + 1;
      }
    }

    method Malloc(size: nat) returns (p: int)
      requires Valid()
      modifies this, mem
      ensures Valid() && (View(), p) == Malloced(old(View()), size, mem.Length)
      ensures p == 0 ==> mem[..] == old(mem[..])
      ensures KeepsPayloads(old(mem[..]), mem[..], old(blocks), 0)
    {
      hide KeepsPayloads, Tagged, Linked, Place, Extend;
      if size == 0 {
        SamePayloads(mem[..], blocks);
        return 0;
      }
      var required := Align(size + 8);
      if required < 32 { required := 32; }
      var need := required / 8;
      assert need == Need(size);
      hide Align, Need;
      var block := Search(need);
      ghost var k := FirstFit(blocks, list, need);
      FitFacts(blocks, list, brk - 1, k);
      if block != 0 {
        p := Serve(block, need);
      } else {
        p := Grow(need);
      }
    }

    /** mm_memcpy on word-aligned, disjoint areas: whole words, then the low bytes of one more. */
    method MemCpy(dst: nat, src: nat, n: nat)
      requires dst + WordsFor(n) <= mem.Length && src + WordsFor(n) <= mem.Length
      requires dst + WordsFor(n) <= src || src + WordsFor(n) <= dst
      modifies mem
      ensures SameBytes(old(mem[..]), src, mem[..], dst, n)
      ensures forall j {:trigger mem[j]} :: 0 <= j < mem.Length && !(dst <= j < dst + WordsFor(n)) ==> mem[j] == old(mem[j])
    {
      var left, s, d := n, src, dst;
      ghost var m: Mem, i: nat := mem[..], 0;
      while left >= 8
        invariant left == n - 8 * i && s == src + i && d == dst + i
        invariant forall j {:trigger mem[j]} :: 0 <= j < mem.Length && !(dst <= j < d) ==> mem[j] == m[j]
        invariant forall j {:trigger mem[j]} :: dst <= j < d ==> mem[j] == m[src + (j - dst)]
      {
        mem[d] := mem[s];
        left, s, d := left - 8, s + 1, d + 1;
        i := i + 1;
      }
      WholeAndRest(n, i, left);
      if left > 0 {
        mem[d] := Overlay(mem[d], mem[s], left);
      }
      CopiedBytes(m, mem[..], dst, src, n);
    }

    /** realloc: a new block, a copy of the old contents, and the old block freed. */
    method Realloc(oldptr: int, size: nat) returns (p: int)
      requires Valid() && (oldptr != 0 ==> View().Live(oldptr))
      modifies this, mem
      ensures Laid() && (View(), p) == Realloced(old(View()), oldptr, size, mem.Length)
      ensures Valid() <==> (oldptr != 0 ==> MergeSafe(Malloced(old(View()), size, mem.Length).0.blocks, oldptr - 1))
      ensures p != 0 && oldptr != 0 ==>
        SameBytes(old(mem[..]), oldptr, mem[..], p, Min(size, Payload(old(blocks), oldptr)))
      ensures KeepsPayloads(old(mem[..]), mem[..], old(blocks), if oldptr == 0 then 0 else oldptr - 1)
    {
      hide KeepsPayloads, SameBytes, Malloced, Tagged, Linked, Freed, Coalesced, Tiled, ListsFree;
      ghost var st := View();
      ghost var m: Mem := mem[..];
      if oldptr == 0 {
        p := Malloc(size);
        return;
      }
      if size == 0 {
        Free(oldptr);
        MallocedNothing(st, mem.Length);
        return 0;
      }
      p := Malloc(size);
      MallocKeepsLive(st, size, mem.Length, oldptr);
      MallocHandsOut(st, size, mem.Length);
      ghost var m1: Mem := mem[..];
      ghost var B1 := blocks;
      ghost var n: nat := Min(size, Payload(st.blocks, oldptr));
      if p != 0 {
        CopyOver(oldptr, p, size);
        BytesKept(m, m1, st.blocks, st.end, 0, oldptr, n);
        BytesCompose(m, oldptr, m1, oldptr, mem[..], p, n);
      }
      ghost var m2: Mem := mem[..];
      Free(oldptr);
      if p != 0 {
        BytesKept(m2, mem[..], B1, brk - 1, oldptr - 1, p, n);
        BytesCompose(m, oldptr, m2, p, mem[..], p, n);
      }
      ReallocPayloads(m, m1, m2, mem[..], st, size, mem.Length, oldptr);
    }

    /** Lines 198 to 201. The byte count is that of the whole old block, header included. */
    method CopyOver(oldptr: int, p: int, size: nat)
      requires Valid() && View().Live(oldptr) && View().Live(p) && p != oldptr
      requires Payload(blocks, p) >= size
      modifies mem
      ensures Valid()
      ensures SameBytes(old(mem[..]), oldptr, mem[..], p, Min(size, Payload(blocks, oldptr)))
      ensures KeepsPayloads(old(mem[..]), mem[..], blocks, p - 1)
    {
      ghost var m: Mem, end := mem[..], brk - 1;
      var old_ := oldptr - 1;
      CopyBounds(m, blocks, end, oldptr - 1, p - 1, size);
      var oldSize := SizeBits(mem[old_]);
      var bytesToCopy := if size > oldSize then oldSize else size;
      MemCpy(p, oldptr, bytesToCopy);
      FewerBytes(m, oldptr, mem[..], p, bytesToCopy, Min(size, Payload(blocks, oldptr)));
      PayloadWrite(m, mem[..], freeBlock, blocks, list, end, p - 1);
    }
  }

  /** After mm_init: one free block of 4096 bytes and the epilogue. */
  function InitBlocks(): Blocks {
    map[1 := Block(512, false, 0), 513 := Block(0, true, 1)]
  }

  lemma InitIsWellFormed()
    ensures WellFormed(InitBlocks(), [1], 513) && Coalesced(InitBlocks())
  {
    var B := InitBlocks();
    assert B[1] == Block(512, false, 0) && B[513] == Block(0, true, 1);
    assert Joined(B, 513, 1) && Joined(B, 513, 513) && Before(B, 1, 513);
  }

  lemma InitIsRepresented(m: Mem)
    requires 514 <= |m| <= MAX_HEAP_WORDS
    requires m[0] == 1 && m[1] == 4098 && m[2] == 0 && m[3] == 0 && m[512] == 4096 && m[513] == 1
    ensures Tagged(m, InitBlocks(), 513) && Linked(m, 1, [1])
  {
    assert TagOk(m, InitBlocks(), 1) && TagOk(m, InitBlocks(), 513);
    assert NodeOk(m, [1], 0);
  }

  lemma {:induction false} FirstFitIs(B: Blocks, L: seq<int>, need: nat, k: nat)
    requires forall i :: 0 <= i < |L| ==> L[i] in B
    requires k <= |L| && (k < |L| ==> B[L[k]].size >= need)
    requires forall i :: 0 <= i < k ==> B[L[i]].size < need
    ensures FirstFit(B, L, need) == k
  {
    if k > 0 {
      assert B[L[0]].size < need;
      FirstFitIs(B, L[1..], need, k - 1);
    }
  }

  lemma ReleasedFacts(m: Mem, B0: Blocks, L0: seq<int>, end: int, s: int)
    requires WellFormed(B0, L0, end) && s in B0 && s != end && B0[s].used
    requires Tagged(m, Release(B0, s), end)
    ensures var B, n := Release(B0, s), s + B0[s].size;
      && Tiled(B, end) && ListsFree(B, [s] + L0) && Spaced([s] + L0, end)
      && Joined(B, end, s) && n in B && Joined(B, end, n) && 1 <= s < n <= end
      && SizeBits(m[s]) == 8 * B[s].size && PrevBit(m[s]) == LeftUsed(B, s)
      && SizeBits(m[n]) == 8 * B[n].size && AllocBit(m[n]) == B[n].used
      && (!LeftUsed(B, s) ==> B[s].left in B && B[s].left >= 1 && SizeBits(m[s - 1]) == 8 * (s - B[s].left)
                              && SizeBits(m[B[s].left]) == 8 * (s - B[s].left) && B[s].left in L0)
  {
    var B, n := Release(B0, s), s + B0[s].size;
    UseTiled(B0, end, s, false);
    assert Joined(B, end, s) && Joined(B, end, n) && Joined(B0, end, s);
    assert s !in L0;
    FreeSpaced(B, [s] + L0, end);
    assert TagOk(m, B, s) && TagOk(m, B, n);
    TagBits(B[s].size, false, LeftUsed(B, s));
    TagBits(B[n].size, B[n].used, LeftUsed(B, n));
    if !LeftUsed(B, s) {
      var l := B[s].left;
      assert Joined(B, end, l) && TagOk(m, B, l);
      TagBits(B[l].size, false, LeftUsed(B, l));
      TagBits(B[l].size, false, false);
      assert l in L0;
    }
  }

  lemma LinksWithin(m: Mem, m': Mem, L: seq<int>, F: set<int>)
    requires LinksChanged(m, m', set x | x in L) && forall x :: x in L ==> x in F
    ensures LinksChanged(m, m', F)
  {
  }

  lemma LinksCompose(m: Mem, m1: Mem, m2: Mem, F: set<int>)
    requires LinksChanged(m, m1, F) && LinksChanged(m1, m2, F)
    ensures LinksChanged(m, m2, F)
  {
    assert forall j :: 0 <= j < |m| && m2[j] == m1[j] && m1[j] == m[j] ==> m2[j] == m[j];
  }

  lemma HeaderKept(m: Mem, m': Mem, B: Blocks, end: int, h: int)
    requires Tiled(B, end) && h in B && 0 <= h < |m| && LinksChanged(m, m', FreeOf(B))
    ensures m'[h] == m[h]
  {
    HeaderNotALink(B, end, h);
  }

  lemma SubListFacts(B: Blocks, L: seq<int>, full: seq<int>, end: int)
    requires Tiled(B, end) && ListsFree(B, full) && forall x :: x in L ==> x in full
    ensures Spaced(L, end)
  {
    FreeSpaced(B, L, end);
  }

  lemma PayloadsCompose(m: Mem, m1: Mem, m2: Mem, B: Blocks, except: int)
    requires |m| == |m1| == |m2|
    requires KeepsPayloads(m, m1, B, except) && KeepsPayloads(m1, m2, B, except)
    ensures KeepsPayloads(m, m2, B, except)
  {
    forall h | h in B && B[h].used && h != except ensures SamePayload(m, m2, B, h) {
      assert SamePayload(m, m1, B, h) && SamePayload(m1, m2, B, h);
    }
  }

  lemma PayloadsBeforeRelease(m: Mem, m': Mem, B0: Blocks, s: int)
    requires s in B0 && 0 !in B0 && KeepsPayloads(m, m', Release(B0, s), 0)
    ensures KeepsPayloads(m, m', B0, s)
  {
    var B := Release(B0, s);
    forall h | h in B0 && B0[h].used && h != s ensures SamePayload(m, m', B0, h) {
      assert SamePayload(m, m', B, h);
    }
  }

  lemma NothingMerged(B: Blocks, end: int, s: int)
    requires Tiled(B, end) && s in B && s != end && !B[s].used && Joined(B, end, s)
    ensures Collapse(B, s, s + B[s].size) == B
  {
    var n := s + B[s].size;
    forall h | h in B ensures !(s < h < n) { assert Before(B, s, h) || h <= s; }
  }

  lemma FreedAlone(B0: Blocks, L0: seq<int>, end: int, s: int)
    requires WellFormed(B0, L0, end) && s in B0 && s != end && B0[s].used && Joined(B0, end, s)
    requires s + B0[s].size in B0 && MergeLo(B0, s) == s && MergeHi(B0, s, end) == s + B0[s].size
    ensures Freed(B0, L0, end, s) == (Release(B0, s), [s] + L0) && WellFormed(Release(B0, s), [s] + L0, end)
    ensures MergeSafe(B0, s)
  {
    UseTiled(B0, end, s, false);
    NothingMerged(Release(B0, s), end, s);
    FreeWellFormed(B0, L0, end, s);
    LoLeftUsed(B0, end, s);
  }

  /** The blocks from lo up to hi are free, what surrounds them is not, and U lists the other free blocks. */
  ghost predicate MergeRange(B: Blocks, end: int, lo: int, hi: int, U: seq<int>) {
    && Tiled(B, end) && lo in B && hi in B && 1 <= lo < hi <= end && hi - lo >= MIN_BLOCK
    && (B[lo].left in B ==> B[lo].left < lo) && !LeftUsed(B, hi)
    && (forall h {:trigger B[h]} :: h in B && lo <= h < hi ==> !B[h].used)
    && (forall x {:trigger x in U} :: x in U ==> x in B && !B[x].used)
    && WellFormed(Collapse(B, lo, hi), [lo] + U, end)
    && NoDup([lo] + U) && Spaced([lo] + U, end)
  }

  lemma MergeRangeHolds(B0: Blocks, L0: seq<int>, end: int, s: int)
    requires WellFormed(B0, L0, end) && s in B0 && s != end && B0[s].used && Joined(B0, end, s)
    ensures s + B0[s].size in B0
    ensures var lo, hi := MergeLo(B0, s), MergeHi(B0, s, end);
            var U := Unmerged(L0, s, s + B0[s].size, lo, hi);
            && MergeRange(Release(B0, s), end, lo, hi, U)
            && NoDup([s] + U) && Spaced([s] + U, end)
            && Freed(B0, L0, end, s) == (Collapse(Release(B0, s), lo, hi), [lo] + U)
  {
    var B := Release(B0, s);
    MergeEnds(B0, end, s);
    var lo, hi, n := MergeLo(B0, s), MergeHi(B0, s, end), s + B0[s].size;
    var U := Unmerged(L0, s, n, lo, hi);
    FreeWellFormed(B0, L0, end, s);
    UseTiled(B0, end, s, false);
    LoLeftUsed(B0, end, s);
    assert Joined(B0, end, n) && Joined(B, end, hi);
    assert hi in B && !LeftUsed(B, hi);
    forall h {:trigger B[h]} | h in B && lo <= h < hi ensures !B[h].used {
      if lo < h { MergedInside(B0, end, s, h); }
    }
    UnmergedNoDup(L0, s, n, lo, hi);
    assert s !in L0 && s !in U;
    FreeSpaced(B, [s] + U, end);
    FreeSpaced(Collapse(B, lo, hi), [lo] + U, end);
  }

  /** What lies left of the merged block is used exactly if freeing s was safe. */
  lemma MergedLeft(B0: Blocks, end: int, s: int)
    requires Tiled(B0, end) && s in B0 && s != end && Joined(B0, end, s) && B0[s].used
    ensures s + B0[s].size in B0
    ensures var lo, hi := MergeLo(B0, s), MergeHi(B0, s, end);
      lo in B0 && hi in B0 && lo < hi && (LeftUsed(Collapse(Release(B0, s), lo, hi), lo) <==> MergeSafe(B0, s))
  {
    MergeEnds(B0, end, s);
    LoLeftUsed(B0, end, s);
    assert Joined(B0, end, MergeLo(B0, s));
  }

  lemma UnmergedNoDup(L0: seq<int>, s: int, n: int, lo: int, hi: int)
    requires NoDup(L0)
    ensures NoDup(Unmerged(L0, s, n, lo, hi))
  {
    WithoutNoDup(L0, lo);
    WithoutNoDup(if lo != s then Without(L0, lo) else L0, n);
  }

  lemma DistinctHead(s: int, U: seq<int>)
    requires NoDup([s] + U)
    ensures s !in U && NoDup(U) && Without([s] + U, s) == U
  {
    var L := [s] + U;
    forall j | 0 <= j < |U| ensures U[j] != s { assert L[j + 1] == U[j] && L[0] == s; }
    forall i, j | 0 <= i < j < |U| ensures U[i] != U[j] { assert L[i + 1] != L[j + 1]; }
    WithoutAbsent(U, s);
  }

  /** The merged header and footer disturb neither the links of the other free blocks nor any payload. */
  lemma AfterMergeWrites(m: Mem, m': Mem, first: int, B: Blocks, end: int, lo: int, hi: int, U: seq<int>)
    requires MergeRange(B, end, lo, hi, U) && Tagged(m, B, end) && Linked(m, first, U)
    requires m' == m[lo := Tag(hi - lo, false, true)][hi - 1 := 8 * (hi - lo)]
    ensures MergeTagged(m', Collapse(B, lo, hi), end, lo) && Linked(m', first, U) && KeepsPayloads(m, m', B, 0)
  {
    var C := Collapse(B, lo, hi);
    assert Joined(B, end, hi);
    TagsAfterCollapse(m, m', B, end, lo, hi);
    DistinctHead(lo, U);
    forall x | x in U ensures x + 2 < lo || (hi <= x && lo < x) {
      assert x in [lo] + U && lo in [lo] + U && x != lo;
      FreeFits(C, end, x);
      assert Before(C, x, lo) || Before(C, lo, x);
    }
    LinksSurvive(m, m', first, U);
    forall h | h in B && B[h].used ensures SamePayload(m, m', B, h) {
      assert Before(B, h, lo) || h >= lo;
      assert Before(B, hi, h) || h <= hi;
    }
  }

  ghost function WithoutLeft(L: seq<int>, s: int, lo: int): seq<int> {
    if lo != s then Without(L, lo) else L
  }

  lemma WithoutLeftFacts(B0: Blocks, L0: seq<int>, end: int, s: int)
    requires WellFormed(B0, L0, end) && s in B0 && s != end && Joined(B0, end, s)
    ensures var U := WithoutLeft(L0, s, MergeLo(B0, s));
      && NoDup(U) && (forall x :: x in U ==> x in L0) && 0 !in B0
      && s + B0[s].size in B0 && (!B0[s + B0[s].size].used ==> s + B0[s].size in U)
  {
    WithoutNoDup(L0, MergeLo(B0, s));
    assert Joined(B0, end, s + B0[s].size) && (0 in B0 ==> Joined(B0, end, 0));
  }

  lemma ThreePayloadSteps(m1: Mem, m2: Mem, m3: Mem, m4: Mem, B: Blocks, end: int)
    requires Tiled(B, end) && LinksChanged(m1, m2, FreeOf(B)) && LinksChanged(m3, m4, FreeOf(B))
    requires |m2| == |m3| && KeepsPayloads(m2, m3, B, 0)
    ensures KeepsPayloads(m1, m4, B, 0)
  {
    PayloadsSurviveLinks(m1, m2, B, end);
    PayloadsSurviveLinks(m3, m4, B, end);
    PayloadsCompose(m1, m2, m3, B, 0);
    PayloadsCompose(m1, m3, m4, B, 0);
  }

  /** Writes to a used block's words and to its right neighbour's header leave the free list linked. */
  lemma LinksOutside(m: Mem, m': Mem, first: int, B: Blocks, L: seq<int>, end: int, s: int)
    requires WellFormed(B, L, end) && Linked(m, first, L) && |m'| == |m| && s in B && B[s].used && s != end
    requires forall j {:trigger m'[j]} :: 0 <= j < |m| && !(s <= j <= s + B[s].size) ==> m'[j] == m[j]
    ensures Linked(m', first, L)
  {
    assert Joined(B, end, s);
    forall x | x in L ensures x + 2 < s || s + B[s].size <= x {
      FreeFits(B, end, x);
      assert Before(B, x, s) || Before(B, s, x);
    }
    LinksSurvive(m, m', first, L);
  }

  lemma PayloadsAfterRelease(m: Mem, m1: Mem, m2: Mem, B0: Blocks, end: int, s: int)
    requires Tiled(B0, end) && s in B0 && s != end && |m| == |m1|
    requires forall j {:trigger m1[j]} :: 0 <= j < |m| && !(s <= j <= s + B0[s].size) ==> m1[j] == m[j]
    requires Tiled(Release(B0, s), end) && LinksChanged(m1, m2, FreeOf(Release(B0, s)))
    ensures KeepsPayloads(m, m2, B0, s)
  {
    forall h | h in B0 && B0[h].used && h != s ensures SamePayload(m, m1, B0, h) {
      assert Before(B0, h, s) || Before(B0, s, h);
    }
    PayloadsSurviveLinks(m1, m2, Release(B0, s), end);
    assert 0 !in B0 by { assert 0 in B0 ==> Joined(B0, end, 0); }
    PayloadsBeforeRelease(m1, m2, B0, s);
    PayloadsCompose(m, m1, m2, B0, s);
  }

  lemma HandOutFacts(m: Mem, B: Blocks, L: seq<int>, end: int, b: int)
    requires WellFormed(B, L, end) && Tagged(m, B, end) && b in L
    ensures b in B && !B[b].used && b != end && Joined(B, end, b) && b + B[b].size in B
    ensures 1 <= b && b + B[b].size <= end && B[b].size <= MAX_HEAP_WORDS
    ensures m[b] == Tag(B[b].size, false, LeftUsed(B, b)) && SizeBits(m[b]) == 8 * B[b].size && PrevBit(m[b]) == LeftUsed(B, b)
  {
    FreeFits(B, end, b);
    assert TagOk(m, B, b);
    TagBits(B[b].size, false, LeftUsed(B, b));
  }

  /** Writes outside payloads and link words: in free block b but for its links, and the header after it. */
  ghost predicate WrittenAround(m: Mem, m': Mem, B: Blocks, b: int)
    requires b in B
  {
    && |m'| == |m|
    && (forall j {:trigger m'[j]} :: 0 <= j < |m| && m'[j] != m[j] ==> b <= j <= b + B[b].size && j != b + 1 && j != b + 2)
  }

  lemma LinksAround(m: Mem, m': Mem, first: int, B: Blocks, L: seq<int>, end: int, b: int)
    requires WellFormed(B, L, end) && Linked(m, first, L) && b in L && b in B && WrittenAround(m, m', B, b)
    ensures Linked(m', first, L)
  {
    forall x | x in L ensures x == b || x + 2 < b || b + B[b].size <= x {
      FreeFits(B, end, x);
      assert Before(B, x, b) || Before(B, b, x) || x == b;
    }
    LinksSurvive(m, m', first, L);
  }

  lemma PayloadsAround(m: Mem, m': Mem, B: Blocks, end: int, b: int)
    requires Tiled(B, end) && b in B && !B[b].used && WrittenAround(m, m', B, b)
    ensures KeepsPayloads(m, m', B, 0)
  {
    forall h | h in B && B[h].used ensures SamePayload(m, m', B, h) {
      assert Before(B, h, b) || Before(B, b, h);
    }
  }

  lemma TagsAfterUnlink(m: Mem, m': Mem, B: Blocks, end: int, b: int)
    requires Tiled(B, end) && b in B && Tiled(B[b := B[b].(used := true)], end) && Tagged(m, B[b := B[b].(used := true)], end)
    requires !B[b].used && LinksChanged(m, m', FreeOf(B))
    ensures Tagged(m', B[b := B[b].(used := true)], end)
  {
    var C := B[b := B[b].(used := true)];
    forall h | h in C ensures TagOk(m', C, h) {
      assert TagOk(m, C, h);
      HeaderNotALink(B, end, h);
    }
    assert m'[0] == m[0] by { NotALink(B, end, 0); }
  }

  lemma PlaceParity(B: Blocks, end: int, b: int)
    requires Tiled(B, end) && b in B && b != end
    ensures Joined(B, end, b) && b % 2 == 1 && B[b].size % 2 == 0
  {
    assert Joined(B, end, b);
  }

  lemma GrowKeeps(m: Mem, m': Mem, first: int, B: Blocks, L: seq<int>, end: int, need: nat)
    requires WellFormed(B, L, end) && Linked(m, first, L) && |m'| == |m|
    requires 0 <= end && end + need < |m| && forall j {:trigger m'[j]} :: 0 <= j < |m| && j != end && j != end + need ==> m'[j] == m[j]
    ensures Linked(m', first, L) && KeepsPayloads(m, m', B, 0)
  {
    forall x | x in L ensures x + 2 < end { FreeFits(B, end, x); }
    LinksSurvive(m, m', first, L);
    forall h | h in B && B[h].used ensures SamePayload(m, m', B, h) {
      if h != end { FootInside(B, end, h); } else { assert Joined(B, end, end); }
    }
  }

  lemma FitFacts(B: Blocks, L: seq<int>, end: int, k: nat)
    requires WellFormed(B, L, end) && k <= |L|
    ensures k < |L| ==> L[k] in L && L[k] in B && L[k] >= 1 && L[k] + B[L[k]].size in B
    ensures At(L, k) == 0 <==> k == |L|
    ensures forall i :: 0 <= i < |L| ==> L[i] in B
  {
    assert forall i :: 0 <= i < |L| ==> L[i] in L;
    if k < |L| { FreeFits(B, end, L[k]); }
  }

  lemma SamePayloads(m: Mem, B: Blocks)
    ensures KeepsPayloads(m, m, B, 0)
  {
  }

  lemma SizeBitsOf(m: Mem, B: Blocks, b: int)
    requires b in B && TagOk(m, B, b)
    ensures SizeBits(m[b]) == 8 * B[b].size
  {
    TagBits(B[b].size, B[b].used, LeftUsed(B, b));
  }

  lemma WholeAndRest(n: nat, i: nat, left: nat)
    requires n == 8 * i + left && left < 8
    ensures n / 8 == i && n % 8 == left && WordsFor(n) == i + if left > 0 then 1 else 0
  {
  }

  lemma CopiedBytes(m: Mem, m': Mem, dst: nat, src: nat, n: nat)
    requires |m| == |m'| && dst + WordsFor(n) <= |m| && src + WordsFor(n) <= |m|
    requires forall j {:trigger m'[j]} :: dst <= j < dst + n / 8 ==> m'[j] == m[src + (j - dst)]
    requires n % 8 != 0 ==> m'[dst + n / 8] == Overlay(m[dst + n / 8], m[src + n / 8], n % 8)
    ensures SameBytes(m, src, m', dst, n)
  {
    forall k | 0 <= k < n ensures ByteAt(m', dst, k) == ByteAt(m, src, k) {
      if k / 8 < n / 8 {
        assert m'[dst + k / 8] == m[src + k / 8];
      } else {
        assert k / 8 == n / 8 && k % 8 < n % 8;
        OverlayBytes(m[dst + n / 8], m[src + n / 8], n % 8, k % 8);
      }
    }
  }

  lemma CopyBounds(m: Mem, B: Blocks, end: int, s: int, a: int, size: nat)
    requires Tiled(B, end) && Tagged(m, B, end)
    requires s in B && a in B && s != a && s != end && a != end && Payload(B, a + 1) >= size
    ensures 1 <= s < |m| && 1 <= a && SizeBits(m[s]) == 8 * B[s].size
    ensures var w := WordsFor(Min(size, 8 * B[s].size));
      && a + 1 + w <= a + B[a].size <= end && s + 1 + w <= end + 1
      && (a + 1 + w <= s + 1 || s + 1 + w <= a + 1)
  {
    assert Joined(B, end, s) && Joined(B, end, a) && TagOk(m, B, s);
    FootInside(B, end, s);
    FootInside(B, end, a);
    SizeBitsOf(m, B, s);
    assert Before(B, s, a) || Before(B, a, s);
  }

  /** Writing inside one payload disturbs nothing else. */
  lemma PayloadWrite(m: Mem, m': Mem, first: int, B: Blocks, L: seq<int>, end: int, a: int)
    requires WellFormed(B, L, end) && Tagged(m, B, end) && Linked(m, first, L) && a in B && B[a].used && a != end
    requires |m'| == |m| && forall j {:trigger m'[j]} :: 0 <= j < |m| && !(a < j < a + B[a].size) ==> m'[j] == m[j]
    ensures Tagged(m', B, end) && Linked(m', first, L) && KeepsPayloads(m, m', B, a)
  {
    LinksOutside(m, m', first, B, L, end, a);
    assert Joined(B, end, a);
    forall h | h in B ensures TagOk(m', B, h) {
      assert TagOk(m, B, h);
      if h != a { TagWordsApart(B, end, h, a); }
    }
    forall h | h in B && B[h].used && h != a ensures SamePayload(m, m', B, h) {
      assert Before(B, h, a) || Before(B, a, h);
    }
  }

  /** Bytes of payload behind pointer p. */
  function Payload(B: Blocks, p: int): nat
    requires p - 1 in B
  {
    if B[p - 1].size == 0 then 0 else 8 * (B[p - 1].size - 1)
  }

  lemma FewerBytes(m: Mem, p: int, m': Mem, q: int, n: nat, n': nat)
    requires SameBytes(m, p, m', q, n) && n' <= n
    ensures SameBytes(m, p, m', q, n')
  {
  }

  lemma BytesCompose(m: Mem, p: int, m1: Mem, p1: int, m2: Mem, p2: int, n: nat)
    requires SameBytes(m, p, m1, p1, n) && SameBytes(m1, p1, m2, p2, n)
    ensures SameBytes(m, p, m2, p2, n)
  {
    forall k | 0 <= k < n ensures ByteAt(m2, p2, k) == ByteAt(m, p, k) {
      assert ByteAt(m1, p1, k) == ByteAt(m, p, k);
    }
  }

  lemma BytesKept(m: Mem, m': Mem, B: Blocks, end: int, except: int, p: int, n: nat)
    requires Tiled(B, end) && KeepsPayloads(m, m', B, except) && |m| == |m'| && end < |m|
    requires p - 1 in B && B[p - 1].used && p - 1 != end && p - 1 != except && n <= Payload(B, p)
    ensures SameBytes(m, p, m', p, n)
  {
    var h := p - 1;
    assert SamePayload(m, m', B, h) && Joined(B, end, h);
    FootInside(B, end, h);
    forall k | 0 <= k < n ensures ByteAt(m', p, k) == ByteAt(m, p, k) {
      assert m'[p + k / 8] == m[p + k / 8];
    }
  }

  lemma MallocedNothing(st: State, limit: nat)
    requires st.Valid()
    ensures Malloced(st, 0, limit) == (st, 0)
  {
  }

  lemma ReallocPayloads(m: Mem, m1: Mem, m2: Mem, m3: Mem, st: State, size: nat, limit: nat, p: int)
    requires st.Valid() && st.Live(p) && |m| == |m1| == |m2| == |m3|
    requires var (st', q) := Malloced(st, size, limit);
      && KeepsPayloads(m, m1, st.blocks, 0) && KeepsPayloads(m2, m3, st'.blocks, p - 1)
      && (if q == 0 then m2 == m1 else KeepsPayloads(m1, m2, st'.blocks, q - 1))
    ensures KeepsPayloads(m, m3, st.blocks, p - 1)
  {
    var (st', q) := Malloced(st, size, limit);
    forall h | h in st.blocks && st.blocks[h].used && h != p - 1 ensures SamePayload(m, m3, st.blocks, h) {
      assert Joined(st.blocks, st.end, h);
      if h != st.end {
        MallocKeepsLive(st, size, limit, h + 1);
        assert SamePayload(m, m1, st.blocks, h);
        assert q == 0 || SamePayload(m1, m2, st'.blocks, h);
        assert SamePayload(m2, m3, st'.blocks, h);
      }
    }
  }
}
