/** Whole runs of the allocator: what every sequence of calls keeps, and where it would break. */
module HeapRuns {
  import opened Words
  import opened Layout
  import opened Memory
  import opened Allocator

  /** What a client does: the three calls, and storing a word in a payload it holds. */
  datatype Call =
    | MallocCall(bytes: nat)
    | FreeCall(p: int)
    | ReallocCall(p: int, bytes: nat)
    | Store(p: int, i: nat, w: word)

  ghost predicate Allowed(st: State, c: Call) {
    match c
    case MallocCall(_) => true
    case FreeCall(p) => p != 0 ==> st.Live(p)
    case ReallocCall(p, _) => p != 0 ==> st.Live(p)
    case Store(p, i, _) => st.Live(p) && i + 1 < st.blocks[p - 1].size
  }

  /** Requests that make blocks of 64 bytes at least. */
  predicate BigRequest(c: Call) {
    match c
    case MallocCall(n) => n == 0 || n >= 41
    case ReallocCall(_, n) => n == 0 || n >= 41
    case _ => true
  }

  ghost function Step(st: State, c: Call, limit: nat): (r: State)
    requires st.Valid() && Allowed(st, c)
    ensures r.Valid()
  {
    match c
    case MallocCall(n) => Malloced(st, n, limit).0
    case FreeCall(p) => FreedState(st, p)
    case ReallocCall(p, n) => Realloced(st, p, n, limit).0
    case Store(_, _, _) => st
  }

  ghost predicate AllAllowed(st: State, calls: seq<Call>, limit: nat)
    requires st.Valid()
    decreases |calls|
  {
    calls == [] || (Allowed(st, calls[0]) && AllAllowed(Step(st, calls[0], limit), calls[1..], limit))
  }

  ghost function Run(st: State, calls: seq<Call>, limit: nat): (r: State)
    requires st.Valid() && AllAllowed(st, calls, limit)
    ensures r.Valid()
    decreases |calls|
  {
    if calls == [] then st else Run(Step(st, calls[0], limit), calls[1..], limit)
  }

  ghost predicate Roomy(B: Blocks, end: int, h: int) {
    h in B && h != end && (B[h].used || h + B[h].size == end) ==> B[h].size >= SMALLEST_MERGEABLE_LAST
  }

  /** Used blocks, and a free last block, have 64 bytes at least. */
  ghost predicate NoSmallBlocks(st: State) {
    forall h {:trigger Roomy(st.blocks, st.end, h)} :: Roomy(st.blocks, st.end, h)
  }

  ghost predicate Safe(st: State) {
    st.Valid() && Coalesced(st.blocks) && NoSmallBlocks(st)
  }

  lemma MallocKeepsSafe(st: State, bytes: nat, limit: nat)
    requires Safe(st) && (bytes == 0 || bytes >= 41)
    ensures Safe(Malloced(st, bytes, limit).0)
  {
    MallocKeepsCoalesced(st, bytes, limit);
    if bytes != 0 {
      var need := Need(bytes);
      ListedAreBlocks(st);
      var k := FirstFit(st.blocks, st.list, need);
      var st' := Malloced(st, bytes, limit).0;
      forall h ensures Roomy(st'.blocks, st'.end, h) {
        assert Roomy(st.blocks, st.end, h);
        if k < |st.list| { FitFacts(st.blocks, st.list, st.end, k); PlacedRoomy(st, st.list[k], need, h); }
        else if h in st.blocks && h != st.end { FootInside(st.blocks, st.end, h); }
      }
    }
  }

  lemma PlacedRoomy(st: State, b: int, need: nat, h: int)
    requires Safe(st) && b in st.list && b in st.blocks && SMALLEST_MERGEABLE_LAST <= need <= st.blocks[b].size
    requires b + st.blocks[b].size in st.blocks
    ensures Roomy(Place(st.blocks, st.list, b, need).0, st.end, h)
  {
    assert Joined(st.blocks, st.end, b) && Joined(st.blocks, st.end, b + st.blocks[b].size);
    assert !st.blocks[b].used && Roomy(st.blocks, st.end, h);
  }

  lemma FreeKeepsSafe(st: State, p: int)
    requires Safe(st) && (p != 0 ==> st.Live(p))
    ensures Safe(FreedState(st, p))
  {
    if p != 0 {
      var B, end, s := st.blocks, st.end, p - 1;
      FreeCoalescedIff(B, st.list, end, s);
      MergeEnds(B, end, s);
      assert Roomy(B, end, s) && Roomy(B, end, s + B[s].size) && Joined(B, end, s + B[s].size);
      var st' := FreedState(st, p);
      forall h ensures Roomy(st'.blocks, end, h) {
        assert Roomy(B, end, h);
      }
    }
  }

  lemma ReallocKeepsSafe(st: State, p: int, bytes: nat, limit: nat)
    requires Safe(st) && (p != 0 ==> st.Live(p)) && (bytes == 0 || bytes >= 41)
    ensures Safe(Realloced(st, p, bytes, limit).0)
  {
    MallocKeepsSafe(st, bytes, limit);
    if p != 0 {
      if bytes == 0 {
        FreeKeepsSafe(st, p);
      } else {
        MallocKeepsLive(st, bytes, limit, p);
        FreeKeepsSafe(Malloced(st, bytes, limit).0, p);
      }
    }
  }

  lemma StepKeepsSafe(st: State, c: Call, limit: nat)
    requires Safe(st) && Allowed(st, c) && BigRequest(c)
    ensures Safe(Step(st, c, limit))
  {
    match c
    case MallocCall(n) => MallocKeepsSafe(st, n, limit);
    case FreeCall(p) => FreeKeepsSafe(st, p);
    case ReallocCall(p, n) => ReallocKeepsSafe(st, p, n, limit);
    case Store(_, _, _) =>
  }

  /** Every run whose nonzero requests are at least 41 bytes keeps the heap tiled, fully coalesced, and
      its free list exactly the free blocks. */
  lemma {:induction false} RunKeepsSafe(st: State, calls: seq<Call>, limit: nat)
    requires Safe(st) && AllAllowed(st, calls, limit) && forall c :: c in calls ==> BigRequest(c)
    ensures Safe(Run(st, calls, limit))
    decreases |calls|
  {
    if calls != [] {
      StepKeepsSafe(st, calls[0], limit);
      RunKeepsSafe(Step(st, calls[0], limit), calls[1..], limit);
    }
  }

  const INITIAL: State := State(InitBlocks(), [1], 513)

  lemma InitialIsSafe()
    ensures Safe(INITIAL)
  {
    InitIsWellFormed();
  }

  /** Payloads are 16-byte aligned for any 16-byte aligned region, lie inside the heap, and do not overlap. */
  lemma PayloadsAlignedInsideApart(st: State, p: int, q: int, base: nat)
    requires st.Valid() && st.Live(p) && st.Live(q) && p != q && base % 16 == 0
    ensures (base + 8 * p) % 16 == 0
    ensures 2 <= p && p + (st.blocks[p - 1].size - 1) <= st.end
    ensures p + (st.blocks[p - 1].size - 1) < q || q + (st.blocks[q - 1].size - 1) < p
  {
    var B := st.blocks;
    assert Joined(B, st.end, p - 1);
    FootInside(B, st.end, p - 1);
    assert Before(B, p - 1, q - 1) || Before(B, q - 1, p - 1);
    Aligned(base, p);
  }

  lemma Aligned(base: nat, p: int)
    requires base % 16 == 0 && p % 2 == 0
    ensures (base + 8 * p) % 16 == 0
  {
    var x, y := base / 16, p / 2;
    assert base == 16 * x && p == 2 * y;
    assert base + 8 * p == 16 * (x + y);
  }

  /** The heap grows only when no free block is large enough. */
  lemma GrowsOnlyWhenNothingFits(st: State, bytes: nat, limit: nat, h: int)
    requires st.Valid() && Malloced(st, bytes, limit).0.end != st.end
    requires h in st.blocks && !st.blocks[h].used
    ensures st.blocks[h].size < Need(bytes)
  {
    FitFacts(st.blocks, st.list, st.end, 0);
    var k := FirstFit(st.blocks, st.list, Need(bytes));
    assert h in st.list;
    var i :| 0 <= i < |st.list| && st.list[i] == h;
    assert i < k;
  }

  /** The calls that leave the tags right: the block to free has no two free blocks in a row on its left. */
  ghost predicate Harmless(st: State, c: Call, limit: nat)
    requires st.Valid() && Allowed(st, c)
  {
    match c
    case FreeCall(p) => p != 0 ==> MergeSafe(st.blocks, p - 1)
    case ReallocCall(p, n) =>
      if p == 0 then true
      else
        MallocKeepsLive(st, n, limit, p);
        MergeSafe(Malloced(st, n, limit).0.blocks, p - 1)
    case _ => true
  }

  lemma SafeIsHarmless(st: State, c: Call, limit: nat)
    requires Safe(st) && Allowed(st, c)
    ensures Harmless(st, c, limit)
  {
    match c
    case FreeCall(p) => if p != 0 { CoalescedIsMergeSafe(st.blocks, p - 1); }
    case ReallocCall(p, n) =>
      if p != 0 {
        MallocKeepsLive(st, n, limit, p);
        MallocKeepsCoalesced(st, n, limit);
        CoalescedIsMergeSafe(Malloced(st, n, limit).0.blocks, p - 1);
      }
    case _ =>
  }

  // ---------- What a client's words keep ----------

  /** Word j belongs to the live payload p. */
  ghost predicate Holds(st: State, p: int, j: int) { st.Live(p) && p <= j < p - 1 + st.blocks[p - 1].size }

  /** The call frees or reallocates payload p, or stores to its word j. */
  predicate Touches(c: Call, p: int, j: int) {
    match c
    case MallocCall(_) => false
    case FreeCall(q) => q == p
    case ReallocCall(q, _) => q == p
    case Store(q, i, _) => q == p && q + i == j
  }

  predicate Releases(c: Call, p: int) { (c.FreeCall? || c.ReallocCall?) && c.p == p }

  /** free leaves every other live block where it is and as it is. */
  lemma FreeKeepsLive(st: State, q: int, p: int)
    requires st.Valid() && (q != 0 ==> st.Live(q)) && st.Live(p) && p != q
    ensures FreedState(st, q).Live(p) && FreedState(st, q).blocks[p - 1].size == st.blocks[p - 1].size
  {
    if q != 0 {
      var B, end, s := st.blocks, st.end, q - 1;
      MergeEnds(B, end, s);
      if MergeLo(B, s) < p - 1 < MergeHi(B, s, end) { MergedInside(B, end, s, p - 1); }
    }
  }

  lemma StepKeepsHeld(st: State, c: Call, limit: nat, p: int, j: int)
    requires st.Valid() && Allowed(st, c) && Holds(st, p, j) && !Releases(c, p)
    ensures Holds(Step(st, c, limit), p, j)
  {
    match c
    case MallocCall(n) => MallocKeepsLive(st, n, limit, p);
    case FreeCall(q) => FreeKeepsLive(st, q, p);
    case ReallocCall(q, n) =>
      MallocKeepsLive(st, n, limit, p);
      if q != 0 {
        MallocKeepsLive(st, n, limit, q);
        if n == 0 { FreeKeepsLive(st, q, p); } else { FreeKeepsLive(Malloced(st, n, limit).0, q, p); }
      }
    case Store(_, _, _) =>
  }

  /** What a call hands back: the new payload of malloc and realloc. */
  ghost function Returned(st: State, c: Call, limit: nat): int
    requires st.Valid() && Allowed(st, c)
  {
    match c
    case MallocCall(n) => Malloced(st, n, limit).1
    case ReallocCall(p, n) => Realloced(st, p, n, limit).1
    case _ => 0
  }

  /** Every word of a live payload that the call does not touch is still there, and what it was. */
  ghost predicate KeepsWords(m: Mem, m': Mem, st: State, st': State, c: Call) {
    && |m| == |m'|
    && forall p, j {:trigger Holds(st, p, j)} :: Holds(st, p, j) && !Touches(c, p, j) ==>
         Holds(st', p, j) && 0 <= j < |m| && m'[j] == m[j]
  }

  function Spared(c: Call): int {
    match c
    case MallocCall(_) => 0
    case FreeCall(p) => p - 1
    case ReallocCall(p, _) => if p == 0 then 0 else p - 1
    case Store(p, _, _) => p - 1
  }

  lemma WordsAreKept(m: Mem, m': Mem, st: State, c: Call)
    requires st.Valid() && Allowed(st, c) && |m| == |m'| && st.end < |m|
    requires KeepsPayloads(m, m', st.blocks, Spared(c))
    requires c.Store? ==> forall j :: 0 <= j < |m| && j != c.p + c.i ==> m'[j] == m[j]
    ensures KeepsWords(m, m', st, Step(st, c, |m|), c)
  {
    hide Step;
    forall p, j {:trigger Holds(st, p, j)} | Holds(st, p, j) && !Touches(c, p, j)
      ensures Holds(Step(st, c, |m|), p, j) && 0 <= j < |m| && m'[j] == m[j]
    {
      StepKeepsHeld(st, c, |m|, p, j);
      FootInside(st.blocks, st.end, p - 1);
      assert Joined(st.blocks, st.end, p - 1);
      if !c.Store? || c.p != p { assert SamePayload(m, m', st.blocks, p - 1); }
    }
  }

  /** Any allowed call does to the blocks and the list what the state machine says, hands back what it says, and
      keeps every word of a live payload that it does not touch; the words represent the result exactly if the
      call is harmless. */
  method Perform(heap: Heap, c: Call) returns (r: int)
    requires heap.Valid() && Allowed(heap.View(), c)
    modifies heap, heap.mem
    ensures heap.Laid() && heap.View() == Step(old(heap.View()), c, heap.mem.Length)
    ensures heap.Valid() <==> Harmless(old(heap.View()), c, heap.mem.Length)
    ensures r == Returned(old(heap.View()), c, heap.mem.Length)
    ensures KeepsWords(old(heap.mem[..]), heap.mem[..], old(heap.View()), heap.View(), c)
    ensures c.Store? ==> 0 <= c.p + c.i < heap.mem.Length && heap.mem[c.p + c.i] == c.w
  {
    hide Freed, Place, Extend, KeepsPayloads, SameBytes, Tagged, Linked, WellFormed, FirstFit;
    ghost var st := heap.View();
    ghost var m: Mem := heap.mem[..];
    r := 0;
    match c {
      case MallocCall(n) => r := heap.Malloc(n);
      case FreeCall(p) => heap.Free(p);
      case ReallocCall(p, n) => r := heap.Realloc(p, n);
      case Store(p, k, w) => StoreWord(heap, p, k, w);
    }
    WordsAreKept(m, heap.mem[..], st, c);
  }

  /** The word that the k-th call stored, if none of the calls up to the i-th touched it since. */
  ghost predicate StoredLast(calls: seq<Call>, k: int, i: int) {
    0 <= k < i <= |calls| && calls[k].Store? &&
    forall l {:trigger calls[l]} :: k < l < i ==> !Touches(calls[l], calls[k].p, calls[k].p + calls[k].i)
  }

  ghost predicate ReadsBack(m: Mem, st: State, c: Call)
    requires c.Store?
  {
    Holds(st, c.p, c.p + c.i) && 0 <= c.p + c.i < |m| && m[c.p + c.i] == c.w
  }

  /** Replaying calls on the words of the heap follows the run above, step by step; a stored word reads back until
      its block is freed or reallocated, or the word is stored again. */
  method Replay(heap: Heap, calls: seq<Call>)
    requires heap.Valid() && Safe(heap.View()) && AllAllowed(heap.View(), calls, heap.mem.Length)
    requires forall c :: c in calls ==> BigRequest(c)
    modifies heap, heap.mem
    ensures heap.Valid() && Safe(heap.View())
    ensures heap.View() == Run(old(heap.View()), calls, heap.mem.Length)
    ensures forall k {:trigger StoredLast(calls, k, |calls|)} :: StoredLast(calls, k, |calls|) ==>
              ReadsBack(heap.mem[..], heap.View(), calls[k])
    ensures Untouched(old(heap.mem[..]), heap.mem[..], old(heap.View()), heap.View(), calls, |calls|)
  {
    ghost var limit := heap.mem.Length;
    ghost var st := heap.View();
    ghost var m: Mem := heap.mem[..];
    HeldInside(m, st);
    var i := 0;
    while i < |calls|
      invariant 0 <= i <= |calls|
      invariant heap.Valid() && Safe(heap.View())
      invariant AllAllowed(heap.View(), calls[i..], limit)
      invariant Run(heap.View(), calls[i..], limit) == Run(st, calls, limit)
      invariant AllReadBack(heap.mem[..], heap.View(), calls, i)
      invariant Untouched(m, heap.mem[..], st, heap.View(), calls, i)
    {
      assert calls[i..][0] == calls[i] && calls[i..][1..] == calls[i+1..] && calls[i] in calls;
      StepKeepsSafe(heap.View(), calls[i], limit);
      SafeIsHarmless(heap.View(), calls[i], limit);
      ghost var st1 := heap.View();
      ghost var m1: Mem := heap.mem[..];
      var _ := Perform(heap, calls[i]);
      StillReadsBack(m1, heap.mem[..], st1, heap.View(), calls, i);
      StillUntouched(m, m1, heap.mem[..], st, st1, heap.View(), calls, i);
      i := i + 1;
    }
  }

  ghost predicate AllReadBack(m: Mem, st: State, calls: seq<Call>, i: int) {
    forall k {:trigger StoredLast(calls, k, i)} :: StoredLast(calls, k, i) ==> ReadsBack(m, st, calls[k])
  }

  /** The words of live payloads that none of the first i calls touched are still there, and what they were. */
  ghost predicate Untouched(m: Mem, m': Mem, st: State, st': State, calls: seq<Call>, i: int)
    requires 0 <= i <= |calls|
  {
    |m| == |m'| &&
    forall p, j {:trigger Holds(st, p, j)} ::
      Holds(st, p, j) && (forall l {:trigger calls[l]} :: 0 <= l < i ==> !Touches(calls[l], p, j)) ==>
        Holds(st', p, j) && 0 <= j < |m| && m'[j] == m[j]
  }

  lemma HeldInside(m: Mem, st: State)
    requires st.Valid() && st.end < |m|
    ensures forall p, j {:trigger Holds(st, p, j)} :: Holds(st, p, j) ==> 0 <= j < |m|
  {
    forall p, j {:trigger Holds(st, p, j)} | Holds(st, p, j) ensures 0 <= j < |m| {
      FootInside(st.blocks, st.end, p - 1);
      assert Joined(st.blocks, st.end, p - 1);
    }
  }

  lemma StillReadsBack(m: Mem, m': Mem, st: State, st': State, calls: seq<Call>, i: int)
    requires 0 <= i < |calls| && AllReadBack(m, st, calls, i) && KeepsWords(m, m', st, st', calls[i])
    requires calls[i].Store? ==> ReadsBack(m', st', calls[i])
    ensures AllReadBack(m', st', calls, i + 1)
  {
    forall k {:trigger StoredLast(calls, k, i + 1)} | StoredLast(calls, k, i + 1) ensures ReadsBack(m', st', calls[k]) {
      if k < i {
        assert StoredLast(calls, k, i) && !Touches(calls[i], calls[k].p, calls[k].p + calls[k].i);
        assert Holds(st, calls[k].p, calls[k].p + calls[k].i);
      }
    }
  }

  lemma StillUntouched(m: Mem, m1: Mem, m2: Mem, st: State, st1: State, st2: State, calls: seq<Call>, i: int)
    requires 0 <= i < |calls| && Untouched(m, m1, st, st1, calls, i) && KeepsWords(m1, m2, st1, st2, calls[i])
    ensures Untouched(m, m2, st, st2, calls, i + 1)
  {
    forall p, j {:trigger Holds(st, p, j)}
      | Holds(st, p, j) && (forall l {:trigger calls[l]} :: 0 <= l < i + 1 ==> !Touches(calls[l], p, j))
      ensures Holds(st2, p, j) && 0 <= j < |m| && m2[j] == m[j]
    {
      assert !Touches(calls[i], p, j) && Holds(st1, p, j);
    }
  }

  method StoreWord(heap: Heap, p: int, k: nat, w: word)
    requires heap.Valid() && heap.View().Live(p) && k + 1 < heap.blocks[p - 1].size
    modifies heap.mem
    ensures heap.Valid() && 0 <= p + k < heap.mem.Length && heap.mem[p + k] == w
    ensures forall j :: 0 <= j < heap.mem.Length && j != p + k ==> heap.mem[j] == old(heap.mem[j])
    ensures KeepsPayloads(old(heap.mem[..]), heap.mem[..], heap.blocks, p - 1)
  {
    ghost var m: Mem, end := heap.mem[..], heap.brk - 1;
    assert Joined(heap.blocks, end, p - 1);
    FootInside(heap.blocks, end, p - 1);
    heap.mem[p + k] := w;
    PayloadWrite(m, heap.mem[..], heap.freeBlock, heap.blocks, heap.list, end, p - 1);
  }
}
