/** 64-bit memory words: the header flags that mm.c keeps in their low bits, and their bytes. */
module Words {

  type word = w: int | 0 <= w < 0x1_0000_0000_0000_0000

  // The bit operations of mm.c on a header word, as arithmetic on its value.
  function SizeBits(w: word): word { w - w % 4 }                     // w & ~3
  predicate AllocBit(w: word) { w % 2 == 1 }                         // w & 1
  predicate PrevBit(w: word) { (w / 2) % 2 == 1 }                    // w & 2
  function SetAlloc(w: word): word { if AllocBit(w) then w else w + 1 }      // w | 1
  function ClearAlloc(w: word): word { w - w % 2 }                   // w & ~1
  function ClearPrev(w: word): word { if PrevBit(w) then w - 2 else w }      // w & ~2
  function TogglePrev(w: word): word { if PrevBit(w) then w - 2 else w + 2 } // w ^ 2

  // MAX_HEAP_SIZE is 2^40 bytes.
  const MAX_HEAP_WORDS: nat := 0x20_0000_0000

  /** The header of a block of `size` words: its size in bytes, its own state, its left neighbour's. */
  function Tag(size: nat, used: bool, leftUsed: bool): word
    requires size <= MAX_HEAP_WORDS
  {
    8 * size + (if used then 1 else 0) + (if leftUsed then 2 else 0)
  }

  /** What the flag operations make of a header. */
  lemma TagBits(size: nat, used: bool, leftUsed: bool)
    requires size <= MAX_HEAP_WORDS
    ensures var w := Tag(size, used, leftUsed);
            && SizeBits(w) == 8 * size && AllocBit(w) == used && PrevBit(w) == leftUsed
            && ClearAlloc(w) == Tag(size, false, leftUsed) && SetAlloc(w) == Tag(size, true, leftUsed)
            && ClearPrev(w) == Tag(size, used, false) && TogglePrev(w) == Tag(size, used, !leftUsed)
  {
    LowBits(2 * size, if used then 1 else 0, if leftUsed then 1 else 0);
    LowBits(2 * size, 1, if leftUsed then 1 else 0);
    LowBits(2 * size, if used then 1 else 0, 0);
    LowBits(2 * size, if used then 1 else 0, 1);
  }

  lemma LowBits(k: nat, b0: nat, b1: nat)
    requires b0 <= 1 && b1 <= 1
    ensures var w := 4 * k + 2 * b1 + b0; w % 2 == b0 && w % 4 == 2 * b1 + b0 && (w / 2) % 2 == b1
  {
    var w := 4 * k + 2 * b1 + b0;
    Remainder(w, 2, 2 * k + b1, b0);
    Remainder(w, 4, k, 2 * b1 + b0);
    Remainder(2 * k + b1, 2, k, b1);
  }

  lemma Remainder(w: nat, q: nat, d: nat, r: nat)
    requires q == 2 || q == 4
    requires w == d * q + r && r < q
    ensures w % q == r && w / q == d
  {
  }

  // ---------- Bytes ----------

  /** 256^k for the byte positions of a word. */
  function Pow256(k: nat): (p: nat)
    requires k <= 7
    ensures p > 0
  {
    [0x1, 0x100, 0x1_0000, 0x100_0000, 0x1_0000_0000, 0x100_0000_0000,
     0x1_0000_0000_0000, 0x100_0000_0000_0000][k]
  }

  /** Byte k of a word, least significant first. */
  function Byte(w: word, k: nat): int
    requires k <= 7
  {
    (w / Pow256(k)) % 256
  }

  /** Byte k of the memory that starts at word p. */
  function ByteAt(m: seq<word>, p: int, k: nat): int {
    if 0 <= p + k / 8 < |m| then Byte(m[p + k / 8], k % 8) else 0
  }

  /** Words that n bytes reach into. */
  function WordsFor(n: nat): nat { (n + 7) / 8 }

  /** The n bytes at q in m' are the n bytes at p in m. */
  ghost predicate SameBytes(m: seq<word>, p: int, m': seq<word>, q: int, n: nat) {
    && 0 <= p && p + WordsFor(n) <= |m| && 0 <= q && q + WordsFor(n) <= |m'|
    && (forall k {:trigger ByteAt(m', q, k)} :: 0 <= k < n ==> ByteAt(m', q, k) == ByteAt(m, p, k))
  }

  /** Writing the n lowest bytes of `val` over a word. */
  function Overlay(old_: word, val: word, n: nat): (w: word)
    requires 1 <= n <= 7
  {
    old_ - old_ % Pow256(n) + val % Pow256(n)
  }

  lemma {:induction false} PowersMultiply(a: nat, b: nat)
    requires a + b <= 7
    ensures Pow256(a) * Pow256(b) == Pow256(a + b)
  {
    if a > 0 {
      PowersMultiply(a - 1, b);
      var x, y := Pow256(a - 1), Pow256(b);
      assert Pow256(a) == 256 * x && Pow256(a + b) == 256 * Pow256(a - 1 + b);
      assert (256 * x) * y == 256 * (x * y);
    }
  }

  lemma MulNonnegative(k: nat, q: nat)
    ensures k * q >= 0
  {
  }

  lemma MulMonotone(e: nat, d: nat, q: nat)
    requires e < d
    ensures e * q + q <= d * q
  {
    var k := d - e - 1;
    MulNonnegative(k, q);
    assert (e + 1 + k) * q == e * q + q + k * q;
  }

  lemma Unique(q: nat, d: nat, r: nat, e: nat, t: nat)
    requires d * q + r == e * q + t && r < q && t < q
    ensures d == e
  {
    if e < d { MulMonotone(e, d, q); }
    if d < e { MulMonotone(d, e, q); }
  }

  lemma QuotientUnique(a: nat, q: nat, d: nat, r: nat)
    requires q > 0 && a == d * q + r && r < q
    ensures a / q == d
  {
    Unique(q, d, r, a / q, a % q);
  }

  lemma DivideShifted(x: nat, q: nat, r: nat)
    requires q > 0
    ensures (x * q + r) / q == x + r / q
  {
    var d := r / q;
    assert (x + d) * q == x * q + d * q;
    QuotientUnique(x * q + r, q, x + d, r % q);
  }

  lemma ScaledRemainder(x: nat, c: nat, d: nat, e: nat, p: nat, t: nat)
    requires x == d * c + e && e < c && t < p
    ensures x * p + t == d * (p * c) + (e * p + t) && e * p + t < p * c
  {
    assert x * p == (d * c) * p + e * p;
    assert (d * c) * p == d * (p * c);
    MulMonotone(e, c, p);
  }

  lemma DivideTwice(a: nat, p: nat, c: nat)
    requires p > 0 && c > 0
    ensures p * c > 0 && a / (p * c) == (a / p) / c
  {
    var x, t := a / p, a % p;
    var d, e := x / c, x % c;
    ScaledRemainder(x, c, d, e, p, t);
    QuotientUnique(a, p * c, d, e * p + t);
  }

  lemma Regroup(x: nat, c: nat, q: nat)
    ensures x * ((256 * c) * q) == (256 * (c * x)) * q
  {
    assert (256 * c) * q == 256 * (c * q);
    assert x * (c * q) == (c * x) * q;
  }

  /** A byte below the cut depends on what is below the cut only. */
  lemma LowByte(x: nat, y: nat, r: nat, p: nat, q: nat, c: nat)
    requires q > 0 && p == (256 * c) * q
    ensures ((x * p + r) / q) % 256 == ((y * p + r) / q) % 256
  {
    Regroup(x, c, q);
    Regroup(y, c, q);
    DivideShifted(256 * (c * x), q, r);
    DivideShifted(256 * (c * y), q, r);
    LastByte(c * x, r / q);
    LastByte(c * y, r / q);
  }

  lemma LastByte(k: nat, t: nat)
    ensures (256 * k + t) % 256 == t % 256
  {
  }

  /** A byte above the cut does not. */
  lemma HighByte(x: nat, r: nat, t: nat, p: nat, c: nat)
    requires r < p && t < p && c > 0
    ensures p * c > 0 && (x * p + r) / (p * c) == (x * p + t) / (p * c)
  {
    DivideTwice(x * p + r, p, c);
    DivideTwice(x * p + t, p, c);
    QuotientUnique(x * p + r, p, x, r);
    QuotientUnique(x * p + t, p, x, t);
  }

  /** The low bytes come from `val`, the rest stay. */
  lemma OverlayBytes(old_: word, val: word, n: nat, k: nat)
    requires 1 <= n <= 7 && k <= 7
    ensures Byte(Overlay(old_, val, n), k) == Byte(if k < n then val else old_, k)
  {
    hide Pow256;
    var p, q := Pow256(n), Pow256(k);
    if k < n {
      CutFactor(n, k);
      OverlayLow(old_, val, p, q, Pow256(n - k - 1));
    } else {
      PowersMultiply(n, k - n);
      OverlayHigh(old_, val, p, Pow256(k - n));
    }
  }

  lemma Decompose(o: nat, v: nat, p: nat)
    requires p > 0
    ensures o == (o / p) * p + o % p && v == (v / p) * p + v % p
    ensures o - o % p + v % p == (o / p) * p + v % p
  {
  }

  lemma OverlayLow(o: nat, v: nat, p: nat, q: nat, c: nat)
    requires p > 0 && q > 0 && p == (256 * c) * q
    ensures ((o - o % p + v % p) / q) % 256 == (v / q) % 256
  {
    Decompose(o, v, p);
    LowByte(o / p, v / p, v % p, p, q, c);
  }

  lemma OverlayHigh(o: nat, v: nat, p: nat, c: nat)
    requires p > 0 && c > 0
    ensures p * c > 0 && (o - o % p + v % p) / (p * c) == o / (p * c)
  {
    Decompose(o, v, p);
    HighByte(o / p, v % p, o % p, p, c);
  }

  lemma CutFactor(n: nat, k: nat)
    requires k < n <= 7
    ensures Pow256(n) == (256 * Pow256(n - k - 1)) * Pow256(k)
  {
    PowersMultiply(1, n - k - 1);
    PowersMultiply(n - k, k);
  }
}
