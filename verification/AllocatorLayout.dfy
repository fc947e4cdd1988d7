/** Constants and address arithmetic of the signal-safe allocator (LP64). */
module AllocatorLayout {

  const PAGE := 4096
  const ALIGN := 16
  const HEADER := 48            // sizeof(PageInfo), already a multiple of ALIGN
  const MAX_BLOCK := 1024
  const MIN_TYPE := 4
  const MAX_TYPE := 10
  const MMAP_TYPE := 111
  const POOLS := 7
  const DIRECT := 7             // index of the list of direct mappings, after the seven pools
  const TWO_32 := 0x1_0000_0000
  const TWO_64 := 0x1_0000_0000_0000_0000
  const SIGN := 0x01584644      // the bytes 'D', 'F', 'X', 1 read as a little-endian word

  // Offsets of the PageInfo fields.
  const TAG := 0
  const SIZE := 8               // the union of mMapAllocSize and mempool
  const PREV := 16
  const NEXT := 24
  const LIST := 32
  const COUNT := 40

  function PageStart(a: int): int { a / PAGE * PAGE }

  /** PageEnd in size_t arithmetic: the addition wraps. */
  function PageEnd(a: int): int { PageStart((a + PAGE - 1) % TWO_64) }

  /** The mask form of the source, for the powers of two it is called with. */
  function AlignRoundUp(val: nat, align: nat): nat {
    var size := if align == 0 then 1 else align;
    (val + size - 1) / size * size
  }

  function Pow2(n: nat): nat { if n == 0 then 1 else 2 * Pow2(n - 1) }

  /** Block size of pool `i`, 16 bytes up to 1024. */
  function BlockSize(i: nat): nat
    requires i < POOLS
  {
    if i == 0 then 16 else if i == 1 then 32 else if i == 2 then 64 else if i == 3 then 128
    else if i == 4 then 256 else if i == 5 then 512 else 1024
  }

  function BlocksPerPage(i: nat): nat
    requires i < POOLS
  {
    (PAGE - HEADER) / BlockSize(i)
  }

  /** Offset of the first block of a page. */
  function First(i: nat): nat
    requires i < POOLS
  {
    if BlockSize(i) < HEADER then (if i == 0 then 48 else 64) else BlockSize(i)
  }

  predicate IsBlock(b: int, i: nat, a: int)
    requires i < POOLS
  {
    b + First(i) <= a < b + PAGE && (a - b) % BlockSize(i) == 0
  }

  function TagWord(kind: nat): int { SIGN + kind * TWO_32 }

  lemma Powers()
    ensures Pow2(4) == 16 && Pow2(5) == 32 && Pow2(6) == 64 && Pow2(7) == 128
    ensures Pow2(8) == 256 && Pow2(9) == 512 && Pow2(10) == 1024
  {
    assert Pow2(2) == 4;
    assert Pow2(4) == 16;
    assert Pow2(6) == 64;
    assert Pow2(8) == 256;
  }

  lemma PageOf(b: int, d: int)
    requires b % PAGE == 0 && 0 <= d < PAGE
    ensures PageStart(b + d) == b
  {
  }

  /** Rounding up to a divisor `s` of the page size keeps the page base. */
  lemma RoundInPage(q: nat, s: nat, d: nat)
    requires s > 0 && PAGE % s == 0
    ensures AlignRoundUp(q * PAGE + d, s) == q * PAGE + AlignRoundUp(d, s)
  {
    var k := PAGE / s;
    assert q * PAGE == (q * k) * s by { assert PAGE == k * s; }
    DivShift(d + s - 1, s, q * k);
    assert q * PAGE + d + s - 1 == d + s - 1 + (q * k) * s;
    assert ((d + s - 1) / s + q * k) * s == (d + s - 1) / s * s + (q * k) * s;
  }

  lemma DivShift(x: nat, s: nat, k: nat)
    requires s > 0
    ensures (x + k * s) / s == x / s + k
  {
    var q, r := x / s, x % s;
    assert x + k * s == (q + k) * s + r;
    DivUnique(x + k * s, s, q + k, r);
  }

  lemma DivUnique(x: int, s: int, q: int, r: int)
    requires s > 0 && x == q * s + r && 0 <= r < s
    ensures x / s == q && x % s == r
  {
    var p := x / s;
    assert (p + 1) * s == p * s + s && (q + 1) * s == q * s + s;
    if p < q { MulMonotone(p + 1, q, s); }
    if q < p { MulMonotone(q + 1, p, s); }
  }

  lemma MulMonotone(a: int, b: int, s: int)
    requires a <= b && 0 <= s
    ensures a * s <= b * s
  {
  }

  lemma MulPredecessor(n: int, s: int)
    ensures (n - 1) * s == n * s - s
  {
  }

  /** The blocks of a page start after its header and end exactly at its end. */
  lemma PoolGeometry(i: nat)
    requires i < POOLS
    ensures AlignRoundUp(HEADER, BlockSize(i)) == First(i)
    ensures First(i) + BlocksPerPage(i) * BlockSize(i) == PAGE
    ensures First(i) % BlockSize(i) == 0 && First(i) >= HEADER
    ensures PAGE % BlockSize(i) == 0 && BlockSize(i) % ALIGN == 0
    ensures BlocksPerPage(i) >= 3
  {
    if i == 0 {} else if i == 1 {} else if i == 2 {} else if i == 3 {}
    else if i == 4 {} else if i == 5 {} else {}
  }

  lemma FirstBlock(b: int, i: nat)
    requires i < POOLS && b % PAGE == 0 && b >= 0
    ensures AlignRoundUp(b + HEADER, BlockSize(i)) == b + First(i)
    ensures IsBlock(b, i, b + First(i))
  {
    PoolGeometry(i);
    RoundInPage(b / PAGE, BlockSize(i), HEADER);
  }

  /** Block offsets, for each block size as a literal. */
  lemma OffsetBounds(i: nat, d: int)
    requires i < POOLS && First(i) <= d < PAGE && d % BlockSize(i) == 0
    ensures HEADER <= d && d + BlockSize(i) <= PAGE && d % ALIGN == 0
  {
    if i == 0 {} else if i == 1 {} else if i == 2 {} else if i == 3 {}
    else if i == 4 {} else if i == 5 {} else {}
  }

  /** A multiple of `s` beyond a page base is a multiple of `s`, for a divisor `s` of the page size. */
  lemma OffsetAligned(b: int, s: nat, d: int)
    requires s > 0 && PAGE % s == 0 && b % PAGE == 0 && d % s == 0
    ensures (b + d) % s == 0
  {
    var q, k, e := b / PAGE, PAGE / s, d / s;
    assert b == (q * k) * s by { assert PAGE == k * s; }
    assert b + d == (q * k + e) * s;
    ModMultiple(q * k + e, s);
  }

  lemma ModMultiple(k: int, s: nat)
    requires s > 0
    ensures (k * s) % s == 0
  {
    DivUnique(k * s, s, k, 0);
  }

  lemma BlockBounds(b: int, i: nat, a: int)
    requires i < POOLS && b % PAGE == 0 && IsBlock(b, i, a)
    ensures b + HEADER <= a && a + BlockSize(i) <= b + PAGE
    ensures a % ALIGN == 0 && a % BlockSize(i) == 0
    ensures PageStart(a) == b && PageStart(a - HEADER) == b
  {
    var d := a - b;
    assert a == b + d;
    OffsetBounds(i, d);
    assert a % BlockSize(i) == 0 by { PoolGeometry(i); OffsetAligned(b, BlockSize(i), d); }
    assert a % ALIGN == 0 by { OffsetAligned(b, ALIGN, d); }
    assert PageStart(a) == b by { PageOf(b, d); }
    assert PageStart(a - HEADER) == b by { PageOf(b, d - HEADER); }
  }

  lemma BlocksApart(b: int, i: nat, a: int, c: int)
    requires i < POOLS && IsBlock(b, i, a) && IsBlock(b, i, c) && a < c
    ensures a + BlockSize(i) <= c
  {
    if i == 0 {} else if i == 1 {} else if i == 2 {} else if i == 3 {}
    else if i == 4 {} else if i == 5 {} else {}
  }

  lemma NextMultiple(d: int, s: int)
    requires s > 0 && d % s == 0
    ensures (d + s) % s == 0
  {
    var k := d / s;
    assert d + s == (k + 1) * s;
    ModMultiple(k + 1, s);
  }

  lemma NextBlock(b: int, i: nat, a: int)
    requires i < POOLS && IsBlock(b, i, a) && b % PAGE == 0
    ensures a + BlockSize(i) == b + PAGE || IsBlock(b, i, a + BlockSize(i))
  {
    var d := a - b;
    OffsetBounds(i, d);
    assert (d + BlockSize(i)) % BlockSize(i) == 0 by { NextMultiple(d, BlockSize(i)); }
    assert a + BlockSize(i) - b == d + BlockSize(i);
  }

  lemma TagRoundTrip(kind: nat)
    ensures TagWord(kind) % TWO_32 == SIGN && TagWord(kind) / TWO_32 == kind
  {
  }

  // ---- Size classes ----

  /** The pool with the smallest blocks that hold `size` bytes. */
  predicate BestPool(i: nat, size: nat)
    requires i < POOLS
  {
    size <= BlockSize(i) && forall j: nat :: j < i ==> BlockSize(j) < size
  }

  function SizeClass(size: nat): nat
    requires 1 <= size <= MAX_BLOCK
  {
    if size <= 16 then 0 else if size <= 32 then 1 else if size <= 64 then 2 else if size <= 128 then 3
    else if size <= 256 then 4 else if size <= 512 then 5 else 6
  }

  /** Pool `k` has the smallest blocks, of 16 times a power of two, that hold `size` bytes. */
  predicate Smallest(k: nat, size: nat) {
    k < 7 && size <= 16 * Pow2(k) && (k > 0 ==> 16 * Pow2(k - 1) < size)
  }

  lemma SmallestIs(k: nat, size: nat)
    requires size <= 1024
    ensures Smallest(k, size) <==> k == SizeClass(if size == 0 then 1 else size)
  {
    Powers();
    assert Pow2(0) == 1 && Pow2(1) == 2 && Pow2(2) == 4 && Pow2(3) == 8;
  }

  /** Bytes of a direct mapping for `size` bytes: header and payload rounded up to whole pages. */
  function DirectSize(size: nat): nat { (HEADER + size + PAGE - 1) / PAGE * PAGE }

  /** Whether AllocMmap's two overflow tests let `size` through. */
  predicate DirectFits(size: nat) { HEADER + size + PAGE - 1 < TWO_64 }

  lemma DirectSizeBounds(size: nat)
    ensures DirectSize(size) % PAGE == 0 && DirectSize(size) >= HEADER + size && DirectSize(size) > 0
    ensures DirectSize(size) < HEADER + size + PAGE
  {
  }

  /** The size tests of AllocMmap, in size_t arithmetic. */
  lemma DirectTests(size: nat)
    requires size < TWO_64
    ensures HEADER + size < TWO_64 && PageEnd(HEADER + size) >= HEADER + size <==> DirectFits(size)
    ensures DirectFits(size) ==> PageEnd(HEADER + size) == DirectSize(size)
  {
    if !DirectFits(size) && HEADER + size < TWO_64 {
      assert (HEADER + size + PAGE - 1) % TWO_64 == HEADER + size + PAGE - 1 - TWO_64;
    }
  }

  lemma Pow2Monotone(a: nat, b: nat)
    requires a <= b
    ensures Pow2(a) <= Pow2(b)
    decreases b
  {
    if a < b { Pow2Monotone(a, b - 1); }
  }

  /** The exponent clamped to the pool range names the best pool. */
  lemma ExponentPool(res: nat, size: nat)
    requires 1 <= size <= MAX_BLOCK && size <= Pow2(res) && (res > 0 ==> Pow2(res - 1) < size)
    ensures res <= MAX_TYPE
    ensures var kind := if res < MIN_TYPE then MIN_TYPE else res; BestPool(kind - MIN_TYPE, size)
  {
    Powers();
    if res > MAX_TYPE { Pow2Monotone(MAX_TYPE, res - 1); }
    if res < MIN_TYPE { Pow2Monotone(res, MIN_TYPE); }
  }

  lemma BestPoolUnique(i: nat, j: nat, size: nat)
    requires i < POOLS && j < POOLS && BestPool(i, size) && BestPool(j, size)
    ensures i == j
  {
  }

  lemma SmallestHolds(size: nat)
    requires size <= MAX_BLOCK
    ensures exists k: nat :: Smallest(k, size) && Capacity(size) == 16 * Pow2(k)
  {
    var k := SizeClass(if size == 0 then 1 else size);
    SmallestIs(k, size);
    Powers();
    assert Pow2(0) == 1 && Pow2(1) == 2 && Pow2(2) == 4 && Pow2(3) == 8;
    assert Smallest(k, size) && Capacity(size) == 16 * Pow2(k);
  }

  predicate Within(p: nat, n: nat, x: nat) { p * n <= x < p * (n + 1) }

  /** The chunk length for a request: the best pool's block size, or whole pages less the header. */
  function Capacity(size: nat): nat {
    var want := if size == 0 then 1 else size;
    if want > MAX_BLOCK then DirectSizeBounds(want); DirectSize(want) - HEADER else BlockSize(SizeClass(want))
  }

  /** Enough room, a multiple of 16, from the smallest pool that fits or with less than a page wasted. */
  lemma CapacityIsLeast(size: nat)
    ensures Capacity(size) >= size && Capacity(size) >= ALIGN && Capacity(size) % ALIGN == 0
    ensures 1 <= size <= MAX_BLOCK ==> exists i: nat :: i < POOLS && Capacity(size) == BlockSize(i) && BestPool(i, size)
    ensures size > MAX_BLOCK ==> Capacity(size) < size + PAGE
    ensures size <= 1024 ==> exists k: nat :: Smallest(k, size) && Capacity(size) == 16 * Pow2(k)
    ensures size > 1024 ==> Capacity(size) == (48 + size + 4095) / 4096 * 4096 - 48
  {
    if size <= MAX_BLOCK { SmallestHolds(size); }
    if 1 <= size <= MAX_BLOCK {
      assert BestPool(SizeClass(size), size);
    } else if size > MAX_BLOCK {
      DirectSizeBounds(size);
      var q := DirectSize(size) / PAGE;
      assert Capacity(size) == ALIGN * (256 * q - 3);
    }
  }

  /** One shift of SelectMempoolType's loop. */
  lemma ShiftStep(p: nat, n: nat, x: nat)
    requires Within(p, n, x) && n > 0
    ensures Within(2 * p, n / 2, x) && p <= x
  {
    var h := n / 2;
    assert 2 * p * h == p * (2 * h) && 2 * p * (h + 1) == p * (2 * h + 2);
    MulMonotone(2 * h, n, p);
    MulMonotone(n + 1, 2 * h + 2, p);
    MulMonotone(1, n, p);
  }
}
