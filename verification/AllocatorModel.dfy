/** The invariant of the allocator's memory: what every page header, free list and page list
    holds, and what that means for the chunks the clients own. */
module AllocatorModel {
  import opened AllocatorLayout

  /** Word-addressed memory: `mem[a]` is the 8-byte word at address `a`. An address is a key
      exactly when it is mapped, and only multiples of 8 are ever read or written, so the
      words in use never overlap. */
  type Memory = map<int, int>

  /** A mapped region: a pool page with its free list (freed single blocks, then one untouched
      run of `runLen` blocks starting at `run`) and its live blocks, or a direct mapping. */
  datatype Mapping =
    | Pool(kind: nat, free: seq<int>, run: int, runLen: nat, used: set<int>)
    | Direct(size: int)

  datatype Mempool = Mempool(kind: nat, blockSize: nat, blocksPerPage: nat, freePagesCnt: int, pageList: int)

  function Span(m: Mapping): int { if m.Pool? then PAGE else m.size }

  function FreeCount(m: Mapping): nat { if m.Pool? then |m.free| + m.runLen else 0 }

  predicate In(b: int, span: int, a: int) { b <= a < b + span }

  // ---- One region ----

  /** Node `j` of the page's free list: the freed blocks, then the head of the run, then null. */
  function NodeAt(m: Mapping, j: nat): int
    requires m.Pool?
  {
    if j < |m.free| then m.free[j] else if j == |m.free| && m.runLen > 0 then m.run else 0
  }

  ghost predicate PlacedOk(b: int, m: Mapping) {
    b > 0 && b % PAGE == 0 && Span(m) > 0 && Span(m) % PAGE == 0
  }

  /** The blocks of a page: live ones, freed ones and the run partition them. */
  ghost predicate BlocksOk(b: int, m: Mapping) {
    m.Pool? ==>
      && m.kind < POOLS
      && (m.run == b + PAGE || IsBlock(b, m.kind, m.run))
      && m.run + m.runLen * BlockSize(m.kind) == b + PAGE
      && (forall x :: x in m.used ==> IsBlock(b, m.kind, x) && x < m.run)
      && (forall x :: x in m.free ==> IsBlock(b, m.kind, x) && x < m.run && x !in m.used)
      && (forall j, k :: 0 <= j < k < |m.free| ==> m.free[j] != m.free[k])
      && (forall x :: IsBlock(b, m.kind, x) && x < m.run ==> x in m.used || x in m.free)
      && |m.used| + |m.free| + m.runLen == BlocksPerPage(m.kind)
  }

  ghost predicate Mapped(mem: Memory, b: int, span: int) {
    forall a :: In(b, span, a) ==> a in mem
  }

  function Load(mem: Memory, a: int): int { if a in mem then mem[a] else 0 }

  /** Node `j` of the free list: a single block linked to the next node. */
  ghost predicate NodeOk(mem: Memory, m: Mapping, j: nat)
    requires m.Pool? && j < |m.free|
  {
    Load(mem, m.free[j]) == NodeAt(m, j + 1) && Load(mem, m.free[j] + 8) == 1
  }

  /** The words of the region that the allocator itself wrote, apart from the page links. */
  ghost predicate ImageOk(mem: Memory, b: int, m: Mapping) {
    match m
    case Direct(size) => Load(mem, b + TAG) == TagWord(MMAP_TYPE) && Load(mem, b + SIZE) == size
    case Pool(kind, free, run, runLen, used) =>
      && Load(mem, b + TAG) == TagWord(kind + MIN_TYPE)
      && Load(mem, b + LIST) == NodeAt(m, 0)
      && Load(mem, b + COUNT) == FreeCount(m)
      && (forall j :: 0 <= j < |free| ==> NodeOk(mem, m, j))
      && (runLen > 0 ==> Load(mem, run) == 0 && Load(mem, run + 8) == runLen)
  }

  ghost predicate RegionOk(mem: Memory, b: int, m: Mapping) {
    PlacedOk(b, m) && BlocksOk(b, m) && Mapped(mem, b, Span(m)) && ImageOk(mem, b, m)
  }

  lemma HeaderMapped(mem: Memory, b: int, m: Mapping)
    requires PlacedOk(b, m) && Mapped(mem, b, Span(m))
    ensures b + TAG in mem && b + SIZE in mem && b + PREV in mem && b + NEXT in mem
    ensures b + LIST in mem && b + COUNT in mem
    ensures Span(m) >= PAGE
  {
    assert In(b, Span(m), b + TAG) && In(b, Span(m), b + SIZE);
    assert In(b, Span(m), b + PREV) && In(b, Span(m), b + NEXT);
    assert In(b, Span(m), b + LIST) && In(b, Span(m), b + COUNT);
  }

  lemma BlockMapped(mem: Memory, b: int, m: Mapping, x: int)
    requires m.Pool? && m.kind < POOLS && PlacedOk(b, m) && Mapped(mem, b, Span(m))
    requires IsBlock(b, m.kind, x)
    ensures b + HEADER <= x && x + BlockSize(m.kind) <= b + PAGE && x % 8 == 0
    ensures x in mem && x + 8 in mem
    ensures In(b, Span(m), x) && In(b, Span(m), x + 8)
  {
    hide IsBlock, BlockSize;
    BlockBounds(b, m.kind, x);
    assert x == 8 * (2 * (x / ALIGN));
  }

  lemma RunIsBlock(b: int, m: Mapping)
    requires m.Pool? && PlacedOk(b, m) && BlocksOk(b, m)
    ensures m.runLen > 0 <==> IsBlock(b, m.kind, m.run)
    ensures m.runLen == 0 <==> m.run == b + PAGE
  {
    if m.runLen > 0 { MulMonotone(1, m.runLen, BlockSize(m.kind)); }
  }

  /** An address range of `len` bytes at `p` and one at `q` do not meet. */
  predicate Disjoint(p: int, len: int, q: int, len': int) { p + len <= q || q + len' <= p }

  // ---- Changing one page ----

  /** The page after one of its blocks was handed out. */
  function Take(m: Mapping): Mapping
    requires m.Pool? && m.kind < POOLS && FreeCount(m) > 0
  {
    if m.free != [] then m.(free := m.free[1..], used := m.used + {m.free[0]})
    else m.(run := m.run + BlockSize(m.kind), runLen := m.runLen - 1, used := m.used + {m.run})
  }

  /** The page after block `x` came back. */
  function Give(m: Mapping, x: int): Mapping
    requires m.Pool?
  {
    m.(free := [x] + m.free, used := m.used - {x})
  }

  lemma TakeKeepsBlocks(b: int, m: Mapping)
    requires m.Pool? && PlacedOk(b, m) && BlocksOk(b, m) && FreeCount(m) > 0
    ensures BlocksOk(b, Take(m)) && FreeCount(Take(m)) == FreeCount(m) - 1
    ensures IsBlock(b, m.kind, NodeAt(m, 0)) && NodeAt(m, 0) !in m.used
    ensures Take(m).used == m.used + {NodeAt(m, 0)}
  {
    if m.free != [] {
      assert m.free[0] in m.free;
      TakeFreedKeepsBlocks(b, m);
    } else {
      RunIsBlock(b, m);
      TakeRunKeepsBlocks(b, m);
    }
  }

  lemma TakeFreedKeepsBlocks(b: int, m: Mapping)
    requires m.Pool? && BlocksOk(b, m) && m.free != []
    ensures BlocksOk(b, Take(m))
  {
    var m', x := Take(m), m.free[0];
    assert m.free == [x] + m'.free;
    forall y | y in m'.free
      ensures y in m.free && y != x
    {
      var j :| 0 <= j < |m'.free| && m'.free[j] == y;
      assert m.free[j + 1] == y;
    }
  }

  lemma TakeRunKeepsBlocks(b: int, m: Mapping)
    requires m.Pool? && PlacedOk(b, m) && BlocksOk(b, m) && m.free == [] && m.runLen > 0
    requires IsBlock(b, m.kind, m.run)
    ensures BlocksOk(b, Take(m))
  {
    var m', s := Take(m), BlockSize(m.kind);
    NextBlock(b, m.kind, m.run);
    MulPredecessor(m.runLen, s);
    forall y | IsBlock(b, m.kind, y) && y < m'.run
      ensures y in m'.used
    {
      if y > m.run { BlocksApart(b, m.kind, m.run, y); }
    }
  }

  lemma GiveKeepsBlocks(b: int, m: Mapping, x: int)
    requires m.Pool? && BlocksOk(b, m) && x in m.used
    ensures BlocksOk(b, Give(m, x)) && FreeCount(Give(m, x)) == FreeCount(m) + 1
  {
  }

  /** Outside the words listed, `mem'` is `mem`. */
  ghost predicate SameWords(mem: Memory, mem': Memory, b: int, m: Mapping, lo: int, len: int) {
    forall a :: In(b, Span(m), a) && a != b + LIST && a != b + COUNT && !(lo <= a < lo + len)
      ==> Load(mem', a) == Load(mem, a)
  }

  /** Distinct blocks of a page: their extents do not meet. */
  lemma NodeApart(b: int, i: nat, x: int, y: int)
    requires i < POOLS && x != y && IsBlock(b, i, x) && IsBlock(b, i, y)
    ensures Disjoint(x, BlockSize(i), y, BlockSize(i))
  {
    if x < y { BlocksApart(b, i, x, y); } else { BlocksApart(b, i, y, x); }
  }

  /** A block other than the one overwritten keeps its free-list words. */
  lemma NodeKept(mem: Memory, mem': Memory, b: int, m: Mapping, x: int, y: int)
    requires m.Pool? && m.kind < POOLS && PlacedOk(b, m) && x != y
    requires IsBlock(b, m.kind, x) && IsBlock(b, m.kind, y)
    requires SameWords(mem, mem', b, m, x, BlockSize(m.kind))
    ensures Load(mem', y) == Load(mem, y) && Load(mem', y + 8) == Load(mem, y + 8)
  {
    NodeApart(b, m.kind, x, y);
    BlockBounds(b, m.kind, y);
    assert In(b, Span(m), y) && In(b, Span(m), y + 8);
  }

  lemma TagKept(mem: Memory, mem': Memory, b: int, m: Mapping, x: int, len: int)
    requires PlacedOk(b, m) && SameWords(mem, mem', b, m, x, len) && x >= b + HEADER
    ensures Load(mem', b + TAG) == Load(mem, b + TAG)
  {
    assert In(b, Span(m), b + TAG);
  }

  /** What the writes of MempoolAlloc leave in the page is the image of Take. */
  lemma TakeFreedImage(mem: Memory, mem': Memory, b: int, m: Mapping)
    requires m.Pool? && RegionOk(mem, b, m) && m.free != []
    requires Load(mem', b + LIST) == NodeAt(m, 1) && Load(mem', b + COUNT) == FreeCount(m) - 1
    requires SameWords(mem, mem', b, m, m.free[0], BlockSize(m.kind))
    ensures ImageOk(mem', b, Take(m))
  {
    var m', x := Take(m), m.free[0];
    assert x in m.free;
    BlockBounds(b, m.kind, x);
    TagKept(mem, mem', b, m, x, BlockSize(m.kind));
    forall j | 0 <= j < |m'.free|
      ensures NodeOk(mem', m', j)
    {
      assert NodeOk(mem, m, j + 1);
      assert m'.free[j] == m.free[j + 1] && m.free[j + 1] in m.free;
      NodeKept(mem, mem', b, m, x, m.free[j + 1]);
    }
    if m.runLen > 0 {
      RunIsBlock(b, m);
      NodeKept(mem, mem', b, m, x, m.run);
    }
  }

  lemma TakeRunImage(mem: Memory, mem': Memory, b: int, m: Mapping)
    requires m.Pool? && RegionOk(mem, b, m) && m.free == [] && m.runLen > 0
    requires Load(mem', b + LIST) == NodeAt(Take(m), 0) && Load(mem', b + COUNT) == m.runLen - 1
    requires SameWords(mem, mem', b, m, m.run, BlockSize(m.kind) + 16)
    requires m.runLen > 1 ==> Load(mem', m.run + BlockSize(m.kind)) == 0
    requires m.runLen > 1 ==> Load(mem', m.run + BlockSize(m.kind) + 8) == m.runLen - 1
    ensures ImageOk(mem', b, Take(m))
  {
    RunIsBlock(b, m);
    BlockBounds(b, m.kind, m.run);
    TagKept(mem, mem', b, m, m.run, BlockSize(m.kind) + 16);
  }

  /** What the writes of MempoolFree leave in the page is the image of Give. */
  lemma GiveImage(mem: Memory, mem': Memory, b: int, m: Mapping, x: int)
    requires m.Pool? && RegionOk(mem, b, m) && x in m.used
    requires Load(mem', b + LIST) == x && Load(mem', b + COUNT) == FreeCount(m) + 1
    requires Load(mem', x) == NodeAt(m, 0) && Load(mem', x + 8) == 1
    requires SameWords(mem, mem', b, m, x, BlockSize(m.kind))
    ensures ImageOk(mem', b, Give(m, x))
  {
    var m' := Give(m, x);
    BlockBounds(b, m.kind, x);
    TagKept(mem, mem', b, m, x, BlockSize(m.kind));
    forall j | 0 <= j < |m'.free|
      ensures NodeOk(mem', m', j)
    {
      if j > 0 {
        assert NodeOk(mem, m, j - 1);
        var y := m.free[j - 1];
        assert m'.free[j] == y && y in m.free;
        NodeKept(mem, mem', b, m, x, y);
      }
    }
    if m.runLen > 0 {
      RunIsBlock(b, m);
      NodeKept(mem, mem', b, m, x, m.run);
    }
  }

  /** A region whose words, page links apart, are untouched keeps its image. */
  lemma RegionFrame(mem: Memory, mem': Memory, b: int, m: Mapping)
    requires RegionOk(mem, b, m) && Mapped(mem', b, Span(m))
    requires forall a :: In(b, Span(m), a) && a != b + PREV && a != b + NEXT ==> Load(mem', a) == Load(mem, a)
    ensures RegionOk(mem', b, m)
  {
    HeaderMapped(mem, b, m);
    assert In(b, Span(m), b + TAG) && In(b, Span(m), b + SIZE);
    assert In(b, Span(m), b + LIST) && In(b, Span(m), b + COUNT);
    if m.Pool? {
      forall j | 0 <= j < |m.free|
        ensures NodeOk(mem', m, j)
      {
        assert NodeOk(mem, m, j);
        assert m.free[j] in m.free;
        BlockMapped(mem, b, m, m.free[j]);
      }
      if m.runLen > 0 {
        RunIsBlock(b, m);
        BlockMapped(mem, b, m, m.run);
      }
    }
  }

  // ---- Page lists ----

  function At(l: seq<int>, k: int): int { if 0 <= k < |l| then l[k] else 0 }

  ghost predicate LinkOk(mem: Memory, l: seq<int>, k: nat)
    requires k < |l|
  {
    Load(mem, l[k] + NEXT) == At(l, k + 1) && Load(mem, l[k] + PREV) == At(l, k - 1)
  }

  /** The doubly linked list starting at `head` visits exactly `l`. */
  ghost predicate ListOk(mem: Memory, head: int, l: seq<int>) {
    && head == At(l, 0)
    && (forall k :: 0 <= k < |l| ==> LinkOk(mem, l, k))
    && (forall j, k :: 0 <= j < k < |l| ==> l[j] != l[k])
    && (forall x :: x in l ==> x != 0)
  }

  /** `a` is a link word of one of the pages in `l`. */
  predicate IsLink(a: int, l: seq<int>) { a - PREV in l || a - NEXT in l }

  ghost predicate OnlyLinks(mem: Memory, mem': Memory, l: seq<int>) {
    && mem'.Keys == mem.Keys
    && (forall a :: !IsLink(a, l) ==> Load(mem', a) == Load(mem, a))
  }

  lemma ListFrame(mem: Memory, mem': Memory, head: int, l: seq<int>)
    requires ListOk(mem, head, l)
    requires forall x :: x in l ==> Load(mem', x + PREV) == Load(mem, x + PREV) && Load(mem', x + NEXT) == Load(mem, x + NEXT)
    ensures ListOk(mem', head, l)
  {
    forall k | 0 <= k < |l|
      ensures LinkOk(mem', l, k)
    {
      assert LinkOk(mem, l, k) && l[k] in l;
    }
  }
}
