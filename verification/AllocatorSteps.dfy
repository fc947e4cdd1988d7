/** The memory effects of the allocator's operations and what they keep. */
module AllocatorSteps {
  import opened AllocatorLayout
  import opened AllocatorModel
  import opened AllocatorInvariant
  import opened AllocatorChunks

  // ---- Library and kernel primitives on the word memory ----

  /** Whether the kernel may place a mapping of `size` bytes at `base`. */
  predicate Placeable(mem: Memory, base: int, size: int) {
    base > 0 && base % PAGE == 0 && base + size <= TWO_64 &&
    forall a :: In(base, size, a) ==> a !in mem
  }

  function MapZero(mem: Memory, base: int, size: int): Memory {
    mem + map a | base <= a < base + size && In(base, size, a) :: 0
  }

  function Unmap(mem: Memory, base: int, size: int): Memory {
    map a | a in mem && !(base <= a < base + size) :: mem[a]
  }

  function Fill(mem: Memory, p: int, len: int): Memory {
    map a | a in mem :: if p <= a < p + len then 0 else mem[a]
  }

  function Copy(mem: Memory, dst: int, src: int, len: int): Memory {
    map a | a in mem :: if In(dst, len, a) then Load(mem, src + (a - dst)) else mem[a]
  }

  // ---- Taking and giving a block ----

  /** The writes of MempoolAlloc inside the page at `b`. */
  ghost predicate TakeWrites(mem: Memory, mem': Memory, b: int, m: Mapping)
    requires m.Pool? && m.kind < POOLS && FreeCount(m) > 0
  {
    var x, s := NodeAt(m, 0), BlockSize(m.kind);
    var splits := m.free == [] && m.runLen > 1;
    && mem'.Keys == mem.Keys
    && Load(mem', b + LIST) == NodeAt(Take(m), 0)
    && Load(mem', b + COUNT) == FreeCount(m) - 1
    && ZeroFilled(mem', x, s)
    && (splits ==> Load(mem', m.run + s) == 0 && Load(mem', m.run + s + 8) == m.runLen - 1)
    && (forall a :: TakeSpares(m, b, a) ==> Load(mem', a) == Load(mem, a))
  }

  /** An address MempoolAlloc does not write. */
  predicate TakeSpares(m: Mapping, b: int, a: int)
    requires m.Pool? && m.kind < POOLS && FreeCount(m) > 0
  {
    var x, s := NodeAt(m, 0), BlockSize(m.kind);
    && a != b + LIST && a != b + COUNT && !(x <= a < x + s)
    && !(m.free == [] && m.runLen > 1 && (a == m.run + s || a == m.run + s + 8))
  }

  lemma TakeRegion(mem: Memory, mem': Memory, b: int, m: Mapping)
    requires m.Pool? && RegionOk(mem, b, m) && FreeCount(m) > 0 && TakeWrites(mem, mem', b, m)
    ensures RegionOk(mem', b, Take(m))
  {
    TakeKeepsBlocks(b, m);
    if m.free != [] {
      TakeFreedImage(mem, mem', b, m);
    } else {
      TakeRunImage(mem, mem', b, m);
    }
  }

  /** None of those writes reaches a block other than the one taken, the run's rest or the header. */
  lemma TakeMisses(mem: Memory, mem': Memory, b: int, m: Mapping, q: int)
    requires m.Pool? && RegionOk(mem, b, m) && FreeCount(m) > 0 && TakeWrites(mem, mem', b, m)
    requires q in m.used
    ensures forall a :: q <= a < q + BlockSize(m.kind) ==> Load(mem', a) == Load(mem, a)
  {
    TakeKeepsBlocks(b, m);
    NodeApart(b, m.kind, q, NodeAt(m, 0));
    BlockBounds(b, m.kind, q);
  }

  lemma TakeStays(mem: Memory, mem': Memory, b: int, m: Mapping, a: int)
    requires m.Pool? && RegionOk(mem, b, m) && FreeCount(m) > 0 && TakeWrites(mem, mem', b, m)
    requires !In(b, PAGE, a) || a == b + PREV || a == b + NEXT
    ensures Load(mem', a) == Load(mem, a)
  {
    TakeKeepsBlocks(b, m);
    BlockBounds(b, m.kind, NodeAt(m, 0));
    if m.free == [] && m.runLen > 1 {
      TakeRunNext(b, m);
    }
  }

  lemma TakeRunNext(b: int, m: Mapping)
    requires m.Pool? && PlacedOk(b, m) && BlocksOk(b, m) && m.runLen > 1
    ensures b + HEADER <= m.run && m.run + BlockSize(m.kind) + 16 <= b + PAGE
  {
    RunIsBlock(b, m);
    BlockBounds(b, m.kind, m.run);
    MulMonotone(2, m.runLen, BlockSize(m.kind));
  }

  /** Handing out the first free block of a page. */
  lemma TakeStep(s: State, s': State, b: int)
    requires Core(s) && b in s.maps && s.maps[b].Pool? && s.maps[b].kind < POOLS && FreeCount(s.maps[b]) > 0
    requires TakeWrites(s.mem, s'.mem, b, s.maps[b])
    requires s' == s.(mem := s'.mem, maps := s.maps[b := Take(s.maps[b])])
    ensures Core(s') && SameElse(s, s', NodeAt(s.maps[b], 0))
  {
    var m := s.maps[b];
    assert RegionOk(s.mem, b, m);
    TakeRegion(s.mem, s'.mem, b, m);
    forall a | !In(b, PAGE, a) || a == b + PREV || a == b + NEXT
      ensures Load(s'.mem, a) == Load(s.mem, a)
    {
      TakeStays(s.mem, s'.mem, b, m, a);
    }
    PageStep(s, s', b, Take(m));
    TakeChunks(s, s', b);
  }

  lemma TakeIssues(mem: Memory, maps: map<int, Mapping>, b: int)
    requires b in maps && RegionOk(mem, b, maps[b]) && maps[b].Pool? && FreeCount(maps[b]) > 0
    ensures var p := NodeAt(maps[b], 0);
      Owner(p) == b && !Live(maps, p) && Live(maps[b := Take(maps[b])], p) && p > 0
  {
    TakeKeepsBlocks(b, maps[b]);
    BlockBounds(b, maps[b].kind, NodeAt(maps[b], 0));
  }

  lemma TakeChunks(s: State, s': State, b: int)
    requires Core(s) && b in s.maps && s.maps[b].Pool? && s.maps[b].kind < POOLS && FreeCount(s.maps[b]) > 0
    requires TakeWrites(s.mem, s'.mem, b, s.maps[b])
    requires s'.maps == s.maps[b := Take(s.maps[b])]
    requires s'.mem.Keys == s.mem.Keys && forall a :: !In(b, PAGE, a) ==> Load(s'.mem, a) == Load(s.mem, a)
    ensures SameElse(s, s', NodeAt(s.maps[b], 0))
  {
    hide Core, ImageOk, SameElse, TakeWrites;
    var m, p := s.maps[b], NodeAt(s.maps[b], 0);
    CoreParts(s);
    TakeKeepsBlocks(b, m);
    forall q, a | q in Take(m).used && q != p && q <= a < q + BlockSize(m.kind)
      ensures Load(s'.mem, a) == Load(s.mem, a)
    {
      TakeMisses(s.mem, s'.mem, b, m, q);
    }
    ChunksAfterWrite(s, s', b, Take(m), p);
  }

  /** What MempoolAlloc reads in the first free block. */
  lemma TakeReads(mem: Memory, b: int, m: Mapping)
    requires m.Pool? && RegionOk(mem, b, m) && FreeCount(m) > 0
    ensures var x := NodeAt(m, 0);
      && IsBlock(b, m.kind, x) && x in mem && x + 8 in mem && x % 8 == 0 && (x + 8) % 8 == 0 && x != 0
      && b + HEADER <= x && x + BlockSize(m.kind) <= b + PAGE
      && Load(mem, x + 8) == (if m.free != [] then 1 else m.runLen)
      && Load(mem, x) == (if m.free != [] then NodeAt(m, 1) else 0)
    ensures NodeAt(Take(m), 0) ==
      if m.free != [] then NodeAt(m, 1) else if m.runLen > 1 then m.run + BlockSize(m.kind) else 0
  {
    TakeKeepsBlocks(b, m);
    BlockMapped(mem, b, m, NodeAt(m, 0));
    BlockBounds(b, m.kind, NodeAt(m, 0));
    NodeAligned(NodeAt(m, 0));
    if m.free != [] { assert NodeOk(mem, m, 0); }
  }

  /** The statements of MempoolAlloc, in order, perform exactly those writes: splitting the run ... */
  lemma TakeSplits(mem: Memory, mem': Memory, b: int, m: Mapping)
    requires m.Pool? && RegionOk(mem, b, m) && m.free == [] && m.runLen > 1
    requires mem' == (var x, s := m.run, BlockSize(m.kind);
       Fill(mem[x + s := 0][x + s + 8 := m.runLen - 1][b + LIST := x + s][b + COUNT := FreeCount(m) - 1], x, s))
    ensures TakeWrites(mem, mem', b, m)
  {
    hide ImageOk, IsBlock, Mapped;
    var x, s := m.run, BlockSize(m.kind);
    SplitBounds(mem, b, m);
    SplitLoads(mem, mem', b, x, s, m.runLen - 1, FreeCount(m) - 1);
  }

  lemma SplitBounds(mem: Memory, b: int, m: Mapping)
    requires m.Pool? && RegionOk(mem, b, m) && m.free == [] && m.runLen > 1
    ensures var x, s := m.run, BlockSize(m.kind);
      && b + HEADER <= x && s >= 16 && x + s in mem && x + s + 8 in mem && b + LIST in mem && b + COUNT in mem
  {
    HeaderMapped(mem, b, m);
    TakeRunNext(b, m);
    RunNextMapped(mem, b, m);
  }

  lemma SplitLoads(mem: Memory, mem': Memory, b: int, x: int, s: int, left: int, count: int)
    requires b + HEADER <= x && s >= 16
    requires x + s in mem && x + s + 8 in mem && b + LIST in mem && b + COUNT in mem
    requires mem' == Fill(mem[x + s := 0][x + s + 8 := left][b + LIST := x + s][b + COUNT := count], x, s)
    ensures mem'.Keys == mem.Keys && ZeroFilled(mem', x, s)
    ensures Load(mem', b + LIST) == x + s && Load(mem', b + COUNT) == count
    ensures Load(mem', x + s) == 0 && Load(mem', x + s + 8) == left
    ensures forall a :: a != b + LIST && a != b + COUNT && !(x <= a < x + s) && a != x + s && a != x + s + 8
              ==> Load(mem', a) == Load(mem, a)
  {
  }

  /** ... or unlinking a single block. */
  lemma TakeUnlinks(mem: Memory, mem': Memory, b: int, m: Mapping)
    requires m.Pool? && RegionOk(mem, b, m) && FreeCount(m) > 0 && !(m.free == [] && m.runLen > 1)
    requires mem' ==
       Fill(mem[b + LIST := NodeAt(Take(m), 0)][b + COUNT := FreeCount(m) - 1], NodeAt(m, 0), BlockSize(m.kind))
    ensures TakeWrites(mem, mem', b, m)
  {
    HeaderMapped(mem, b, m);
    TakeReads(mem, b, m);
    assert mem'.Keys == mem.Keys;
  }

  function Unlinked(mem: Memory, b: int, m: Mapping): Memory
    requires m.Pool? && m.kind < POOLS && FreeCount(m) > 0
  {
    var x := m.run + BlockSize(m.kind);
    if m.free == [] && m.runLen > 1 then mem[x := 0][x + 8 := m.runLen - 1][b + LIST := x]
    else mem[b + LIST := NodeAt(Take(m), 0)]
  }

  lemma UnlinkedKeys(mem: Memory, b: int, m: Mapping)
    requires m.Pool? && RegionOk(mem, b, m) && FreeCount(m) > 0
    ensures Unlinked(mem, b, m).Keys == mem.Keys
  {
    HeaderMapped(mem, b, m);
    if m.free == [] && m.runLen > 1 { RunNextMapped(mem, b, m); }
  }

  lemma TakeWritten(mem: Memory, mem': Memory, b: int, m: Mapping)
    requires m.Pool? && RegionOk(mem, b, m) && FreeCount(m) > 0
    requires mem' == Fill(Unlinked(mem, b, m)[b + COUNT := FreeCount(m) - 1], NodeAt(m, 0), BlockSize(m.kind))
    ensures TakeWrites(mem, mem', b, m)
  {
    if m.free == [] && m.runLen > 1 {
      TakeSplits(mem, mem', b, m);
    } else {
      TakeUnlinks(mem, mem', b, m);
    }
  }

  /** The writes of MempoolFree inside the page at `b`. */
  ghost predicate GiveWrites(mem: Memory, mem': Memory, b: int, m: Mapping, x: int)
    requires m.Pool? && m.kind < POOLS
  {
    && mem'.Keys == mem.Keys
    && Load(mem', b + LIST) == x && Load(mem', b + COUNT) == FreeCount(m) + 1
    && Load(mem', x) == NodeAt(m, 0) && Load(mem', x + 8) == 1
    && (forall a :: a != b + LIST && a != b + COUNT && !(x <= a < x + BlockSize(m.kind))
          ==> Load(mem', a) == Load(mem, a))
  }

  lemma GiveWritten(mem: Memory, mem': Memory, b: int, m: Mapping, x: int)
    requires m.Pool? && RegionOk(mem, b, m) && x in m.used
    requires mem' == Fill(mem, x, BlockSize(m.kind))[x := Load(mem, b + LIST)][x + 8 := 1]
                       [b + LIST := x][b + COUNT := FreeCount(m) + 1]
    ensures GiveWrites(mem, mem', b, m, x)
  {
    BlockMapped(mem, b, m, x);
    HeaderMapped(mem, b, m);
    assert mem'.Keys == mem.Keys;
  }

  /** Taking back a live block. */
  lemma GiveStep(s: State, s': State, b: int, x: int)
    requires Core(s) && b in s.maps && s.maps[b].Pool? && s.maps[b].kind < POOLS && x in s.maps[b].used
    requires GiveWrites(s.mem, s'.mem, b, s.maps[b], x)
    requires s' == s.(mem := s'.mem, maps := s.maps[b := Give(s.maps[b], x)])
    ensures Core(s') && SameElse(s, s', x) && !Live(s'.maps, x)
  {
    var m := s.maps[b];
    var m' := Give(m, x);
    assert RegionOk(s.mem, b, m);
    GiveKeepsBlocks(b, m, x);
    GiveImage(s.mem, s'.mem, b, m, x);
    BlockBounds(b, m.kind, x);
    PageStep(s, s', b, m');
    GiveChunks(s, s', b, x);
  }

  lemma GiveChunks(s: State, s': State, b: int, x: int)
    requires Core(s) && b in s.maps && s.maps[b].Pool? && s.maps[b].kind < POOLS && x in s.maps[b].used
    requires GiveWrites(s.mem, s'.mem, b, s.maps[b], x)
    requires s'.maps == s.maps[b := Give(s.maps[b], x)]
    ensures SameElse(s, s', x)
  {
    var m := s.maps[b];
    assert RegionOk(s.mem, b, m);
    BlockBounds(b, m.kind, x);
    forall q, a | q in Give(m, x).used && q != x && q <= a < q + BlockSize(m.kind)
      ensures Load(s'.mem, a) == Load(s.mem, a)
    {
      NodeApart(b, m.kind, q, x);
      BlockBounds(b, m.kind, q);
    }
    ChunksAfterWrite(s, s', b, Give(m, x), x);
  }

  // ---- New pages ----

  function NewPage(i: nat, base: int): Mapping
    requires i < POOLS
  {
    Pool(i, [], base + First(i), BlocksPerPage(i), {})
  }

  lemma NewPageOk(mem: Memory, mem': Memory, base: int, i: nat)
    requires i < POOLS && base > 0 && base % PAGE == 0
    requires mem' == MapZero(mem, base, PAGE)[base + TAG := TagWord(i + MIN_TYPE)][base + SIZE := i]
                       [base + COUNT := BlocksPerPage(i)][base + First(i) + 8 := BlocksPerPage(i)]
                       [base + LIST := base + First(i)]
    ensures RegionOk(mem', base, NewPage(i, base))
    ensures forall a :: a in mem' <==> a in mem || In(base, PAGE, a)
  {
    hide In, MapZero, IsBlock;
    PoolGeometry(i);
    FirstBlock(base, i);
    BlockBounds(base, i, base + First(i));
    NewPageLoads(mem, mem', base, base + First(i), TagWord(i + MIN_TYPE), i, BlocksPerPage(i));
    NewPageBlocks(base, i);
  }

  lemma NewPageBlocks(base: int, i: nat)
    requires i < POOLS && base > 0 && base % PAGE == 0
    ensures BlocksOk(base, NewPage(i, base))
  {
    PoolGeometry(i);
    FirstBlock(base, i);
  }

  lemma NewPageLoads(mem: Memory, mem': Memory, base: int, first: int, tag: int, size: int, n: int)
    requires base + HEADER <= first && first + 16 <= base + PAGE
    requires mem' == MapZero(mem, base, PAGE)[base + TAG := tag][base + SIZE := size][base + COUNT := n]
                       [first + 8 := n][base + LIST := first]
    ensures forall a :: a in mem' <==> a in mem || In(base, PAGE, a)
    ensures Mapped(mem', base, PAGE)
    ensures Load(mem', base + TAG) == tag && Load(mem', base + LIST) == first && Load(mem', base + COUNT) == n
    ensures Load(mem', first) == 0 && Load(mem', first + 8) == n
  {
    forall a
      ensures a in mem' <==> a in mem || In(base, PAGE, a)
    {
      assert a in MapZero(mem, base, PAGE) <==> a in mem || In(base, PAGE, a);
    }
    assert In(base, PAGE, first);
  }

  lemma NewDirectOk(mem: Memory, mem': Memory, base: int, size: int)
    requires base > 0 && base % PAGE == 0 && size > 0 && size % PAGE == 0
    requires mem' == MapZero(mem, base, size)[base + TAG := TagWord(MMAP_TYPE)][base + SIZE := size]
                       [base + PREV := 0][base + NEXT := 0][base + LIST := 0][base + COUNT := 0]
    ensures RegionOk(mem', base, Direct(size))
    ensures forall a :: a in mem' <==> a in mem || In(base, size, a)
    ensures ZeroFilled(mem', base + HEADER, size - HEADER)
  {
    assert size >= PAGE;
    forall a
      ensures a in mem' <==> a in mem || In(base, size, a)
    {
      assert a in MapZero(mem, base, size) <==> a in mem || In(base, size, a);
    }
  }

  // ---- Page lists ----

  lemma ListPages(s: State, i: nat)
    requires Core(s) && i <= DIRECT
    ensures Pages(s.mem, s.lists[i])
  {
    forall x | x in s.lists[i]
      ensures x > 0 && x % PAGE == 0 && x + PREV in s.mem && x + NEXT in s.mem
    {
      HeaderMapped(s.mem, x, s.maps[x]);
    }
  }

  ghost predicate Pages(mem: Memory, l: seq<int>) {
    forall x :: x in l ==> x > 0 && x % PAGE == 0 && x + PREV in mem && x + NEXT in mem
  }

  lemma HeaderAligned(b: int)
    requires b % PAGE == 0
    ensures (b + TAG) % 8 == 0 && (b + SIZE) % 8 == 0 && (b + PREV) % 8 == 0
    ensures (b + NEXT) % 8 == 0 && (b + LIST) % 8 == 0 && (b + COUNT) % 8 == 0
  {
    OffsetAligned(b, 8, TAG);
    OffsetAligned(b, 8, SIZE);
    OffsetAligned(b, 8, PREV);
    OffsetAligned(b, 8, NEXT);
    OffsetAligned(b, 8, LIST);
    OffsetAligned(b, 8, COUNT);
  }

  lemma LinkWords(x: int, y: int)
    requires x % PAGE == 0 && y % PAGE == 0
    ensures (x + PREV) % 8 == 0 && (x + NEXT) % 8 == 0
    ensures x + PREV != y + NEXT
  {
    HeaderAligned(x);
    assert x == PAGE * (x / PAGE) && y == PAGE * (y / PAGE);
  }

  /** AddPage's three writes put the page at the front. */
  lemma PushLinked(mem: Memory, mem': Memory, head: int, l: seq<int>, page: int)
    requires ListOk(mem, head, l) && page !in l && page != 0
    requires Load(mem', page + NEXT) == head && Load(mem', page + PREV) == 0
    requires l != [] ==> Load(mem', l[0] + PREV) == page
    requires forall x :: x in l ==> Load(mem', x + NEXT) == Load(mem, x + NEXT)
    requires forall x :: x in l && x != head ==> Load(mem', x + PREV) == Load(mem, x + PREV)
    ensures ListOk(mem', page, [page] + l)
  {
    var l' := [page] + l;
    forall k | 0 <= k < |l'|
      ensures LinkOk(mem', l', k)
    {
      if k > 0 {
        assert LinkOk(mem, l, k - 1);
        assert l'[k] == l[k - 1] && l[k - 1] in l;
        assert At(l', k + 1) == At(l, k);
      }
    }
  }

  lemma PushWrites(mem: Memory, mem': Memory, head: int, l: seq<int>, page: int)
    requires ListOk(mem, head, l) && page !in l && Pages(mem, [page] + l)
    requires mem' == (var m := mem[page + NEXT := head][page + PREV := 0];
                      if head != 0 then m[head + PREV := page] else m)
    ensures ListOk(mem', page, [page] + l) && OnlyLinks(mem, mem', [page] + l)
  {
    assert page in [page] + l;
    LinkWords(page, page);
    if l != [] { assert head == l[0] && l[0] in l && head in [page] + l; LinkWords(head, page); }
    forall x | x in l
      ensures Load(mem', x + NEXT) == Load(mem, x + NEXT)
      ensures x != head ==> Load(mem', x + PREV) == Load(mem, x + PREV)
    {
      assert x in [page] + l;
      LinkWords(x, page);
      LinkWords(page, x);
      if head != 0 { LinkWords(head, x); }
    }
    PushLinked(mem, mem', head, l, page);
  }

  function Without(l: seq<int>, k: nat): seq<int>
    requires k < |l|
  {
    l[..k] + l[k + 1..]
  }

  /** RemovePage's writes bridge the gap and clear the page's own links. */
  lemma UnlinkLinked(mem: Memory, mem': Memory, head: int, head': int, l: seq<int>, k: nat)
    requires ListOk(mem, head, l) && k < |l|
    requires head' == if k == 0 then At(l, 1) else head
    requires forall j :: 0 <= j < |l| && j != k ==> BridgedAt(mem, mem', l, k, j)
    ensures ListOk(mem', head', Without(l, k))
  {
    var l' := Without(l, k);
    forall j | 0 <= j < |l'|
      ensures LinkOk(mem', l', j)
    {
      var i := if j < k then j else j + 1;
      assert LinkOk(mem, l, i) && BridgedAt(mem, mem', l, k, i);
      assert l'[j] == l[i];
      assert At(l', j + 1) == if j + 1 < k then At(l, j + 1) else At(l, j + 2);
      assert At(l', j - 1) == if j - 1 < k then At(l, j - 1) else At(l, j);
    }
    forall i, j | 0 <= i < j < |l'|
      ensures l'[i] != l'[j]
    {
      assert l'[i] == l[if i < k then i else i + 1] && l'[j] == l[if j < k then j else j + 1];
    }
    forall x | x in l' ensures x != 0 { WithoutMembers(l, k, x); }
  }

  /** What RemovePage reads in page `k`, and where it may write. */
  lemma LinkAt(mem: Memory, head: int, l: seq<int>, k: nat)
    requires ListOk(mem, head, l) && k < |l| && Pages(mem, l)
    ensures Load(mem, l[k] + PREV) == At(l, k - 1) && Load(mem, l[k] + NEXT) == At(l, k + 1)
    ensures head == At(l, 0) && (head == l[k] <==> k == 0)
    ensures Linkable(mem, l[k]) && (At(l, k - 1) != 0 ==> Linkable(mem, At(l, k - 1)))
    ensures At(l, k + 1) != 0 ==> Linkable(mem, At(l, k + 1))
  {
    assert LinkOk(mem, l, k) && l[k] in l;
    LinkWords(l[k], l[k]);
    if At(l, k - 1) != 0 { assert l[k - 1] in l; LinkWords(l[k - 1], l[k]); }
    if At(l, k + 1) != 0 { assert l[k + 1] in l; LinkWords(l[k + 1], l[k]); }
  }

  predicate Linkable(mem: Memory, x: int) {
    x + PREV in mem && x + NEXT in mem && (x + PREV) % 8 == 0 && (x + NEXT) % 8 == 0
  }

  lemma UnlinkWrites(mem: Memory, mem': Memory, head: int, l: seq<int>, k: nat)
    requires ListOk(mem, head, l) && k < |l| && Pages(mem, l)
    requires mem' == (var prev, next := At(l, k - 1), At(l, k + 1);
                      var m1 := if prev != 0 then mem[prev + NEXT := next] else mem;
                      var m2 := if next != 0 then m1[next + PREV := prev] else m1;
                      m2[l[k] + PREV := 0][l[k] + NEXT := 0])
    ensures ListOk(mem', if k == 0 then At(l, 1) else head, Without(l, k)) && OnlyLinks(mem, mem', l)
  {
    assert l[k] in l;
    if k > 0 { assert l[k - 1] in l; }
    if k + 1 < |l| { assert l[k + 1] in l; }
    forall j | 0 <= j < |l| && j != k
      ensures BridgedAt(mem, mem', l, k, j)
    {
      UnlinkAt(mem, mem', l, k, j);
    }
    UnlinkLinked(mem, mem', head, if k == 0 then At(l, 1) else head, l, k);
  }

  lemma UnlinkAt(mem: Memory, mem': Memory, l: seq<int>, k: nat, j: nat)
    requires k < |l| && j < |l| && j != k && Pages(mem, l)
    requires forall i, j :: 0 <= i < j < |l| ==> l[i] != l[j]
    requires mem' == (var prev, next := At(l, k - 1), At(l, k + 1);
                      var m1 := if prev != 0 then mem[prev + NEXT := next] else mem;
                      var m2 := if next != 0 then m1[next + PREV := prev] else m1;
                      m2[l[k] + PREV := 0][l[k] + NEXT := 0])
    ensures BridgedAt(mem, mem', l, k, j)
  {
    assert l[k] in l && l[j] in l;
    LinkWords(l[j], l[k]);
    LinkWords(l[k], l[j]);
    if k > 0 { assert l[k - 1] in l; LinkWords(l[j], l[k - 1]); LinkWords(l[k], l[k - 1]); }
    if k + 1 < |l| { assert l[k + 1] in l; LinkWords(l[k + 1], l[j]); LinkWords(l[k + 1], l[k]); }
    if 0 < k < |l| - 1 { LinkWords(l[k + 1], l[k - 1]); }
  }

  ghost predicate BridgedAt(mem: Memory, mem': Memory, l: seq<int>, k: nat, j: nat)
    requires k < |l| && j < |l|
  {
    && Load(mem', l[j] + NEXT) == (if j + 1 == k then At(l, k + 1) else Load(mem, l[j] + NEXT))
    && Load(mem', l[j] + PREV) == (if j == k + 1 then At(l, k - 1) else Load(mem, l[j] + PREV))
  }

  lemma WithoutMembers(l: seq<int>, k: nat, x: int)
    requires k < |l| && forall i, j :: 0 <= i < j < |l| ==> l[i] != l[j]
    ensures x in Without(l, k) <==> x in l && x != l[k]
  {
    if x in l && x != l[k] {
      var j :| 0 <= j < |l| && l[j] == x;
      assert Without(l, k)[if j < k then j else j - 1] == x;
    }
    if x in Without(l, k) {
      var j :| 0 <= j < |Without(l, k)| && Without(l, k)[j] == x;
      assert l[if j < k then j else j + 1] == x;
    }
  }

  function WithHead(s: State, i: nat, head: int): State
    requires |s.pools| == POOLS && i <= DIRECT
  {
    if i < POOLS then s.(pools := s.pools[i := s.pools[i].(pageList := head)]) else s.(direct := head)
  }

  lemma PushReady(s: State, i: nat, page: int)
    requires Core(s) && i <= DIRECT && page in s.maps && ListIndex(s.maps[page]) == i
    ensures ListOk(s.mem, HeadOf(s, i), s.lists[i]) && Pages(s.mem, [page] + s.lists[i])
  {
    ListPages(s, i);
    HeaderMapped(s.mem, page, s.maps[page]);
  }

  lemma UnlinkReady(s: State, i: nat)
    requires Core(s) && i <= DIRECT
    ensures ListOk(s.mem, HeadOf(s, i), s.lists[i]) && Pages(s.mem, s.lists[i])
  {
    ListPages(s, i);
  }

  /** Listing a page. */
  lemma PushStep(s: State, s': State, i: nat, page: int)
    requires Core(s) && i <= DIRECT && page in s.maps && ListIndex(s.maps[page]) == i
    requires s' == WithHead(s, i, page).(mem := s'.mem, lists := s.lists[i := [page] + s.lists[i]])
    requires ListOk(s'.mem, page, [page] + s.lists[i]) && OnlyLinks(s.mem, s'.mem, [page] + s.lists[i])
    ensures Core(s') && SameAll(s, s')
  {
    var l := [page] + s.lists[i];
    assert Listed(s.maps, s.lists[i], i);
    LinkStep(s, s', i, l);
    ChunksAfterLink(s, s', i, l);
  }

  /** Unlisting a page. */
  lemma UnlinkStep(s: State, s': State, i: nat, k: nat, head: int)
    requires Core(s) && i <= DIRECT && k < |s.lists[i]|
    requires s' == WithHead(s, i, head).(mem := s'.mem, lists := s.lists[i := Without(s.lists[i], k)])
    requires ListOk(s'.mem, head, Without(s.lists[i], k)) && OnlyLinks(s.mem, s'.mem, s.lists[i])
    ensures Core(s') && SameAll(s, s')
  {
    var l := s.lists[i];
    assert ListOk(s.mem, HeadOf(s, i), l) && Listed(s.maps, l, i);
    forall x | x in Without(l, k) ensures x in l { WithoutMembers(l, k, x); }
    LinkStep(s, s', i, l);
    ChunksAfterLink(s, s', i, l);
  }

  // ---- Growing and shrinking a pool ----

  lemma NodeAligned(x: int)
    requires x % ALIGN == 0
    ensures x % 8 == 0 && (x + 8) % 8 == 0
  {
  }

  /** The words MempoolAllocPage fills in are mapped. */
  lemma NewPageReady(mem: Memory, base: int, first: int)
    requires base + HEADER <= first && first + 16 <= base + PAGE
    ensures var m := MapZero(mem, base, PAGE);
      base + TAG in m && base + SIZE in m && base + COUNT in m && base + LIST in m && first + 8 in m
  {
    assert In(base, PAGE, base + TAG) && In(base, PAGE, base + SIZE) && In(base, PAGE, base + COUNT);
    assert In(base, PAGE, base + LIST) && In(base, PAGE, first + 8);
  }

  lemma NewPageStep(s: State, s': State, base: int, i: nat)
    requires Core(s) && i < POOLS && Placeable(s.mem, base, PAGE)
    requires s' == s.(mem := s'.mem, maps := s.maps[base := NewPage(i, base)])
    requires s'.mem == MapZero(s.mem, base, PAGE)[base + TAG := TagWord(i + MIN_TYPE)][base + SIZE := i]
                       [base + COUNT := BlocksPerPage(i)][base + First(i) + 8 := BlocksPerPage(i)]
                       [base + LIST := base + First(i)]
    ensures Core(s') && base !in s.maps && SameAll(s, s')
    ensures forall j :: 0 <= j <= DIRECT ==> base !in s.lists[j]
  {
    NewPageOk(s.mem, s'.mem, base, i);
    NewPageSpares(s.mem, s'.mem, base, i);
    MapStep(s, s', base, NewPage(i, base));
    ChunksAfterMap(s, s', base, NewPage(i, base), base);
    ChunksAfterMap(s, s', base, NewPage(i, base), base + 1);
    forall j | 0 <= j <= DIRECT ensures base !in s.lists[j] { assert Listed(s.maps, s.lists[j], j); }
  }

  lemma NewPageSpares(mem: Memory, mem': Memory, base: int, i: nat)
    requires i < POOLS && Placeable(mem, base, PAGE)
    requires mem' == MapZero(mem, base, PAGE)[base + TAG := TagWord(i + MIN_TYPE)][base + SIZE := i]
                       [base + COUNT := BlocksPerPage(i)][base + First(i) + 8 := BlocksPerPage(i)]
                       [base + LIST := base + First(i)]
    ensures forall a :: a in mem ==> a in mem' && Load(mem', a) == Load(mem, a) && !In(base, PAGE, a)
  {
    FirstBlock(base, i);
    BlockBounds(base, i, base + First(i));
    forall a | a in mem
      ensures Load(mem', a) == Load(mem, a)
    {
      assert !In(base, PAGE, a);
    }
  }

  lemma NewPageBalance(s: State, s': State, i: nat, base: int)
    requires Inv(s) && i < POOLS && base > 0 && base !in s.maps && PoolsOk(s'.pools)
    requires s'.maps == s.maps[base := NewPage(i, base)] && s'.lists == s.lists[i := [base] + s.lists[i]]
    requires forall j :: 0 <= j < POOLS ==>
      s'.pools[j].freePagesCnt == s.pools[j].freePagesCnt + (if j == i then 1 else 0)
    ensures Balance(s', base)
  {
    PoolGeometry(i);
    NoZeroPage(s.mem, s.maps);
    assert OnLists(s'.maps, s'.lists);
  }

  lemma NoZeroPage(mem: Memory, maps: map<int, Mapping>)
    requires RegionsOk(mem, maps)
    ensures 0 !in maps
  {
    assert 0 in maps ==> PlacedOk(0, maps[0]);
  }

  /** The page words MempoolAlloc and MempoolFree look at. */
  lemma PageReads(mem: Memory, b: int, m: Mapping)
    requires RegionOk(mem, b, m)
    ensures b + TAG in mem && b + SIZE in mem && b + LIST in mem && b + COUNT in mem
    ensures (b + TAG) % 8 == 0 && (b + SIZE) % 8 == 0 && (b + LIST) % 8 == 0 && (b + COUNT) % 8 == 0
    ensures m.Pool? ==> Load(mem, b + LIST) == NodeAt(m, 0) && Load(mem, b + COUNT) == FreeCount(m)
    ensures m.Pool? ==> Load(mem, b + TAG) == TagWord(m.kind + MIN_TYPE)
    ensures m.Direct? ==> Load(mem, b + TAG) == TagWord(MMAP_TYPE) && Load(mem, b + SIZE) == m.size
  {
    HeaderMapped(mem, b, m);
    HeaderAligned(b);
  }

  /** The head of what remains of the run, when more than one block of it is left. */
  lemma RunNextMapped(mem: Memory, b: int, m: Mapping)
    requires m.Pool? && RegionOk(mem, b, m) && m.free == [] && m.runLen > 1
    ensures var x := m.run + BlockSize(m.kind); x in mem && x + 8 in mem && x % 8 == 0 && (x + 8) % 8 == 0
  {
    RunIsBlock(b, m);
    TakeRunNext(b, m);
    NextBlock(b, m.kind, m.run);
    BlockMapped(mem, b, m, m.run + BlockSize(m.kind));
    BlockBounds(b, m.kind, m.run + BlockSize(m.kind));
    NodeAligned(m.run + BlockSize(m.kind));
  }

  /** `p` is a new, zero-filled chunk of `len` bytes; all other chunks are as they were. */
  ghost predicate Issued(s: State, s': State, p: int, len: int) {
    && p > 0 && !Live(s.maps, p) && Live(s'.maps, p) && ChunkSize(s'.maps, p) == len
    && ZeroFilled(s'.mem, p, len) && SameElse(s, s', p)
  }

  /** Which page MempoolAlloc takes from. */
  lemma ListedPage(s: State, spare: int, i: nat, page: int)
    requires Core(s) && Balance(s, spare) && i < POOLS && page in s.lists[i]
    ensures page > 0 && page in s.maps && RegionOk(s.mem, page, s.maps[page])
    ensures s.maps[page].Pool? && s.maps[page].kind == i
    ensures 0 < FreeCount(s.maps[page]) <= BlocksPerPage(i)
    ensures FreeCount(s.maps[page]) == BlocksPerPage(i) <==> page == spare
  {
    assert Listed(s.maps, s.lists[i], i);
    assert RegionOk(s.mem, page, s.maps[page]);
  }

  function Unlist(lists: seq<seq<int>>, i: nat, k: nat): seq<seq<int>>
    requires i < |lists| && k < |lists[i]|
  {
    lists[i := Without(lists[i], k)]
  }

  /** Bookkeeping after a block was taken: the page leaves its list when it is full. */
  lemma TakeBalance(s: State, s': State, spare: int, i: nat, page: int, k: nat)
    requires Core(s) && Balance(s, spare) && (spare == 0 || spare == page) && PoolsOk(s'.pools)
    requires i < POOLS && k < |s.lists[i]| && s.lists[i][k] == page
    requires page in s.maps && s.maps[page].Pool? && s.maps[page].kind == i && FreeCount(s.maps[page]) > 0
    requires s'.maps == s.maps[page := Take(s.maps[page])]
    requires s'.lists == if FreeCount(s.maps[page]) == 1 then Unlist(s.lists, i, k) else s.lists
    requires forall j :: 0 <= j < POOLS ==>
      s'.pools[j].freePagesCnt == s.pools[j].freePagesCnt - (if j == i && page == spare then 1 else 0)
    ensures Balance(s', 0)
  {
    hide RegionsOk, ListsOk, Apart, OnLists, RegionOk;
    assert page in s.lists[i];
    ListedPage(s, spare, i, page);
    TakeKeepsBlocks(page, s.maps[page]);
    NoZeroPage(s.mem, s.maps);
    TakeLists(s, s', i, page, k);
  }

  lemma TakeLists(s: State, s': State, i: nat, page: int, k: nat)
    requires Core(s) && OnLists(s.maps, s.lists) && i < POOLS && k < |s.lists[i]| && s.lists[i][k] == page
    requires page in s.maps && s.maps[page].Pool? && s.maps[page].kind == i && FreeCount(s.maps[page]) > 0
    requires s'.maps == s.maps[page := Take(s.maps[page])] && FreeCount(Take(s.maps[page])) == FreeCount(s.maps[page]) - 1
    requires s'.lists == if FreeCount(s.maps[page]) == 1 then Unlist(s.lists, i, k) else s.lists
    ensures |s'.lists| == POOLS + 1 && OnLists(s'.maps, s'.lists)
  {
    forall b | b in s'.maps && ListIndex(s'.maps[b]) <= DIRECT
      ensures b in s'.lists[ListIndex(s'.maps[b])] <==> OnList(s'.maps[b])
    {
      UnlistOne(s, i, k, b);
    }
  }

  lemma IssuedAfter(s: State, t: State, u: State, p: int, len: int)
    requires (SameAll(s, t) || s == t) && Issued(t, u, p, len)
    ensures Issued(s, u, p, len)
  {
    assert SameChunk(s, t, p);
    OutsideOn(s, t, u);
    forall q | q != p ensures SameChunk(s, u, q) {
      assert SameChunk(s, t, q) && SameChunk(t, u, q);
    }
  }

  lemma IssuedThrough(s: State, t: State, u: State, v: State, p: int, len: int)
    requires Issued(s, t, p, len) && SameAll(u, v) && u.mem == t.mem && u.maps == t.maps
    ensures Issued(s, v, p, len)
  {
    assert SameChunk(u, v, p);
    OutsideOn(s, t, v);
    forall q | q != p ensures SameChunk(s, v, q) {
      assert SameChunk(s, t, q) && SameChunk(u, v, q);
    }
  }

  lemma UnlistOne(s: State, i: nat, k: nat, b: int)
    requires Core(s) && i <= DIRECT && k < |s.lists[i]|
    ensures b in Without(s.lists[i], k) <==> b in s.lists[i] && b != s.lists[i][k]
  {
    assert ListOk(s.mem, HeadOf(s, i), s.lists[i]);
    WithoutMembers(s.lists[i], k, b);
  }

  /** Popping a block, with the pool's counter updated. */
  lemma PopStep(s: State, s': State, i: nat, page: int, count: int)
    requires Core(s) && i < POOLS && page in s.maps && s.maps[page].Pool? && s.maps[page].kind == i
    requires FreeCount(s.maps[page]) > 0 && TakeWrites(s.mem, s'.mem, page, s.maps[page])
    requires s' == s.(mem := s'.mem, maps := s.maps[page := Take(s.maps[page])],
                      pools := s.pools[i := s.pools[i].(freePagesCnt := count)])
    ensures Core(s') && Issued(s, s', NodeAt(s.maps[page], 0), BlockSize(i))
  {
    hide Core, RegionOk, TakeWrites, SameElse;
    var t := s.(mem := s'.mem, maps := s'.maps);
    CoreParts(s);
    TakeIssues(s.mem, s.maps, page);
    TakeStep(s, t, page);
    CountStep(t, s', i, count);
    SameElseView(s, t, s', NodeAt(s.maps[page], 0));
    TakeZeroes(s.mem, s'.mem, page, s.maps[page]);
    assert Take(s.maps[page]).kind == i;
  }

  lemma TakeZeroes(mem: Memory, mem': Memory, b: int, m: Mapping)
    requires m.Pool? && m.kind < POOLS && FreeCount(m) > 0 && TakeWrites(mem, mem', b, m)
    ensures ZeroFilled(mem', NodeAt(m, 0), BlockSize(m.kind))
  {
  }

  /** The page MempoolAlloc finds at the head of the pool's list. */
  lemma PoolHead(s: State, i: nat)
    requires Core(s) && i < POOLS
    ensures s.pools[i].pageList == At(s.lists[i], 0)
    ensures s.pools[i].pageList == 0 <==> s.lists[i] == []
    ensures s.pools[i].pageList != 0 ==> s.pools[i].pageList in s.lists[i]
  {
    assert ListOk(s.mem, HeadOf(s, i), s.lists[i]);
    if s.lists[i] != [] { assert s.lists[i][0] in s.lists[i]; }
  }

  // ---- Freeing ----

  /** Where a live chunk and its region stand: `m` is the region at `b`. */
  ghost predicate OwnRegion(lists: seq<seq<int>>, b: int, m: Mapping, p: int) {
    && |lists| == POOLS + 1
    && (m.Pool? ==>
          && m.kind < POOLS && p in m.used && PageStart(p) == b && p % BlockSize(m.kind) == 0
          && FreeCount(m) < BlocksPerPage(m.kind) && (FreeCount(m) + 1 == BlocksPerPage(m.kind) <==> m.used == {p})
          && (b in lists[m.kind] <==> FreeCount(m) > 0))
    && (m.Direct? ==> b in lists[DIRECT] && p == b + HEADER)
  }

  lemma LivePage(s: State, p: int)
    requires Inv(s) && Live(s.maps, p)
    ensures var b := Owner(p); b > 0 && b in s.maps && RegionOk(s.mem, b, s.maps[b]) && OwnRegion(s.lists, b, s.maps[b], p)
  {
    hide Core, Balance, RegionOk, OwnRegion;
    var b := Owner(p);
    CoreParts(s);
    RegionListed(s, b);
    RegionLive(s.mem, s.lists, b, s.maps[b], p);
  }

  /** What the page bookkeeping says of one region. */
  ghost predicate Bookkept(lists: seq<seq<int>>, b: int, m: Mapping) {
    && |lists| == POOLS + 1
    && (ListIndex(m) <= DIRECT ==> (b in lists[ListIndex(m)] <==> OnList(m)))
    && (m.Pool? && m.kind < POOLS && b != 0 ==> FreeCount(m) != BlocksPerPage(m.kind))
  }

  lemma RegionListed(s: State, b: int)
    requires Balance(s, 0) && b in s.maps
    ensures Bookkept(s.lists, b, s.maps[b])
  {
  }

  lemma RegionLive(mem: Memory, lists: seq<seq<int>>, b: int, m: Mapping, p: int)
    requires RegionOk(mem, b, m) && Bookkept(lists, b, m) && b == Owner(p)
    requires if m.Pool? then p in m.used else p == b + HEADER
    ensures b > 0 && OwnRegion(lists, b, m, p)
  {
    hide ImageOk, Mapped;
    if m.Pool? {
      BlockBounds(b, m.kind, p);
      OneBlockLeft(m.used, p);
    }
  }

  lemma OneBlockLeft(used: set<int>, p: int)
    requires p in used
    ensures |used| >= 1 && (|used| == 1 <==> used == {p})
  {
    assert used == {p} + (used - {p});
    assert |used| == 1 + |used - {p}|;
  }

  /** The page words after MempoolFree wrote the block back. */
  lemma GiveReads(mem: Memory, b: int, m: Mapping, x: int)
    requires m.Pool? && RegionOk(mem, b, m) && x in m.used
    ensures x in mem && x + 8 in mem && x % 8 == 0 && (x + 8) % 8 == 0
  {
    BlockMapped(mem, b, m, x);
    BlockBounds(b, m.kind, x);
    NodeAligned(x);
  }

  /** Bookkeeping when the page keeps some but not all blocks in use. */
  lemma GiveBalance(s: State, s': State, page: int, x: int)
    requires Inv(s) && page in s.maps && s.maps[page].Pool? && s.maps[page].kind < POOLS && x in s.maps[page].used
    requires FreeCount(s.maps[page]) + 1 < BlocksPerPage(s.maps[page].kind) && PoolsOk(s'.pools)
    requires s'.maps == s.maps[page := Give(s.maps[page], x)]
    requires var i := s.maps[page].kind;
      s'.lists == if FreeCount(s.maps[page]) == 0 then s.lists[i := [page] + s.lists[i]] else s.lists
    requires forall j :: 0 <= j < POOLS ==> s'.pools[j].freePagesCnt == s.pools[j].freePagesCnt
    ensures Balance(s', 0)
  {
    hide RegionsOk, ListsOk, Apart, RegionOk;
    var i := s.maps[page].kind;
    NoZeroPage(s.mem, s.maps);
    forall b | b in s'.maps && ListIndex(s'.maps[b]) <= DIRECT
      ensures b in s'.lists[ListIndex(s'.maps[b])] <==> OnList(s'.maps[b])
    {
      if b != page { assert b in [page] + s.lists[i] <==> b in s.lists[i]; }
    }
  }

  /** Bookkeeping when the page is unmapped with its last block. */
  lemma ShrinkBalance(s: State, s': State, i: nat, k: nat)
    requires Inv(s) && i <= DIRECT && k < |s.lists[i]| && s.lists[i][k] in s.maps && ListIndex(s.maps[s.lists[i][k]]) == i
    requires PoolsOk(s'.pools)
    requires s'.maps == s.maps - {s.lists[i][k]} && s'.lists == Unlist(s.lists, i, k)
    requires forall j :: 0 <= j < POOLS ==> s'.pools[j].freePagesCnt == s.pools[j].freePagesCnt
    ensures Balance(s', 0)
  {
    hide RegionsOk, ListsOk, Apart, RegionOk;
    NoZeroPage(s.mem, s.maps);
    forall b | b in s'.maps && ListIndex(s'.maps[b]) <= DIRECT
      ensures b in s'.lists[ListIndex(s'.maps[b])] <==> OnList(s'.maps[b])
    {
      UnlistOne(s, i, k, b);
    }
  }

  /** Unmapping an unlisted region. */
  lemma ReleaseStep(s: State, s': State, i: nat, k: nat, t: State, p: int)
    requires Core(s) && i <= DIRECT && k < |s.lists[i]| && s.lists[i][k] in s.maps
    requires Core(t) && t.maps == s.maps && t.lists == Unlist(s.lists, i, k)
    requires var b := s.lists[i][k];
      s' == t.(mem := Unmap(t.mem, b, Span(s.maps[b])), maps := s.maps - {b})
    requires Owner(p) == s.lists[i][k]
    requires s.maps[Owner(p)].Pool? ==> s.maps[Owner(p)].used <= {p}
    requires s.maps[Owner(p)].Direct? ==> p == Owner(p) + HEADER
    ensures Core(s') && SameElse(t, s', p) && !Live(s'.maps, p)
  {
    hide RegionsOk, Apart, RegionOk, SameElse;
    var b := s.lists[i][k];
    assert b in s.lists[i];
    forall j | 0 <= j <= DIRECT
      ensures b !in t.lists[j]
    {
      UnlistOne(s, i, k, b);
    }
    UnmapStep(t, s', b);
    ChunksAfterUnmap(t, s', b, p);
  }

  /** Chunk `p` is gone; all other chunks are as they were. */
  ghost predicate Freed(s: State, s': State, p: int) {
    !Live(s'.maps, p) && SameElse(s, s', p)
  }

  lemma FreedThrough(s: State, t: State, u: State, p: int)
    requires Freed(s, t, p) && SameAll(t, u)
    ensures Freed(s, u, p)
  {
    assert SameChunk(t, u, p);
    SameAllElse(s, t, u, p);
  }

  lemma GiveFrees(s: State, t: State, p: int)
    requires SameElse(s, t, p) && !Live(t.maps, p)
    ensures Freed(s, t, p)
  {
  }

  /** Freeing composes with steps that leave all chunks alone. */
  lemma FreedPage(s: State, t: State, u: State, v: State, p: int)
    requires SameElse(s, t, p) || SameAll(s, t)
    requires (SameElse(t, u, p) && !Live(u.maps, p) && v.mem == u.mem && v.maps == u.maps) ||
             (u.mem == t.mem && u.maps == t.maps && Freed(u, v, p))
    ensures Freed(s, v, p)
  {
    OutsideOn(s, t, v);
    forall q | q != p ensures SameChunk(s, v, q) {
      assert SameChunk(s, t, q);
      if u.mem == t.mem && u.maps == t.maps && Freed(u, v, p) {
        assert SameChunk(u, v, q);
      } else {
        assert SameChunk(t, u, q);
      }
    }
  }

  // ---- Direct mappings ----

  lemma NewDirectReady(mem: Memory, base: int, size: int)
    requires size >= PAGE
    ensures var m := MapZero(mem, base, size);
      && base + TAG in m && base + SIZE in m && base + PREV in m
      && base + NEXT in m && base + LIST in m && base + COUNT in m
  {
    assert In(base, size, base + TAG) && In(base, size, base + SIZE) && In(base, size, base + PREV);
    assert In(base, size, base + NEXT) && In(base, size, base + LIST) && In(base, size, base + COUNT);
  }

  lemma NewDirectStep(s: State, s': State, base: int, size: int)
    requires Core(s) && Placeable(s.mem, base, size) && size > 0 && size % PAGE == 0
    requires s' == s.(mem := s'.mem, maps := s.maps[base := Direct(size)])
    requires s'.mem == MapZero(s.mem, base, size)[base + TAG := TagWord(MMAP_TYPE)][base + SIZE := size]
                       [base + PREV := 0][base + NEXT := 0][base + LIST := 0][base + COUNT := 0]
    ensures Core(s') && base !in s.maps && Issued(s, s', base + HEADER, size - HEADER)
    ensures forall j :: 0 <= j <= DIRECT ==> base !in s.lists[j]
  {
    hide RegionOk, Apart;
    NewDirectOk(s.mem, s'.mem, base, size);
    NewDirectSpares(s.mem, s'.mem, base, size);
    MapStep(s, s', base, Direct(size));
    ChunksAfterMap(s, s', base, Direct(size), base + HEADER);
    NewDirectLive(s.maps, base, size);
    forall j | 0 <= j <= DIRECT ensures base !in s.lists[j] { assert Listed(s.maps, s.lists[j], j); }
  }

  lemma NewDirectLive(maps: map<int, Mapping>, base: int, size: int)
    requires base !in maps && base % PAGE == 0
    ensures var p := base + HEADER; var maps' := maps[base := Direct(size)];
      Owner(p) == base && !Live(maps, p) && Live(maps', p) && ChunkSize(maps', p) == size - HEADER
  {
    PageOf(base, 0);
  }

  lemma NewDirectSpares(mem: Memory, mem': Memory, base: int, size: int)
    requires Placeable(mem, base, size) && size >= PAGE
    requires mem' == MapZero(mem, base, size)[base + TAG := TagWord(MMAP_TYPE)][base + SIZE := size]
                       [base + PREV := 0][base + NEXT := 0][base + LIST := 0][base + COUNT := 0]
    ensures forall a :: a in mem ==> Load(mem', a) == Load(mem, a)
  {
    forall a | a in mem
      ensures Load(mem', a) == Load(mem, a)
    {
      assert !In(base, size, a);
    }
  }

  lemma NewDirectBalance(s: State, s': State, base: int, size: int)
    requires Inv(s) && base > 0 && base !in s.maps && s'.pools == s.pools
    requires s'.maps == s.maps[base := Direct(size)] && s'.lists == s.lists[DIRECT := [base] + s.lists[DIRECT]]
    ensures Balance(s', 0)
  {
    hide RegionsOk, ListsOk, Apart, RegionOk;
    NoZeroPage(s.mem, s.maps);
    forall b | b in s'.maps && ListIndex(s'.maps[b]) <= DIRECT
      ensures b in s'.lists[ListIndex(s'.maps[b])] <==> OnList(s'.maps[b])
    {
      if b != base { assert b in [base] + s.lists[DIRECT] <==> b in s.lists[DIRECT]; }
    }
  }

  // ---- Client writes ----

  /** A write inside a live chunk leaves its region's image alone. */
  lemma ChunkOutsideImage(mem: Memory, mem': Memory, b: int, m: Mapping, p: int, len: int)
    requires RegionOk(mem, b, m) && mem'.Keys == mem.Keys
    requires if m.Pool? then p in m.used && len == BlockSize(m.kind) else p == b + HEADER && len == m.size - HEADER
    requires forall a :: !(p <= a < p + len) ==> Load(mem', a) == Load(mem, a)
    ensures RegionOk(mem', b, m)
  {
    ChunkInRegion(mem, b, m, p);
    if m.Pool? {
      forall j | 0 <= j < |m.free|
        ensures NodeOk(mem', m, j)
      {
        assert NodeOk(mem, m, j) && m.free[j] in m.free;
        NodeApart(b, m.kind, m.free[j], p);
      }
      if m.runLen > 0 {
        RunIsBlock(b, m);
        NodeApart(b, m.kind, m.run, p);
      }
    }
  }

  /** Clients may write anything into the chunks they own. */
  lemma ClientWrite(s: State, s': State, p: int)
    requires Inv(s) && Live(s.maps, p) && s' == s.(mem := s'.mem) && s'.mem.Keys == s.mem.Keys
    requires forall a :: !(p <= a < p + ChunkSize(s.maps, p)) ==> Load(s'.mem, a) == Load(s.mem, a)
    ensures Inv(s') && SameElse(s, s', p)
  {
    hide RegionsOk, ListsOk, Apart, RegionOk, OnLists, OnlySpare, CountsOk, SameElse;
    var b := Owner(p);
    var m := s.maps[b];
    LiveBounds(s, p);
    CoreParts(s);
    ClientWriteSize(s, p);
    ChunkOutsideImage(s.mem, s'.mem, b, m, p, ChunkSize(s.maps, p));
    OutsideLinks(s, p);
    assert s' == s.(mem := s'.mem, maps := s.maps[b := m]) by { assert s.maps[b := m] == s.maps; }
    PageStep(s, s', b, m);
    ClientWriteChunks(s, s', p);
  }

  lemma ClientWriteSize(s: State, p: int)
    requires Core(s) && Live(s.maps, p)
    ensures var m := s.maps[Owner(p)];
      if m.Pool? then p in m.used && m.kind < POOLS && ChunkSize(s.maps, p) == BlockSize(m.kind)
      else p == Owner(p) + HEADER && ChunkSize(s.maps, p) == m.size - HEADER
  {
    assert RegionOk(s.mem, Owner(p), s.maps[Owner(p)]);
  }

  lemma OutsideLinks(s: State, p: int)
    requires Core(s) && Live(s.maps, p)
    ensures var b := Owner(p); var m := s.maps[b];
      forall a :: p <= a < p + ChunkSize(s.maps, p) ==> In(b, Span(m), a) && a != b + PREV && a != b + NEXT
  {
    LiveBounds(s, p);
  }

  lemma ClientWriteChunks(s: State, s': State, p: int)
    requires Inv(s) && Live(s.maps, p) && s'.maps == s.maps && s'.mem.Keys == s.mem.Keys
    requires forall a :: !(p <= a < p + ChunkSize(s.maps, p)) ==> Load(s'.mem, a) == Load(s.mem, a)
    ensures SameElse(s, s', p)
  {
    LiveBounds(s, p);
    assert s.maps[Owner(p) := s.maps[Owner(p)]] == s.maps;
    OutsideWrite(s, s', Owner(p), s.maps[Owner(p)]);
    forall q | q != p
      ensures SameChunk(s, s', q)
    {
      if Live(s.maps, q) { LiveChunksDisjoint(s, p, q); }
    }
  }

  lemma IssuedView(s: State, t: State, u: State, p: int, len: int)
    requires Issued(s, u, p, len) && t.mem == s.mem && t.maps == s.maps
    ensures Issued(t, u, p, len)
  {
    forall q | q != p ensures SameChunk(t, u, q) { assert SameChunk(s, u, q); }
  }

  /** When an allocation must fail: no room at hand and no mapping from the kernel. */
  predicate Refused(s: State, size: nat, os: int) {
    var want := if size == 0 then 1 else size;
    if want > MAX_BLOCK then !DirectFits(want) || !Placeable(s.mem, os, DirectSize(want))
    else (|s.lists| <= SizeClass(want) || s.lists[SizeClass(want)] == []) && !Placeable(s.mem, os, PAGE)
  }

  /** The kernel maps `n` bytes at `os`: a page boundary in 64 bits with nothing mapped behind it. */
  lemma PlaceableIs(mem: Memory, os: int, n: int)
    ensures Placeable(mem, os, n) <==>
      os > 0 && os % 4096 == 0 && os + n <= 0x1_0000_0000_0000_0000 && forall a :: os <= a < os + n ==> a !in mem
  {
    forall a ensures In(os, n, a) <==> os <= a < os + n {}
  }

  /** What is refused above 1024 bytes: what does not fit 64 bits with its header and rounding, or what the
      kernel has no place for. */
  lemma LargeRefused(s: State, size: nat, os: int)
    requires size > 1024
    ensures Refused(s, size, os) <==> (48 + size + 4095 >= 0x1_0000_0000_0000_0000 ||
      !Placeable(s.mem, os, (48 + size + 4095) / 4096 * 4096))
  {
  }

  /** The counters of all pages with the smallest blocks for `size` are 0. */
  ghost predicate NoFreeBlock(mem: Memory, maps: map<int, Mapping>, size: nat) {
    forall b :: b in maps && maps[b].Pool? && Smallest(maps[b].kind, size) ==> Load(mem, b + 40) == 0
  }

  /** What is refused up to 1024 bytes: when no page with the smallest sufficient blocks has a free one, and
      the kernel has no place for a page. */
  lemma SmallRefused(s: State, size: nat, os: int)
    requires size <= 1024 && (Inv(s) || (s.maps == map[] && s.lists == []))
    ensures Refused(s, size, os) <==> !Placeable(s.mem, os, 4096) && NoFreeBlock(s.mem, s.maps, size)
    ensures NoFreeBlock(s.mem, s.maps, size) <==>
      (forall b :: b in s.maps && s.maps[b].Pool? && Smallest(s.maps[b].kind, size) ==> Load(s.mem, b + 40) == 0)
  {
    hide Core, Balance;
    var want := if size == 0 then 1 else size;
    var i := SizeClass(want);
    forall k: nat ensures Smallest(k, size) <==> k == i { SmallestIs(k, size); }
    if Inv(s) { RoomListed(s, i); }
  }

  lemma RoomListed(s: State, i: nat)
    requires Inv(s) && i < POOLS
    ensures |s.lists| == POOLS + 1
    ensures s.lists[i] == [] <==> forall b :: b in s.maps && s.maps[b].Pool? && s.maps[b].kind == i ==> Load(s.mem, b + 40) == 0
  {
    hide Balance;
    PoolListExact(s, i);
    CoreParts(s);
    forall b | b in s.maps && s.maps[b].Pool? && s.maps[b].kind == i
      ensures b !in s.lists[i] ==> Load(s.mem, b + COUNT) == 0
    {
      PageReads(s.mem, b, s.maps[b]);
      RegionListed(s, b);
      RegionPlaced(s.mem, b, s.maps[b]);
    }
    if s.lists[i] != [] { assert s.lists[i][0] in s.lists[i]; }
  }

  /** Chunk `p` became chunk `p'` of `len` bytes: the old content, then zeros; nothing else changed. */
  ghost predicate Moved(s: State, s': State, p: int, p': int, len: int)
    requires Live(s.maps, p)
  {
    var n := ChunkSize(s.maps, p);
    && p' > 0 && p' != p && !Live(s.maps, p') && !Live(s'.maps, p) && Live(s'.maps, p') && ChunkSize(s'.maps, p') == len
    && n <= len
    && (forall a :: p' <= a < p' + len ==>
          Load(s'.mem, a) == if a < p' + n then Load(s.mem, p + (a - p')) else 0)
    && SameOutside(s, s') && (forall q :: q != p && q != p' ==> SameChunk(s, s', q))
  }

  /** realloc's allocate, copy and free, put together. */
  lemma MoveSteps(s: State, t: State, u: State, v: State, p: int, p': int, len: int)
    requires Inv(s) && Inv(t) && Live(s.maps, p) && Issued(s, t, p', len) && ChunkSize(s.maps, p) <= len
    requires u == t.(mem := Copy(t.mem, p', p, ChunkSize(s.maps, p))) && SameElse(t, u, p') && Freed(u, v, p)
    ensures Moved(s, v, p, p', len)
  {
    hide Core, Balance, Apart, RegionOk;
    var n := ChunkSize(s.maps, p);
    assert SameChunk(s, t, p) && SameChunk(u, v, p') && SameChunk(t, u, p);
    LiveMapped(t, p');
    forall a | p' <= a < p' + len
      ensures Load(v.mem, a) == if a < p' + n then Load(s.mem, p + (a - p')) else 0
    {
      var c := p + (a - p');
      if a < p' + n { assert Load(t.mem, c) == Load(s.mem, c); }
      assert Load(v.mem, a) == Load(u.mem, a) == if a < p' + n then Load(t.mem, c) else Load(t.mem, a);
    }
    OutsideOn(s, t, u);
    OutsideOn(s, u, v);
    forall q | q != p && q != p'
      ensures SameChunk(s, v, q)
    {
      assert SameChunk(s, t, q) && SameChunk(t, u, q) && SameChunk(u, v, q);
    }
  }

  lemma LivePositive(s: State, p: int)
    requires Inv(s) && Live(s.maps, p)
    ensures ChunkSize(s.maps, p) > 0 && p > 0
  {
    LiveBounds(s, p);
    CoreParts(s);
  }

  lemma LiveMapped(s: State, p: int)
    requires Inv(s) && Live(s.maps, p)
    ensures forall a :: p <= a < p + ChunkSize(s.maps, p) ==> a in s.mem
  {
    LiveChunkPlaced(s, p, Owner(p));
  }

  /** The copy stays inside the new chunk. */
  lemma CopyStep(t: State, p: int, p': int, n: int)
    requires Inv(t) && Live(t.maps, p') && 0 <= n <= ChunkSize(t.maps, p')
    ensures var u := t.(mem := Copy(t.mem, p', p, n)); Inv(u) && SameElse(t, u, p')
  {
    hide Core, Balance, SameElse;
    ClientWrite(t, t.(mem := Copy(t.mem, p', p, n)), p');
  }

  lemma IssuedLive(s: State, t: State, p: int, len: int, q: int)
    requires Issued(s, t, p, len) && Live(s.maps, q)
    ensures Live(t.maps, p) && ChunkSize(t.maps, p) == len && Live(t.maps, q) && p != q
  {
    assert SameChunk(s, t, q);
  }

  lemma MovedApart(s: State, s': State, p: int, p': int, len: int)
    requires Live(s.maps, p) && Moved(s, s', p, p', len)
    ensures p' != p
  {
  }

  lemma NoFreePages(s: State, i: nat)
    requires Inv(s) && i < POOLS
    ensures s.pools[i].freePagesCnt == 0
  {
    NoZeroPage(s.mem, s.maps);
  }

  /** A mapped address whose page does not begin with the allocator's sign. */
  predicate Untagged(mem: Memory, p: int) {
    Owner(p) + TAG in mem && Load(mem, Owner(p) + TAG) % TWO_32 != SIGN
  }

  lemma UntaggedNotLive(s: State, p: int)
    requires Inv(s) && Live(s.maps, p)
    ensures !Untagged(s.mem, p)
  {
    hide Core, Balance;
    LivePage(s, p);
    PageReads(s.mem, Owner(p), s.maps[Owner(p)]);
    TagRoundTrip(MMAP_TYPE);
    if s.maps[Owner(p)].Pool? { TagRoundTrip(s.maps[Owner(p)].kind + MIN_TYPE); }
  }

  lemma OwnerAligned(p: int)
    ensures (Owner(p) + TAG) % 8 == 0
  {
    var q := (p - HEADER) / PAGE;
    assert Owner(p) == 8 * (512 * q);
  }

  lemma OwnerNotNull(s: State, p: int)
    requires Inv(s) && Live(s.maps, p)
    ensures Owner(p) != 0
  {
    LivePage(s, p);
  }

  /** Setting up the empty pools does not change what is refused. */
  lemma RefusedView(s: State, s': State, size: nat, os: int)
    requires s'.mem == s.mem
    requires (s'.lists == s.lists || (s.lists == [] && forall i :: 0 <= i < |s'.lists| ==> s'.lists[i] == []))
    ensures Refused(s, size, os) == Refused(s', size, os)
  {
  }
}
