/** The chunks the clients own, as the regions determine them. */
module AllocatorChunks {
  import opened AllocatorLayout
  import opened AllocatorModel
  import opened AllocatorInvariant

  /** The region a chunk pointer leads back to. */
  function Owner(p: int): int { PageStart(p - HEADER) }

  predicate Live(maps: map<int, Mapping>, p: int) {
    Owner(p) in maps &&
    match maps[Owner(p)]
    case Pool(_, _, _, _, used) => p in used
    case Direct(_) => p == Owner(p) + HEADER
  }

  function ChunkSize(maps: map<int, Mapping>, p: int): int
    requires Live(maps, p)
  {
    match maps[Owner(p)]
    case Pool(kind, _, _, _, _) => if kind < POOLS then BlockSize(kind) else 0
    case Direct(size) => size - HEADER
  }

  /** Chunk `p` is live in both states or in neither, with the same size and content. */
  ghost predicate SameChunk(s: State, s': State, p: int) {
    && (Live(s.maps, p) <==> Live(s'.maps, p))
    && (Live(s.maps, p) ==>
          && ChunkSize(s'.maps, p) == ChunkSize(s.maps, p)
          && forall a :: p <= a < p + ChunkSize(s.maps, p) ==> Load(s'.mem, a) == Load(s.mem, a))
  }

  /** A mapped word that belongs to no region of the allocator. */
  ghost predicate Foreign(mem: Memory, maps: map<int, Mapping>, a: int) {
    a in mem && forall b :: b in maps ==> !In(b, Span(maps[b]), a)
  }

  ghost predicate SameOutside(s: State, s': State) {
    forall a :: Foreign(s.mem, s.maps, a) ==> Foreign(s'.mem, s'.maps, a) && s'.mem[a] == s.mem[a]
  }

  /** No chunk other than `p` is gained, lost, resized or written, and no foreign word is. */
  ghost predicate SameElse(s: State, s': State, p: int) {
    SameOutside(s, s') && forall q :: q != p ==> SameChunk(s, s', q)
  }

  ghost predicate SameAll(s: State, s': State) { SameOutside(s, s') && forall q :: SameChunk(s, s', q) }

  lemma OutsideItself(s: State)
    ensures SameOutside(s, s)
  {
  }

  lemma OutsideOn(s: State, t: State, u: State)
    requires SameOutside(s, t) && SameOutside(t, u)
    ensures SameOutside(s, u)
  {
  }

  ghost predicate ZeroFilled(mem: Memory, p: int, len: int) {
    forall a :: p <= a < p + len ==> Load(mem, a) == 0
  }

  /** A live chunk lies in its region, after the header. */
  lemma LiveBounds(s: State, p: int)
    requires RegionsOk(s.mem, s.maps) && Live(s.maps, p)
    ensures var b := Owner(p);
      && b in s.maps && b + HEADER <= p && ChunkSize(s.maps, p) > 0
      && p + ChunkSize(s.maps, p) <= b + Span(s.maps[b])
    ensures p % ALIGN == 0
    ensures s.maps[Owner(p)].Pool? ==> IsBlock(Owner(p), s.maps[Owner(p)].kind, p)
  {
    ChunkInRegion(s.mem, Owner(p), s.maps[Owner(p)], p);
  }

  lemma ChunkInRegion(mem: Memory, b: int, m: Mapping, p: int)
    requires RegionOk(mem, b, m)
    requires if m.Pool? then p in m.used else p == b + HEADER
    ensures b + HEADER <= p && p % ALIGN == 0
    ensures m.Pool? ==> IsBlock(b, m.kind, p) && p + BlockSize(m.kind) <= b + PAGE
    ensures m.Direct? ==> m.size >= PAGE
  {
    if m.Pool? {
      BlockBounds(b, m.kind, p);
    } else {
      OffsetAligned(b, ALIGN, HEADER);
    }
  }

  // ---- Chunks across the steps ----

  /** Chunks are a matter of memory and regions only. */
  lemma SameAllTransitive(s: State, t: State, u: State, v: State)
    requires SameAll(s, t) && SameAll(t, u) && v.mem == u.mem && v.maps == u.maps
    ensures SameAll(s, v)
  {
    OutsideOn(s, t, u);
    forall q ensures SameChunk(s, v, q) {
      assert SameChunk(s, t, q) && SameChunk(t, u, q);
    }
  }

  lemma SameElseView(s: State, t: State, u: State, p: int)
    requires SameElse(s, t, p) && u.mem == t.mem && u.maps == t.maps
    ensures SameElse(s, u, p)
  {
    forall q | q != p ensures SameChunk(s, u, q) { assert SameChunk(s, t, q); }
  }

  lemma SameAllElse(s: State, t: State, u: State, p: int)
    requires (SameAll(s, t) && SameElse(t, u, p)) || (SameElse(s, t, p) && SameAll(t, u))
    ensures SameElse(s, u, p)
  {
    OutsideOn(s, t, u);
    forall q | q != p ensures SameChunk(s, u, q) {
      assert SameChunk(s, t, q) && SameChunk(t, u, q);
    }
  }

  /** Page links are not foreign. */
  lemma LinkNotForeign(s: State, i: nat, l: seq<int>, a: int)
    requires RegionsOk(s.mem, s.maps) && Listed(s.maps, l, i) && IsLink(a, l)
    ensures !Foreign(s.mem, s.maps, a)
  {
    var b := if a - PREV in l then a - PREV else a - NEXT;
    HeaderMapped(s.mem, b, s.maps[b]);
    assert In(b, Span(s.maps[b]), a);
  }

  /** Page links are in no chunk. */
  lemma ChunksAfterLink(s: State, s': State, i: nat, l: seq<int>)
    requires Core(s) && s'.maps == s.maps && Listed(s.maps, l, i) && OnlyLinks(s.mem, s'.mem, l)
    ensures SameAll(s, s')
  {
    forall a | Foreign(s.mem, s.maps, a)
      ensures Foreign(s'.mem, s'.maps, a) && s'.mem[a] == s.mem[a]
    {
      if IsLink(a, l) { LinkNotForeign(s, i, l, a); }
      assert Load(s'.mem, a) == Load(s.mem, a);
    }
    forall q | Live(s.maps, q)
      ensures SameChunk(s, s', q)
    {
      LiveBounds(s, q);
      forall a | q <= a < q + ChunkSize(s.maps, q)
        ensures Load(s'.mem, a) == Load(s.mem, a)
      {
        NotALink(s, i, l, Owner(q), a);
      }
    }
  }

  /** Writes inside page `b` that miss every live block but `p` change no other chunk. */
  lemma ChunksAfterWrite(s: State, s': State, b: int, m: Mapping, p: int)
    requires Core(s) && b in s.maps && s.maps[b].Pool? && m.Pool? && m.kind == s.maps[b].kind
    requires s'.maps == s.maps[b := m] && m.used - {p} == s.maps[b].used - {p}
    requires forall a :: !In(b, PAGE, a) ==> Load(s'.mem, a) == Load(s.mem, a)
    requires forall q, a :: q in m.used && q != p && q <= a < q + BlockSize(m.kind)
               ==> Load(s'.mem, a) == Load(s.mem, a)
    requires s'.mem.Keys == s.mem.Keys
    ensures SameElse(s, s', p)
  {
    OutsideWrite(s, s', b, m);
    forall q | q != p
      ensures SameChunk(s, s', q)
    {
      ChunkAfterWrite(s, s', b, m, p, q);
    }
  }

  lemma OutsideWrite(s: State, s': State, b: int, m: Mapping)
    requires b in s.maps && Span(m) == Span(s.maps[b]) && s'.maps == s.maps[b := m] && s'.mem.Keys == s.mem.Keys
    requires forall a :: !In(b, Span(m), a) ==> Load(s'.mem, a) == Load(s.mem, a)
    ensures SameOutside(s, s')
  {
    forall a | Foreign(s.mem, s.maps, a)
      ensures Foreign(s'.mem, s'.maps, a) && s'.mem[a] == s.mem[a]
    {
      assert a in s'.mem.Keys && Load(s'.mem, a) == Load(s.mem, a);
    }
  }

  lemma ChunkAfterWrite(s: State, s': State, b: int, m: Mapping, p: int, q: int)
    requires Core(s) && b in s.maps && s.maps[b].Pool? && m.Pool? && m.kind == s.maps[b].kind
    requires s'.maps == s.maps[b := m] && m.used - {p} == s.maps[b].used - {p} && q != p
    requires forall a :: !In(b, PAGE, a) ==> Load(s'.mem, a) == Load(s.mem, a)
    requires forall q, a :: q in m.used && q != p && q <= a < q + BlockSize(m.kind)
               ==> Load(s'.mem, a) == Load(s.mem, a)
    ensures SameChunk(s, s', q)
  {
    LiveAfterWrite(s.maps, b, m, p, q);
    if Live(s.maps, q) && Owner(q) != b {
      OtherChunkKept(s, s'.mem, b, q);
    }
  }

  lemma LiveAfterWrite(maps: map<int, Mapping>, b: int, m: Mapping, p: int, q: int)
    requires b in maps && maps[b].Pool? && m.Pool? && m.kind == maps[b].kind
    requires m.used - {p} == maps[b].used - {p} && q != p
    ensures Live(maps, q) <==> Live(maps[b := m], q)
    ensures Live(maps, q) ==> ChunkSize(maps[b := m], q) == ChunkSize(maps, q)
    ensures Live(maps, q) && Owner(q) == b ==> q in m.used
  {
    assert q in m.used - {p} <==> q in maps[b].used - {p};
  }

  /** A chunk of another region is out of reach of writes to region `b`. */
  lemma OtherChunkKept(s: State, mem': Memory, b: int, q: int)
    requires Core(s) && b in s.maps && Live(s.maps, q) && Owner(q) != b
    requires forall a :: a in s.mem && !In(b, Span(s.maps[b]), a) ==> Load(mem', a) == Load(s.mem, a)
    ensures forall a :: q <= a < q + ChunkSize(s.maps, q) ==> Load(mem', a) == Load(s.mem, a)
  {
    LiveBounds(s, q);
    forall a | q <= a < q + ChunkSize(s.maps, q)
      ensures Load(mem', a) == Load(s.mem, a)
    {
      StayApart(s.maps, Owner(q), b, a);
      assert In(Owner(q), Span(s.maps[Owner(q)]), a);
    }
  }

  lemma ChunksAfterMap(s: State, s': State, b: int, m: Mapping, p: int)
    requires Core(s) && b !in s.maps && s'.maps == s.maps[b := m] && b % PAGE == 0
    requires m.Direct? ==> p == b + HEADER
    requires m.Pool? ==> m.used == {}
    requires forall a :: a in s.mem ==> a in s'.mem && Load(s'.mem, a) == Load(s.mem, a) && !In(b, Span(m), a)
    ensures SameElse(s, s', p)
  {
    hide Core, Live;
    CoreIsRegions(s);
    assert SameOutside(s, s') by { OutsideMap(s, s', b, m); }
    forall q | q != p ensures SameChunk(s, s', q) { ChunkAfterMap(s, s', b, m, p, q); }
  }

  lemma CoreIsRegions(s: State)
    requires Core(s)
    ensures RegionsOk(s.mem, s.maps)
  {
  }

  lemma OutsideMap(s: State, s': State, b: int, m: Mapping)
    requires b !in s.maps && s'.maps == s.maps[b := m]
    requires forall a :: a in s.mem ==> a in s'.mem && Load(s'.mem, a) == Load(s.mem, a) && !In(b, Span(m), a)
    ensures SameOutside(s, s')
  {
    forall a | Foreign(s.mem, s.maps, a)
      ensures Foreign(s'.mem, s'.maps, a) && s'.mem[a] == s.mem[a]
    {
      assert Load(s'.mem, a) == Load(s.mem, a);
    }
  }

  lemma ChunkAfterMap(s: State, s': State, b: int, m: Mapping, p: int, q: int)
    requires RegionsOk(s.mem, s.maps) && b !in s.maps && s'.maps == s.maps[b := m] && b % PAGE == 0 && q != p
    requires m.Direct? ==> p == b + HEADER
    requires m.Pool? ==> m.used == {}
    requires forall a :: a in s.mem ==> Load(s'.mem, a) == Load(s.mem, a)
    ensures SameChunk(s, s', q)
  {
    hide RegionOk;
    LiveAfterMap(s.maps, b, m, p, q);
    if Live(s.maps, q) {
      LiveBounds(s, q);
      forall a | q <= a < q + ChunkSize(s.maps, q)
        ensures Load(s'.mem, a) == Load(s.mem, a)
      {
        RegionMapped(s.mem, Owner(q), s.maps[Owner(q)], a);
      }
    }
  }

  lemma LiveAfterMap(maps: map<int, Mapping>, b: int, m: Mapping, p: int, q: int)
    requires b !in maps && b % PAGE == 0 && q != p && (m.Direct? ==> p == b + HEADER) && (m.Pool? ==> m.used == {})
    ensures Live(maps, q) <==> Live(maps[b := m], q)
    ensures Live(maps, q) ==> Owner(q) != b && ChunkSize(maps[b := m], q) == ChunkSize(maps, q)
  {
  }

  lemma RegionMapped(mem: Memory, b: int, m: Mapping, a: int)
    requires RegionOk(mem, b, m) && In(b, Span(m), a)
    ensures a in mem
  {
  }

  lemma ChunksAfterUnmap(s: State, s': State, b: int, p: int)
    requires Core(s) && b in s.maps && s'.maps == s.maps - {b}
    requires s.maps[b].Direct? ==> p == b + HEADER
    requires s.maps[b].Pool? ==> s.maps[b].used <= {p}
    requires forall a :: a in s.mem && !In(b, Span(s.maps[b]), a) ==> a in s'.mem && Load(s'.mem, a) == Load(s.mem, a)
    ensures SameElse(s, s', p) && (Owner(p) == b ==> !Live(s'.maps, p))
  {
    OutsideUnmap(s, s', b);
    forall q | q != p
      ensures SameChunk(s, s', q)
    {
      LiveAfterUnmap(s.maps, b, p, q);
      if Live(s.maps, q) {
        OtherChunkKept(s, s'.mem, b, q);
      }
    }
  }

  lemma OutsideUnmap(s: State, s': State, b: int)
    requires b in s.maps && s'.maps == s.maps - {b}
    requires forall a :: a in s.mem && !In(b, Span(s.maps[b]), a) ==> a in s'.mem && Load(s'.mem, a) == Load(s.mem, a)
    ensures SameOutside(s, s')
  {
    forall a | Foreign(s.mem, s.maps, a)
      ensures Foreign(s'.mem, s'.maps, a) && s'.mem[a] == s.mem[a]
    {
      assert Load(s'.mem, a) == Load(s.mem, a);
    }
  }

  lemma LiveAfterUnmap(maps: map<int, Mapping>, b: int, p: int, q: int)
    requires b in maps && q != p
    requires maps[b].Direct? ==> p == b + HEADER
    requires maps[b].Pool? ==> maps[b].used <= {p}
    ensures Live(maps, q) <==> Live(maps - {b}, q)
    ensures Live(maps, q) ==> Owner(q) != b && ChunkSize(maps - {b}, q) == ChunkSize(maps, q)
  {
    var c := Owner(q);
    if c != b { assert c in maps ==> (maps - {b})[c] == maps[c]; }
  }

  // ---- What the invariant means for clients ----

  /** Live chunks never overlap one another. */
  lemma LiveChunksDisjoint(s: State, p: int, q: int)
    requires Inv(s) && Live(s.maps, p) && Live(s.maps, q) && p != q
    ensures Disjoint(p, ChunkSize(s.maps, p), q, ChunkSize(s.maps, q))
  {
    LiveBounds(s, p);
    LiveBounds(s, q);
    if Owner(p) == Owner(q) {
      NodeApart(Owner(p), s.maps[Owner(p)].kind, p, q);
    } else {
      assert Disjoint(Owner(p), Span(s.maps[Owner(p)]), Owner(q), Span(s.maps[Owner(q)]));
    }
  }

  /** A live chunk is 16-byte aligned, mapped, and meets no page header. */
  lemma LiveChunkPlaced(s: State, p: int, b: int)
    requires Inv(s) && Live(s.maps, p) && b in s.maps
    ensures p % ALIGN == 0
    ensures forall a :: p <= a < p + ChunkSize(s.maps, p) ==> a in s.mem
    ensures Disjoint(p, ChunkSize(s.maps, p), b, HEADER)
  {
    LiveBounds(s, p);
    assert RegionOk(s.mem, Owner(p), s.maps[Owner(p)]) && RegionOk(s.mem, b, s.maps[b]);
    forall a | p <= a < p + ChunkSize(s.maps, p)
      ensures a in s.mem
    {
      assert In(Owner(p), Span(s.maps[Owner(p)]), a);
    }
    if b != Owner(p) { HeaderMapped(s.mem, b, s.maps[b]); }
  }

  /** A live chunk meets no free-list node of any page, neither a freed block nor the run. */
  lemma LiveChunkMissesFreeList(s: State, p: int, b: int, x: int)
    requires Inv(s) && Live(s.maps, p) && b in s.maps && s.maps[b].Pool?
    requires x in s.maps[b].free || (x == s.maps[b].run && s.maps[b].runLen > 0)
    ensures Disjoint(p, ChunkSize(s.maps, p), x, b + PAGE - x) || x in s.maps[b].free
    ensures x in s.maps[b].free ==> Disjoint(p, ChunkSize(s.maps, p), x, BlockSize(s.maps[b].kind))
  {
    var m := s.maps[b];
    LiveBounds(s, p);
    assert RegionOk(s.mem, b, m);
    RunIsBlock(b, m);
    BlockBounds(b, m.kind, x);
    if Owner(p) == b {
      NodeApart(b, m.kind, p, x);
    } else {
      assert Disjoint(b, PAGE, Owner(p), Span(s.maps[Owner(p)]));
    }
  }

  // ---- The free list, as a reader of the memory finds it ----

  /** Following the next words from `node` visits exactly `nodes` and then stops. */
  ghost predicate Chain(mem: Memory, node: int, nodes: seq<int>)
    decreases |nodes|
  {
    if nodes == [] then node == 0
    else node == nodes[0] && node != 0 && Chain(mem, Load(mem, node), nodes[1..])
  }

  ghost function SumOfRuns(mem: Memory, nodes: seq<int>): int
    decreases |nodes|
  {
    if nodes == [] then 0 else Load(mem, nodes[0] + 8) + SumOfRuns(mem, nodes[1..])
  }

  ghost function ListNodes(m: Mapping, j: nat): seq<int>
    requires m.Pool? && j <= |m.free|
  {
    m.free[j..] + if m.runLen > 0 then [m.run] else []
  }

  lemma {:induction false} ChainFrom(mem: Memory, b: int, m: Mapping, j: nat)
    requires m.Pool? && RegionOk(mem, b, m) && j <= |m.free|
    ensures Chain(mem, NodeAt(m, j), ListNodes(m, j))
    ensures SumOfRuns(mem, ListNodes(m, j)) == |m.free| - j + m.runLen
    decreases |m.free| - j
  {
    var nodes := ListNodes(m, j);
    if j < |m.free| {
      assert NodeOk(mem, m, j) && m.free[j] in m.free;
      BlockBounds(b, m.kind, m.free[j]);
      assert nodes[1..] == ListNodes(m, j + 1);
      ChainFrom(mem, b, m, j + 1);
    } else if m.runLen > 0 {
      RunIsBlock(b, m);
      BlockBounds(b, m.kind, m.run);
      assert nodes == [m.run] && nodes[1..] == [];
      assert Chain(mem, 0, []) && SumOfRuns(mem, []) == 0;
    }
  }

  /** In every pool page the list read from memory is finite and repeats no node; its run lengths
      add up to the page's counter, which with the live blocks makes up the page; its nodes are freed
      single blocks, and then at most one untouched run, which ends at the end of the page. */
  lemma FreeListInMemory(s: State, b: int)
    requires Inv(s) && b in s.maps && s.maps[b].Pool?
    ensures var m, nodes := s.maps[b], ListNodes(s.maps[b], 0);
      && Chain(s.mem, Load(s.mem, b + LIST), nodes)
      && (forall j, k :: 0 <= j < k < |nodes| ==> nodes[j] != nodes[k])
      && SumOfRuns(s.mem, nodes) == Load(s.mem, b + COUNT)
      && m.kind < POOLS && |m.used| + Load(s.mem, b + COUNT) == BlocksPerPage(m.kind)
      && (forall j :: 0 <= j < |m.free| ==> nodes[j] == m.free[j] && Load(s.mem, nodes[j] + 8) == 1)
      && (m.runLen > 0 ==>
            && nodes == m.free + [m.run] && Load(s.mem, m.run + 8) == m.runLen
            && m.run + m.runLen * BlockSize(m.kind) == b + PAGE)
  {
    hide Core, RegionOk, SumOfRuns, Chain;
    CoreParts(s);
    ChainFrom(s.mem, b, s.maps[b], 0);
    NodeCounts(s.mem, b, s.maps[b]);
  }

  lemma NodeCounts(mem: Memory, b: int, m: Mapping)
    requires m.Pool? && RegionOk(mem, b, m)
    ensures Load(mem, b + LIST) == NodeAt(m, 0) && Load(mem, b + COUNT) == FreeCount(m)
    ensures m.kind < POOLS && |m.used| + FreeCount(m) == BlocksPerPage(m.kind)
    ensures forall j, k :: 0 <= j < k < |ListNodes(m, 0)| ==> ListNodes(m, 0)[j] != ListNodes(m, 0)[k]
    ensures forall j :: 0 <= j < |m.free| ==> ListNodes(m, 0)[j] == m.free[j] && Load(mem, m.free[j] + 8) == 1
    ensures m.runLen > 0 ==> ListNodes(m, 0) == m.free + [m.run] && Load(mem, m.run + 8) == m.runLen
    ensures m.runLen > 0 ==> m.run + m.runLen * BlockSize(m.kind) == b + PAGE
  {
    hide IsBlock;
    forall j | 0 <= j < |m.free| ensures Load(mem, m.free[j] + 8) == 1 { assert NodeOk(mem, m, j); }
    forall x | x in m.free ensures x != m.run {}
  }

  // ---- The page lists, as a reader of the memory finds them ----

  /** Following the next links from `page` visits exactly `pages` and then stops. */
  ghost predicate Walk(mem: Memory, page: int, pages: seq<int>)
    decreases |pages|
  {
    if pages == [] then page == 0
    else page == pages[0] && page != 0 && Walk(mem, Load(mem, page + NEXT), pages[1..])
  }

  lemma {:induction false} WalkFrom(mem: Memory, head: int, l: seq<int>, k: nat)
    requires ListOk(mem, head, l) && k <= |l|
    ensures Walk(mem, At(l, k), l[k..])
    decreases |l| - k
  {
    if k < |l| {
      assert LinkOk(mem, l, k) && l[k] in l;
      WalkFrom(mem, head, l, k + 1);
      assert l[k..][1..] == l[k + 1..];
    }
  }

  /** Between operations the list of a pool, read from memory, holds exactly its pages that are neither
      full nor entirely free; no free page is kept, so every mapped page has a live block. */
  lemma PoolListExact(s: State, i: nat)
    requires Inv(s) && i < POOLS
    ensures s.pools[i].freePagesCnt == 0 && Walk(s.mem, s.pools[i].pageList, s.lists[i])
    ensures forall j, k :: 0 <= j < k < |s.lists[i]| ==> s.lists[i][j] != s.lists[i][k]
    ensures forall b :: b in s.lists[i] <==>
      b in s.maps && s.maps[b].Pool? && s.maps[b].kind == i && 0 < Load(s.mem, b + COUNT) < BlocksPerPage(i)
    ensures forall b :: b in s.maps && s.maps[b].Pool? ==> s.maps[b].used != {}
  {
    assert ListOk(s.mem, HeadOf(s, i), s.lists[i]) && Listed(s.maps, s.lists[i], i);
    WalkFrom(s.mem, HeadOf(s, i), s.lists[i], 0);
    assert s.lists[i][0..] == s.lists[i];
    forall b | b in s.maps ensures b > 0 { assert RegionOk(s.mem, b, s.maps[b]); }
    forall b | b in s.maps && s.maps[b].Pool?
      ensures s.maps[b].kind < POOLS && Load(s.mem, b + COUNT) == FreeCount(s.maps[b])
      ensures FreeCount(s.maps[b]) < BlocksPerPage(s.maps[b].kind) && s.maps[b].used != {}
    {
      assert RegionOk(s.mem, b, s.maps[b]);
    }
    forall b | b in s.maps && ListIndex(s.maps[b]) == i
      ensures s.maps[b].Pool? && s.maps[b].kind == i && (b in s.lists[i] <==> OnList(s.maps[b]))
    {
      assert RegionOk(s.mem, b, s.maps[b]);
    }
  }
}
