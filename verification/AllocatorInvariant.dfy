/** The invariant of the whole allocator and the steps that keep it. */
module AllocatorInvariant {
  import opened AllocatorLayout
  import opened AllocatorModel

  /** The allocator's memory and global variables, with the regions and page lists they stand for:
      lists 0 to 6 belong to the pools, list 7 to the direct mappings. */
  datatype State = State(mem: Memory, pools: seq<Mempool>, direct: int,
                         maps: map<int, Mapping>, lists: seq<seq<int>>)

  function ListIndex(m: Mapping): nat { if m.Pool? then m.kind else DIRECT }

  /** A pool page is listed while it has a free block; a direct mapping always. */
  predicate OnList(m: Mapping) { m.Direct? || FreeCount(m) > 0 }

  function HeadOf(s: State, i: nat): int
    requires |s.pools| == POOLS && i <= DIRECT
  {
    if i < POOLS then s.pools[i].pageList else s.direct
  }

  ghost predicate PoolsOk(pools: seq<Mempool>) {
    && |pools| == POOLS
    && forall i :: 0 <= i < POOLS ==>
         && pools[i].kind == i + MIN_TYPE
         && pools[i].blockSize == BlockSize(i)
         && pools[i].blocksPerPage == BlocksPerPage(i)
  }

  ghost predicate Apart(maps: map<int, Mapping>) {
    forall b, c :: b in maps && c in maps && b != c ==> Disjoint(b, Span(maps[b]), c, Span(maps[c]))
  }

  ghost predicate Listed(maps: map<int, Mapping>, l: seq<int>, i: nat) {
    forall x :: x in l ==> x in maps && ListIndex(maps[x]) == i
  }

  /** Everything but the page bookkeeping: kept by every single step. */
  ghost predicate Core(s: State) {
    && PoolsOk(s.pools) && |s.lists| == POOLS + 1
    && Apart(s.maps) && RegionsOk(s.mem, s.maps) && ListsOk(s)
  }

  ghost predicate RegionsOk(mem: Memory, maps: map<int, Mapping>) {
    forall b :: b in maps ==> RegionOk(mem, b, maps[b])
  }

  ghost predicate ListsOk(s: State)
    requires |s.pools| == POOLS && |s.lists| == POOLS + 1
  {
    forall i :: 0 <= i <= DIRECT ==> ListOk(s.mem, HeadOf(s, i), s.lists[i]) && Listed(s.maps, s.lists[i], i)
  }

  /** Page bookkeeping between operations (`spare == 0`), and inside MempoolAlloc while the page
      `spare` is mapped but no block of it is used yet. */
  ghost predicate Balance(s: State, spare: int) {
    && PoolsOk(s.pools) && |s.lists| == POOLS + 1
    && OnLists(s.maps, s.lists) && OnlySpare(s.maps, spare) && CountsOk(s.pools, s.maps, spare)
  }

  /** A page is on its list exactly when it should be. */
  ghost predicate OnLists(maps: map<int, Mapping>, lists: seq<seq<int>>)
    requires |lists| == POOLS + 1
  {
    forall b :: b in maps && ListIndex(maps[b]) <= DIRECT ==>
      (b in lists[ListIndex(maps[b])] <==> OnList(maps[b]))
  }

  /** No pool page but `spare` is entirely free. */
  ghost predicate OnlySpare(maps: map<int, Mapping>, spare: int) {
    forall b :: b in maps && maps[b].Pool? && maps[b].kind < POOLS ==>
      (FreeCount(maps[b]) == BlocksPerPage(maps[b].kind) <==> b == spare)
  }

  ghost predicate CountsOk(pools: seq<Mempool>, maps: map<int, Mapping>, spare: int)
    requires |pools| == POOLS
  {
    forall i :: 0 <= i < POOLS ==>
      pools[i].freePagesCnt == if spare in maps && ListIndex(maps[spare]) == i then 1 else 0
  }

  ghost predicate Inv(s: State) { Core(s) && Balance(s, 0) }

  lemma CoreParts(s: State)
    requires Core(s)
    ensures |s.pools| == POOLS && |s.lists| == POOLS + 1 && PoolsOk(s.pools)
    ensures forall b :: b in s.maps ==> RegionOk(s.mem, b, s.maps[b])
  {
  }

  // ---- Steps ----

  lemma StayApart(maps: map<int, Mapping>, b: int, c: int, a: int)
    requires Apart(maps) && b in maps && c in maps && b != c && In(b, Span(maps[b]), a)
    ensures !In(c, Span(maps[c]), a)
  {
  }

  /** The free-page counter is no part of the memory image. */
  lemma CountStep(s: State, s': State, i: nat, count: int)
    requires Core(s) && i < POOLS
    requires s' == s.(pools := s.pools[i := s.pools[i].(freePagesCnt := count)])
    ensures Core(s')
  {
    forall j | 0 <= j <= DIRECT
      ensures ListOk(s'.mem, HeadOf(s', j), s'.lists[j]) && Listed(s'.maps, s'.lists[j], j)
    {
      assert HeadOf(s', j) == HeadOf(s, j);
    }
  }

  /** Writing inside one region, its page links apart, and reinterpreting it. */
  lemma PageStep(s: State, s': State, b: int, m: Mapping)
    requires Core(s) && b in s.maps
    requires s' == s.(mem := s'.mem, maps := s.maps[b := m])
    requires Span(m) == Span(s.maps[b]) && ListIndex(m) == ListIndex(s.maps[b])
    requires RegionOk(s'.mem, b, m) && s'.mem.Keys == s.mem.Keys
    requires forall a :: !In(b, Span(m), a) || a == b + PREV || a == b + NEXT ==> Load(s'.mem, a) == Load(s.mem, a)
    ensures Core(s')
  {
    RegionsAfterWrite(s.mem, s'.mem, s.maps, b, m);
    forall i | 0 <= i <= DIRECT
      ensures ListOk(s'.mem, HeadOf(s', i), s'.lists[i]) && Listed(s'.maps, s'.lists[i], i)
    {
      ListAfterWrite(s, s', b, m, i);
    }
  }

  lemma RegionsAfterWrite(mem: Memory, mem': Memory, maps: map<int, Mapping>, b: int, m: Mapping)
    requires RegionsOk(mem, maps) && Apart(maps) && b in maps && Span(m) == Span(maps[b])
    requires RegionOk(mem', b, m) && mem'.Keys == mem.Keys
    requires forall a :: !In(b, Span(m), a) ==> Load(mem', a) == Load(mem, a)
    ensures RegionsOk(mem', maps[b := m])
  {
    forall c | c in maps && c != b
      ensures RegionOk(mem', c, maps[c])
    {
      forall a | In(c, Span(maps[c]), a)
        ensures Load(mem', a) == Load(mem, a)
      {
        StayApart(maps, c, b, a);
      }
      RegionFrame(mem, mem', c, maps[c]);
    }
  }

  lemma ListAfterWrite(s: State, s': State, b: int, m: Mapping, i: nat)
    requires Core(s) && b in s.maps && i <= DIRECT
    requires s' == s.(mem := s'.mem, maps := s.maps[b := m])
    requires Span(m) == Span(s.maps[b]) && ListIndex(m) == ListIndex(s.maps[b])
    requires forall a :: !In(b, Span(m), a) || a == b + PREV || a == b + NEXT ==> Load(s'.mem, a) == Load(s.mem, a)
    ensures ListOk(s'.mem, HeadOf(s', i), s'.lists[i]) && Listed(s'.maps, s'.lists[i], i)
  {
    forall x | x in s.lists[i]
      ensures Load(s'.mem, x + PREV) == Load(s.mem, x + PREV) && Load(s'.mem, x + NEXT) == Load(s.mem, x + NEXT)
    {
      LinksKept(s, s', b, m, i, x);
    }
    ListFrame(s.mem, s'.mem, HeadOf(s, i), s.lists[i]);
  }

  lemma LinksKept(s: State, s': State, b: int, m: Mapping, i: nat, x: int)
    requires Core(s) && b in s.maps && Span(m) == Span(s.maps[b])
    requires forall a :: !In(b, Span(m), a) || a == b + PREV || a == b + NEXT ==> Load(s'.mem, a) == Load(s.mem, a)
    requires i <= DIRECT && x in s.lists[i]
    ensures Load(s'.mem, x + PREV) == Load(s.mem, x + PREV) && Load(s'.mem, x + NEXT) == Load(s.mem, x + NEXT)
  {
    if x != b {
      HeaderMapped(s.mem, x, s.maps[x]);
      StayApart(s.maps, x, b, x + PREV);
      StayApart(s.maps, x, b, x + NEXT);
    }
  }

  /** Relinking the pages of list `i` only. */
  lemma LinkStep(s: State, s': State, i: nat, l: seq<int>)
    requires Core(s) && i <= DIRECT && PoolsOk(s'.pools)
    requires s'.maps == s.maps && |s'.lists| == POOLS + 1 && s'.lists == s.lists[i := s'.lists[i]]
    requires forall j :: 0 <= j <= DIRECT && j != i ==> HeadOf(s', j) == HeadOf(s, j)
    requires OnlyLinks(s.mem, s'.mem, l) && Listed(s.maps, l, i) && Listed(s.maps, s'.lists[i], i)
    requires ListOk(s'.mem, HeadOf(s', i), s'.lists[i])
    ensures Core(s')
  {
    forall c | c in s'.maps
      ensures RegionOk(s'.mem, c, s'.maps[c])
    {
      forall a | In(c, Span(s.maps[c]), a) && a != c + PREV && a != c + NEXT
        ensures Load(s'.mem, a) == Load(s.mem, a)
      {
        NotALink(s, i, l, c, a);
      }
      RegionFrame(s.mem, s'.mem, c, s.maps[c]);
    }
    forall j | 0 <= j <= DIRECT
      ensures ListOk(s'.mem, HeadOf(s', j), s'.lists[j])
      ensures Listed(s'.maps, s'.lists[j], j)
    {
      if j != i {
        assert s'.lists[j] == s.lists[j] && Listed(s.maps, s.lists[j], j);
        forall x | x in s.lists[j]
          ensures !IsLink(x + PREV, l) && !IsLink(x + NEXT, l)
        {
          OtherLink(s, i, l, x);
        }
        ListFrame(s.mem, s'.mem, HeadOf(s, j), s.lists[j]);
      }
    }
  }

  lemma NotALink(s: State, i: nat, l: seq<int>, c: int, a: int)
    requires Apart(s.maps) && RegionsOk(s.mem, s.maps) && Listed(s.maps, l, i) && c in s.maps
    requires In(c, Span(s.maps[c]), a) && a != c + PREV && a != c + NEXT
    ensures !IsLink(a, l)
  {
    if a - PREV in l { NotItsLink(s, a - PREV, PREV, c); }
    if a - NEXT in l { NotItsLink(s, a - NEXT, NEXT, c); }
  }

  lemma NotItsLink(s: State, x: int, off: int, c: int)
    requires Apart(s.maps) && RegionsOk(s.mem, s.maps) && x in s.maps && c in s.maps && x != c
    requires off == PREV || off == NEXT
    ensures !In(c, Span(s.maps[c]), x + off)
  {
    HeaderMapped(s.mem, x, s.maps[x]);
    StayApart(s.maps, x, c, x + off);
  }

  lemma OtherLink(s: State, i: nat, l: seq<int>, x: int)
    requires Core(s) && Listed(s.maps, l, i) && x in s.maps && ListIndex(s.maps[x]) != i
    ensures !IsLink(x + PREV, l) && !IsLink(x + NEXT, l)
  {
    hide Core, RegionOk;
    CoreParts(s);
    forall y | y in l + [x] ensures y % PAGE == 0 { RegionPlaced(s.mem, y, s.maps[y]); }
    assert x in l + [x] && forall y :: y in l ==> y in l + [x] && y != x;
    NotNextDoor(x);
  }

  lemma NotNextDoor(x: int)
    requires x % PAGE == 0
    ensures (x - 8) % PAGE != 0 && (x + 8) % PAGE != 0
  {
  }

  /** A fresh region appears. */
  lemma MapStep(s: State, s': State, b: int, m: Mapping)
    requires Core(s) && s' == s.(mem := s'.mem, maps := s.maps[b := m])
    requires RegionOk(s'.mem, b, m)
    requires forall a :: In(b, Span(m), a) ==> a !in s.mem
    requires forall a :: a in s'.mem <==> a in s.mem || In(b, Span(m), a)
    requires forall a :: a in s.mem ==> Load(s'.mem, a) == Load(s.mem, a)
    ensures b !in s.maps && Core(s')
  {
    hide RegionOk, ListOk;
    RegionPlaced(s'.mem, b, m);
    RegionFirstWord(s.mem, s.maps, b, m);
    forall c | c in s.maps
      ensures RegionOk(s'.mem, c, s.maps[c]) && Disjoint(b, Span(m), c, Span(s.maps[c]))
    {
      RegionStays(s.mem, s'.mem, c, s.maps[c]);
      FreshIsApart(s.mem, b, m, c, s.maps[c]);
    }
    forall i | 0 <= i <= DIRECT
      ensures ListOk(s'.mem, HeadOf(s', i), s'.lists[i]) && Listed(s'.maps, s'.lists[i], i)
    {
      ListAfterMap(s, s'.mem, i);
    }
  }

  lemma RegionFirstWord(mem: Memory, maps: map<int, Mapping>, b: int, m: Mapping)
    requires RegionsOk(mem, maps) && Span(m) > 0 && forall a :: In(b, Span(m), a) ==> a !in mem
    ensures b !in maps
  {
    if b in maps { HeaderMapped(mem, b, maps[b]); assert In(b, Span(m), b); }
  }

  lemma RegionStays(mem: Memory, mem': Memory, c: int, n: Mapping)
    requires RegionOk(mem, c, n) && forall a :: a in mem ==> a in mem' && Load(mem', a) == Load(mem, a)
    ensures RegionOk(mem', c, n)
  {
    RegionFrame(mem, mem', c, n);
  }

  lemma RegionPlaced(mem: Memory, b: int, m: Mapping)
    requires RegionOk(mem, b, m)
    ensures PlacedOk(b, m) && b % PAGE == 0
  {
  }

  lemma ListAfterMap(s: State, mem': Memory, i: nat)
    requires Core(s) && i <= DIRECT
    requires forall a :: a in s.mem ==> Load(mem', a) == Load(s.mem, a)
    ensures ListOk(mem', HeadOf(s, i), s.lists[i])
  {
    forall x | x in s.lists[i]
      ensures x + PREV in s.mem && x + NEXT in s.mem
    {
      HeaderMapped(s.mem, x, s.maps[x]);
    }
    ListFrame(s.mem, mem', HeadOf(s, i), s.lists[i]);
  }

  /** Words that are not mapped belong to no region. */
  lemma FreshIsApart(mem: Memory, b: int, m: Mapping, c: int, n: Mapping)
    requires PlacedOk(b, m) && RegionOk(mem, c, n)
    requires forall a :: In(b, Span(m), a) ==> a !in mem
    ensures Disjoint(b, Span(m), c, Span(n))
  {
    var a := if b < c then c else b;
    assert In(c, Span(n), a) ==> a in mem;
  }

  /** An unlisted region disappears. */
  lemma UnmapStep(s: State, s': State, b: int)
    requires Core(s) && b in s.maps && s' == s.(mem := s'.mem, maps := s.maps - {b})
    requires forall i :: 0 <= i <= DIRECT ==> b !in s.lists[i]
    requires forall a :: a in s'.mem <==> a in s.mem && !In(b, Span(s.maps[b]), a)
    requires forall a :: a in s'.mem ==> Load(s'.mem, a) == Load(s.mem, a)
    ensures Core(s')
  {
    forall c | c in s'.maps
      ensures RegionOk(s'.mem, c, s'.maps[c])
    {
      forall a | In(c, Span(s.maps[c]), a)
        ensures a in s'.mem
      {
        StayApart(s.maps, c, b, a);
      }
      RegionFrame(s.mem, s'.mem, c, s.maps[c]);
    }
    forall i | 0 <= i <= DIRECT
      ensures ListOk(s'.mem, HeadOf(s', i), s'.lists[i]) && Listed(s'.maps, s'.lists[i], i)
    {
      forall x | x in s.lists[i]
        ensures x + PREV in s'.mem && x + NEXT in s'.mem
      {
        HeaderMapped(s.mem, x, s.maps[x]);
        StayApart(s.maps, x, b, x + PREV);
        StayApart(s.maps, x, b, x + NEXT);
      }
      ListFrame(s.mem, s'.mem, HeadOf(s, i), s.lists[i]);
    }
  }

}
