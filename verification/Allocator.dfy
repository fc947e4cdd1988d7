/** The allocator itself: lazily initialised block pools and direct mappings over one memory. */
module Allocator {
  import opened AllocatorLayout
  import opened AllocatorModel
  import opened AllocatorInvariant
  import opened AllocatorChunks
  import opened AllocatorSteps

  /** SelectMempoolType: the exponent of the least power of two that is at least `num`. */
  method SelectMempoolType(num: nat) returns (res: nat)
    requires num >= 1
    ensures num <= Pow2(res) && (res > 0 ==> Pow2(res - 1) < num)
  {
    res := 0;
    var n: nat := num - 1;
    while n != 0
      invariant Within(Pow2(res), n, num - 1)
      invariant res > 0 ==> Pow2(res - 1) < num
      decreases n
    {
      ShiftStep(Pow2(res), n, num - 1);
      res := res + 1;
      n := n / 2;
    }
  }

  class DfxAllocator {
    var mem: Memory
    var initFlag: bool
    var pageList: int
    var pools: seq<Mempool>

    /** The regions in use and the order of each page list. */
    ghost var maps: map<int, Mapping>
    ghost var lists: seq<seq<int>>

    ghost function Snap(): State
      reads this
    {
      State(mem, pools, pageList, maps, lists)
    }

    ghost predicate Valid()
      reads this
    {
      if initFlag then Inv(Snap()) else maps == map[] && lists == [] && pageList == 0
    }

    /** The process may have other memory mapped: `foreign`. */
    constructor (foreign: Memory)
      ensures Valid() && !initFlag && maps == map[] && mem == foreign
    {
      mem, initFlag, pageList, pools := foreign, false, 0, [];
      maps, lists := map[], [];
    }

    method Read(a: int) returns (v: int)
      requires a in mem && a % 8 == 0
      ensures v == Load(mem, a)
    {
      v := mem[a];
    }

    method Write(a: int, v: int)
      requires a in mem && a % 8 == 0
      modifies this`mem
      ensures mem == old(mem)[a := v] && mem.Keys == old(mem.Keys)
    {
      mem := mem[a := v];
    }

    /** mmap: the kernel answers with the address `os`, or fails when that place is unusable. */
    method Mmap(size: int, os: int) returns (base: int)
      requires size > 0
      modifies this`mem
      ensures base == if Placeable(old(mem), os, size) then os else 0
      ensures mem == if base != 0 then MapZero(old(mem), os, size) else old(mem)
    {
      base := 0;
      if os > 0 && os % PAGE == 0 && os + size <= TWO_64 && (forall a :: os <= a < os + size ==> a !in mem) {
        base := os;
        mem := MapZero(mem, os, size);
      }
    }

    /** Pushes `page` on the list that starts at `head` and visits `l`. */
    method AddPage(head: int, page: int, ghost l: seq<int>) returns (head': int)
      requires ListOk(mem, head, l) && page !in l
      requires Pages(mem, [page] + l)
      modifies this`mem
      ensures head' == page && ListOk(mem, page, [page] + l)
      ensures OnlyLinks(old(mem), mem, [page] + l)
    {
      assert page in [page] + l;
      LinkWords(page, page);
      Write(page + NEXT, head);
      Write(page + PREV, 0);
      if head != 0 {
        assert head in [page] + l;
        LinkWords(head, page);
        Write(head + PREV, page);
      }
      head' := page;
      PushWrites(old(mem), mem, head, l, page);
    }

    /** Takes `page`, element `k` of the list `l` that starts at `head`, off the list. */
    method RemovePage(head: int, page: int, ghost l: seq<int>, ghost k: nat) returns (head': int)
      requires ListOk(mem, head, l) && k < |l| && l[k] == page
      requires Pages(mem, l)
      modifies this`mem
      ensures ListOk(mem, head', Without(l, k))
      ensures OnlyLinks(old(mem), mem, l)
    {
      hide ListOk, LinkOk, Pages, OnlyLinks, At;
      LinkAt(mem, head, l, k);
      var prev := Read(page + PREV);
      var next := Read(page + NEXT);
      if prev != 0 { Write(prev + NEXT, next); }
      if next != 0 { Write(next + PREV, prev); }
      head' := head;
      if head == page { head' := next; }
      Write(page + PREV, 0);
      Write(page + NEXT, 0);
      UnlinkWrites(old(mem), mem, head, l, k);
    }

    /** InitDfxAllocator: seven empty pools of doubling block size. */
    method InitDfxAllocator()
      requires Valid() && !initFlag
      modifies this`pools, this`initFlag, this`lists
      ensures Valid() && initFlag && |lists| == POOLS + 1 && forall i :: 0 <= i <= DIRECT ==> lists[i] == []
    {
      pools := [];
      var i := 0;
      while i < POOLS
        invariant 0 <= i <= POOLS && |pools| == i
        invariant forall j :: 0 <= j < i ==> pools[j] == Mempool(j + MIN_TYPE, BlockSize(j), BlocksPerPage(j), 0, 0)
      {
        var kind := i + MIN_TYPE;
        var blockSize := Pow2(kind);
        Powers();
        pools := pools + [Mempool(kind, blockSize, (PAGE - HEADER) / blockSize, 0, 0)];
        i := i + 1;
      }
      lists := seq(POOLS + 1, _ => []);
      initFlag := true;
    }

    method MempoolAddPage(i: nat, page: int)
      requires Core(Snap()) && i < POOLS && page in maps && ListIndex(maps[page]) == i && page !in lists[i]
      modifies this`mem, this`pools, this`lists
      ensures Core(Snap()) && SameAll(old(Snap()), Snap())
      ensures lists == old(lists)[i := [page] + old(lists)[i]]
      ensures pools == old(pools)[i := old(pools)[i].(pageList := page)]
    {
      hide Core, Balance, SameAll, RegionOk, ListOk, OnlyLinks, TakeWrites, Issued, Take;
      ghost var s := Snap();
      CoreParts(s);
      PushReady(s, i, page);
      var head := AddPage(pools[i].pageList, page, lists[i]);
      pools := pools[i := pools[i].(pageList := head)];
      lists := lists[i := [page] + lists[i]];
      PushStep(s, Snap(), i, page);
    }

    method MempoolRemovePage(i: nat, page: int) returns (ghost k: nat)
      requires Core(Snap()) && i < POOLS && page in lists[i]
      modifies this`mem, this`pools, this`lists
      ensures Core(Snap()) && SameAll(old(Snap()), Snap())
      ensures k < |old(lists)[i]| && old(lists)[i][k] == page && |pools| == |old(pools)|
      ensures lists == old(lists)[i := Without(old(lists)[i], k)]
      ensures pools == old(pools)[i := old(pools)[i].(pageList := pools[i].pageList)]
    {
      hide Core, Balance, SameAll, RegionOk, ListOk, OnlyLinks, TakeWrites, Issued, Take;
      ghost var s := Snap();
      CoreParts(s);
      k :| 0 <= k < |lists[i]| && lists[i][k] == page;
      UnlinkReady(s, i);
      var head := RemovePage(pools[i].pageList, page, lists[i], k);
      pools := pools[i := pools[i].(pageList := head)];
      lists := lists[i := Without(lists[i], k)];
      UnlinkStep(s, Snap(), i, k, head);
    }

    /** MempoolAllocPage: maps a page, makes all of it one untouched run and lists it. */
    method MempoolAllocPage(i: nat, os: int)
      requires Inv(Snap()) && i < POOLS
      modifies this`mem, this`pools, this`maps, this`lists
      ensures !Placeable(old(mem), os, PAGE) ==> Snap() == old(Snap())
      ensures Placeable(old(mem), os, PAGE) ==>
        && Core(Snap()) && Balance(Snap(), os) && os !in old(maps) && maps == old(maps)[os := NewPage(i, os)]
        && lists == old(lists)[i := [os] + old(lists)[i]] && pools[i].pageList == os
        && SameAll(old(Snap()), Snap())
    {
      hide Core, Balance, SameAll, RegionOk, ListOk, OnlyLinks, TakeWrites, Issued, Take;
      ghost var s := Snap();
      CoreParts(s);
      var page := Mmap(PAGE, os);
      if page == 0 { return; }
      FormatPage(i, page, old(mem));
      maps := maps[page := NewPage(i, page)];
      ghost var t := Snap();
      NewPageStep(s, t, page, i);
      MempoolAddPage(i, page);
      ghost var u := Snap();
      pools := pools[i := pools[i].(freePagesCnt := pools[i].freePagesCnt + 1)];
      CountStep(u, Snap(), i, pools[i].freePagesCnt);
      SameAllTransitive(s, t, u, Snap());
      NewPageBalance(s, Snap(), i, page);
    }

    /** Fills in the header of a new page and the head of its run. */
    method FormatPage(i: nat, page: int, ghost before: Memory)
      requires PoolsOk(pools) && i < POOLS && page > 0 && page % PAGE == 0 && mem == MapZero(before, page, PAGE)
      modifies this`mem
      ensures mem == MapZero(before, page, PAGE)[page + TAG := TagWord(i + MIN_TYPE)][page + SIZE := i]
                       [page + COUNT := BlocksPerPage(i)][page + First(i) + 8 := BlocksPerPage(i)]
                       [page + LIST := page + First(i)]
    {
      FirstBlock(page, i);
      BlockBounds(page, i, page + First(i));
      NewPageReady(before, page, page + First(i));
      HeaderAligned(page);
      NodeAligned(page + First(i));
      Write(page + TAG, TagWord(pools[i].kind));
      Write(page + SIZE, i);
      Write(page + COUNT, pools[i].blocksPerPage);
      var first := AlignRoundUp(page + HEADER, pools[i].blockSize);
      Write(first + 8, pools[i].blocksPerPage);
      Write(page + LIST, first);
    }

    /** MempoolAlloc's update of the free list of `page`: split the run or unlink a single block. */
    method UnlinkBlock(i: nat, page: int, ghost m: Mapping) returns (block: int)
      requires PoolsOk(pools) && i < POOLS && RegionOk(mem, page, m)
      requires m.Pool? && m.kind == i && FreeCount(m) > 0
      modifies this`mem
      ensures block == NodeAt(m, 0) && mem == Unlinked(old(mem), page, m)
    {
      hide RegionOk;
      PageReads(mem, page, m);
      TakeReads(mem, page, m);
      block := Read(page + LIST);
      var count := Read(block + 8);
      var next := Read(block);
      if count > 1 {
        RunNextMapped(mem, page, m);
        var nextfree := block + pools[i].blockSize;
        Write(nextfree, next);
        Write(nextfree + 8, count - 1);
        Write(page + LIST, nextfree);
      } else {
        Write(page + LIST, next);
      }
    }

    /** The statements of MempoolAlloc that pop the first free block of `page` and clear it. */
    method PopBlock(i: nat, page: int, ghost m: Mapping) returns (block: int)
      requires PoolsOk(pools) && i < POOLS && RegionOk(mem, page, m)
      requires m.Pool? && m.kind == i && FreeCount(m) > 0
      modifies this`mem
      ensures block == NodeAt(m, 0) && TakeWrites(old(mem), mem, page, m)
    {
      hide RegionOk, TakeWrites, Unlinked;
      PageReads(mem, page, m);
      UnlinkedKeys(mem, page, m);
      var left := Read(page + COUNT);
      block := UnlinkBlock(i, page, m);
      if left > 0 { Write(page + COUNT, left - 1); }
      mem := Fill(mem, block, pools[i].blockSize);
      TakeWritten(old(mem), mem, page, m);
    }

    /** Pops a block of a listed page, counting the page as in use when it was entirely free. */
    method PopListed(i: nat, page: int) returns (ptr: int, left: nat)
      requires Core(Snap()) && i < POOLS && page in maps && maps[page].Pool? && maps[page].kind == i
      requires FreeCount(maps[page]) > 0
      modifies this`mem, this`pools, this`maps
      ensures Core(Snap()) && maps == old(maps)[page := Take(old(maps)[page])] && left == FreeCount(old(maps)[page])
      ensures pools == old(pools)[i := old(pools)[i].(freePagesCnt :=
                         old(pools)[i].freePagesCnt - (if left == BlocksPerPage(i) then 1 else 0))]
      ensures Issued(old(Snap()), Snap(), ptr, BlockSize(i))
    {
      hide Core, Balance, SameAll, RegionOk, ListOk, OnlyLinks, TakeWrites, Issued, Take;
      ghost var s := Snap();
      ghost var m := maps[page];
      CoreParts(s);
      PageReads(mem, page, m);
      left := Read(page + COUNT);
      ptr := PopBlock(i, page, m);
      maps := maps[page := Take(m)];
      if left == pools[i].blocksPerPage {
        pools := pools[i := pools[i].(freePagesCnt := pools[i].freePagesCnt - 1)];
      }
      PopStep(s, Snap(), i, page, pools[i].freePagesCnt);
    }

    /** MempoolAlloc, once a listed page is at hand: a page that became full leaves the list. */
    method AllocFrom(i: nat, page: int, ghost spare: int) returns (ptr: int)
      requires Core(Snap()) && Balance(Snap(), spare) && i < POOLS && page in lists[i] && (spare == 0 || spare == page)
      modifies this`mem, this`pools, this`maps, this`lists
      ensures Inv(Snap()) && Issued(old(Snap()), Snap(), ptr, BlockSize(i))
    {
      hide Core, Balance, SameAll, RegionOk, ListOk, OnlyLinks, TakeWrites, Issued, Take;
      ghost var s := Snap();
      CoreParts(s);
      ListedPage(s, spare, i, page);
      ghost var k :| 0 <= k < |lists[i]| && lists[i][k] == page;
      var left;
      ptr, left := PopListed(i, page);
      ghost var t := Snap();
      if left == 1 {
        k := MempoolRemovePage(i, page);
        IssuedThrough(s, t, t, Snap(), ptr, BlockSize(i));
      }
      CoreParts(Snap());
      TakeBalance(s, Snap(), spare, i, page, k);
    }

    /** MempoolAlloc: fails exactly when the pool has no page with room and the kernel refuses one. */
    method MempoolAlloc(i: nat, os: int) returns (ptr: int)
      requires Inv(Snap()) && i < POOLS
      modifies this`mem, this`pools, this`maps, this`lists
      ensures Inv(Snap())
      ensures ptr == 0 <==> old(lists)[i] == [] && !Placeable(old(mem), os, PAGE)
      ensures ptr == 0 ==> Snap() == old(Snap())
      ensures ptr != 0 ==> Issued(old(Snap()), Snap(), ptr, BlockSize(i))
    {
      hide Core, Balance, SameAll, RegionOk, ListOk, OnlyLinks, TakeWrites, Issued, Take, SameElse;
      ghost var s := Snap();
      CoreParts(s);
      PoolHead(s, i);
      ghost var spare := 0;
      if pools[i].pageList == 0 {
        MempoolAllocPage(i, os);
        if Placeable(old(mem), os, PAGE) { spare := os; }
      }
      ghost var t := Snap();
      CoreParts(t);
      PoolHead(t, i);
      var page, first := pools[i].pageList, 0;
      if page != 0 {
        ListedPage(t, spare, i, page);
        PageReads(mem, page, maps[page]);
        TakeReads(mem, page, maps[page]);
        first := Read(page + LIST);
      }
      if page == 0 || first == 0 { return 0; }
      ptr := AllocFrom(i, page, spare);
      IssuedAfter(s, t, Snap(), ptr, BlockSize(i));
    }

    /** The statements of MempoolFree that clear the block and push it on the page's free list. */
    method PushBlock(i: nat, page: int, ptr: int, ghost m: Mapping) returns (count: int)
      requires PoolsOk(pools) && i < POOLS && RegionOk(mem, page, m)
      requires m.Pool? && m.kind == i && ptr in m.used
      modifies this`mem
      ensures count == FreeCount(m) + 1 && GiveWrites(old(mem), mem, page, m, ptr)
    {
      hide RegionOk, GiveWrites;
      PageReads(mem, page, m);
      GiveReads(mem, page, m, ptr);
      var list := Read(page + LIST);
      var free := Read(page + COUNT);
      count := free + 1;
      mem := Fill(mem, ptr, pools[i].blockSize);
      Write(ptr, list);
      Write(ptr + 8, 1);
      Write(page + LIST, ptr);
      Write(page + COUNT, count);
      GiveWritten(old(mem), mem, page, m, ptr);
    }

    /** MempoolFreePage: takes an entirely free page off its list and unmaps it. */
    method MempoolFreePage(i: nat, page: int, ghost ptr: int) returns (ghost k: nat)
      requires Core(Snap()) && i < POOLS && page in lists[i] && page in maps && maps[page].Pool? && maps[page].kind == i
      requires FreeCount(maps[page]) == BlocksPerPage(i) && maps[page].used == {} && Owner(ptr) == page
      modifies this`mem, this`pools, this`maps, this`lists
      ensures Core(Snap()) && maps == old(maps) - {page} && Freed(old(Snap()), Snap(), ptr)
      ensures k < |old(lists)[i]| && old(lists)[i][k] == page && lists == Unlist(old(lists), i, k)
      ensures |pools| == |old(pools)| && pools == old(pools)[i := old(pools)[i].(
                pageList := pools[i].pageList, freePagesCnt := old(pools)[i].freePagesCnt - 1)]
    {
      hide Core, SameAll, RegionOk, SameElse, Freed;
      ghost var s := Snap();
      CoreParts(s);
      k := MempoolRemovePage(i, page);
      ghost var t := Snap();
      CoreParts(t);
      mem := Unmap(mem, page, PAGE);
      maps := maps - {page};
      ghost var u := Snap();
      ReleaseStep(s, u, i, k, t, ptr);
      pools := pools[i := pools[i].(freePagesCnt := pools[i].freePagesCnt - 1)];
      CountStep(u, Snap(), i, pools[i].freePagesCnt);
      FreedPage(s, t, u, Snap(), ptr);
    }

    /** MempoolFree on a live block: the page is unmapped exactly when this was its last one. */
    method MempoolFree(i: nat, ptr: int)
      requires Inv(Snap()) && i < POOLS && Live(maps, ptr) && maps[Owner(ptr)].Pool? && maps[Owner(ptr)].kind == i
      modifies this`mem, this`pools, this`maps, this`lists
      ensures Inv(Snap()) && Freed(old(Snap()), Snap(), ptr)
      ensures Owner(ptr) in maps <==> old(maps)[Owner(ptr)].used != {ptr}
    {
      hide Core, Balance, SameAll, RegionOk, SameElse, Freed, GiveWrites, Live;
      ghost var s := Snap();
      CoreParts(s);
      LivePage(s, ptr);
      var page := PageStart(ptr);
      ghost var m := maps[page];
      assert ptr % pools[i].blockSize == 0;
      var count := PushBlock(i, page, ptr, m);
      maps := maps[page := Give(m, ptr)];
      ghost var t := Snap();
      GiveStep(s, t, page, ptr);
      GiveFrees(s, t, ptr);
      if count == pools[i].blocksPerPage {
        pools := pools[i := pools[i].(freePagesCnt := pools[i].freePagesCnt + 1)];
        ghost var u := Snap();
        CountStep(t, u, i, pools[i].freePagesCnt);
        NoFreePages(s, i);
        if pools[i].freePagesCnt >= 1 {
          ghost var k := MempoolFreePage(i, page, ptr);
          FreedPage(s, t, u, Snap(), ptr);
          CoreParts(Snap());
          assert maps == s.maps - {page};
          ShrinkBalance(s, Snap(), i, k);
        }
      } else {
        if count == 1 {
          MempoolAddPage(i, page);
          FreedThrough(s, t, Snap(), ptr);
        }
        CoreParts(Snap());
        GiveBalance(s, Snap(), page, ptr);
      }
    }

    /** AllocMmap: one mapping per chunk; fails exactly on size overflow or when the kernel refuses. */
    method AllocMmap(size: nat, os: int) returns (ptr: int)
      requires Inv(Snap()) && size < TWO_64
      modifies this`mem, this`pageList, this`maps, this`lists
      ensures Inv(Snap())
      ensures ptr == 0 <==> !DirectFits(size) || !Placeable(old(mem), os, DirectSize(size))
      ensures ptr == 0 ==> Snap() == old(Snap())
      ensures ptr != 0 ==> Issued(old(Snap()), Snap(), ptr, DirectSize(size) - HEADER)
    {
      hide Core, Balance, SameAll, RegionOk, ListOk, OnlyLinks, Issued, SameElse;
      ghost var s := Snap();
      CoreParts(s);
      DirectTests(size);
      DirectSizeBounds(size);
      var allocSize := AlignRoundUp(HEADER, ALIGN) + size;
      if allocSize >= TWO_64 || PageEnd(allocSize) < allocSize { return 0; }
      allocSize := PageEnd(allocSize);
      var base := Mmap(allocSize, os);
      if base == 0 { return 0; }
      ptr := base + HEADER;
      FormatDirect(base, allocSize, old(mem));
      maps := maps[base := Direct(allocSize)];
      ghost var t := Snap();
      NewDirectStep(s, t, base, allocSize);
      PushReady(t, DIRECT, base);
      pageList := AddPage(pageList, base, lists[DIRECT]);
      lists := lists[DIRECT := [base] + lists[DIRECT]];
      PushStep(t, Snap(), DIRECT, base);
      IssuedThrough(s, t, t, Snap(), ptr, allocSize - HEADER);
      NewDirectBalance(s, Snap(), base, allocSize);
    }

    method FormatDirect(base: int, size: int, ghost before: Memory)
      requires base > 0 && base % PAGE == 0 && size >= PAGE && mem == MapZero(before, base, size)
      modifies this`mem
      ensures mem == MapZero(before, base, size)[base + TAG := TagWord(MMAP_TYPE)][base + SIZE := size]
                       [base + PREV := 0][base + NEXT := 0][base + LIST := 0][base + COUNT := 0]
    {
      NewDirectReady(before, base, size);
      HeaderAligned(base);
      Write(base + TAG, TagWord(MMAP_TYPE));
      Write(base + SIZE, size);
      Write(base + PREV, 0);
      Write(base + NEXT, 0);
      Write(base + LIST, 0);
      Write(base + COUNT, 0);
    }

    /** AllocImpl and DfxAlloc: malloc over pools and direct mappings, zero-filled in both cases. */
    method DfxAlloc(size: nat, os: int) returns (ptr: int)
      requires Valid() && size < TWO_64
      modifies this
      ensures Valid() && initFlag
      ensures ptr == 0 <==> Refused(old(Snap()), size, os)
      ensures size > 1024 ==> (ptr == 0 <==> (48 + size + 4095 >= 0x1_0000_0000_0000_0000 ||
        !Placeable(old(mem), os, (48 + size + 4095) / 4096 * 4096)))
      ensures size <= 1024 ==> (ptr == 0 <==> !Placeable(old(mem), os, 4096) && NoFreeBlock(old(mem), old(maps), size))
      ensures ptr == 0 ==> mem == old(mem) && maps == old(maps)
      ensures ptr != 0 ==> Issued(old(Snap()), Snap(), ptr, Capacity(size))
    {
      hide Core, Balance, Issued, SameElse, NoFreeBlock;
      if size > 1024 { LargeRefused(Snap(), size, os); } else { SmallRefused(Snap(), size, os); }
      var realSize := if size == 0 then 1 else size;
      if !initFlag { InitDfxAllocator(); } else { CoreParts(Snap()); }
      ghost var s := Snap();
      if realSize > MAX_BLOCK {
        ptr := AllocMmap(realSize, os);
      } else {
        var kind := SelectMempoolType(realSize);
        ExponentPool(kind, realSize);
        if kind < MIN_TYPE { kind := MIN_TYPE; }
        assert kind - MIN_TYPE == SizeClass(realSize) by {
          BestPoolUnique(kind - MIN_TYPE, SizeClass(realSize), realSize);
        }
        ptr := MempoolAlloc(kind - MIN_TYPE, os);
      }
      if ptr != 0 { IssuedView(s, old(Snap()), Snap(), ptr, Capacity(size)); }
    }

    /** GetPage: the tagged header of a live pointer's region; null for an untagged address. */
    method GetPage(ptr: int) returns (page: int, tag: int)
      requires Inv(Snap()) && (Live(maps, ptr) || Untagged(mem, ptr))
      ensures page == (if Live(maps, ptr) then Owner(ptr) else 0) && (page != 0 ==> tag == Load(mem, page + TAG))
    {
      hide Core, Balance;
      OwnerAligned(ptr);
      if Live(maps, ptr) {
        UntaggedNotLive(Snap(), ptr);
        LivePage(Snap(), ptr);
        PageReads(mem, Owner(ptr), maps[Owner(ptr)]);
      }
      page := PageStart(ptr - HEADER);
      tag := Read(page + TAG);
      page := if tag % TWO_32 == SIGN then page else 0;
    }

    /** GetChunkSize: the usable length of a live chunk, read back from its region's header. */
    method GetChunkSize(ptr: int) returns (size: int)
      requires initFlag && Valid() && (ptr == 0 || Live(maps, ptr) || Untagged(mem, ptr))
      ensures size == if ptr != 0 && Live(maps, ptr) then ChunkSize(maps, ptr) else 0
      ensures ptr != 0 && Live(maps, ptr) ==> size > 0
    {
      hide Core, Balance;
      if ptr == 0 { return 0; }
      var page, tag := GetPage(ptr);
      if Live(maps, ptr) { OwnerNotNull(Snap(), ptr); }
      if page == 0 { return 0; }
      LivePositive(Snap(), ptr);
      LivePage(Snap(), ptr);
      CoreParts(Snap());
      PageReads(mem, Owner(ptr), maps[Owner(ptr)]);
      TagRoundTrip(MMAP_TYPE);
      if maps[Owner(ptr)].Pool? { TagRoundTrip(maps[Owner(ptr)].kind + MIN_TYPE); }
      var kind := tag / TWO_32;
      var mapped := Read(page + SIZE);
      size := if kind == MMAP_TYPE then mapped - (ptr - page)
              else if MIN_TYPE <= kind <= MAX_TYPE then pools[kind - MIN_TYPE].blockSize else 0;
    }

    /** DfxFree on null, a live pointer or an untagged address; the last is refused. */
    method DfxFree(ptr: int)
      requires Valid() && (ptr == 0 || Live(maps, ptr) || Untagged(mem, ptr))
      modifies this`mem, this`pools, this`pageList, this`maps, this`lists
      ensures Valid()
      ensures ptr == 0 || !Live(old(maps), ptr) ==> mem == old(mem) && maps == old(maps)
      ensures ptr != 0 && Live(old(maps), ptr) ==> Freed(old(Snap()), Snap(), ptr)
      ensures ptr != 0 && Live(old(maps), ptr) ==> (Owner(ptr) in maps <==>
        old(maps)[Owner(ptr)].Pool? && old(maps)[Owner(ptr)].used != {ptr})
    {
      hide Core, Balance, Freed;
      if !initFlag || ptr == 0 { return; }
      var page, tag := GetPage(ptr);
      if Live(maps, ptr) { OwnerNotNull(Snap(), ptr); }
      if page == 0 { return; }
      LivePage(Snap(), ptr);
      CoreParts(Snap());
      PageReads(mem, Owner(ptr), maps[Owner(ptr)]);
      TagRoundTrip(MMAP_TYPE);
      if maps[Owner(ptr)].Pool? { TagRoundTrip(maps[Owner(ptr)].kind + MIN_TYPE); }
      var kind := tag / TWO_32;
      if kind == MMAP_TYPE {
        FreeDirect(ptr, page);
      } else if MIN_TYPE <= kind <= MAX_TYPE {
        MempoolFree(kind - MIN_TYPE, ptr);
      }
    }

    /** DfxFree's branch for direct mappings: unlist and unmap. */
    method FreeDirect(ptr: int, page: int)
      requires Inv(Snap()) && Live(maps, ptr) && page == Owner(ptr) && maps[page].Direct?
      modifies this`mem, this`pageList, this`maps, this`lists
      ensures Inv(Snap()) && Freed(old(Snap()), Snap(), ptr) && page !in maps
    {
      hide Core, Balance, SameAll, RegionOk, ListOk, OnlyLinks, SameElse, Freed;
      ghost var s := Snap();
      CoreParts(s);
      LivePage(s, ptr);
      PageReads(mem, page, maps[page]);
      ghost var k :| 0 <= k < |lists[DIRECT]| && lists[DIRECT][k] == page;
      UnlinkReady(s, DIRECT);
      var size := Read(page + SIZE);
      var head := RemovePage(pageList, page, lists[DIRECT], k);
      pageList := head;
      lists := lists[DIRECT := Without(lists[DIRECT], k)];
      ghost var t := Snap();
      UnlinkStep(s, t, DIRECT, k, head);
      mem := Unmap(mem, page, size);
      maps := maps - {page};
      ReleaseStep(s, Snap(), DIRECT, k, t, ptr);
      FreedPage(s, t, Snap(), Snap(), ptr);
      ShrinkBalance(s, Snap(), DIRECT, k);
    }

    /** DfxRealloc: grows by moving; otherwise, and when no larger chunk is to be had, keeps the chunk. */
    method DfxRealloc(ptr: int, size: nat, os: int) returns (res: int)
      requires Valid() && size < TWO_64 && (ptr == 0 || Live(maps, ptr) || Untagged(mem, ptr))
      modifies this
      ensures Valid() && initFlag
      ensures ptr == 0 ==> (res == 0 <==> Refused(old(Snap()), size, os))
      ensures ptr == 0 ==>
        if res == 0 then mem == old(mem) && maps == old(maps) else Issued(old(Snap()), Snap(), res, Capacity(size))
      ensures ptr != 0 && (size == 0 || !Live(old(maps), ptr)) ==> res == 0 && mem == old(mem) && maps == old(maps)
      ensures ptr != 0 && size > 0 && Live(old(maps), ptr) ==>
        (res != ptr <==> ChunkSize(old(maps), ptr) < size && !Refused(old(Snap()), size, os))
      ensures ptr != 0 && res == ptr ==> mem == old(mem) && maps == old(maps)
      ensures ptr != 0 && size > 0 && Live(old(maps), ptr) && res != ptr ==> Moved(old(Snap()), Snap(), ptr, res, Capacity(size))
    {
      hide Core, Balance, Issued, Freed, SameElse, Moved, Refused;
      ghost var before := Snap();
      if !initFlag { InitDfxAllocator(); }
      ghost var s0 := Snap();
      if ptr == 0 {
        res := DfxAlloc(size, os);
        RefusedView(before, s0, size, os);
        if res != 0 { IssuedView(s0, before, Snap(), res, Capacity(size)); }
        return;
      }
      if size == 0 { return 0; }
      var oldsize := GetChunkSize(ptr);
      if oldsize == 0 { return 0; }
      res := ptr;
      if oldsize < size {
        ghost var s := Snap();
        var bigger := DfxAlloc(size, os);
        if bigger != 0 {
          ghost var t := Snap();
          CapacityIsLeast(size);
          IssuedLive(s, t, bigger, Capacity(size), ptr);
          CopyStep(t, ptr, bigger, oldsize);
          mem := Copy(mem, bigger, ptr, oldsize);
          ghost var u := Snap();
          DfxFree(ptr);
          MoveSteps(s, t, u, Snap(), ptr, bigger, Capacity(size));
          res := bigger;
          MovedApart(s, Snap(), ptr, res, Capacity(size));
        }
      }
    }
  }
}
