/** Resizing, whole runs of the table, and what holds after every one of them. */
module StackTableRuns {
  import opened Common
  import opened StackTableModel
  import opened StackTablePuts

  function EmptySlots(n: nat): (s: seq<Node>)
    ensures |s| == n && forall i :: 0 <= i < n ==> s[i] == EMPTY
  {
    Repeat(EMPTY, n)
  }

  // ---- Init and Resize ----

  function InitGeometry(tableSize: nat): Geometry {
    var total := EvenNodes(tableSize);
    Geometry(tableSize, total, total, if total == 0 then 0 else total - 1, 1,
             StepOf(total, INIT_DECONFLICT), INIT_DECONFLICT)
  }

  /** Init: a zeroed table, or nothing when it would be empty, too large or unmappable. */
  function InitTable(tableSize: nat, mmapOk: bool): Option<Table> {
    var total := EvenNodes(tableSize);
    if total > MAX_NODES || total == 0 || !mmapOk then None
    else Some(Table(EmptySlots(tableSize / NODE_SIZE), InitGeometry(tableSize)))
  }

  function ResizedGeometry(g: Geometry): Geometry {
    var size := g.tableSize * 4;
    var total := EvenNodes(size);
    var available := if total < g.totalNodes then 0 else total - g.totalNodes;
    var tries := g.deconflictTimes + DECONFLICT_STEP;
    Geometry(size, total, available, if available == 0 then 0 else available - 1,
             g.availableIndex + g.availableNodes, StepOf(available, tries), tries)
  }

  /** Resize: a larger zeroed table starting with the old one, or no change. */
  function ResizeTable(t: Table, mmapOk: bool): (bool, Table) {
    var g := ResizedGeometry(t.geo);
    if t.geo.totalNodes * 4 > MAX_NODES || !mmapOk || g.availableNodes == 0 then (false, t)
    else (true, Table(t.slots + EmptySlots(if g.tableSize / NODE_SIZE < |t.slots| then 0 else g.tableSize / NODE_SIZE - |t.slots|), g))
  }

  lemma InitShape(tableSize: nat)
    requires 2 <= EvenNodes(tableSize) <= MAX_NODES
    ensures Shape(InitGeometry(tableSize))
  {
    DivTimes(EvenNodes(tableSize), INIT_DECONFLICT * 2 + 1);
    assert Pow4(0) == 1;
  }

  lemma InitInv(tableSize: nat, mmapOk: bool)
    requires InitTable(tableSize, mmapOk).Some?
    ensures TableInv(InitTable(tableSize, mmapOk).value)
  {
    InitShape(tableSize);
  }

  /** A sound table is resized exactly when the kernel gives the room and it has at most an eighth of 2^26
      nodes, and then to four times the size. */
  lemma ResizeSucceeds(t: Table, mmapOk: bool)
    requires Sound(t)
    ensures ResizeTable(t, mmapOk).0 <==> mmapOk && t.geo.totalNodes <= 0x80_0000
    ensures ResizeTable(t, mmapOk).0 ==>
      var u := ResizeTable(t, mmapOk).1;
      && u.geo.tableSize == 4 * t.geo.tableSize && |u.slots| == 4 * t.geo.tableSize / 8
      && u.geo.totalNodes == 4 * t.geo.tableSize / 16 * 2 && u.geo.availableIndex == t.geo.totalNodes + 1
      && u.geo.deconflictTimes == t.geo.deconflictTimes + 3 && u.geo.hashStep == StepOf(u.geo.availableNodes, u.geo.deconflictTimes)
    ensures !ResizeTable(t, mmapOk).0 ==> ResizeTable(t, mmapOk).1 == t
  {
    hide EvenNodes;
    EvenQuadruple(t.geo.tableSize);
    EvenNodesIs(t.geo.tableSize);
    EvenNodesIs(t.geo.tableSize * 4);
  }

  /** Init sets up a table exactly for sizes of 16 bytes up to, and a little above, 256 megabytes. */
  lemma InitSucceeds(size: nat)
    ensures InitTable(size, true).Some? <==> 16 <= size < 0x1000_0010
    ensures InitTable(size, false).None?
    ensures 16 <= size < 0x1000_0010 ==>
      var t := InitTable(size, true).value;
      && t.geo.tableSize == size && t.geo.totalNodes == size / 16 * 2 && t.geo.availableIndex == 1 && t.geo.deconflictTimes == 22
      && |t.slots| == size / 8 && forall i :: 0 <= i < |t.slots| ==> t.slots[i] == EMPTY
  {
    hide EvenNodes;
    EvenNodesIs(size);
  }

  /** Quadrupling the bytes quadruples the slots, up to rounding. */
  lemma EvenQuadruple(size: nat)
    ensures 4 * EvenNodes(size) <= EvenNodes(size * 4) <= 4 * EvenNodes(size) + 6
  {
    hide EvenNodes;
    EvenNodesIs(size);
    EvenNodesIs(size * 4);
    var q, r := size / 16, size % 16;
    QuotientIs(size * 4, 4 * q + r / 4, 4 * (r % 4));
  }

  lemma QuotientIs(n: nat, q: nat, r: nat)
    requires n == 16 * q + r && r < 16
    ensures n / 16 == q
  {
  }

  /** When the slot indices of a resized table still fit their 25 bits: Resize tests the old node
      count, so tables whose size is no multiple of 16 can slip through just below the limit. */
  lemma ResizeFitsIndex(g: Geometry)
    requires g.totalNodes == EvenNodes(g.tableSize) && g.totalNodes * 4 <= MAX_NODES
    ensures ResizedGeometry(g).totalNodes <= MAX_NODES <==> g.tableSize < 0x400_0004
    ensures g.tableSize % 16 == 0 ==> g.tableSize < 0x400_0004
    ensures g.tableSize * 4 < 0x1_0000_0000
  {
    hide EvenNodes;
    EvenNodesIs(g.tableSize);
    EvenNodesIs(g.tableSize * 4);
  }

  lemma MoreTries(d: nat)
    ensures (d + DECONFLICT_STEP) / DECONFLICT_STEP == d / DECONFLICT_STEP + 1
    ensures Pow4((d + DECONFLICT_STEP) / DECONFLICT_STEP) == 4 * Pow4(d / DECONFLICT_STEP)
  {
  }

  lemma ResizeShape(g: Geometry)
    requires Shape(g) && g.totalNodes * 4 <= MAX_NODES && g.tableSize < 0x400_0004
    ensures Shape(ResizedGeometry(g)) && ResizedGeometry(g).availableIndex == g.totalNodes + 1
    ensures ResizedGeometry(g).totalNodes > g.totalNodes
  {
    hide EvenNodes;
    var g' := ResizedGeometry(g);
    ResizeFitsIndex(g);
    EvenQuadruple(g.tableSize);
    MoreTries(g.deconflictTimes - INIT_DECONFLICT);
  }

  lemma ResizeInv(t: Table, mmapOk: bool)
    requires Sound(t) && t.geo.tableSize < 0x400_0004
    ensures Sound(ResizeTable(t, mmapOk).1)
    ensures (ResizeTable(t, mmapOk).0 || TableInv(t) ==> TableInv(ResizeTable(t, mmapOk).1))
    ensures Extends(t.slots, ResizeTable(t, mmapOk).1.slots)
    ensures forall i :: |t.slots| <= i < |ResizeTable(t, mmapOk).1.slots| ==> ResizeTable(t, mmapOk).1.slots[i] == EMPTY
  {
    var (ok, t') := ResizeTable(t, mmapOk);
    if ok {
      ResizeShape(t.geo);
      forall i | 0 <= i < |t'.slots| && t'.slots[i] != EMPTY
        ensures FilledOk(t', i) && !InRegion(t'.geo, i)
      {
        assert i < |t.slots| && t'.slots[i] == t.slots[i];
        assert FilledOk(t, i);
      }
    }
  }

  // ---- An external buffer for the profiler ----

  const MEGABYTE := 0x10_0000
  const BUFFER_LIMIT := 0x8_0000_0000     // sizes whose node count fits 32 bits

  /** The sizes of a buffer that InitWithExternalBuffer takes. */
  predicate Accepts(size: nat) { 0 < EvenNodes(size) <= MAX_NODES }

  /** The integer part of the binary logarithm. */
  function Log2(n: nat): nat
    requires n >= 1
  {
    if n == 1 then 0 else 1 + Log2(n / 2)
  }

  function Two(k: nat): nat { if k == 0 then 1 else 2 * Two(k - 1) }

  lemma {:induction false} Log2Below(n: nat, k: nat)
    requires 1 <= n < Two(k)
    ensures Log2(n) < k
  {
    if n > 1 { Log2Below(n / 2, k - 1); }
  }

  /** Three more tries per doubling beyond a megabyte: the integer part of 3 log2(size / MEGABYTE). */
  function ExternalTries(size: nat): nat {
    if size <= MEGABYTE then INIT_DECONFLICT
    else var n := size / MEGABYTE; INIT_DECONFLICT + Log2(n * n * n)
  }

  function ExternalGeometry(size: nat): Geometry {
    var total, tries := EvenNodes(size), ExternalTries(size);
    Geometry(size, total, total, if total == 0 then 0 else total - 1, 1, StepOf(total, tries), tries)
  }

  lemma CubeBelow(n: nat)
    requires 1 <= n <= 256
    ensures 1 <= n * n * n < Two(25)
  {
    TimesMonotone(n, 256, n);
    TimesMonotone(n * n, 256 * 256, n);
    TimesMonotone(1, n, n);
    TimesMonotone(1, n * n, n);
    assert Two(5) == 32 && Two(10) == 32 * 32 && Two(15) == 32 * 32 * 32;
    assert Two(20) == 32 * Two(15) && Two(25) == 32 * Two(20);
  }

  lemma {:induction false} Log2Is(n: nat)
    requires n >= 1
    ensures Two(Log2(n)) <= n < Two(Log2(n) + 1)
  {
    if n > 1 { Log2Is(n / 2); }
  }

  /** The tries for a buffer of more than a megabyte: 22 and the integer part of three times the binary
      logarithm of its megabytes. */
  lemma ExternalTriesIs(size: nat)
    ensures size <= MEGABYTE ==> ExternalTries(size) == 22
    ensures size > MEGABYTE ==>
      var n, k := size / 0x10_0000, ExternalTries(size) - 22; k >= 0 && Two(k) <= n * n * n < Two(k + 1)
  {
    if size > MEGABYTE {
      var n := size / MEGABYTE;
      TimesMonotone(1, n, n);
      TimesMonotone(1, n * n, n);
      Log2Is(n * n * n);
    }
  }

  lemma ExternalTriesFit(size: nat)
    requires size / 16 * 2 <= MAX_NODES
    ensures INIT_DECONFLICT <= ExternalTries(size) <= INIT_DECONFLICT + 24
    ensures size <= MEGABYTE ==> ExternalTries(size) == INIT_DECONFLICT
  {
    if size > MEGABYTE {
      var n := size / MEGABYTE;
      CubeBelow(n);
      Log2Below(n * n * n, 25);
    }
  }

  /** The size limit on the tries: a table over a megabyte has room for eight quadruplings. */
  lemma ExternalRoom(size: nat, tries: nat)
    requires 2 <= size / 16 * 2 && INIT_DECONFLICT <= tries <= INIT_DECONFLICT + 24
    requires size <= MEGABYTE ==> tries == INIT_DECONFLICT
    ensures 2 * Pow4((tries - INIT_DECONFLICT) / DECONFLICT_STEP) <= size / 16 * 2
  {
    var k := (tries - INIT_DECONFLICT) / DECONFLICT_STEP;
    if size > MEGABYTE {
      Pow4Monotone(k, 8);
      assert Pow4(4) == 256 && Pow4(8) == 0x1_0000;
      assert size / 16 >= 0x1_0000;
    } else {
      assert Pow4(k) == 1;
    }
  }

  lemma ExternalShape(size: nat)
    requires 2 <= EvenNodes(size) <= MAX_NODES
    ensures Shape(ExternalGeometry(size))
  {
    hide EvenNodes, ExternalTries, Pow4, StepOf;
    EvenNodesIs(size);
    ExternalTriesFit(size);
    ExternalRoom(size, ExternalTries(size));
    StepFits(EvenNodes(size), ExternalTries(size));
  }

  lemma StepFits(available: nat, tries: nat)
    ensures StepOf(available, tries) * (tries * 2 + 1) <= available
  {
    DivTimes(available, tries * 2 + 1);
  }

  lemma ExternalInv(size: nat, slots: seq<Node>)
    requires Accepts(size) && slots == EmptySlots(size / NODE_SIZE)
    ensures TableInv(Table(slots, ExternalGeometry(size)))
  {
    ExternalShape(size);
  }

  /** What switching back restores: everything but the number of tries, which starts over. */
  function Restored(g: Geometry): Geometry { g.(deconflictTimes := INIT_DECONFLICT) }

  /** Probes stay in the region and decoding is as before. */
  lemma RestoredSound(t: Table)
    requires Sound(t)
    ensures Sound(Table(t.slots, Restored(t.geo)))
    ensures Restored(t.geo) == t.geo && TableInv(t) ==> TableInv(Table(t.slots, Restored(t.geo)))
  {
    hide EvenNodes;
    var d, u := t.geo.deconflictTimes, Table(t.slots, Restored(t.geo));
    TimesMonotone(INIT_DECONFLICT * 2 + 1, d * 2 + 1, t.geo.hashStep);
    assert t.geo.hashStep * (d * 2 + 1) == (d * 2 + 1) * t.geo.hashStep;
    assert Pow4((u.geo.deconflictTimes - INIT_DECONFLICT) / DECONFLICT_STEP) == 1;
    forall i | 0 <= i < |u.slots| && u.slots[i] != EMPTY ensures FilledOk(u, i) { assert FilledOk(t, i); }
  }

  lemma {:induction false} RestoredDecodes(t: Table, id: nat, nr: nat)
    requires t.geo.totalNodes <= |t.slots|
    ensures Decode(Table(t.slots, Restored(t.geo)), id, nr) == Decode(t, id, nr)
    decreases nr
  {
    if nr > 0 && id < t.geo.totalNodes && t.slots[id].prev != 0 { RestoredDecodes(t, t.slots[id].prev, nr - 1); }
  }

  /** A table of one megabyte that was resized once comes back with 22 tries instead of 25. */
  lemma RestoredDiffers()
    ensures var g := Resized(InitGeometry(MEGABYTE), 1); g.deconflictTimes == 25 && Restored(g) != g && g.hashStep == 7710
    ensures var g := Resized(InitGeometry(MEGABYTE), 1);
      Next(g, g.availableIndex, 24) == 316_114 && Next(Restored(g), g.availableIndex, 21) == 292_984
  {
    var g := Resized(InitGeometry(MEGABYTE), 1);
    assert Resized(InitGeometry(MEGABYTE), 0) == InitGeometry(MEGABYTE);
    assert g == ResizedGeometry(InitGeometry(MEGABYTE));
  }

  /** A table of 0x4000004 bytes passes the size test of Resize and gets two nodes too many. */
  lemma ResizeOverflows()
    ensures var g := InitGeometry(0x400_0004);
      g.totalNodes * 4 <= MAX_NODES && ResizedGeometry(g).totalNodes == 0x200_0002 > MAX_NODES
  {
  }

  /** Switching to a buffer and back restores the table exactly while it was never resized. */
  lemma RestoredExactly(g: Geometry, tableSize: nat, resizes: nat)
    requires g == Resized(InitGeometry(tableSize), resizes)
    ensures Restored(g) == g <==> resizes == 0
  {
    ResizedTries(InitGeometry(tableSize), resizes);
  }

  function Resized(g: Geometry, times: nat): Geometry {
    if times == 0 then g else ResizedGeometry(Resized(g, times - 1))
  }

  lemma {:induction false} ResizedTries(g: Geometry, times: nat)
    ensures Resized(g, times).deconflictTimes == g.deconflictTimes + DECONFLICT_STEP * times
  {
    if times > 0 { ResizedTries(g, times - 1); }
  }

  /** Otherwise the second slot tried for a node is another one than before, exactly when the table is
      large enough for a step. */
  lemma RestoredProbesElsewhere(g: Geometry, cur: nat)
    requires Shape(g) && InRegion(g, cur) && g.deconflictTimes > INIT_DECONFLICT
    ensures Next(Restored(g), cur, INIT_DECONFLICT - 1) != Next(g, cur, g.deconflictTimes - 1) <==> g.hashStep > 0
  {
    hide EvenNodes, Pow4;
    var d := g.deconflictTimes;
    StepBound(g.hashStep, d - 1, d, g.availableNodes);
    if g.hashStep > 0 { StepBound2(g.hashStep, INIT_DECONFLICT - 1, d - 1); }
  }

  lemma StepBound2(step: nat, a: nat, b: nat)
    requires a < b && step > 0
    ensures 0 <= a * step < b * step
  {
    TimesMonotone(a + 1, b, step);
    assert (a + 1) * step == a * step + step;
  }

  // ---- Runs ----

  predicate NoneActive(s: Sys) { forall tid :: tid in s.puts ==> !Active(s.puts[tid]) }

  /** Resize takes the lock exclusively, Puts hold it shared until they return. */
  predicate Enabled(s: Sys, a: Action) {
    match a
    case Begin(tid, pcs) => tid !in s.puts && FitsPc(pcs)
    case Advance(tid) => tid in s.puts && StepReady(s.table, s.puts[tid])
    case Grow(_) => NoneActive(s) && s.table.geo.tableSize < 0x400_0004
  }

  function After(s: Sys, a: Action): Sys
    requires Enabled(s, a)
  {
    match a
    case Begin(tid, pcs) => s.(puts := s.puts[tid := Put(pcs, |pcs|, 0, Picking, s.epoch)])
    case Advance(tid) =>
      var (t', p') := StepPut(s.table, s.puts[tid]);
      Sys(t', s.puts[tid := p'], s.epoch,
          if Fills(s.table, s.puts[tid]) then s.log + [p'.prev] else s.log)
    case Grow(mmapOk) =>
      var (ok, t') := ResizeTable(s.table, mmapOk);
      if ok then s.(table := t', epoch := s.epoch + 1) else s
  }

  lemma BeginKeeps(s: Sys, a: Action)
    requires SysInv(s) && a.Begin? && Enabled(s, a)
    ensures SysInv(After(s, a))
  {
    assert a.pcs[|a.pcs|..] == [];
  }

  lemma AdvanceKeeps(s: Sys, a: Action)
    requires SysInv(s) && a.Advance? && Enabled(s, a)
    ensures SysInv(After(s, a)) && Grows(s.table, After(s, a).table)
  {
    hide PutInv, LogInv, StepPut, Shape, Extends, Settled, FilledOk;
    var t, p := s.table, s.puts[a.tid];
    var s' := After(s, a);
    StepGrows(t, p, s.epoch);
    StepKeepsPut(t, p, s.epoch);
    AdvanceTable(s, a.tid);
    forall tid | tid in s'.puts
      ensures PutInv(s'.table, s'.puts[tid], s'.epoch)
    {
      if tid != a.tid { OtherKeepsPut(t, s'.table, s.puts[tid], s.epoch); }
    }
  }

  lemma AdvanceTable(s: Sys, tid: nat)
    requires SysInv(s) && tid in s.puts && StepReady(s.table, s.puts[tid])
    ensures var s' := After(s, Advance(tid)); TableInv(s'.table) && LogInv(s'.table.slots, s'.log)
  {
    hide PutInv, LogInv, Extends;
    var t, p := s.table, s.puts[tid];
    StepGrows(t, p, s.epoch);
    if Fills(t, p) {
      NodeOfPut(t, p, s.epoch);
      FillKeepsTable(t, p, s.epoch);
      FillKeepsLog(t.slots, s.log, p.phase.cur, Node(p.pcs[p.rev - 1], p.prev));
    }
  }

  lemma GrowKeeps(s: Sys, a: Action)
    requires SysInv(s) && a.Grow? && Enabled(s, a)
    ensures SysInv(After(s, a)) && Extends(s.table.slots, After(s, a).table.slots)
  {
    hide FilledOk, Settled, SettledStack;
    var s' := After(s, a);
    ResizeInv(s.table, a.mmapOk);
    assert LogInv(s'.table.slots, s'.log) by {
      forall k | 0 <= k < |s.log| ensures LogOk(s'.table.slots, s'.log, k) { assert LogOk(s.table.slots, s.log, k); }
    }
    forall tid | tid in s'.puts
      ensures PutInv(s'.table, s'.puts[tid], s'.epoch)
    {
      var p := s.puts[tid];
      assert PutInv(s.table, p, s.epoch) && !Active(p);
      if p.phase.id != 0 { StackAtStable(s.table.slots, s'.table.slots, p.phase.id, NonZero(p.pcs)); }
    }
  }

  /** Two Puts of one stack between the same resizes agree on the answer. */
  ghost predicate IdsInv(s: Sys) {
    forall a, b :: a in s.puts && b in s.puts && s.puts[a].phase.Done? && s.puts[b].phase.Done? &&
      s.puts[a].epoch == s.puts[b].epoch && NonZero(s.puts[a].pcs) == NonZero(s.puts[b].pcs)
      ==> s.puts[a].phase.id == s.puts[b].phase.id
  }

  /** A Put that returned a nonzero id. */
  predicate Stored(p: Put) { p.phase.Done? && p.phase.id != 0 }

  lemma IdsKept(s: Sys, a: Action)
    requires SysInv(s) && IdsInv(s) && Enabled(s, a) && SysInv(After(s, a))
    ensures IdsInv(After(s, a))
  {
    hide Hash, Extends, FilledOk, LogInv, StepPut, TableInv, PutInv;
    var s' := After(s, a);
    forall x, y | x in s'.puts && y in s'.puts && s'.puts[x].phase.Done? && s'.puts[y].phase.Done? &&
      s'.puts[x].epoch == s'.puts[y].epoch && NonZero(s'.puts[x].pcs) == NonZero(s'.puts[y].pcs)
      ensures s'.puts[x].phase.id == s'.puts[y].phase.id
    {
      DoneBefore(s, a, x);
      DoneBefore(s, a, y);
      if x !in s.puts || y !in s.puts || s.puts[x] != s'.puts[x] || s.puts[y] != s'.puts[y] {
        SameEpochSameId(s', x, y);
      }
    }
  }

  lemma DoneBefore(s: Sys, a: Action, x: nat)
    requires SysInv(s) && Enabled(s, a) && x in After(s, a).puts && After(s, a).puts[x].phase.Done?
    ensures x in s.puts && (s.puts[x] == After(s, a).puts[x] || After(s, a).puts[x].epoch == After(s, a).epoch)
  {
    assert x in s.puts;
    assert PutInv(s.table, s.puts[x], s.epoch);
  }

  lemma SameEpochSameId(s: Sys, x: nat, y: nat)
    requires SysInv(s) && x in s.puts && y in s.puts && s.puts[x].phase.Done? && s.puts[y].phase.Done?
    requires s.puts[x].epoch == s.puts[y].epoch == s.epoch && NonZero(s.puts[x].pcs) == NonZero(s.puts[y].pcs)
    ensures s.puts[x].phase.id == s.puts[y].phase.id
  {
    hide TableInv, StuckAt, SettledStack, NonZero;
    var p, q := s.puts[x], s.puts[y];
    InvSound(s.table);
    assert PutInv(s.table, p, s.epoch) && PutInv(s.table, q, s.epoch);
    if p.phase.id != 0 && q.phase.id != 0 {
      SettledStackUnique(s.table, p.phase.id, q.phase.id, NonZero(p.pcs));
    } else if p.phase.id != 0 {
      SettledNotStuck(s.table, p.phase.id, q.pcs, q.rev, q.prev);
    } else if q.phase.id != 0 {
      SettledNotStuck(s.table, q.phase.id, p.pcs, p.rev, p.prev);
    }
  }

  /** No Put of a stored stack can run out of tries. */
  lemma SettledNotStuck(t: Table, id: nat, pcs: seq<nat>, rev: nat, prev: nat)
    requires Shape(t.geo) && t.geo.totalNodes <= |t.slots| && SettledStack(t, id, NonZero(pcs))
    ensures !StuckAt(t, pcs, rev, prev) && NonZero(pcs) != []
  {
    hide Hash, EvenNodes, Probe, Blocked, Settled, NonZero, Shape;
    if StuckAt(t, pcs, rev, prev) {
      var j := RePutSlot(t, id, pcs, rev, prev);
      SettledFound(t, pcs[rev - 1], prev, j, t.geo.deconflictTimes);
    }
  }

  lemma StepKeeps(s: Sys, a: Action)
    requires SysInv(s) && IdsInv(s) && Enabled(s, a)
    ensures SysInv(After(s, a)) && IdsInv(After(s, a)) && Extends(s.table.slots, After(s, a).table.slots)
    ensures forall x :: x in s.puts && s.puts[x].phase.Done? ==> x in After(s, a).puts && After(s, a).puts[x] == s.puts[x]
    ensures forall x :: x in s.puts ==>
      x in After(s, a).puts && After(s, a).puts[x].pcs == s.puts[x].pcs && After(s, a).puts[x].epoch == s.puts[x].epoch
    ensures a.Begin? ==> a.tid in After(s, a).puts && After(s, a).puts[a.tid].pcs == a.pcs && After(s, a).puts[a.tid].epoch == s.epoch
  {
    hide TableInv, PutInv, LogInv, IdsInv, Extends;
    match a {
      case Begin(_, _) => BeginKeeps(s, a); ExtendsItself(s.table.slots);
      case Advance(_) => AdvanceKeeps(s, a);
      case Grow(_) => GrowKeeps(s, a);
    }
    IdsKept(s, a);
  }

  lemma ExtendsItself(slots: seq<Node>)
    ensures Extends(slots, slots)
  {
  }

  /** Any Put may begin, an unfinished one may always take its next step, and a resize waits for all. */
  lemma AlwaysEnabled(s: Sys, tid: nat, pcs: seq<nat>)
    requires SysInv(s)
    ensures tid in s.puts ==> Enabled(s, Advance(tid))
    ensures tid !in s.puts && (forall i :: 0 <= i < |pcs| ==> pcs[i] < 0x80_0000_0000) ==> Enabled(s, Begin(tid, pcs))
    ensures (forall x :: x in s.puts ==> s.puts[x].phase.Done?) && s.table.geo.tableSize < 0x400_0004 ==> Enabled(s, Grow(true))
  {
    if tid in s.puts { StepGrows(s.table, s.puts[tid], s.epoch); }
  }

  // ---- Whole runs ----

  ghost predicate Initial(s: Sys) {
    exists size :: InitTable(size, true).Some? && s == Sys(InitTable(size, true).value, map[], 0, [])
  }

  ghost predicate ValidRun(s: Sys, acts: seq<Action>)
    decreases |acts|
  {
    acts == [] || (Enabled(s, acts[0]) && ValidRun(After(s, acts[0]), acts[1..]))
  }

  ghost function Exec(s: Sys, acts: seq<Action>): Sys
    requires ValidRun(s, acts)
    decreases |acts|
  {
    if acts == [] then s else Exec(After(s, acts[0]), acts[1..])
  }

  lemma InitialInv(s: Sys)
    requires Initial(s)
    ensures SysInv(s) && IdsInv(s)
  {
    var size :| InitTable(size, true).Some? && s == Sys(InitTable(size, true).value, map[], 0, []);
    InitInv(size, true);
  }

  /** Over any run: nothing filled is ever overwritten and no finished Put changes. */
  lemma {:induction false} RunKeeps(s: Sys, acts: seq<Action>)
    requires SysInv(s) && IdsInv(s) && ValidRun(s, acts)
    ensures SysInv(Exec(s, acts)) && IdsInv(Exec(s, acts)) && Extends(s.table.slots, Exec(s, acts).table.slots)
    ensures forall x :: x in s.puts && s.puts[x].phase.Done? ==>
      x in Exec(s, acts).puts && Exec(s, acts).puts[x] == s.puts[x]
    ensures forall x :: x in s.puts ==> x in Exec(s, acts).puts && Exec(s, acts).puts[x].pcs == s.puts[x].pcs
    decreases |acts|
  {
    hide SysInv, IdsInv, After, Enabled;
    if acts == [] {
      ExtendsItself(s.table.slots);
    } else {
      StepKeeps(s, acts[0]);
      RunKeeps(After(s, acts[0]), acts[1..]);
    }
  }

  /** A nonzero id decodes to exactly the stored stack, zero pcs removed, after any further
      interleaving of Puts and resizes. */
  lemma DecodeForever(s: Sys, acts: seq<Action>, tid: nat)
    requires SysInv(s) && IdsInv(s) && ValidRun(s, acts) && tid in s.puts && Stored(s.puts[tid])
    ensures Exec(s, acts).table.geo.totalNodes <= |Exec(s, acts).table.slots|
    ensures var p := s.puts[tid]; Decode(Exec(s, acts).table, p.phase.id, |p.pcs|) == NonZero(p.pcs)
  {
    RunKeeps(s, acts);
    var s', p := Exec(s, acts), s.puts[tid];
    assert s'.puts[tid] == p && PutInv(s'.table, p, s'.epoch);
    NonZeroLength(p.pcs);
    FilledBelow(s'.table);
    DecodeStack(s'.table, p.phase.id, NonZero(p.pcs), |p.pcs|);
  }

  lemma FilledBelow(t: Table)
    requires Sound(t)
    ensures forall i :: 0 <= i < |t.slots| && t.slots[i] != EMPTY ==> i < t.geo.totalNodes
  {
    forall i | 0 <= i < |t.slots| && t.slots[i] != EMPTY ensures i < t.geo.totalNodes { assert FilledOk(t, i); }
  }

  /** After every run from Init. */
  lemma RunsDecode(s: Sys, acts: seq<Action>, tid: nat)
    requires Initial(s) && ValidRun(s, acts) && tid in Exec(s, acts).puts && Stored(Exec(s, acts).puts[tid])
    ensures var s' := Exec(s, acts); var p := s'.puts[tid];
      s'.table.geo.totalNodes <= |s'.table.slots| && Decode(s'.table, p.phase.id, |p.pcs|) == NonZero(p.pcs)
  {
    InitialInv(s);
    RunKeeps(s, acts);
    assert ValidRun(Exec(s, acts), []);
    DecodeForever(Exec(s, acts), [], tid);
  }

  /** No two slots filled since the last resize hold the same node, however Puts interleave. */
  lemma RunsNeverDuplicate(s: Sys, acts: seq<Action>, i: nat, j: nat)
    requires Initial(s) && ValidRun(s, acts)
    requires var t := Exec(s, acts).table;
      i < |t.slots| && j < |t.slots| && InRegion(t.geo, i) && InRegion(t.geo, j) && t.slots[i] == t.slots[j] != EMPTY
    ensures i == j
  {
    InitialInv(s);
    RunKeeps(s, acts);
    var t := Exec(s, acts).table;
    SettledUnique(t, t.slots[i].pc, t.slots[i].prev, i, j);
  }

  /** Equal ids mean equal stacks, whenever they were stored; equal stacks put between the same resizes get
      the same answer, so a Put of a stored stack ends with its id. */
  lemma RunsIdentify(s: Sys, acts: seq<Action>, x: nat, y: nat)
    requires Initial(s) && ValidRun(s, acts) && x in Exec(s, acts).puts && y in Exec(s, acts).puts
    requires Exec(s, acts).puts[x].phase.Done? && Exec(s, acts).puts[y].phase.Done?
    ensures var p, q := Exec(s, acts).puts[x], Exec(s, acts).puts[y];
      && (p.phase.id == q.phase.id != 0 ==> NonZero(p.pcs) == NonZero(q.pcs))
      && (p.epoch == q.epoch && NonZero(p.pcs) == NonZero(q.pcs) ==> p.phase.id == q.phase.id)
  {
    InitialInv(s);
    RunKeeps(s, acts);
    var s' := Exec(s, acts);
    var p, q := s'.puts[x], s'.puts[y];
    assert PutInv(s'.table, p, s'.epoch) && PutInv(s'.table, q, s'.epoch);
    if p.phase.id == q.phase.id != 0 { StackAtUnique(s'.table.slots, p.phase.id, NonZero(p.pcs), NonZero(q.pcs)); }
  }

  /** A Put answers 0 only for a stack without pcs, or when every slot tried for one of its nodes, whose
      callers are stored, holds another node. */
  lemma RunsRefuse(s: Sys, acts: seq<Action>, tid: nat) returns (pc: nat)
    requires Initial(s) && ValidRun(s, acts) && tid in Exec(s, acts).puts
    requires var s' := Exec(s, acts); s'.puts[tid].phase == Done(0) && s'.puts[tid].epoch == s'.epoch
    requires exists k :: 0 <= k < |Exec(s, acts).puts[tid].pcs| && Exec(s, acts).puts[tid].pcs[k] != 0
    ensures var t, p := Exec(s, acts).table, Exec(s, acts).puts[tid];
      && Shape(t.geo) && t.geo.totalNodes <= |t.slots| && 0 < p.rev <= |p.pcs| && pc == p.pcs[p.rev - 1] != 0
      && (if p.prev == 0 then NonZero(p.pcs[p.rev..]) == [] else StackAt(t.slots, p.prev, NonZero(p.pcs[p.rev..])))
      && forall j: nat :: j < t.geo.deconflictTimes ==>
           t.slots[Probe(t.geo, pc, p.prev, j)] != EMPTY && t.slots[Probe(t.geo, pc, p.prev, j)] != Node(pc, p.prev)
  {
    hide SysInv, IdsInv, PutInv, Probe, StackAt, NonZero;
    InitialInv(s);
    RunKeeps(s, acts);
    var s' := Exec(s, acts);
    PutOf(s', tid);
    pc := Refusal(s'.table, s'.puts[tid], s'.epoch);
  }

  lemma PutOf(s: Sys, tid: nat)
    requires SysInv(s) && tid in s.puts
    ensures Shape(s.table.geo) && s.table.geo.totalNodes <= |s.table.slots| && PutInv(s.table, s.puts[tid], s.epoch)
  {
  }

  lemma Refusal(t: Table, p: Put, epoch: nat) returns (pc: nat)
    requires Shape(t.geo) && t.geo.totalNodes <= |t.slots| && PutInv(t, p, epoch) && p.phase == Done(0) && p.epoch == epoch
    requires exists k :: 0 <= k < |p.pcs| && p.pcs[k] != 0
    ensures 0 < p.rev <= |p.pcs| && pc == p.pcs[p.rev - 1] != 0
    ensures if p.prev == 0 then NonZero(p.pcs[p.rev..]) == [] else StackAt(t.slots, p.prev, NonZero(p.pcs[p.rev..]))
    ensures forall j: nat :: j < t.geo.deconflictTimes ==>
      t.slots[Probe(t.geo, pc, p.prev, j)] != EMPTY && t.slots[Probe(t.geo, pc, p.prev, j)] != Node(pc, p.prev)
  {
    hide Shape, Probe, SettledStack, StackAt, NonZero;
    AllZero(p.pcs);
    pc := p.pcs[p.rev - 1];
    if p.prev != 0 { SettledIsStackAt(t, p.prev, NonZero(p.pcs[p.rev..])); }
  }

  lemma AllZero(pcs: seq<nat>)
    ensures NonZero(pcs) == [] <==> forall i :: 0 <= i < |pcs| ==> pcs[i] == 0
  {
    hide NonZero;
    NonZeroIs(pcs);
    if NonZero(pcs) != [] { assert NonZero(pcs)[0] in NonZero(pcs); }
    forall i | 0 <= i < |pcs| && pcs[i] != 0 ensures pcs[i] in NonZero(pcs) {}
  }

  /** Exactly the nonzero pcs are kept. */
  lemma {:induction false} NonZeroIs(pcs: seq<nat>)
    ensures forall x :: x in NonZero(pcs) <==> x in pcs && x != 0
    ensures (forall i :: 0 <= i < |pcs| ==> pcs[i] != 0) ==> NonZero(pcs) == pcs
  {
    if pcs != [] {
      NonZeroIs(pcs[1..]);
      assert pcs == [pcs[0]] + pcs[1..];
    }
  }

  // ---- Putting a stored stack again ----

  lemma {:induction false} NonZeroAppend(a: seq<nat>, b: seq<nat>)
    ensures NonZero(a + b) == NonZero(a) + NonZero(b)
  {
    if a == [] {
      assert a + b == b;
    } else {
      assert (a + b)[1..] == a[1..] + b;
      NonZeroAppend(a[1..], b);
    }
  }

  /** The callers' part of a settled stack is settled as well. */
  lemma {:induction false} SettledSuffix(t: Table, id: nat, a: seq<nat>, b: seq<nat>) returns (j: nat)
    requires Shape(t.geo) && t.geo.totalNodes <= |t.slots| && b != [] && SettledStack(t, id, a + b)
    ensures SettledStack(t, j, b)
    decreases |a|
  {
    if a == [] {
      assert a + b == b;
      j := id;
    } else {
      assert (a + b)[1..] == a[1..] + b;
      j := SettledSuffix(t, t.slots[id].prev, a[1..], b);
    }
  }

  /** A try for a settled node finds it in time: never an empty slot, never out of tries. */
  lemma SettledFound(t: Table, pc: nat, prev: nat, i: nat, k: nat)
    requires Shape(t.geo) && t.geo.totalNodes <= |t.slots| && pc != 0
    requires Settled(t, pc, prev, i) && Blocked(t, pc, prev, k)
    ensures k < t.geo.deconflictTimes && t.slots[Probe(t.geo, pc, prev, k)] != EMPTY
  {
    var l: nat :| PlacedAt(t, pc, prev, i, l);
  }

  /** A Put of a stack stored since the last resize writes nothing and cannot fail. */
  lemma RePutWritesNothing(s: Sys, x: nat, y: nat)
    requires SysInv(s) && x in s.puts && y in s.puts && Stored(s.puts[x]) && s.puts[x].epoch == s.epoch
    requires NonZero(s.puts[y].pcs) == NonZero(s.puts[x].pcs)
    ensures StepReady(s.table, s.puts[y]) && StepPut(s.table, s.puts[y]).0 == s.table
    ensures s.puts[y].phase.Probing? ==> s.puts[y].phase.left > 0
  {
    var t, p, q := s.table, s.puts[x], s.puts[y];
    assert PutInv(t, p, s.epoch) && PutInv(t, q, s.epoch);
    StepGrows(t, q, s.epoch);
    if q.phase.Probing? { RePutFinds(t, p.phase.id, q, s.epoch); }
  }

  lemma RePutFinds(t: Table, id: nat, q: Put, epoch: nat)
    requires TableInv(t) && PutInv(t, q, epoch) && q.phase.Probing? && SettledStack(t, id, NonZero(q.pcs))
    ensures q.phase.left > 0 && t.slots[q.phase.cur] != EMPTY
  {
    hide Hash, EvenNodes, FilledOk, Probe, Blocked, Settled, SettledStack, NonZero, Shape;
    var j := RePutSlot(t, id, q.pcs, q.rev, q.prev);
    SettledFound(t, q.pcs[q.rev - 1], q.prev, j, t.geo.deconflictTimes - q.phase.left);
  }

  /** Where the node that a Put is about to place already is. */
  lemma RePutSlot(t: Table, id: nat, pcs: seq<nat>, rev: nat, prev: nat) returns (j: nat)
    requires Shape(t.geo) && t.geo.totalNodes <= |t.slots| && 0 < rev <= |pcs| && pcs[rev - 1] != 0
    requires Partial(t, pcs, rev, prev) && SettledStack(t, id, NonZero(pcs))
    ensures Settled(t, pcs[rev - 1], prev, j)
  {
    hide Hash, EvenNodes, Probe, Blocked, Settled, NonZero, Shape;
    var k := rev - 1;
    assert pcs == pcs[..k] + pcs[k..];
    NonZeroAppend(pcs[..k], pcs[k..]);
    NonZeroStep(pcs, rev);
    var stack, rest := NonZero(pcs[k..]), NonZero(pcs[rev..]);
    assert stack[0] == pcs[k] && stack[1..] == rest;
    j := SettledSuffix(t, id, NonZero(pcs[..k]), stack);
    if rest != [] { SettledStackUnique(t, t.slots[j].prev, prev, rest); }
  }

  // ---- Progress ----

  /** Own steps a Put can still take. */
  function Work(p: Put): nat {
    match p.phase
    case Done(_) => 0
    case Picking => 1 + 258 * p.rev
    case Probing(_, left) => 258 * (if p.rev == 0 then 0 else p.rev - 1) + 1 + left
  }

  /** Whatever the others do, each own step of an unfinished Put brings it closer to its end: a Put
      of n pcs returns within 258 n + 1 steps. */
  lemma PutProgress(t: Table, p: Put, epoch: nat)
    requires TableInv(t) && PutInv(t, p, epoch) && Active(p)
    ensures StepReady(t, p) && Work(StepPut(t, p).1) < Work(p) <= 258 * |p.pcs| + 1
  {
    TriesFit(t.geo);
  }

  // ---- Links ----

  /** Every filled slot heads a finite chain: the slot it links to was filled before it. */
  lemma {:induction false} LinksEnd(slots: seq<Node>, log: seq<nat>, k: nat) returns (stack: seq<nat>)
    requires LogInv(slots, log) && slots != [] && slots[0] == EMPTY && k < |log|
    ensures StackAt(slots, log[k], stack) && |stack| <= k + 1
    decreases k
  {
    assert LogOk(slots, log, k);
    var i := log[k];
    if slots[i].prev == 0 {
      stack := [slots[i].pc];
    } else {
      var j :| 0 <= j < k && log[j] == slots[i].prev;
      var rest := LinksEnd(slots, log, j);
      stack := [slots[i].pc] + rest;
      assert stack[1..] == rest;
    }
  }

  // ---- Pcs that do not fit ----

  /** What is decoded always fits 39 bits, so no stack with a wider pc is ever read back. */
  lemma {:induction false} DecodedFits(t: Table, id: nat, nr: nat)
    requires Sound(t)
    ensures forall i :: 0 <= i < |Decode(t, id, nr)| ==> Decode(t, id, nr)[i] < PC_LIMIT
    decreases nr
  {
    if nr > 0 && id < t.geo.totalNodes {
      assert t.slots[id] != EMPTY ==> FilledOk(t, id);
      if t.slots[id].prev != 0 { DecodedFits(t, t.slots[id].prev, nr - 1); }
    }
  }
}
