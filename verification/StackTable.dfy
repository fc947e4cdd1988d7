/** The table as the object the clients call; each method is one undisturbed execution of the
    steps that StackTablePuts interleaves. */
module StackTable {
  import opened Common
  import opened StackTableModel
  import opened StackTablePuts
  import opened StackTableRuns

  /** The table put aside while an external buffer is in use. */
  datatype Snapshot = Snapshot(mapped: bool, nodes: array<Node>, geo: Geometry)

  class UniqueStackTable {
    var mapped: bool
    var nodes: array<Node>
    var geo: Geometry
    var profilerInit: bool
    var snapshot: Option<Snapshot>

    ghost function View(): Table
      reads this, nodes
    {
      Table(nodes[..], geo)
    }

    ghost predicate Valid()
      reads this, nodes
    {
      if mapped then Sound(View()) else geo.deconflictTimes == INIT_DECONFLICT
    }

    /** Every node is where its tries find it: so until a resized table is put aside and taken back. */
    ghost predicate Exact()
      reads this, nodes
    {
      mapped ==> TableInv(View())
    }

    /** The table put aside is still sound; nothing written to the table in use touches it. */
    ghost predicate SnapshotOk()
      reads this, if snapshot.Some? then {snapshot.value.nodes} else {}
    {
      snapshot.Some? ==>
        var s := snapshot.value;
        if s.mapped then Sound(Table(s.nodes[..], s.geo)) else s.geo.deconflictTimes == INIT_DECONFLICT
    }

    constructor (size: nat)
      ensures Valid() && Exact() && !mapped && !profilerInit && geo.tableSize == size && snapshot == None
    {
      mapped, profilerInit, snapshot := false, false, None;
      geo := Geometry(size, 0, 0, 0, 1, 0, INIT_DECONFLICT);
      nodes := new Node[0];
    }

    method Init(mmapOk: bool) returns (ok: bool)
      requires Valid()
      modifies this
      ensures Valid() && geo.tableSize == old(geo.tableSize) && ok == mapped && snapshot == old(snapshot)
      ensures old(Exact()) ==> Exact()
      ensures old(mapped) ==> mapped && View() == old(View())
      ensures !old(mapped) && mapped ==> InitTable(geo.tableSize, mmapOk) == Some(View()) && fresh(nodes)
      ensures !old(mapped) && !mapped ==> InitTable(geo.tableSize, mmapOk) == None
    {
      if mapped { return true; }
      var total := EvenNodes(geo.tableSize);
      geo := geo.(availableIndex := 1, totalNodes := total);
      if total > MAX_NODES { return false; }
      geo := geo.(availableNodes := total);
      if total == 0 { return false; }
      geo := geo.(hashModulus := total - 1, hashStep := StepOf(total, geo.deconflictTimes));
      if !mmapOk { return false; }
      nodes := new Node[geo.tableSize / NODE_SIZE](_ => EMPTY);
      mapped := true;
      assert nodes[..] == EmptySlots(geo.tableSize / NODE_SIZE);
      InitInv(geo.tableSize, mmapOk);
      ok := true;
    }

    /** Resize; the one test it makes leaves the index width to the table size (ResizeFitsIndex). */
    method Resize(mmapOk: bool) returns (ok: bool)
      requires Valid()
      modifies this
      ensures mapped == old(mapped) && snapshot == old(snapshot)
      ensures old(geo.tableSize) < 0x400_0004 ==> Valid() && (ok || old(Exact()) ==> Exact())
      ensures !mapped ==> !ok
      ensures mapped ==> (ok, View()) == ResizeTable(old(View()), mmapOk)
    {
      hide Sound, TableInv, EvenNodes;
      if !mapped { return false; }
      if geo.totalNodes * 4 > MAX_NODES || !mmapOk { return false; }
      ghost var t := View();
      ResizeRoom(t);
      if geo.tableSize < 0x400_0004 { ResizeInv(t, true); }
      var size := geo.tableSize * 4;
      var count := size / NODE_SIZE;
      var total := EvenNodes(size);
      var bigger := new Node[count](i requires 0 <= i reads this, nodes => if i < nodes.Length then nodes[i] else EMPTY);
      var available := total - geo.totalNodes;
      var tries := geo.deconflictTimes + DECONFLICT_STEP;
      DivTimes(available, tries * 2 + 1);
      geo := Geometry(size, total, available, available - 1, geo.availableIndex + geo.availableNodes,
                      StepOf(available, tries), tries);
      nodes := bigger;
      assert nodes[..] == ResizeTable(t, true).1.slots;
      ok := true;
    }

    /** SwitchExternalBuffer: puts the table aside for a buffer, or takes it back. The buffer is zeroed, or
        as an earlier use of that size left it. A buffer of a refused size loses the table. */
    method SwitchExternalBuffer(buffer: array?<Node>, size: nat) returns (ok: bool)
      requires Valid() && size < BUFFER_LIMIT
      requires buffer != null && Accepts(size) ==> Sound(Table(buffer[..], ExternalGeometry(size)))
      modifies this
      ensures ok == if buffer == null then old(snapshot).Some? else old(snapshot).None? && Accepts(size)
      ensures !ok && (buffer == null || old(snapshot).Some?) ==>
        Valid() && View() == old(View()) && mapped == old(mapped) && nodes == old(nodes) && snapshot == old(snapshot)
      ensures !ok && buffer != null && old(snapshot).None? ==> Lost(size, old(geo.deconflictTimes))
      ensures ok && buffer != null ==>
        && Valid() && SnapshotOk() && mapped && profilerInit && nodes == buffer && geo == ExternalGeometry(size)
        && snapshot == Some(Snapshot(old(mapped), old(nodes), old(geo)))
        && (nodes[..] == EmptySlots(size / NODE_SIZE) ==> Exact())
      ensures ok && buffer == null ==>
        var s := old(snapshot).value;
        && mapped == s.mapped && nodes == s.nodes && geo == Restored(s.geo) && snapshot == None && !profilerInit
        && (old(SnapshotOk()) ==> Valid())
        && (s.mapped && old(TableInv(Table(s.nodes[..], s.geo))) && s.geo.deconflictTimes == INIT_DECONFLICT ==> Exact())
    {
      hide Sound, TableInv, EvenNodes, EmptySlots, Accepts, Lost;
      if buffer == null {
        if snapshot.None? { return false; }
        ghost var s := snapshot.value;
        if s.mapped && Sound(Table(s.nodes[..], s.geo)) { RestoredSound(Table(s.nodes[..], s.geo)); }
        mapped, nodes, geo := snapshot.value.mapped, snapshot.value.nodes, Restored(snapshot.value.geo);
        snapshot, profilerInit := None, false;
        return true;
      }
      ok := InitWithExternalBuffer(buffer, size);
    }

    /** What a refused buffer leaves: no table, and none put aside. */
    ghost predicate Lost(size: nat, tries: nat)
      reads this
    {
      !mapped && nodes.Length == 0 && snapshot == None && geo == Geometry(INITIAL_TABLE_SIZE, EvenNodes(size), 0, 0, 1, 0, tries)
    }

    method InitWithExternalBuffer(buffer: array<Node>, size: nat) returns (ok: bool)
      requires Valid() && size < BUFFER_LIMIT && (Accepts(size) ==> Sound(Table(buffer[..], ExternalGeometry(size))))
      modifies this
      ensures ok == (old(snapshot).None? && Accepts(size))
      ensures old(snapshot).Some? ==>
        Valid() && View() == old(View()) && mapped == old(mapped) && nodes == old(nodes) && snapshot == old(snapshot)
      ensures !ok && old(snapshot).None? ==> Lost(size, old(geo.deconflictTimes))
      ensures ok ==>
        && Valid() && SnapshotOk() && mapped && profilerInit && nodes == buffer && geo == ExternalGeometry(size)
        && snapshot == Some(Snapshot(old(mapped), old(nodes), old(geo)))
        && (nodes[..] == EmptySlots(size / NODE_SIZE) ==> Exact())
    {
      hide Sound, TableInv, ExternalTries, StepOf;
      if snapshot.Some? { return false; }
      snapshot := Some(Snapshot(mapped, nodes, geo));
      mapped, nodes := false, new Node[0];
      geo := Geometry(INITIAL_TABLE_SIZE, EvenNodes(size), 0, 0, 1, 0, geo.deconflictTimes);
      if geo.totalNodes > MAX_NODES {
        snapshot := None;
        return false;
      }
      geo := geo.(availableNodes := geo.totalNodes);
      if geo.availableNodes == 0 {
        snapshot := None;
        return false;
      }
      var total, tries := geo.totalNodes, ExternalTries(size);
      geo := Geometry(size, total, total, total - 1, 1, StepOf(total, tries), tries);
      mapped, nodes, profilerInit := true, buffer, true;
      if nodes[..] == EmptySlots(size / NODE_SIZE) { ExternalInv(size, nodes[..]); }
      ok := true;
    }

    /** PutPcInSlot: the node's settled slot, filling it when it is new; 0 exactly when every try
        hits another node. */
    method PutPcInSlot(pc: nat, prev: nat) returns (id: nat)
      requires Valid() && mapped && 0 < pc < PC_LIMIT && prev < geo.totalNodes
      modifies nodes
      ensures Valid() && Grows(old(View()), View()) && (old(Exact()) ==> Exact())
      ensures id == 0 ==> View() == old(View()) && Blocked(View(), pc, prev, geo.deconflictTimes)
      ensures id != 0 ==> id < geo.totalNodes && Settled(View(), pc, prev, id)
      ensures id != 0 ==> forall i :: 0 <= i < nodes.Length && i != id ==> nodes[i] == old(nodes[i])
      ensures id != 0 && old(nodes[id]) != EMPTY ==> View() == old(View())
    {
      hide Hash, Probe, Next, EvenNodes, FilledOk;
      ghost var t := View();
      var tries := geo.deconflictTimes;
      var cur: nat := Start(geo, pc, prev);
      var left: nat := tries % 256;
      TriesFit(geo);
      StartInRegion(geo, pc, prev);
      ProbeStart(geo, pc, prev);
      var node := MakeNode(pc, prev);
      MakeNodeFits(pc, prev);
      while left > 0
        invariant 0 <= left <= tries && View() == t && Blocked(t, pc, prev, tries - left)
        invariant left > 0 ==> cur == Probe(geo, pc, prev, tries - left)
        invariant InRegion(geo, cur)
        decreases left
      {
        left := left - 1;
        if nodes[cur] == EMPTY {
          nodes[cur] := node;
          FillSettles(t, View(), pc, prev, cur, tries - left - 1);
          return cur;
        }
        if nodes[cur] == node {
          assert PlacedAt(t, pc, prev, cur, tries - left - 1);
          return cur;
        }
        BlockedNext(t, pc, prev, tries - left - 1);
        NextInRegion(geo, cur, left);
        cur := Next(geo, cur, left);
      }
      id := 0;
    }

    /** PutPcsInTable: stores the stack from its outermost pc inwards. A stack already stored since
        the last Resize gets its old id and nothing is written. */
    method PutPcsInTable(pcs: seq<nat>) returns (id: nat)
      requires Valid() && FitsPc(pcs)
      modifies nodes
      ensures Valid() && (old(Exact()) ==> Exact())
      ensures !mapped ==> id == 0 && View() == old(View())
      ensures mapped ==> Grows(old(View()), View())
      ensures mapped && id != 0 ==> SettledStack(View(), id, NonZero(pcs)) && StackAt(nodes[..], id, NonZero(pcs))
      ensures mapped ==>
        (id == 0 <==> (forall i :: 0 <= i < |pcs| ==> pcs[i] == 0) || exists rev: nat, prev: nat :: StuckAt(View(), pcs, rev, prev))
      ensures mapped ==> forall x: nat :: SettledStack(old(View()), x, NonZero(pcs)) ==> id == x && View() == old(View())
    {
      hide Hash, Probe, EvenNodes, FilledOk, Settled, Shape, NonZero, StackAt, Blocked;
      if !mapped { return 0; }
      AllZero(pcs);
      ghost var t := View();
      var prev: nat, rev: nat := 0, |pcs|;
      ShapePositive(geo);
      assert pcs[|pcs|..] == [];
      NonZeroNone();
      GrowsItself(t);
      while rev > 0
        invariant 0 <= rev <= |pcs| && Valid() && Grows(t, View()) && (old(Exact()) ==> Exact())
        invariant if prev == 0 then NonZero(pcs[rev..]) == [] else SettledStack(View(), prev, NonZero(pcs[rev..]))
        invariant prev < geo.totalNodes
        invariant (exists x: nat :: SettledStack(t, x, NonZero(pcs))) ==> View() == t
      {
        rev := rev - 1;
        NonZeroStep(pcs, rev + 1);
        if pcs[rev] != 0 {
          ghost var u := View();
          ghost var rest := NonZero(pcs[rev + 1..]);
          var slot := PutPcInSlot(pcs[rev], prev);
          GrowsOn(t, u, View());
          AlreadyThere(t, u, View(), pcs, rev + 1, prev, slot);
          if slot == 0 {
            assert StuckAt(View(), pcs, rev + 1, prev);
            return 0;
          }
          if prev != 0 { SettledStackStable(u, View(), prev, rest); }
          PrependSettled(View(), pcs[rev], prev, slot, rest);
          prev := slot;
        } else {
          assert NonZero(pcs[rev..]) == NonZero(pcs[rev + 1..]);
        }
      }
      id := prev;
      assert pcs[0..] == pcs;
      if id != 0 {
        SettledIsStackAt(View(), id, NonZero(pcs));
        forall rev: nat, prev: nat ensures !StuckAt(View(), pcs, rev, prev) { SettledNotStuck(View(), id, pcs, rev, prev); }
      }
      forall x: nat | SettledStack(t, x, NonZero(pcs))
        ensures id == x && View() == t
      {
        SettledIsSome(t, x, NonZero(pcs));
        SettledStackUnique(t, id, x, NonZero(pcs));
      }
    }

    /** GetPcsByStackId: appends the decoded frames, or refuses. */
    method GetPcsByStackId(id: nat, nr: nat, pcs: seq<nat>) returns (ok: bool, out: seq<nat>)
      requires Valid()
      ensures ok <==> mapped && !profilerInit && nr <= MAX_PCS
      ensures ok ==> nodes.Length >= geo.totalNodes && out == pcs + Decode(View(), id, nr)
      ensures !ok ==> out == pcs
    {
      hide Shape, Settled, FilledOk, Decode;
      out := pcs;
      if profilerInit || !mapped || nr > MAX_PCS { return false, out; }
      ok := true;
      ghost var t, got := View(), [];
      var left: nat, cur: nat := nr, id;
      var more := cur < geo.totalNodes;
      DecodeEnds(t, cur, left);
      while left > 0 && more
        invariant 0 <= left <= nr && (more ==> cur < geo.totalNodes) && out == pcs + got
        invariant Decode(t, id, nr) == got + if more then Decode(t, cur, left) else []
        decreases left
      {
        DecodeNext(t, cur, left, got);
        left := left - 1;
        out, got := out + [nodes[cur].pc], got + [nodes[cur].pc];
        if nodes[cur].prev == 0 { break; }
        cur := nodes[cur].prev;
        more := cur < geo.totalNodes;
        DecodeEnds(t, cur, left);
      }
      DecodeEnds(t, cur, 0);
    }
  }

  /** There is always room for a new region. */
  lemma ResizeRoom(t: Table)
    requires Sound(t)
    ensures |t.slots| == t.geo.tableSize / NODE_SIZE <= t.geo.tableSize * 4 / NODE_SIZE
    ensures EvenNodes(t.geo.tableSize * 4) > t.geo.totalNodes
  {
    EvenQuadruple(t.geo.tableSize);
  }

  lemma ProbeStart(g: Geometry, pc: nat, prev: nat)
    requires Shape(g)
    ensures Probe(g, pc, prev, 0) == Start(g, pc, prev)
  {
  }

  lemma DecodeNext(t: Table, cur: nat, left: nat, got: seq<nat>)
    requires t.geo.totalNodes <= |t.slots| && left > 0 && cur < t.geo.totalNodes
    ensures got + Decode(t, cur, left) == got + [t.slots[cur].pc] +
      if t.slots[cur].prev == 0 then [] else Decode(t, t.slots[cur].prev, left - 1)
  {
  }

  lemma DecodeEnds(t: Table, cur: nat, left: nat)
    requires t.geo.totalNodes <= |t.slots|
    ensures left == 0 || cur >= t.geo.totalNodes ==> Decode(t, cur, left) == []
  {
  }

  lemma ShapePositive(g: Geometry)
    requires Shape(g)
    ensures g.totalNodes >= 2
  {
  }

  lemma NonZeroNone()
    ensures NonZero([]) == []
  {
  }

  lemma GrowsItself(t: Table)
    ensures Grows(t, t)
  {
  }

  lemma GrowsOn(t: Table, u: Table, v: Table)
    requires Grows(t, u) && Grows(u, v)
    ensures Grows(t, v)
  {
  }

  lemma PrependSettled(t: Table, pc: nat, prev: nat, i: nat, rest: seq<nat>)
    requires Shape(t.geo) && t.geo.totalNodes <= |t.slots| && pc != 0 && Settled(t, pc, prev, i)
    requires if prev == 0 then rest == [] else SettledStack(t, prev, rest)
    ensures i != 0 && SettledStack(t, i, [pc] + rest)
  {
    var k: nat :| PlacedAt(t, pc, prev, i, k);
    Prepend(t, pc, prev, i, k, rest);
  }

  lemma SettledIsSome(t: Table, x: nat, stack: seq<nat>)
    requires Shape(t.geo) && t.geo.totalNodes <= |t.slots| && SettledStack(t, x, stack)
    ensures stack != []
  {
  }

  /** When the whole stack is settled, the next node is found where it is. */
  lemma AlreadyThere(t: Table, u: Table, v: Table, pcs: seq<nat>, rev: nat, prev: nat, slot: nat)
    requires Sound(t) && 0 < rev <= |pcs| && pcs[rev - 1] != 0
    requires (exists x: nat :: SettledStack(t, x, NonZero(pcs))) ==> u == t
    requires Shape(u.geo) && u.geo.totalNodes <= |u.slots| && Grows(u, v)
    requires if prev == 0 then NonZero(pcs[rev..]) == [] else SettledStack(u, prev, NonZero(pcs[rev..]))
    requires slot == 0 ==> Blocked(u, pcs[rev - 1], prev, u.geo.deconflictTimes)
    requires slot != 0 ==> slot < |u.slots| && Settled(v, pcs[rev - 1], prev, slot) && (u.slots[slot] != EMPTY ==> v == u)
    ensures (exists x: nat :: SettledStack(t, x, NonZero(pcs))) ==> v == t && slot != 0
  {
    hide Hash, EvenNodes, FilledOk, Probe, Blocked, Settled, SettledStack, NonZero;
    if x: nat :| SettledStack(t, x, NonZero(pcs)) {
      var j := RePutSlot(t, x, pcs, rev, prev);
      if slot == 0 {
        SettledFound(t, pcs[rev - 1], prev, j, t.geo.deconflictTimes);
      } else {
        SettledStable(t, v, pcs[rev - 1], prev, j);
        SettledUnique(v, pcs[rev - 1], prev, j, slot);
        SettledFilled(t, pcs[rev - 1], prev, j);
      }
    }
  }

  lemma SettledFilled(t: Table, pc: nat, prev: nat, i: nat)
    requires Shape(t.geo) && t.geo.totalNodes <= |t.slots| && pc != 0 && Settled(t, pc, prev, i)
    ensures i < |t.slots| && t.slots[i] != EMPTY
  {
  }

  // ---- To an external buffer and back ----

  /** Whatever is put while the buffer is in use and after the table is back, also a resized one: every
      stack stored before still decodes to itself. */
  method SwitchAndBack(u: UniqueStackTable, buffer: array<Node>, size: nat, inside: seq<seq<nat>>, after: seq<seq<nat>>,
                       ghost id: nat, ghost stack: seq<nat>, ghost nr: nat)
    requires u.Valid() && u.mapped && u.snapshot == None && buffer != u.nodes
    requires Accepts(size) && size < BUFFER_LIMIT && Sound(Table(buffer[..], ExternalGeometry(size)))
    requires forall i :: 0 <= i < |inside| ==> FitsPc(inside[i])
    requires forall i :: 0 <= i < |after| ==> FitsPc(after[i])
    requires StackAt(u.nodes[..], id, stack) && |stack| <= nr <= MAX_PCS
    modifies u, u.nodes, buffer
    ensures u.Valid() && u.mapped && u.nodes == old(u.nodes) && u.geo == Restored(old(u.geo))
    ensures Extends(old(u.nodes[..]), u.nodes[..]) && Decode(u.View(), id, nr) == stack
  {
    hide Sound, TableInv, EvenNodes, EmptySlots, Extends, StackAt, SettledStack, Decode;
    ghost var t := u.View();
    var ok := u.SwitchExternalBuffer(buffer, size);
    PutAll(u, inside);
    ok := u.SwitchExternalBuffer(null, 0);
    ghost var r := u.View();
    assert r == Table(t.slots, Restored(t.geo));
    PutAll(u, after);
    StillDecodes(u.View(), t.slots, id, stack, nr);
  }

  /** A table of one megabyte, and then a buffer of eight bytes: refused, and the table is gone. */
  method BufferRefused() returns (u: UniqueStackTable, ok: bool)
    ensures !ok && !u.mapped && u.snapshot == None
  {
    hide Sound, TableInv, ExternalTries;
    u := new UniqueStackTable(MEGABYTE);
    ok := u.Init(true);
    var buffer := new Node[1];
    ok := u.SwitchExternalBuffer(buffer, 8);
  }

  /** A stack that is put and got an id is read back. */
  method PutThenGet(u: UniqueStackTable, pcs: seq<nat>) returns (id: nat, out: seq<nat>)
    requires u.Valid() && u.mapped && !u.profilerInit && FitsPc(pcs) && |pcs| <= MAX_PCS
    modifies u.nodes
    ensures id != 0 ==> out == NonZero(pcs)
  {
    hide Sound, TableInv, Extends, StackAt, SettledStack, StuckAt, NonZero, FitsPc, Decode;
    id := u.PutPcsInTable(pcs);
    var ok;
    ok, out := u.GetPcsByStackId(id, |pcs|, []);
    if id != 0 {
      NonZeroLength(pcs);
      FilledBelow(u.View());
      DecodeStack(u.View(), id, NonZero(pcs), |pcs|);
    }
  }

  method PutAll(u: UniqueStackTable, stacks: seq<seq<nat>>)
    requires u.Valid() && u.mapped && forall i :: 0 <= i < |stacks| ==> FitsPc(stacks[i])
    modifies u.nodes
    ensures u.Valid() && Grows(old(u.View()), u.View())
  {
    hide Sound, TableInv, EvenNodes, Extends, StackAt, SettledStack, FitsPc;
    GrowsItself(u.View());
    for i := 0 to |stacks|
      invariant u.Valid() && Grows(old(u.View()), u.View())
    {
      ghost var t := u.View();
      var id := u.PutPcsInTable(stacks[i]);
      GrowsOn(old(u.View()), t, u.View());
    }
  }

  lemma StillDecodes(t: Table, slots: seq<Node>, id: nat, stack: seq<nat>, nr: nat)
    requires Sound(t) && Extends(slots, t.slots) && StackAt(slots, id, stack) && |stack| <= nr
    ensures t.geo.totalNodes <= |t.slots| && Decode(t, id, nr) == stack
  {
    StackAtStable(slots, t.slots, id, stack);
    FilledBelow(t);
    DecodeStack(t, id, stack, nr);
  }
}
