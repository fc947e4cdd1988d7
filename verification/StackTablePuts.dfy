/** Interleaved Puts and resizes as a state machine: one compare-and-swap per step. */
module StackTablePuts {
  import opened StackTableModel

  // ---- Settled nodes ----

  /** The first `k` tries for a node all find other nodes. */
  ghost predicate Blocked(t: Table, pc: nat, prev: nat, k: nat)
    requires Shape(t.geo) && t.geo.totalNodes <= |t.slots|
  {
    k <= t.geo.deconflictTimes &&
    forall j: nat :: j < k ==>
      var i := Probe(t.geo, pc, prev, j); t.slots[i] != EMPTY && t.slots[i] != Node(pc, prev)
  }

  /** Slot `i` holds the node, and it is the slot the node's `k`-th try reaches first. */
  ghost predicate PlacedAt(t: Table, pc: nat, prev: nat, i: nat, k: nat)
    requires Shape(t.geo) && t.geo.totalNodes <= |t.slots|
  {
    && k < t.geo.deconflictTimes && Probe(t.geo, pc, prev, k) == i
    && t.slots[i] == Node(pc, prev) && Blocked(t, pc, prev, k)
  }

  ghost predicate Settled(t: Table, pc: nat, prev: nat, i: nat)
    requires Shape(t.geo) && t.geo.totalNodes <= |t.slots|
  {
    exists k: nat :: PlacedAt(t, pc, prev, i, k)
  }

  /** Every node on the chain of `stack` from slot `id` is settled. */
  ghost predicate SettledStack(t: Table, id: nat, stack: seq<nat>)
    requires Shape(t.geo) && t.geo.totalNodes <= |t.slots|
    decreases |stack|
  {
    && stack != [] && 0 < id < t.geo.totalNodes && stack[0] != 0
    && Settled(t, stack[0], t.slots[id].prev, id)
    && if |stack| == 1 then t.slots[id].prev == 0 else SettledStack(t, t.slots[id].prev, stack[1..])
  }

  /** The same table with possibly more slots filled. */
  ghost predicate Grows(t: Table, t': Table) {
    t'.geo == t.geo && |t'.slots| == |t.slots| && Extends(t.slots, t'.slots)
  }

  lemma BlockedStable(t: Table, t': Table, pc: nat, prev: nat, k: nat)
    requires Shape(t.geo) && t.geo.totalNodes <= |t.slots| && Grows(t, t') && Blocked(t, pc, prev, k)
    ensures Blocked(t', pc, prev, k)
  {
  }

  lemma SettledStable(t: Table, t': Table, pc: nat, prev: nat, i: nat)
    requires Shape(t.geo) && t.geo.totalNodes <= |t.slots| && Grows(t, t') && pc != 0 && Settled(t, pc, prev, i)
    ensures Settled(t', pc, prev, i)
  {
    var k: nat :| PlacedAt(t, pc, prev, i, k);
    BlockedStable(t, t', pc, prev, k);
    assert PlacedAt(t', pc, prev, i, k);
  }

  lemma {:induction false} SettledStackStable(t: Table, t': Table, id: nat, stack: seq<nat>)
    requires Shape(t.geo) && t.geo.totalNodes <= |t.slots| && Grows(t, t') && SettledStack(t, id, stack)
    ensures SettledStack(t', id, stack)
    decreases |stack|
  {
    SettledStable(t, t', stack[0], t.slots[id].prev, id);
    var k: nat :| PlacedAt(t, stack[0], t.slots[id].prev, id, k);
    if |stack| > 1 { SettledStackStable(t, t', t.slots[id].prev, stack[1..]); }
  }

  lemma {:induction false} SettledIsStackAt(t: Table, id: nat, stack: seq<nat>)
    requires Shape(t.geo) && t.geo.totalNodes <= |t.slots| && SettledStack(t, id, stack)
    ensures StackAt(t.slots, id, stack)
    decreases |stack|
  {
    var k: nat :| PlacedAt(t, stack[0], t.slots[id].prev, id, k);
    if |stack| > 1 { SettledIsStackAt(t, t.slots[id].prev, stack[1..]); }
  }

  /** A node has at most one settled slot. */
  lemma SettledUnique(t: Table, pc: nat, prev: nat, i: nat, j: nat)
    requires Shape(t.geo) && t.geo.totalNodes <= |t.slots|
    requires Settled(t, pc, prev, i) && Settled(t, pc, prev, j)
    ensures i == j
  {
    var k: nat :| PlacedAt(t, pc, prev, i, k);
    var l: nat :| PlacedAt(t, pc, prev, j, l);
  }

  /** A settled stack is found at one slot only. */
  lemma {:induction false} SettledStackUnique(t: Table, i: nat, j: nat, stack: seq<nat>)
    requires Shape(t.geo) && t.geo.totalNodes <= |t.slots|
    requires SettledStack(t, i, stack) && SettledStack(t, j, stack)
    ensures i == j
    decreases |stack|
  {
    if |stack| > 1 { SettledStackUnique(t, t.slots[i].prev, t.slots[j].prev, stack[1..]); }
    SettledUnique(t, stack[0], t.slots[i].prev, i, j);
  }

  // ---- One Put ----

  datatype Phase = Picking | Probing(cur: nat, left: nat) | Done(id: nat)

  /** A running PutPcsInTable: `pcs[rev..]` are in the table with head slot `prev`. */
  datatype Put = Put(pcs: seq<nat>, rev: nat, prev: nat, phase: Phase, epoch: nat)

  predicate Active(p: Put) { !p.phase.Done? }

  predicate StepReady(t: Table, p: Put) {
    && t.geo.hashModulus > 0 && t.geo.totalNodes <= |t.slots| && p.rev <= |p.pcs|
    && (p.phase.Probing? ==> p.rev > 0 && p.phase.cur < |t.slots|)
  }

  /** One turn of PutPcsInTable's loop, or one try of PutPcInSlot. */
  function StepPut(t: Table, p: Put): (Table, Put)
    requires StepReady(t, p)
  {
    match p.phase
    case Done(_) => (t, p)
    case Picking =>
      if p.rev == 0 then (t, p.(phase := Done(p.prev)))
      else if p.pcs[p.rev - 1] == 0 then (t, p.(rev := p.rev - 1))
      else (t, p.(phase := Probing(Start(t.geo, p.pcs[p.rev - 1], p.prev), t.geo.deconflictTimes % 256)))
    case Probing(cur, left) =>
      if left == 0 then (t, p.(phase := Done(0)))
      else
        var n := MakeNode(p.pcs[p.rev - 1], p.prev);
        if t.slots[cur] == EMPTY || t.slots[cur] == n then
          (t.(slots := t.slots[cur := n]), p.(rev := p.rev - 1, prev := cur, phase := Picking))
        else
          var next := Next(t.geo, cur, left - 1);
          (t, p.(phase := Probing(if next < 0 then 0 else next, left - 1)))
  }

  // ---- The system ----

  /** The table, all Puts started so far, the number of resizes and the slots in filling order. */
  datatype Sys = Sys(table: Table, puts: map<nat, Put>, epoch: nat, log: seq<nat>)

  datatype Action = Begin(tid: nat, pcs: seq<nat>) | Advance(tid: nat) | Grow(mmapOk: bool)

  /** Probes stay in the region, and what is filled can be decoded. */
  ghost predicate Sound(t: Table) {
    && Shape(t.geo) && |t.slots| == t.geo.tableSize / NODE_SIZE && t.geo.totalNodes <= |t.slots|
    && (forall i :: 0 <= i < |t.slots| && t.slots[i] != EMPTY ==> FilledOk(t, i))
  }

  /** Moreover every node of the region is where its tries find it. */
  ghost predicate TableInv(t: Table) {
    && Sound(t)
    && (forall i :: 0 <= i < |t.slots| && t.slots[i] != EMPTY && InRegion(t.geo, i) ==>
          Settled(t, t.slots[i].pc, t.slots[i].prev, i))
  }

  ghost predicate FilledOk(t: Table, i: nat)
    requires i < |t.slots|
  {
    0 < i < t.geo.totalNodes && 0 < t.slots[i].pc < PC_LIMIT && t.slots[i].prev < t.geo.totalNodes
  }

  /** Slots are filled once, each after the slot it links to. */
  ghost predicate LogInv(slots: seq<Node>, log: seq<nat>) {
    && (forall i :: 0 <= i < |slots| && slots[i] != EMPTY ==> i in log)
    && (forall k :: 0 <= k < |log| ==> LogOk(slots, log, k))
    && (forall j, k :: 0 <= j < k < |log| ==> log[j] != log[k])
  }

  ghost predicate LogOk(slots: seq<Node>, log: seq<nat>, k: nat)
    requires k < |log|
  {
    log[k] < |slots| && slots[log[k]] != EMPTY && (slots[log[k]].prev == 0 || slots[log[k]].prev in log[..k])
  }

  ghost predicate PutInv(t: Table, p: Put, epoch: nat)
    requires Shape(t.geo) && t.geo.totalNodes <= |t.slots|
  {
    && p.rev <= |p.pcs| && FitsPc(p.pcs) && p.epoch <= epoch
    && match p.phase
       case Done(id) =>
         if id != 0 then StackAt(t.slots, id, NonZero(p.pcs)) && (p.epoch == epoch ==> SettledStack(t, id, NonZero(p.pcs)))
         else p.epoch == epoch ==> NonZero(p.pcs) == [] || StuckAt(t, p.pcs, p.rev, p.prev)
       case Picking => p.epoch == epoch && Partial(t, p.pcs, p.rev, p.prev)
       case Probing(cur, left) =>
         && p.epoch == epoch && Partial(t, p.pcs, p.rev, p.prev) && p.rev > 0 && p.pcs[p.rev - 1] != 0
         && left <= t.geo.deconflictTimes && InRegion(t.geo, cur)
         && Blocked(t, p.pcs[p.rev - 1], p.prev, t.geo.deconflictTimes - left)
         && (left > 0 ==> cur == Probe(t.geo, p.pcs[p.rev - 1], p.prev, t.geo.deconflictTimes - left))
  }

  /** What a Put has stored so far. */
  ghost predicate Partial(t: Table, pcs: seq<nat>, rev: nat, prev: nat)
    requires Shape(t.geo) && t.geo.totalNodes <= |t.slots| && rev <= |pcs|
  {
    if prev == 0 then NonZero(pcs[rev..]) == [] else SettledStack(t, prev, NonZero(pcs[rev..]))
  }

  /** The callers `pcs[rev..]` are stored, and all tries for the node of `pcs[rev - 1]` find other nodes. */
  ghost predicate StuckAt(t: Table, pcs: seq<nat>, rev: nat, prev: nat)
    requires Shape(t.geo) && t.geo.totalNodes <= |t.slots|
  {
    && 0 < rev <= |pcs| && pcs[rev - 1] != 0 && Partial(t, pcs, rev, prev)
    && Blocked(t, pcs[rev - 1], prev, t.geo.deconflictTimes)
  }

  ghost predicate SysInv(s: Sys) {
    && TableInv(s.table) && LogInv(s.table.slots, s.log)
    && forall tid :: tid in s.puts ==> PutInv(s.table, s.puts[tid], s.epoch)
  }

  /** A Put whose try finds its slot empty fills it; no other step changes the table. */
  predicate Fills(t: Table, p: Put)
    requires StepReady(t, p)
  {
    p.phase.Probing? && p.phase.left > 0 && t.slots[p.phase.cur] == EMPTY
  }

  /** A step writes at most one slot, an empty one of the current region. */
  lemma StepGrows(t: Table, p: Put, epoch: nat)
    requires TableInv(t) && PutInv(t, p, epoch)
    ensures StepReady(t, p) && Grows(t, StepPut(t, p).0)
    ensures !Fills(t, p) ==> StepPut(t, p).0 == t
    ensures Fills(t, p) ==> InRegion(t.geo, p.phase.cur) && StepPut(t, p).1.prev == p.phase.cur
    ensures Fills(t, p) ==> StepPut(t, p).0.slots == t.slots[p.phase.cur := MakeNode(p.pcs[p.rev - 1], p.prev)]
  {
    if p.phase.Probing? && p.phase.left > 0 && t.slots[p.phase.cur] != EMPTY {
      assert t.slots[p.phase.cur := t.slots[p.phase.cur]] == t.slots;
    }
  }

  /** The node a probing Put stores. */
  lemma NodeOfPut(t: Table, p: Put, epoch: nat)
    requires TableInv(t) && PutInv(t, p, epoch) && p.phase.Probing?
    ensures MakeNode(p.pcs[p.rev - 1], p.prev) == Node(p.pcs[p.rev - 1], p.prev)
    ensures 0 < p.pcs[p.rev - 1] < PC_LIMIT && p.prev < t.geo.totalNodes
    ensures p.prev != 0 ==> t.slots[p.prev] != EMPTY
  {
    if p.prev != 0 {
      SettledIsStackAt(t, p.prev, NonZero(p.pcs[p.rev..]));
    }
    MakeNodeFits(p.pcs[p.rev - 1], p.prev);
  }

  /** Filling the first empty slot that the tries reach. */
  lemma FillSettles(t: Table, t': Table, pc: nat, prev: nat, cur: nat, k: nat)
    requires Sound(t) && 0 < pc < PC_LIMIT && prev < t.geo.totalNodes
    requires k < t.geo.deconflictTimes && cur == Probe(t.geo, pc, prev, k) && Blocked(t, pc, prev, k)
    requires t.slots[cur] == EMPTY && t' == t.(slots := t.slots[cur := Node(pc, prev)])
    ensures Sound(t') && Grows(t, t') && Settled(t', pc, prev, cur) && (TableInv(t) ==> TableInv(t'))
  {
    hide Hash, Probe, EvenNodes, Shape;
    BlockedStable(t, t', pc, prev, k);
    assert PlacedAt(t', pc, prev, cur, k);
    forall i | 0 <= i < |t'.slots| && t'.slots[i] != EMPTY
      ensures FilledOk(t', i) && (TableInv(t) && InRegion(t'.geo, i) ==> Settled(t', t'.slots[i].pc, t'.slots[i].prev, i))
    {
      if i != cur {
        assert t.slots[i] != EMPTY && FilledOk(t, i);
        if TableInv(t) && InRegion(t.geo, i) { SettledStable(t, t', t.slots[i].pc, t.slots[i].prev, i); }
      } else {
        RegionPositive(t.geo, cur);
      }
    }
  }

  lemma RegionPositive(g: Geometry, i: nat)
    requires Shape(g) && InRegion(g, i)
    ensures 0 < i
  {
  }

  /** A step that fills a slot keeps the table invariant: the new node is settled, the old ones stay so. */
  lemma FillKeepsTable(t: Table, p: Put, epoch: nat)
    requires TableInv(t) && PutInv(t, p, epoch) && StepReady(t, p) && Fills(t, p)
    ensures TableInv(StepPut(t, p).0)
    ensures Settled(StepPut(t, p).0, p.pcs[p.rev - 1], p.prev, p.phase.cur)
  {
    hide Hash, Probe, EvenNodes, Shape, Settled, SettledStack, Blocked, TableInv, FilledOk;
    var t' := StepPut(t, p).0;
    var cur, pc := p.phase.cur, p.pcs[p.rev - 1];
    StepGrows(t, p, epoch);
    NodeOfPut(t, p, epoch);
    InvSound(t);
    FillSettles(t, t', pc, p.prev, cur, t.geo.deconflictTimes - p.phase.left);
  }

  lemma InvSound(t: Table)
    requires TableInv(t)
    ensures Sound(t)
  {
  }

  lemma FillKeepsLog(slots: seq<Node>, log: seq<nat>, cur: nat, n: Node)
    requires LogInv(slots, log) && cur < |slots| && slots[cur] == EMPTY && n != EMPTY
    requires n.prev == 0 || (n.prev < |slots| && slots[n.prev] != EMPTY)
    ensures LogInv(slots[cur := n], log + [cur])
  {
    var slots', log' := slots[cur := n], log + [cur];
    forall k | 0 <= k < |log'|
      ensures LogOk(slots', log', k)
    {
      if k < |log| {
        assert LogOk(slots, log, k);
        assert log'[..k] == log[..k];
      } else {
        assert log'[..k] == log;
      }
    }
    forall k | 0 <= k < |log| ensures log[k] != cur { assert LogOk(slots, log, k); }
  }

  /** The Put that steps keeps its own invariant. */
  lemma StepKeepsPut(t: Table, p: Put, epoch: nat)
    requires TableInv(t) && PutInv(t, p, epoch)
    ensures StepReady(t, p)
    ensures var (t', p') := StepPut(t, p); t'.geo == t.geo && |t'.slots| == |t.slots| && PutInv(t', p', epoch)
  {
    StepGrows(t, p, epoch);
    match p.phase
    case Done(_) =>
    case Picking => PickKeepsPut(t, p, epoch);
    case Probing(cur, left) =>
      if left > 0 {
        NodeOfPut(t, p, epoch);
        if t.slots[cur] == EMPTY || t.slots[cur] == Node(p.pcs[p.rev - 1], p.prev) {
          HitKeepsPut(t, p, epoch);
        } else {
          MissKeepsPut(t, p, epoch);
        }
      }
  }

  lemma PickKeepsPut(t: Table, p: Put, epoch: nat)
    requires TableInv(t) && PutInv(t, p, epoch) && p.phase.Picking?
    ensures StepReady(t, p) && PutInv(t, StepPut(t, p).1, epoch)
  {
    hide Hash, Settled, SettledStack, StackAt, NonZero;
    if p.rev == 0 {
      assert p.pcs[0..] == p.pcs;
      if p.prev != 0 { SettledIsStackAt(t, p.prev, NonZero(p.pcs)); }
    } else if p.pcs[p.rev - 1] == 0 {
      NonZeroStep(p.pcs, p.rev);
      assert NonZero(p.pcs[p.rev - 1..]) == NonZero(p.pcs[p.rev..]);
    } else {
      TriesFit(t.geo);
      StartInRegion(t.geo, p.pcs[p.rev - 1], p.prev);
    }
  }

  lemma HitKeepsPut(t: Table, p: Put, epoch: nat)
    requires TableInv(t) && PutInv(t, p, epoch) && p.phase.Probing? && p.phase.left > 0
    requires t.slots[p.phase.cur] == EMPTY || t.slots[p.phase.cur] == Node(p.pcs[p.rev - 1], p.prev)
    ensures StepReady(t, p)
    ensures var (t', p') := StepPut(t, p); t'.geo == t.geo && |t'.slots| == |t.slots| && PutInv(t', p', epoch)
  {
    hide Hash, StackAt, NonZero, Next, EvenNodes, FilledOk, Settled, Probe, Pow4;
    var t' := StepPut(t, p).0;
    StepGrows(t, p, epoch);
    NodeOfPut(t, p, epoch);
    NonZeroStep(p.pcs, p.rev);
    BlockedStable(t, t', p.pcs[p.rev - 1], p.prev, t.geo.deconflictTimes - p.phase.left);
    if p.prev != 0 { SettledStackStable(t, t', p.prev, NonZero(p.pcs[p.rev..])); }
    Prepend(t', p.pcs[p.rev - 1], p.prev, p.phase.cur, t.geo.deconflictTimes - p.phase.left, NonZero(p.pcs[p.rev..]));
  }

  /** A settled node in front of a settled stack. */
  lemma Prepend(t: Table, pc: nat, prev: nat, i: nat, k: nat, rest: seq<nat>)
    requires Shape(t.geo) && t.geo.totalNodes <= |t.slots| && pc != 0 && PlacedAt(t, pc, prev, i, k)
    requires if prev == 0 then rest == [] else SettledStack(t, prev, rest)
    ensures i != 0 && SettledStack(t, i, [pc] + rest)
  {
    var stack := [pc] + rest;
    assert stack[0] == pc && stack[1..] == rest;
  }

  lemma MissKeepsPut(t: Table, p: Put, epoch: nat)
    requires TableInv(t) && PutInv(t, p, epoch) && p.phase.Probing? && p.phase.left > 0
    requires t.slots[p.phase.cur] != EMPTY && t.slots[p.phase.cur] != Node(p.pcs[p.rev - 1], p.prev)
    ensures StepReady(t, p) && PutInv(t, StepPut(t, p).1, epoch)
  {
    hide Hash, Settled, SettledStack, StackAt, NonZero, Next, EvenNodes;
    NodeOfPut(t, p, epoch);
    NextInRegion(t.geo, p.phase.cur, p.phase.left - 1);
    BlockedNext(t, p.pcs[p.rev - 1], p.prev, t.geo.deconflictTimes - p.phase.left);
  }

  /** One more try found another node. */
  lemma BlockedNext(t: Table, pc: nat, prev: nat, k: nat)
    requires Shape(t.geo) && t.geo.totalNodes <= |t.slots| && k < t.geo.deconflictTimes && Blocked(t, pc, prev, k)
    requires var i := Probe(t.geo, pc, prev, k); t.slots[i] != EMPTY && t.slots[i] != Node(pc, prev)
    ensures Blocked(t, pc, prev, k + 1)
    ensures k + 1 < t.geo.deconflictTimes ==>
      Probe(t.geo, pc, prev, k + 1) == Next(t.geo, Probe(t.geo, pc, prev, k), t.geo.deconflictTimes - k - 1)
  {
  }

  /** A Put is not disturbed by the step of another. */
  lemma OtherKeepsPut(t: Table, t': Table, p: Put, epoch: nat)
    requires TableInv(t) && PutInv(t, p, epoch) && Grows(t, t')
    ensures PutInv(t', p, epoch)
  {
    hide Hash, Settled, SettledStack, StackAt, NonZero, Next, EvenNodes, Probe, Blocked, FilledOk;
    match p.phase
    case Done(id) =>
      if id != 0 {
        StackAtStable(t.slots, t'.slots, id, NonZero(p.pcs));
        if p.epoch == epoch { SettledStackStable(t, t', id, NonZero(p.pcs)); }
      } else if p.epoch == epoch && NonZero(p.pcs) != [] {
        if p.prev != 0 { SettledStackStable(t, t', p.prev, NonZero(p.pcs[p.rev..])); }
        BlockedStable(t, t', p.pcs[p.rev - 1], p.prev, t.geo.deconflictTimes);
      }
    case Picking =>
      if p.prev != 0 { SettledStackStable(t, t', p.prev, NonZero(p.pcs[p.rev..])); }
    case Probing(_, left) =>
      if p.prev != 0 { SettledStackStable(t, t', p.prev, NonZero(p.pcs[p.rev..])); }
      BlockedStable(t, t', p.pcs[p.rev - 1], p.prev, t.geo.deconflictTimes - left);
  }
}
