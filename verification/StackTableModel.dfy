/** The unique stack table as data: slots, probing and decoding. */
module StackTableModel {

  const PC_LIMIT := 0x80_0000_0000        // 39 bits of pc in a node
  const IDX_LIMIT := 0x200_0000           // 25 bits of previous index
  const MAX_NODES := 0x200_0000
  const NODE_SIZE := 8
  const INITIAL_TABLE_SIZE := 0x10_0000
  const MAX_PCS := 256
  const INIT_DECONFLICT := 22
  const DECONFLICT_STEP := 3

  /** A slot: a pc and the slot of its caller. The all-zero node is the empty slot. */
  datatype Node = Node(pc: nat, prev: nat)

  const EMPTY := Node(0, 0)

  /** Sizes and probing parameters, fixed between resizes. */
  datatype Geometry = Geometry(
    tableSize: nat, totalNodes: nat, availableNodes: nat, hashModulus: nat,
    availableIndex: nat, hashStep: nat, deconflictTimes: nat)

  datatype Table = Table(slots: seq<Node>, geo: Geometry)

  /** Node construction truncates to the bit fields. */
  function MakeNode(pc: nat, prev: nat): Node { Node(pc % PC_LIMIT, prev % IDX_LIMIT) }

  lemma MakeNodeFits(pc: nat, prev: nat)
    requires pc < PC_LIMIT && prev < IDX_LIMIT
    ensures MakeNode(pc, prev) == Node(pc, prev)
  {
  }

  /** The 64-bit value of a node, which the compare-and-swap compares. */
  function Pack(n: Node): nat { n.pc + n.prev * PC_LIMIT }

  function Hash(pc: nat, prev: nat): nat {
    var p := (pc % 0x1_0000_0000_0000_0000) as bv64;
    var q := (prev % 0x1_0000_0000_0000_0000) as bv64;
    ((p >> 2) ^ (q << 4)) as nat
  }

  function EvenNodes(size: nat): nat { size / NODE_SIZE / 2 * 2 }

  lemma EvenNodesIs(size: nat)
    ensures EvenNodes(size) == size / 16 * 2 && size == size / 16 * 16 + size % 16
  {
    var q, r := size / 16, size % 16;
    assert size / NODE_SIZE == 2 * q + r / NODE_SIZE;
  }

  /** hashStep_: short enough for that many tries. */
  function StepOf(available: nat, tries: nat): nat { available / (tries * 2 + 1) }

  // ---- Shape ----

  function Pow4(k: nat): nat { if k == 0 then 1 else 4 * Pow4(k - 1) }

  /** The probing parameters fit together: the steps are short enough for the number of tries, of which
      every Resize added three while it quadrupled the table. */
  ghost predicate Shape(g: Geometry) {
    && g.totalNodes == EvenNodes(g.tableSize) && 2 <= g.totalNodes <= MAX_NODES
    && g.availableIndex >= 1 && g.availableNodes >= 2
    && g.availableIndex + g.availableNodes == g.totalNodes + 1
    && g.hashModulus == g.availableNodes - 1
    && g.hashStep * (g.deconflictTimes * 2 + 1) <= g.availableNodes
    && g.deconflictTimes >= INIT_DECONFLICT
    && 2 * Pow4((g.deconflictTimes - INIT_DECONFLICT) / DECONFLICT_STEP) <= g.totalNodes
  }

  lemma {:induction false} Pow4Monotone(a: nat, b: nat)
    requires a <= b
    ensures Pow4(a) <= Pow4(b)
    decreases b
  {
    if a < b { Pow4Monotone(a, b - 1); }
  }

  /** The number of tries never outgrows the 8-bit counter of PutPcInSlot. */
  lemma TriesFit(g: Geometry)
    requires Shape(g)
    ensures g.deconflictTimes <= 60 && g.deconflictTimes % 256 == g.deconflictTimes
  {
    var r := (g.deconflictTimes - INIT_DECONFLICT) / DECONFLICT_STEP;
    assert Pow4(3) == 64 && Pow4(6) == 64 * 64 && Pow4(9) == 64 * 64 * 64;
    assert Pow4(12) == 0x100_0000;
    if r > 12 { Pow4Monotone(13, r); }
  }

  /** Slot `i` belongs to the region that Puts fill since the last Resize. */
  predicate InRegion(g: Geometry, i: nat) { g.availableIndex <= i < g.totalNodes }

  function Start(g: Geometry, pc: nat, prev: nat): nat
    requires g.hashModulus > 0
  {
    Hash(pc, prev) % g.hashModulus + g.availableIndex
  }

  /** The next slot to try when `left` tries remain. */
  function Next(g: Geometry, cur: nat, left: nat): int {
    Wrap(g, cur + left * g.hashStep + 1)
  }

  /** Indices past the end come back to the start of the region. */
  function Wrap(g: Geometry, c: nat): int {
    if c >= g.totalNodes then c - (g.availableNodes - 1) else c
  }

  lemma WrapInRegion(g: Geometry, cur: nat, jump: nat)
    requires g.availableIndex + g.availableNodes == g.totalNodes + 1 && InRegion(g, cur)
    requires 1 <= jump <= g.availableNodes - 1
    ensures Wrap(g, cur + jump) >= 0 && InRegion(g, Wrap(g, cur + jump))
  {
  }

  lemma DivTimes(n: nat, m: nat)
    requires m > 0
    ensures 0 <= n / m && n / m * m <= n
  {
  }

  lemma TimesMonotone(a: nat, b: nat, s: nat)
    requires a <= b
    ensures a * s <= b * s
  {
  }

  lemma SplitFactor(d: nat, s: nat)
    requires d > 0
    ensures s * (d * 2 + 1) == (d - 1) * s + (d + 2) * s
  {
  }

  /** The longest step stays below the size of the region. */
  lemma StepBound(step: nat, left: nat, d: nat, n: nat)
    requires left < d && n >= 2 && step * (d * 2 + 1) <= n
    ensures left * step + 1 <= n - 1
  {
    TimesMonotone(left, d - 1, step);
    SplitFactor(d, step);
    if step > 0 { TimesMonotone(1, step, d + 2); } else { assert left * step == 0; }
  }

  lemma StartInRegion(g: Geometry, pc: nat, prev: nat)
    requires Shape(g)
    ensures InRegion(g, Start(g, pc, prev))
  {
  }

  /** Despite the uneven steps no probe leaves the region. */
  lemma NextInRegion(g: Geometry, cur: nat, left: nat)
    requires Shape(g) && InRegion(g, cur) && left < g.deconflictTimes
    ensures Next(g, cur, left) >= 0 && InRegion(g, Next(g, cur, left))
  {
    hide Wrap, InRegion, EvenNodes;
    StepBound(g.hashStep, left, g.deconflictTimes, g.availableNodes);
    WrapInRegion(g, cur, left * g.hashStep + 1);
    assert cur + (left * g.hashStep + 1) == cur + left * g.hashStep + 1;
  }

  /** Each try looks at another slot than the one before. */
  lemma NextMoves(g: Geometry, cur: nat, left: nat)
    requires Shape(g) && InRegion(g, cur) && left < g.deconflictTimes && g.availableNodes >= 4
    ensures Next(g, cur, left) != cur
  {
    hide EvenNodes, Pow4;
    var d, step, n := g.deconflictTimes, g.hashStep, g.availableNodes;
    TimesMonotone(left, d - 1, step);
    SplitFactor(d, step);
    assert (d - 1) * step + (d + 2) * step == 2 * ((d - 1) * step) + 3 * step;
    if step == 0 { assert left * step == 0; }
  }

  /** The `j`-th slot tried for a node. */
  function Probe(g: Geometry, pc: nat, prev: nat, j: nat): (i: nat)
    requires Shape(g) && j < g.deconflictTimes
    ensures InRegion(g, i)
  {
    StartInRegion(g, pc, prev);
    if j == 0 then Start(g, pc, prev)
    else
      var cur := Probe(g, pc, prev, j - 1);
      NextInRegion(g, cur, g.deconflictTimes - j);
      Next(g, cur, g.deconflictTimes - j)
  }

  // ---- Stacks ----

  /** The pcs of a stack that the table keeps. */
  function NonZero(pcs: seq<nat>): seq<nat> {
    if pcs == [] then [] else (if pcs[0] == 0 then [] else [pcs[0]]) + NonZero(pcs[1..])
  }

  predicate FitsPc(pcs: seq<nat>) { forall i :: 0 <= i < |pcs| ==> pcs[i] < PC_LIMIT }

  /** Walking the links from slot `id` spells `stack`, innermost pc first. */
  ghost predicate StackAt(slots: seq<Node>, id: nat, stack: seq<nat>)
    decreases |stack|
  {
    && stack != [] && 0 < id < |slots| && slots[id] != EMPTY && slots[id].pc == stack[0]
    && if |stack| == 1 then slots[id].prev == 0 else StackAt(slots, slots[id].prev, stack[1..])
  }

  /** GetPcsByStackId: at most `nr` frames from slot `id`. */
  function Decode(t: Table, id: nat, nr: nat): seq<nat>
    requires t.geo.totalNodes <= |t.slots|
    decreases nr
  {
    if nr == 0 || id >= t.geo.totalNodes then []
    else [t.slots[id].pc] + if t.slots[id].prev == 0 then [] else Decode(t, t.slots[id].prev, nr - 1)
  }

  /** `slots'` keeps every filled slot of `slots`. */
  ghost predicate Extends(slots: seq<Node>, slots': seq<Node>) {
    |slots| <= |slots'| && forall i :: 0 <= i < |slots| && slots[i] != EMPTY ==> slots'[i] == slots[i]
  }

  lemma {:induction false} StackAtStable(slots: seq<Node>, slots': seq<Node>, id: nat, stack: seq<nat>)
    requires StackAt(slots, id, stack) && Extends(slots, slots')
    ensures StackAt(slots', id, stack)
    decreases |stack|
  {
    if |stack| > 1 { StackAtStable(slots, slots', slots[id].prev, stack[1..]); }
  }

  /** A slot spells one stack only. */
  lemma {:induction false} StackAtUnique(slots: seq<Node>, id: nat, a: seq<nat>, b: seq<nat>)
    requires StackAt(slots, id, a) && StackAt(slots, id, b)
    ensures a == b
    decreases |a|
  {
    if |a| > 1 && |b| > 1 {
      StackAtUnique(slots, slots[id].prev, a[1..], b[1..]);
      assert a == [a[0]] + a[1..] && b == [b[0]] + b[1..];
    }
  }

  /** Decoding reads the stack back, whatever surplus of frames is asked for. */
  lemma {:induction false} DecodeStack(t: Table, id: nat, stack: seq<nat>, nr: nat)
    requires t.geo.totalNodes <= |t.slots| && StackAt(t.slots, id, stack) && |stack| <= nr
    requires forall i :: 0 <= i < |t.slots| && t.slots[i] != EMPTY ==> i < t.geo.totalNodes
    ensures Decode(t, id, nr) == stack
    decreases |stack|
  {
    if |stack| > 1 {
      assert StackAt(t.slots, t.slots[id].prev, stack[1..]);
      DecodeStack(t, t.slots[id].prev, stack[1..], nr - 1);
      assert stack == [stack[0]] + stack[1..];
    }
  }

  lemma {:induction false} NonZeroLength(pcs: seq<nat>)
    ensures |NonZero(pcs)| <= |pcs|
  {
    if pcs != [] { NonZeroLength(pcs[1..]); }
  }

  /** One more pc in front. */
  lemma NonZeroStep(pcs: seq<nat>, k: nat)
    requires 0 < k <= |pcs|
    ensures NonZero(pcs[k - 1..]) == (if pcs[k - 1] == 0 then [] else [pcs[k - 1]]) + NonZero(pcs[k..])
  {
    assert pcs[k - 1..][1..] == pcs[k..];
  }

  /** Comparing packed values is comparing nodes. */
  lemma PackInjective(a: Node, b: Node)
    requires a.pc < PC_LIMIT && b.pc < PC_LIMIT
    ensures Pack(a) == Pack(b) <==> a == b
    ensures Pack(a) == 0 <==> a == EMPTY
  {
  }
}
