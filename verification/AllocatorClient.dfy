/** Whole runs: the allocator against an ideal heap that hands out private word arrays. */
module AllocatorClient {
  import opened Common
  import opened AllocatorLayout
  import opened AllocatorModel
  import opened AllocatorInvariant
  import opened AllocatorChunks
  import opened AllocatorSteps
  import opened Allocator

  /** A client step; `os` is the kernel's answer should the step need a mapping. */
  datatype Op =
    | Malloc(size: nat, os: int)
    | Free(p: int)
    | Realloc(p: int, size: nat, os: int)
    | Store(p: int, k: nat, v: int)

  /** The ideal heap: each chunk the client holds, with its words. */
  type Ledger = map<int, seq<int>>

  /** Clients free, resize and write only what they hold. */
  predicate Legal(l: Ledger, op: Op) {
    match op
    case Malloc(size, _) => size < TWO_64
    case Free(p) => p == 0 || p in l
    case Realloc(p, size, _) => size < TWO_64 && (p == 0 || p in l)
    case Store(p, k, _) => p in l && k < |l[p]|
  }

  /** The ideal effect of a step that answered `res`. */
  function Apply(l: Ledger, op: Op, res: int): Ledger {
    if !Legal(l, op) then l else
    match op
    case Malloc(size, _) => if res == 0 then l else l[res := Repeat(0, Capacity(size) / 8)]
    case Free(p) => l - {p}
    case Realloc(p, size, _) =>
      if p == 0 then (if res == 0 then l else l[res := Repeat(0, Capacity(size) / 8)])
      else if size == 0 || res == p || Capacity(size) / 8 < |l[p]| then l
      else (l - {p})[res := l[p] + Repeat(0, Capacity(size) / 8 - |l[p]|)]
    case Store(p, k, v) => l[p := l[p][k := v]]
  }

  /** What clients may do, and what the ideal heap is: a chunk is handed out with zeros, at least as long as
      asked for; a free ends it; a move keeps its words and adds zeros; a store changes one word; and no
      step concerns another chunk. */
  lemma HeapLaws(l: Ledger, size: nat, os: int, res: int, p: int, k: nat, v: int)
    requires size < 0x1_0000_0000_0000_0000
    ensures Legal(l, Malloc(size, os)) && (Legal(l, Free(p)) <==> p == 0 || p in l)
    ensures (Legal(l, Realloc(p, size, os)) <==> p == 0 || p in l) && (Legal(l, Store(p, k, v)) <==> p in l && k < |l[p]|)
    ensures var l' := Apply(l, Malloc(size, os), res);
      if res == 0 then l' == l
      else l' - {res} == l - {res} && res in l' && 8 * |l'[res]| >= size && forall j :: 0 <= j < |l'[res]| ==> l'[res][j] == 0
    ensures p in l ==> Apply(l, Free(p), res) == l - {p}
    ensures p in l && k < |l[p]| ==>
      var l' := Apply(l, Store(p, k, v), res);
      l' - {p} == l - {p} && p in l' && |l'[p]| == |l[p]| && l'[p][k] == v &&
      forall j :: 0 <= j < |l[p]| && j != k ==> l'[p][j] == l[p][j]
    ensures p in l && p != 0 && res !in l && size > 8 * |l[p]| ==>
      var l' := Apply(l, Realloc(p, size, os), res);
      l' - {res} == l - {p, res} && res in l' && 8 * |l'[res]| >= size &&
      forall j :: 0 <= j < |l'[res]| ==> l'[res][j] == if j < |l[p]| then l[p][j] else 0
    ensures p in l && p != 0 ==> Apply(l, Realloc(p, size, os), p) == l
  {
    hide Capacity, Repeat;
    CapacityIsLeast(size);
    WordAligned(Capacity(size), 0);
    var zeros := Repeat(0, Capacity(size) / 8);
    RepeatIs(Capacity(size) / 8);
    assert l[res := zeros] - {res} == l - {res};
    if p in l {
      if k < |l[p]| { assert l[p := l[p][k := v]] - {p} == l - {p}; }
      if Capacity(size) / 8 >= |l[p]| {
        RepeatIs(Capacity(size) / 8 - |l[p]|);
        assert (l - {p})[res := l[p] + Repeat(0, Capacity(size) / 8 - |l[p]|)] - {res} == l - {p, res};
      }
    }
  }

  lemma RepeatIs(n: nat)
    ensures |Repeat(0, n)| == n && forall j :: 0 <= j < n ==> Repeat(0, n)[j] == 0
  {
  }

  function Replay(ops: seq<Op>, results: seq<int>): Ledger
    requires |ops| == |results|
  {
    if ops == [] then map[]
    else var n := |ops| - 1; Apply(Replay(ops[..n], results[..n]), ops[n], results[n])
  }

  ghost predicate HoldsWords(s: State, p: int, words: seq<int>)
    requires Live(s.maps, p)
  {
    && 8 * |words| == ChunkSize(s.maps, p)
    && forall k :: 0 <= k < |words| ==> Load(s.mem, p + 8 * k) == words[k]
  }

  /** The live chunks are the ledger's, word for word. */
  ghost predicate Agrees(s: State, l: Ledger) {
    && (forall p :: p in l <==> Live(s.maps, p))
    && (forall p :: p in l ==> HoldsWords(s, p, l[p]))
  }

  lemma KeptWords(s: State, s': State, p: int, words: seq<int>)
    requires Live(s.maps, p) && HoldsWords(s, p, words) && SameChunk(s, s', p)
    ensures Live(s'.maps, p) && HoldsWords(s', p, words)
  {
  }

  lemma AfterIssue(s: State, s': State, l: Ledger, p: int, len: nat)
    requires Agrees(s, l) && Issued(s, s', p, len) && len % 8 == 0
    ensures SameOutside(s, s') && Agrees(s', l[p := Repeat(0, len / 8)])
  {
    forall q | q in l
      ensures q != p && Live(s'.maps, q) && HoldsWords(s', q, l[q])
    {
      assert SameChunk(s, s', q);
      KeptWords(s, s', q, l[q]);
    }
    forall q | Live(s'.maps, q) && q != p ensures q in l { assert SameChunk(s, s', q); }
  }

  lemma AfterFree(s: State, s': State, l: Ledger, p: int)
    requires Agrees(s, l) && p in l && Freed(s, s', p)
    ensures SameOutside(s, s') && Agrees(s', l - {p})
  {
    forall q | q in l && q != p
      ensures Live(s'.maps, q) && HoldsWords(s', q, l[q])
    {
      assert SameChunk(s, s', q);
      KeptWords(s, s', q, l[q]);
    }
    forall q | Live(s'.maps, q) ensures q in l - {p} { assert q != p ==> SameChunk(s, s', q); }
  }

  lemma AfterMove(s: State, s': State, l: Ledger, p: int, p': int, len: nat)
    requires Agrees(s, l) && p in l && Moved(s, s', p, p', len) && len % 8 == 0
    ensures p' > 0 && SameOutside(s, s') && |l[p]| <= len / 8 && Agrees(s', (l - {p})[p' := l[p] + Repeat(0, len / 8 - |l[p]|)])
  {
    assert HoldsWords(s, p, l[p]);
    var words := l[p] + Repeat(0, len / 8 - |l[p]|);
    forall k | 0 <= k < |words|
      ensures Load(s'.mem, p' + 8 * k) == words[k]
    {
      assert p' <= p' + 8 * k < p' + len;
    }
    forall q | q in l && q != p
      ensures q != p' && Live(s'.maps, q) && HoldsWords(s', q, l[q])
    {
      assert SameChunk(s, s', q);
      KeptWords(s, s', q, l[q]);
    }
    forall q | Live(s'.maps, q) && q != p'
      ensures q in l && q != p
    {
      assert q != p ==> SameChunk(s, s', q);
    }
  }

  lemma AfterStore(s: State, s': State, l: Ledger, p: int, k: nat, v: int)
    requires Agrees(s, l) && p in l && k < |l[p]| && SameElse(s, s', p) && s'.maps == s.maps
    requires s'.mem == s.mem[p + 8 * k := v]
    ensures SameOutside(s, s') && Agrees(s', l[p := l[p][k := v]])
  {
    forall q | q in l && q != p
      ensures HoldsWords(s', q, l[q])
    {
      assert SameChunk(s, s', q);
      KeptWords(s, s', q, l[q]);
    }
  }

  lemma SameAgrees(s: State, s': State, l: Ledger)
    requires Agrees(s, l) && s'.mem == s.mem && s'.maps == s.maps
    ensures SameOutside(s, s') && Agrees(s', l)
  {
    forall p | p in l ensures HoldsWords(s', p, l[p]) { assert HoldsWords(s, p, l[p]); }
  }

  /** What a step answers in state `s`: memory is granted exactly when it is not refused, and a chunk moves
      exactly when it is too short and a longer one is granted. */
  ghost predicate Answered(s: State, l: Ledger, op: Op, res: int) {
    match op
    case Malloc(size, os) => res == 0 <==> Refused(s, size, os)
    case Realloc(p, size, os) =>
      if p == 0 then res == 0 <==> Refused(s, size, os)
      else if size == 0 then res == 0
      else p in l && (res != p <==> 8 * |l[p]| < size && !Refused(s, size, os)) && (res != p ==> res != 0)
    case _ => res == 0
  }

  /** One client step on the real allocator follows the ideal heap. */
  method Perform(h: DfxAllocator, op: Op, ghost l: Ledger) returns (res: int)
    requires h.Valid() && Agrees(h.Snap(), l) && Legal(l, op)
    modifies h
    ensures h.Valid() && Agrees(h.Snap(), Apply(l, op, res)) && SameOutside(old(h.Snap()), h.Snap())
    ensures Answered(old(h.Snap()), l, op, res)
  {
    hide Inv, Issued, Moved, Freed, Agrees, Core, SameOutside;
    res := 0;
    ghost var s := h.Snap();
    match op
    case Malloc(size, os) =>
      res := h.DfxAlloc(size, os);
      Grown(s, h.Snap(), l, size, res);
    case Free(p) =>
      HeldIsLive(s, l, p);
      NeverNull(h, l);
      h.DfxFree(p);
      if p != 0 { AfterFree(s, h.Snap(), l, p); } else { assert l - {p} == l; SameAgrees(s, h.Snap(), l); }
    case Realloc(p, size, os) =>
      HeldIsLive(s, l, p);
      res := h.DfxRealloc(p, size, os);
      if p != 0 { HeldSize(s, l, p); }
      if p == 0 {
        Grown(s, h.Snap(), l, size, res);
      } else if size == 0 || res == p {
        SameAgrees(s, h.Snap(), l);
      } else {
        CapacityIsLeast(size);
        WordAligned(Capacity(size), 0);
        AfterMove(s, h.Snap(), l, p, res, Capacity(size));
      }
    case Store(p, k, v) =>
      HeldIsLive(s, l, p);
      PutWord(h, p, k, v, l);
  }

  /** The client writes word `k` of a chunk it holds. */
  method PutWord(h: DfxAllocator, p: int, k: nat, v: int, ghost l: Ledger)
    requires h.Valid() && Agrees(h.Snap(), l) && p in l && k < |l[p]|
    modifies h
    ensures h.Valid() && Agrees(h.Snap(), l[p := l[p][k := v]]) && SameOutside(old(h.Snap()), h.Snap())
  {
    hide Core, Balance, SameElse;
    ghost var s := h.Snap();
    assert HoldsWords(s, p, l[p]);
    InitWhenHeld(h, p);
    LiveMapped(s, p);
    LiveAligned(s, p, k);
    h.Write(p + 8 * k, v);
    ClientWrite(s, h.Snap(), p);
    AfterStore(s, h.Snap(), l, p, k, v);
  }

  lemma InitWhenHeld(h: DfxAllocator, p: int)
    requires h.Valid() && Live(h.maps, p)
    ensures h.initFlag && Inv(h.Snap())
  {
  }

  lemma LiveAligned(s: State, p: int, k: nat)
    requires Inv(s) && Live(s.maps, p)
    ensures (p + 8 * k) % 8 == 0
  {
    hide Core, Balance;
    CoreIsRegions(s);
    LiveBounds(s, p);
    WordAligned(p, k);
  }

  lemma WordAligned(p: int, k: int)
    requires p % ALIGN == 0
    ensures (p + 8 * k) % 8 == 0
  {
    assert p + 8 * k == 8 * (2 * (p / ALIGN) + k);
  }

  lemma HeldIsLive(s: State, l: Ledger, p: int)
    requires Agrees(s, l)
    ensures p in l <==> Live(s.maps, p)
  {
  }

  lemma HeldSize(s: State, l: Ledger, p: int)
    requires Agrees(s, l) && p in l
    ensures Live(s.maps, p) && ChunkSize(s.maps, p) == 8 * |l[p]|
  {
    assert HoldsWords(s, p, l[p]);
  }

  lemma NeverNull(h: DfxAllocator, l: Ledger)
    requires h.Valid() && Agrees(h.Snap(), l)
    ensures 0 !in l
  {
    if 0 in l {
      assert Live(h.maps, 0);
      InitWhenHeld(h, 0);
      LivePositive(h.Snap(), 0);
    }
  }

  lemma Grown(s: State, s': State, l: Ledger, size: nat, res: int)
    requires Agrees(s, l)
    requires if res == 0 then s'.mem == s.mem && s'.maps == s.maps else Issued(s, s', res, Capacity(size))
    ensures SameOutside(s, s') && Agrees(s', if res == 0 then l else l[res := Repeat(0, Capacity(size) / 8)])
  {
    hide Agrees, Issued, Capacity, SameOutside;
    if res == 0 {
      SameAgrees(s, s', l);
    } else {
      CapacityIsLeast(size);
      WordAligned(Capacity(size), 0);
      AfterIssue(s, s', l, res, Capacity(size));
    }
  }

  /** Any run from start-up: whatever the kernel answers and however the client mixes its steps,
      the chunks it holds are aligned, disjoint and hold exactly what the ideal heap says, and memory that
      is not the allocator's stays as it is. */
  method Execute(h: DfxAllocator, ops: seq<Op>) returns (results: seq<int>, ledger: Ledger, ghost states: seq<State>)
    requires h.Valid() && h.maps == map[]
    modifies h
    ensures h.Valid() && |results| == |ops| && ledger == Replay(ops, results) && Agrees(h.Snap(), ledger)
    ensures forall p :: p in ledger ==> p > 0 && p % ALIGN == 0
    ensures forall p, q :: p in ledger && q in ledger && p != q ==> Disjoint(p, 8 * |ledger[p]|, q, 8 * |ledger[q]|)
    ensures SameOutside(old(h.Snap()), h.Snap())
    ensures |states| == |ops| + 1 && states[0] == old(h.Snap()) && states[|ops|] == h.Snap()
    ensures forall i :: 0 <= i < |ops| ==> StepOk(ops, results, states, i)
  {
    hide SameOutside, Agrees, Answered;
    OutsideItself(h.Snap());
    results, ledger, states := [], map[], [h.Snap()];
    NoneHeld(h.Snap());
    for i := 0 to |ops|
      invariant h.Valid() && |results| == i && ledger == Replay(ops[..i], results) && Agrees(h.Snap(), ledger)
      invariant SameOutside(old(h.Snap()), h.Snap())
      invariant |states| == i + 1 && states[0] == old(h.Snap()) && states[i] == h.Snap()
      invariant forall j :: 0 <= j < i ==> StepOk(ops, results, states, j)
    {
      var res := 0;
      ghost var s := h.Snap();
      OutsideItself(s);
      if Legal(ledger, ops[i]) { res := Perform(h, ops[i], ledger); }
      OutsideOn(old(h.Snap()), s, h.Snap());
      ledger := Apply(ledger, ops[i], res);
      results, states := results + [res], states + [h.Snap()];
      ReplayStep(ops, results, i);
      StepsOn(ops, results, states, i);
    }
    assert ops[..|ops|] == ops;
    LedgerSound(h, ledger);
  }

  /** Step `i` of a run, from `states[i]` to the next state. */
  ghost predicate StepOk(ops: seq<Op>, results: seq<int>, states: seq<State>, i: nat)
    requires i < |ops| && i < |results| && i + 1 < |states|
  {
    var l := Replay(ops[..i], results[..i]);
    Agrees(states[i], l) && if Legal(l, ops[i]) then Answered(states[i], l, ops[i], results[i]) else states[i + 1] == states[i]
  }

  lemma StepsOn(ops: seq<Op>, results: seq<int>, states: seq<State>, i: nat)
    requires i < |ops| && |results| == i + 1 && |states| == i + 2
    requires var rs, ss := results[..i], states[..i + 1]; forall j :: 0 <= j < i ==> StepOk(ops, rs, ss, j)
    requires StepOk(ops, results, states, i)
    ensures forall j :: 0 <= j < i + 1 ==> StepOk(ops, results, states, j)
  {
    forall j | 0 <= j < i
      ensures StepOk(ops, results, states, j)
    {
      var rs, ss := results[..i], states[..i + 1];
      assert StepOk(ops, rs, ss, j);
      assert rs[..j] == results[..j];
    }
  }

  lemma NoneHeld(s: State)
    requires s.maps == map[]
    ensures Agrees(s, map[])
  {
  }

  lemma ReplayStep(ops: seq<Op>, results: seq<int>, i: nat)
    requires i < |ops| && |results| == i + 1
    ensures Replay(ops[..i + 1], results) == Apply(Replay(ops[..i], results[..i]), ops[i], results[i])
  {
    assert ops[..i + 1][..i] == ops[..i];
  }

  lemma LedgerSound(h: DfxAllocator, l: Ledger)
    requires h.Valid() && Agrees(h.Snap(), l)
    ensures forall p :: p in l ==> p > 0 && p % ALIGN == 0
    ensures forall p, q :: p in l && q in l && p != q ==> Disjoint(p, 8 * |l[p]|, q, 8 * |l[q]|)
  {
    forall p | p in l
      ensures p > 0 && p % ALIGN == 0
    {
      InitWhenHeld(h, p);
      LivePositive(h.Snap(), p);
      LiveBounds(h.Snap(), p);
    }
    forall p, q | p in l && q in l && p != q
      ensures Disjoint(p, 8 * |l[p]|, q, 8 * |l[q]|)
    {
      InitWhenHeld(h, p);
      assert HoldsWords(h.Snap(), p, l[p]) && HoldsWords(h.Snap(), q, l[q]);
      LiveChunksDisjoint(h.Snap(), p, q);
    }
  }
}
