/** Async contexts as data: the free list threaded through the pool, the per-thread stacks and the
    chains of submitter stacks that contexts carry. */
module ContextPoolModel {
  import opened Common

  const MAX_ASYNC_CHAIN_LAYERS_LIMIT := 17
  const MAX_THREAD_ASYNC_CTX_DEPTH := 64
  const THREAD_POOL_SIZE := 1024

  /** A pointer to an element of a pool; an index past its end is an address outside. */
  datatype Ref = Null | At(i: nat)

  datatype AsyncCtx = AsyncCtx(kind: nat, id: nat)

  datatype Context = Context(next: Ref, valid: bool, ctxs: seq<AsyncCtx>)

  datatype ThreadContext = ThreadContext(contexts: seq<Ref>, next: Ref, valid: bool, count: int)

  function Zeros(n: nat): seq<AsyncCtx> { Repeat(AsyncCtx(0, 0), n) }

  // ---- The free list ----

  ghost predicate Distinct(s: seq<nat>) { forall i, j :: 0 <= i < j < |s| ==> s[i] != s[j] }

  /** The link of the i-th free context leads to the next one. */
  ghost predicate FreeLink(pool: seq<Context>, free: seq<nat>, i: nat)
    requires i < |free|
  {
    free[i] < |pool| && pool[free[i]].next == if i + 1 < |free| then At(free[i + 1]) else Null
  }

  /** A context is invalid exactly when it is free; then it holds nothing of an earlier user. */
  ghost predicate ContextOk(c: Context, isFree: bool) {
    && |c.ctxs| == MAX_ASYNC_CHAIN_LAYERS_LIMIT && c.valid == !isFree
    && (isFree ==> c.ctxs == Zeros(MAX_ASYNC_CHAIN_LAYERS_LIMIT))
  }

  /** `free` lists, from head to tail, exactly the invalid contexts of the pool. */
  ghost predicate PoolOk(pool: seq<Context>, head: Ref, tail: Ref, free: seq<nat>) {
    && free != [] && Distinct(free)
    && (forall i :: 0 <= i < |free| ==> FreeLink(pool, free, i))
    && head == At(free[0]) && tail == At(free[|free| - 1])
    && (forall x :: 0 <= x < |pool| ==> ContextOk(pool[x], x in free))
  }

  /** Acquiring takes the first free context. */
  lemma TakeFirst(pool: seq<Context>, head: Ref, tail: Ref, free: seq<nat>, ctxs: seq<AsyncCtx>)
    requires PoolOk(pool, head, tail, free) && |free| > 1 && |ctxs| == MAX_ASYNC_CHAIN_LAYERS_LIMIT
    ensures free[0] < |pool| && free[1] < |pool| && free[0] !in free[1..] && pool[free[0]].next == At(free[1])
    ensures PoolOk(pool[free[0] := Context(At(free[1]), true, ctxs)], At(free[1]), tail, free[1..])
  {
    var c := free[0];
    assert FreeLink(pool, free, 0) && FreeLink(pool, free, 1);
    var pool' := pool[c := Context(At(free[1]), true, ctxs)];
    var rest := free[1..];
    forall i | 0 <= i < |rest| ensures FreeLink(pool', rest, i) { assert FreeLink(pool, free, i + 1); }
    forall x | 0 <= x < |pool'| ensures ContextOk(pool'[x], x in rest) { assert ContextOk(pool[x], x in free); }
  }

  /** Releasing appends to the list. */
  lemma PutLast(pool: seq<Context>, head: Ref, tail: Ref, free: seq<nat>, x: nat)
    requires PoolOk(pool, head, tail, free) && x < |pool| && pool[x].valid
    ensures tail.At? && tail.i < |pool| && tail.i != x
    ensures PoolOk(pool[tail.i := pool[tail.i].(next := At(x))][x := Context(Null, false, Zeros(MAX_ASYNC_CHAIN_LAYERS_LIMIT))],
                   head, At(x), free + [x])
  {
    assert ContextOk(pool[x], x in free) && FreeLink(pool, free, |free| - 1);
    var l := free[|free| - 1];
    var pool' := pool[l := pool[l].(next := At(x))][x := Context(Null, false, Zeros(MAX_ASYNC_CHAIN_LAYERS_LIMIT))];
    var more := free + [x];
    forall i | 0 <= i < |more|
      ensures FreeLink(pool', more, i)
    {
      if i < |free| { assert FreeLink(pool, free, i); }
    }
    forall y | 0 <= y < |pool'| ensures ContextOk(pool'[y], y in more) { assert ContextOk(pool[y], y in free); }
  }

  // ---- Counting ----

  ghost function Outstanding(pool: seq<Context>): set<nat> {
    set x: nat | x < |pool| && pool[x].valid
  }

  ghost function Below(n: nat): (s: set<nat>)
    ensures |s| == n && forall x: nat :: x in s <==> x < n
  {
    if n == 0 then {} else Below(n - 1) + {n - 1}
  }

  ghost function Elements(s: seq<nat>): set<nat> { set x | x in s }

  lemma {:induction false} DistinctCount(s: seq<nat>)
    requires Distinct(s)
    ensures |Elements(s)| == |s|
  {
    if s == [] {
    } else {
      DistinctCount(s[1..]);
      assert Elements(s) == Elements(s[1..]) + {s[0]};
    }
  }

  /** Free and outstanding contexts make up the pool; at least one stays free. */
  lemma FreePlusOutstanding(pool: seq<Context>, head: Ref, tail: Ref, free: seq<nat>)
    requires PoolOk(pool, head, tail, free)
    ensures |free| + |Outstanding(pool)| == |pool| && |free| >= 1
  {
    DistinctCount(free);
    forall x: nat | x < |pool| ensures x in Elements(free) <==> !pool[x].valid { assert ContextOk(pool[x], x in free); }
    forall x | x in Elements(free)
      ensures x < |pool|
    {
      var i :| 0 <= i < |free| && free[i] == x;
      assert FreeLink(pool, free, i);
    }
    assert Elements(free) + Outstanding(pool) == Below(|pool|);
    assert Elements(free) !! Outstanding(pool);
  }

  // ---- First in, first out ----

  ghost function UpTo(n: nat): seq<nat> { seq(n, i => i) }

  /** What was issued, followed by what is free, is the pool followed by what was returned. */
  ghost predicate Fifo(issued: seq<nat>, returned: seq<nat>, free: seq<nat>, size: nat) {
    issued + free == UpTo(size) + returned
  }

  lemma FifoTake(issued: seq<nat>, returned: seq<nat>, free: seq<nat>, size: nat)
    requires Fifo(issued, returned, free, size) && free != []
    ensures Fifo(issued + [free[0]], returned, free[1..], size)
  {
    assert issued + [free[0]] + free[1..] == issued + free;
  }

  lemma FifoPut(issued: seq<nat>, returned: seq<nat>, free: seq<nat>, size: nat, x: nat)
    requires Fifo(issued, returned, free, size)
    ensures Fifo(issued, returned + [x], free + [x], size)
  {
    assert issued + (free + [x]) == (issued + free) + [x];
    assert UpTo(size) + (returned + [x]) == (UpTo(size) + returned) + [x];
  }

  /** A context put back when `free` was the free list is the one issued after all of `free`. */
  lemma ReissuedInTurn(issued: seq<nat>, returned: seq<nat>, free: seq<nat>, size: nat, x: nat,
                       issued': seq<nat>, returned': seq<nat>, free': seq<nat>)
    requires Fifo(issued, returned, free, size) && Fifo(issued', returned', free', size)
    requires issued <= issued' && returned + [x] <= returned'
    ensures var turn := |issued| + |free|;
      && (|issued'| <= turn ==> issued' == issued + free[..|issued'| - |issued|])
      && (|issued'| > turn ==> issued'[..turn] == issued + free && issued'[turn] == x)
  {
    var turn := |issued| + |free|;
    var all, all' := UpTo(size) + returned, UpTo(size) + returned';
    assert |all| == turn && all + [x] <= all';
    assert all + [x] == UpTo(size) + (returned + [x]);
    assert forall k :: 0 <= k < |all| ==> all'[k] == all[k] && all'[k] == (issued + free)[k];
    assert all'[turn] == x;
    assert forall k :: 0 <= k < |issued'| ==> issued'[k] == all'[k] by {
      assert forall k :: 0 <= k < |issued'| ==> (issued' + free')[k] == issued'[k];
    }
  }

  /** Between two issues of a context lies a return: it never has two holders. */
  lemma OneHolder(pool: seq<Context>, head: Ref, tail: Ref, free: seq<nat>, issued: seq<nat>, returned: seq<nat>, x: nat)
    requires PoolOk(pool, head, tail, free) && Fifo(issued, returned, free, |pool|) && x < |pool|
    ensures multiset(issued)[x] == multiset(returned)[x] + if pool[x].valid then 1 else 0
  {
    assert ContextOk(pool[x], x in free);
    assert multiset(issued + free)[x] == multiset(UpTo(|pool|) + returned)[x];
    CountOnce(free, x);
    assert Distinct(UpTo(|pool|)) && UpTo(|pool|)[x] == x;
    CountOnce(UpTo(|pool|), x);
  }

  lemma {:induction false} CountOnce(s: seq<nat>, x: nat)
    requires Distinct(s)
    ensures multiset(s)[x] == if x in s then 1 else 0
  {
    if s != [] {
      CountOnce(s[1..], x);
      assert s == [s[0]] + s[1..];
      assert multiset(s) == multiset([s[0]]) + multiset(s[1..]);
    }
  }

  // ---- Chains ----

  /** The entries of `s` up to the first empty one, at most `n`. */
  function Chain(s: seq<AsyncCtx>, n: nat): seq<AsyncCtx> {
    if n == 0 || s == [] || s[0].id == 0 then [] else [s[0]] + Chain(s[1..], n - 1)
  }

  function First<T>(s: seq<T>, n: nat): seq<T> { if n < |s| then s[..n] else s }

  lemma {:induction false} ChainTo(s: seq<AsyncCtx>, n: nat, i: nat)
    requires i <= n && i <= |s| && forall k :: 0 <= k < i ==> s[k].id != 0
    requires i == n || i == |s| || s[i].id == 0
    ensures Chain(s, n) == s[..i]
  {
    if i > 0 {
      ChainTo(s[1..], n - 1, i - 1);
      assert s[..i] == [s[0]] + s[1..][..i - 1];
    }
  }

  lemma {:induction false} ChainBounds(s: seq<AsyncCtx>, n: nat)
    ensures |Chain(s, n)| <= n && |Chain(s, n)| <= |s| && Chain(s, n) == s[..|Chain(s, n)|]
    ensures forall k :: 0 <= k < |Chain(s, n)| ==> Chain(s, n)[k].id != 0
  {
    if !(n == 0 || s == [] || s[0].id == 0) { ChainBounds(s[1..], n - 1); }
  }

  /** A shorter limit cuts the chain. */
  lemma {:induction false} ChainCut(s: seq<AsyncCtx>, n: nat, m: nat)
    requires m <= n
    ensures Chain(s, m) == First(Chain(s, n), m)
  {
    if !(m == 0 || s == [] || s[0].id == 0) { ChainCut(s[1..], n - 1, m - 1); }
  }

  /** The array of a context whose submitter is `own` and whose ancestors are `src`'s chain. */
  function Inherit(own: AsyncCtx, src: seq<AsyncCtx>, n: nat): (r: seq<AsyncCtx>)
    requires n < MAX_ASYNC_CHAIN_LAYERS_LIMIT
    ensures |r| == MAX_ASYNC_CHAIN_LAYERS_LIMIT
  {
    ChainBounds(src, n);
    [own] + Chain(src, n) + Zeros(MAX_ASYNC_CHAIN_LAYERS_LIMIT - 1 - |Chain(src, n)|)
  }

  /** The array a context gets by copying from itself. */
  function Echo(own: AsyncCtx, n: nat): (r: seq<AsyncCtx>)
    requires n < MAX_ASYNC_CHAIN_LAYERS_LIMIT
    ensures |r| == MAX_ASYNC_CHAIN_LAYERS_LIMIT
  {
    if own.id == 0 then Inherit(own, [], n)
    else seq(n + 1, i => own) + Zeros(MAX_ASYNC_CHAIN_LAYERS_LIMIT - 1 - n)
  }

  /** The context on top of a thread's stack. */
  function Top(threads: seq<ThreadContext>, thread: Ref): Ref {
    if thread.At? && thread.i < |threads| && threads[thread.i].valid &&
       0 < threads[thread.i].count <= MAX_THREAD_ASYNC_CTX_DEPTH && |threads[thread.i].contexts| == MAX_THREAD_ASYNC_CTX_DEPTH
    then threads[thread.i].contexts[threads[thread.i].count - 1] else Null
  }

  /** What the thread's current context carries: nothing when the top context is no longer held. */
  function CurrentChain(pool: seq<Context>, threads: seq<ThreadContext>, thread: Ref): seq<AsyncCtx> {
    var top := Top(threads, thread);
    if top.At? && top.i < |pool| && pool[top.i].valid then pool[top.i].ctxs else []
  }

  /** What acquiring context `c` writes into it. */
  function NewArray(pool: seq<Context>, threads: seq<ThreadContext>, thread: Ref, c: nat, own: AsyncCtx, n: nat): seq<AsyncCtx>
    requires n < MAX_ASYNC_CHAIN_LAYERS_LIMIT
  {
    if Top(threads, thread) == At(c) then Echo(own, n) else Inherit(own, CurrentChain(pool, threads, thread), n)
  }

  /** The new context carries its own entry and the current chain, exactly unless the thread's top is
      the stale pointer to the very context being issued (and there is something to copy). */
  lemma ChainInherited(pool: seq<Context>, threads: seq<ThreadContext>, thread: Ref, c: nat, own: AsyncCtx, n: nat)
    requires n < MAX_ASYNC_CHAIN_LAYERS_LIMIT && c < |pool| && !pool[c].valid
    ensures NewArray(pool, threads, thread, c, own, n) == Inherit(own, CurrentChain(pool, threads, thread), n) <==>
      Top(threads, thread) != At(c) || own.id == 0 || n == 0
  {
    if Top(threads, thread) == At(c) && own.id != 0 && n > 0 {
      assert Echo(own, n)[1] == own;
      assert Inherit(own, [], n)[1] == AsyncCtx(0, 0);
    }
    if n == 0 { assert Echo(own, 0) == Inherit(own, [], 0); }
  }

  /** Reading the new context back gives the first layers of its own entry before the current chain. */
  lemma InheritedChain(own: AsyncCtx, src: seq<AsyncCtx>, layers: nat, n: nat)
    requires 0 < layers <= MAX_ASYNC_CHAIN_LAYERS_LIMIT && n <= layers && own.id != 0
    ensures Chain(Inherit(own, src, layers - 1), n) == First([own] + Chain(src, layers), n)
  {
    ChainBounds(src, layers - 1);
    ChainCut(src, layers, layers - 1);
    var a := Inherit(own, src, layers - 1);
    var k := 1 + |Chain(src, layers - 1)|;
    assert a[..k] == [own] + Chain(src, layers - 1);
    ChainTo(a, n, if k < n then k else n);
  }

  // ---- Threads ----

  ghost predicate ThreadLink(threads: seq<ThreadContext>, free: seq<nat>, i: nat)
    requires i < |free|
  {
    free[i] < |threads| && threads[free[i]].next == if i + 1 < |free| then At(free[i + 1]) else Null
  }

  /** A thread's stack stays within its bounds, and is empty while the thread context is free. */
  ghost predicate ThreadOk(t: ThreadContext, isFree: bool) {
    && |t.contexts| == MAX_THREAD_ASYNC_CTX_DEPTH && 0 <= t.count <= MAX_THREAD_ASYNC_CTX_DEPTH
    && t.valid == !isFree && (isFree ==> t.count == 0)
  }

  /** `free` lists exactly the thread contexts nobody holds. */
  ghost predicate ThreadsOk(threads: seq<ThreadContext>, head: Ref, free: seq<nat>) {
    && |threads| == THREAD_POOL_SIZE && Distinct(free)
    && (forall i :: 0 <= i < |free| ==> ThreadLink(threads, free, i))
    && head == (if free == [] then Null else At(free[0]))
    && (forall x :: 0 <= x < |threads| ==> ThreadOk(threads[x], x in free))
  }

  ghost function Stack(t: ThreadContext): seq<Ref>
    requires 0 <= t.count <= |t.contexts|
  {
    t.contexts[..t.count]
  }

  /** The current chain is the array of the context on top of the thread's stack, while that is held. */
  lemma CurrentChainIs(pool: seq<Context>, threads: seq<ThreadContext>, t: nat, below: seq<Ref>, ctx: Ref)
    requires t < |threads| && threads[t].valid && |threads[t].contexts| == 64 && 0 <= threads[t].count <= 64
    requires Stack(threads[t]) == below + [ctx]
    ensures ctx.At? && ctx.i < |pool| && pool[ctx.i].valid ==> CurrentChain(pool, threads, At(t)) == pool[ctx.i].ctxs
    ensures !(ctx.At? && ctx.i < |pool| && pool[ctx.i].valid) ==> CurrentChain(pool, threads, At(t)) == []
  {
    assert (below + [ctx])[|below|] == ctx;
  }

  /** A thread that pushed nothing, or has no context, carries nothing. */
  lemma NoCurrentChain(pool: seq<Context>, threads: seq<ThreadContext>, thread: Ref)
    requires thread.At? && thread.i < |threads| && threads[thread.i].valid ==> threads[thread.i].count <= 0
    ensures CurrentChain(pool, threads, thread) == []
  {
  }

  lemma ThreadTaken(threads: seq<ThreadContext>, head: Ref, free: seq<nat>, contexts: seq<Ref>)
    requires ThreadsOk(threads, head, free) && free != [] && |contexts| == MAX_THREAD_ASYNC_CTX_DEPTH
    ensures free[0] < |threads|
    ensures var t := threads[free[0]];
      ThreadsOk(threads[free[0] := ThreadContext(contexts, t.next, true, 0)], t.next, free[1..])
  {
    assert ThreadLink(threads, free, 0);
    var threads' := threads[free[0] := ThreadContext(contexts, threads[free[0]].next, true, 0)];
    var rest := free[1..];
    forall i | 0 <= i < |rest| ensures ThreadLink(threads', rest, i) { assert ThreadLink(threads, free, i + 1); }
    forall x | 0 <= x < |threads'| ensures ThreadOk(threads'[x], x in rest) { assert ThreadOk(threads[x], x in free); }
  }

  lemma ThreadGiven(threads: seq<ThreadContext>, head: Ref, free: seq<nat>, x: nat)
    requires ThreadsOk(threads, head, free) && x < |threads| && threads[x].valid
    ensures ThreadsOk(threads[x := ThreadContext(threads[x].contexts, head, false, 0)], At(x), [x] + free)
  {
    assert ThreadOk(threads[x], x in free);
    var threads' := threads[x := ThreadContext(threads[x].contexts, head, false, 0)];
    var more := [x] + free;
    forall i | 0 <= i < |more|
      ensures ThreadLink(threads', more, i)
    {
      if i > 0 { assert ThreadLink(threads, free, i - 1); }
    }
    forall y | 0 <= y < |threads'| ensures ThreadOk(threads'[y], y in more) { assert ThreadOk(threads[y], y in free); }
  }

  /** Stack changes of a held thread context. */
  lemma ThreadChanged(threads: seq<ThreadContext>, head: Ref, free: seq<nat>, x: nat, contexts: seq<Ref>, count: int)
    requires ThreadsOk(threads, head, free) && x < |threads| && threads[x].valid
    requires |contexts| == MAX_THREAD_ASYNC_CTX_DEPTH && 0 <= count <= MAX_THREAD_ASYNC_CTX_DEPTH
    ensures ThreadsOk(threads[x := threads[x].(contexts := contexts, count := count)], head, free)
  {
    assert ThreadOk(threads[x], x in free);
    var threads' := threads[x := threads[x].(contexts := contexts, count := count)];
    forall i | 0 <= i < |free| ensures ThreadLink(threads', free, i) { assert ThreadLink(threads, free, i); }
    forall y | 0 <= y < |threads'| ensures ThreadOk(threads'[y], y in free) { assert ThreadOk(threads[y], y in free); }
  }
}
