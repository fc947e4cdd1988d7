/** Whole runs of the context pool. */
module ContextPoolRuns {
  import opened ContextPoolModel
  import opened ContextPool

  datatype Op =
    | SetUp(size: nat, mapped: bool)
    | TearDown
    | Acquire(thread: Ref, stackId: nat, asyncType: nat, layers: nat)
    | Release(ctx: Ref)
    | TakeThread
    | GiveThread(thread: Ref)
    | Push(thread: Ref, ctx: Ref)
    | Pop(thread: Ref)
    | PopIfMatch(thread: Ref, ctx: Ref)
    | Clear(thread: Ref)

  ghost predicate OpOk(op: Op) { op.Acquire? ==> 0 < op.layers <= MAX_ASYNC_CHAIN_LAYERS_LIMIT }

  method Step(p: AsyncContextPool, op: Op)
    requires p.Valid() && OpOk(op)
    modifies p, p.pool, p.threads
    ensures p.Valid() && (p.pool == old(p.pool) || fresh(p.pool))
    ensures old(p.initialized) && !op.TearDown? ==>
      p.initialized && p.pool == old(p.pool) && old(p.issued) <= p.issued && old(p.returned) <= p.returned
  {
    hide PoolOk, ThreadsOk, Fifo, NewArray;
    match op
    case SetUp(size, mapped) => var ok := p.Init(size, mapped);
    case TearDown => p.DeInit();
    case Acquire(thread, id, kind, layers) => var c := p.AcquireAndInitAsyncContext(thread, id, kind, layers);
    case Release(ctx) => p.ReleaseAsyncContext(ctx);
    case TakeThread => var t := p.AcquireThreadContext();
    case GiveThread(thread) => p.ReleaseThreadContext(thread);
    case Push(thread, ctx) => var ok := p.PushContextToThread(thread, ctx);
    case Pop(thread) => var ok := p.PopContextFromThread(thread);
    case PopIfMatch(thread, ctx) => var ok := p.PopContextFromThreadIfMatch(thread, ctx);
    case Clear(thread) => var ok := p.ClearThreadContext(thread);
  }

  /** Every run of a new pool, with any number of set-ups and tear-downs on the way; when it is set up at
      the end: it is split into free and held contexts with at least one free, no context has two holders,
      and contexts come back into use in the order they were given back. */
  method Run(ops: seq<Op>) returns (p: AsyncContextPool)
    requires forall i :: 0 <= i < |ops| ==> OpOk(ops[i])
    ensures fresh(p) && p.Valid()
    ensures p.initialized ==> |p.free| >= 1 && |p.free| + |Outstanding(p.pool[..])| == p.pool.Length
    ensures p.initialized ==> forall x :: 0 <= x < p.pool.Length ==>
      multiset(p.issued)[x] == multiset(p.returned)[x] + if p.pool[x].valid then 1 else 0
    ensures p.initialized ==> p.issued + p.free == UpTo(p.pool.Length) + p.returned
  {
    hide PoolOk, ThreadsOk;
    p := new AsyncContextPool();
    for i := 0 to |ops|
      invariant fresh(p) && p.Valid() && fresh(p.pool) && fresh(p.threads)
    {
      Step(p, ops[i]);
    }
    if p.initialized {
      FreePlusOutstanding(p.pool[..], p.freeListHead, p.freeListTail, p.free);
      forall x | 0 <= x < p.pool.Length
        ensures multiset(p.issued)[x] == multiset(p.returned)[x] + if p.pool[x].valid then 1 else 0
      {
        OneHolder(p.pool[..], p.freeListHead, p.freeListTail, p.free, p.issued, p.returned, x);
      }
    }
  }

  /** A run in which a thread's top is the released context that is issued again: the new chain repeats
      its own entry although the thread has no current chain. */
  method StaleTop() returns (p: AsyncContextPool, c: nat)
    ensures p.Valid() && p.initialized && c < p.pool.Length
    ensures p.pool[c].valid && p.pool[c].ctxs[..3] == [AsyncCtx(1, 7), AsyncCtx(1, 7), AsyncCtx(0, 0)]
  {
    hide PoolOk, ThreadsOk, Fifo, NewArray, Top;
    var t, a;
    p, t, a := Submit();
    p.ReleaseAsyncContext(a);
    CycleTwo(p);
    ghost var before := p.pool[..];
    var d := p.AcquireAndInitAsyncContext(t, 7, 1, 2);
    c := d.i;
    EchoWhenTop(before, p.threads[..], t, c, AsyncCtx(1, 7), 1);
  }

  /** Two other contexts are held and released in turn, which brings the first one back to the head. */
  method CycleTwo(p: AsyncContextPool)
    requires p.Valid() && p.initialized && p.free == [1, 2, 0] && p.pool.Length == 3
    modifies p`freeListHead, p`freeListTail, p`free, p`issued, p`returned, p.pool
    ensures p.Valid() && p.free == [0, 1, 2]
  {
    hide PoolOk, ThreadsOk, Fifo, NewArray;
    var b := p.AcquireAndInitAsyncContext(Null, 6, 1, 2);
    p.ReleaseAsyncContext(b);
    b := p.AcquireAndInitAsyncContext(Null, 6, 1, 2);
    p.ReleaseAsyncContext(b);
  }

  /** A pool of three, the least that goes with two layers, with one context held and current on thread
      context `t`. */
  method Submit() returns (p: AsyncContextPool, t: Ref, a: Ref)
    ensures p.Valid() && p.initialized && fresh(p) && fresh(p.pool) && fresh(p.threads) && p.pool.Length == 3
    ensures a == At(0) && p.IsValidAsyncContextLocked(a) && p.free == [1, 2] && Top(p.threads[..], t) == a
  {
    hide PoolOk, ThreadsOk, Fifo, NewArray, Top;
    p := new AsyncContextPool();
    var ok := p.Init(3, true);
    t := p.AcquireThreadContext();
    a := p.AcquireAndInitAsyncContext(t, 5, 1, 2);
    ok := p.PushContextToThread(t, a);
    HeldThread(p.threads[..], p.freeThreadList, p.freeThreads, t.i);
    TopOfStack(p.threads[..], t, [], a);
  }

  /** What is pushed last is the current context. */
  lemma TopOfStack(threads: seq<ThreadContext>, thread: Ref, below: seq<Ref>, ctx: Ref)
    requires thread.At? && thread.i < |threads| && threads[thread.i].valid
    requires |threads[thread.i].contexts| == MAX_THREAD_ASYNC_CTX_DEPTH
    requires 0 <= threads[thread.i].count <= MAX_THREAD_ASYNC_CTX_DEPTH && Stack(threads[thread.i]) == below + [ctx]
    ensures Top(threads, thread) == ctx
  {
    var t := threads[thread.i];
    assert t.count == |below| + 1;
    assert t.contexts[t.count - 1] == Stack(t)[t.count - 1];
  }

  lemma EchoWhenTop(pool: seq<Context>, threads: seq<ThreadContext>, thread: Ref, c: nat, own: AsyncCtx, n: nat)
    requires n < MAX_ASYNC_CHAIN_LAYERS_LIMIT && Top(threads, thread) == At(c)
    ensures NewArray(pool, threads, thread, c, own, n) == Echo(own, n)
  {
  }
}
