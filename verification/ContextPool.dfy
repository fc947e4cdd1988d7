/** DfxAsyncContextPool: contexts handed out first in, first out, and the stacks of current contexts
    per thread. Every operation runs under one lock. */
module ContextPool {
  import opened ContextPoolModel

  class AsyncContextPool {
    var initialized: bool
    var pool: array<Context>
    var freeListHead: Ref
    var freeListTail: Ref
    const threads: array<ThreadContext>
    var freeThreadList: Ref

    // Specification only: both free lists, and what was issued and returned since the last Init
    ghost var free: seq<nat>
    ghost var freeThreads: seq<nat>
    ghost var issued: seq<nat>
    ghost var returned: seq<nat>

    ghost predicate Valid()
      reads this, pool, threads
    {
      && threads.Length == THREAD_POOL_SIZE
      && (initialized ==>
            && PoolOk(pool[..], freeListHead, freeListTail, free)
            && ThreadsOk(threads[..], freeThreadList, freeThreads)
            && Fifo(issued, returned, free, pool.Length))
    }

    constructor ()
      ensures Valid() && !initialized && fresh(pool) && fresh(threads)
    {
      initialized, freeListHead, freeListTail, freeThreadList := false, Null, Null, Null;
      pool := new Context[0];
      threads := new ThreadContext[THREAD_POOL_SIZE](i => ThreadContext([], Null, false, 0));
      free, freeThreads, issued, returned := [], [], [], [];
    }

    /** Init: a chain through zeroed contexts, all of them free. `mapped` is whether mmap succeeds. */
    method Init(size: nat, mapped: bool) returns (ok: bool)
      requires Valid()
      modifies this, threads
      ensures Valid() && ok == (old(initialized) || (size > 0 && mapped)) && initialized == ok
      ensures !ok ==> pool == old(pool)
      ensures old(initialized) ==> pool == old(pool) && free == old(free) && issued == old(issued) && returned == old(returned)
      ensures old(initialized) ==> threads[..] == old(threads[..])
      ensures ok && !old(initialized) ==>
        && fresh(pool) && pool.Length == size && free == UpTo(size) && issued == [] && returned == []
        && freeThreads == UpTo(THREAD_POOL_SIZE)
    {
      hide PoolOk, ThreadsOk, Fifo;
      if initialized { return true; }
      if size == 0 || !mapped { return false; }
      pool := FreshPool(size);
      freeListHead, freeListTail := At(0), At(size - 1);
      free, issued, returned := UpTo(size), [], [];
      InitThreads();
      initialized := true;
      ok := true;
    }

    /** The mapping of the pool, which is zero, and its links. */
    static method FreshPool(size: nat) returns (pool: array<Context>)
      requires size > 0
      ensures fresh(pool) && pool.Length == size
      ensures PoolOk(pool[..], At(0), At(size - 1), UpTo(size)) && Fifo([], [], UpTo(size), size)
    {
      pool := new Context[size](i => Context(Null, false, Zeros(MAX_ASYNC_CHAIN_LAYERS_LIMIT)));
      for i := 0 to size - 1
        invariant forall k :: 0 <= k < i ==> pool[k] == FreshContext(k, size)
        invariant forall k :: i <= k < size ==> pool[k].ctxs == Zeros(MAX_ASYNC_CHAIN_LAYERS_LIMIT)
      {
        pool[i] := Context(At(i + 1), false, pool[i].ctxs);
      }
      pool[size - 1] := Context(Null, false, pool[size - 1].ctxs);
      FreshPoolOk(pool[..], size);
    }

    method InitThreads()
      requires threads.Length == THREAD_POOL_SIZE
      modifies threads, this`freeThreadList, this`freeThreads
      ensures ThreadsOk(threads[..], freeThreadList, freeThreads) && freeThreads == UpTo(THREAD_POOL_SIZE)
    {
      freeThreadList := At(0);
      for i := 0 to THREAD_POOL_SIZE
        invariant freeThreadList == At(0)
        invariant forall k :: 0 <= k < i ==> threads[k] == FreshThread(k)
      {
        threads[i] := FreshThread(i);
      }
      freeThreads := UpTo(THREAD_POOL_SIZE);
      FreshThreads(threads[..]);
    }

    /** DeInit: the pool is unmapped. */
    method DeInit()
      requires Valid()
      modifies this
      ensures Valid() && !initialized && (old(initialized) ==> fresh(pool) && pool.Length == 0)
      ensures !old(initialized) ==> pool == old(pool)
    {
      if !initialized { return; }
      initialized := false;
      pool := new Context[0];
      freeListHead, freeListTail := Null, Null;
    }

    predicate IsValidAsyncContextLocked(ctx: Ref)
      reads this, pool
    {
      initialized && ctx.At? && ctx.i < pool.Length && pool[ctx.i].valid
    }

    predicate IsValidThreadContextLocked(thread: Ref)
      reads this, threads
    {
      initialized && thread.At? && thread.i < threads.Length && threads[thread.i].valid
    }

    // ---- Acquire and release ----

    /** ReleaseAsyncContext: a held context is emptied and becomes the last of the free ones; anything
        else, also a context released before, is ignored. */
    method ReleaseAsyncContext(ctx: Ref)
      requires Valid()
      modifies this`freeListTail, this`free, this`returned, pool
      ensures Valid()
      ensures !old(IsValidAsyncContextLocked(ctx)) ==>
        pool[..] == old(pool[..]) && free == old(free) && freeListTail == old(freeListTail) && returned == old(returned)
      ensures old(IsValidAsyncContextLocked(ctx)) ==>
        && free == old(free) + [ctx.i] && returned == old(returned) + [ctx.i]
        && pool[ctx.i].ctxs == Zeros(MAX_ASYNC_CHAIN_LAYERS_LIMIT)
        && forall x :: 0 <= x < pool.Length && x != ctx.i ==>
             pool[x].valid == old(pool[x].valid) && pool[x].ctxs == old(pool[x].ctxs)
    {
      hide PoolOk, ThreadsOk, Fifo;
      if !IsValidAsyncContextLocked(ctx) { return; }
      ghost var before := pool[..];
      PutLast(before, freeListHead, freeListTail, free, ctx.i);
      FifoPut(issued, returned, free, pool.Length, ctx.i);
      pool[ctx.i] := pool[ctx.i].(ctxs := Zeros(MAX_ASYNC_CHAIN_LAYERS_LIMIT));
      pool[freeListTail.i] := pool[freeListTail.i].(next := ctx);
      ghost var l := freeListTail.i;
      freeListTail := ctx;
      pool[ctx.i] := pool[ctx.i].(valid := false);
      pool[ctx.i] := pool[ctx.i].(next := Null);
      free, returned := free + [ctx.i], returned + [ctx.i];
      assert pool[..] == before[l := before[l].(next := ctx)][ctx.i := Context(Null, false, Zeros(MAX_ASYNC_CHAIN_LAYERS_LIMIT))];
    }

    /** AcquireAndInitAsyncContext: the first free context, as long as one more is free, holding its own
        entry and then the chain of the thread's current context. */
    method AcquireAndInitAsyncContext(thread: Ref, stackId: nat, asyncType: nat, layers: nat) returns (ctx: Ref)
      requires Valid() && 0 < layers <= MAX_ASYNC_CHAIN_LAYERS_LIMIT
      modifies this`freeListHead, this`free, this`issued, pool
      ensures Valid()
      ensures ctx.Null? <==> !initialized || |old(free)| == 1
      ensures ctx.Null? ==> pool[..] == old(pool[..]) && free == old(free) && freeListHead == old(freeListHead) && issued == old(issued)
      ensures ctx.At? ==>
        && ctx.i == old(free)[0] && ctx.i < pool.Length && !old(pool[..])[ctx.i].valid
        && free == old(free)[1..] && issued == old(issued) + [ctx.i]
        && pool[..] == old(pool[..])[ctx.i := Context(old(pool[..])[ctx.i].next, true,
             NewArray(old(pool[..]), threads[..], thread, ctx.i, AsyncCtx(asyncType, stackId), layers - 1))]
    {
      hide PoolOk, Fifo, NewArray, ThreadsOk;
      if !initialized { return Null; }
      OneLeft(pool[..], freeListHead, freeListTail, free);
      if freeListHead == freeListTail { return Null; }
      ctx := freeListHead;
      ghost var before := pool[..];
      var own := AsyncCtx(asyncType, stackId);
      ghost var array' := NewArray(before, threads[..], thread, ctx.i, own, layers - 1);
      NewLength(before, threads[..], thread, ctx.i, own, layers - 1);
      TakeFirst(before, freeListHead, freeListTail, free, array');
      FifoTake(issued, returned, free, pool.Length);
      ghost var tail := free[1..];
      freeListHead := pool[freeListHead.i].next;
      pool[ctx.i] := pool[ctx.i].(valid := true);
      pool[ctx.i] := pool[ctx.i].(ctxs := pool[ctx.i].ctxs[0 := own]);
      free, issued := tail, issued + [ctx.i];
      assert pool[..] == before[ctx.i := Context(before[ctx.i].next, true, Zeros(MAX_ASYNC_CHAIN_LAYERS_LIMIT)[0 := own])];
      Inherits(thread, ctx.i, own, layers, before);
    }

    /** The part of AcquireAndInitAsyncContext that looks for a chain to copy. */
    method Inherits(thread: Ref, c: nat, own: AsyncCtx, layers: nat, ghost before: seq<Context>)
      requires initialized && threads.Length == THREAD_POOL_SIZE && ThreadsOk(threads[..], freeThreadList, freeThreads)
      requires 0 < layers <= MAX_ASYNC_CHAIN_LAYERS_LIMIT && c < pool.Length && |before| == pool.Length && !before[c].valid
      requires before[c].ctxs == Zeros(MAX_ASYNC_CHAIN_LAYERS_LIMIT)
      requires forall x :: 0 <= x < |before| ==> |before[x].ctxs| == MAX_ASYNC_CHAIN_LAYERS_LIMIT
      requires pool[..] == before[c := Context(before[c].next, true, Zeros(MAX_ASYNC_CHAIN_LAYERS_LIMIT)[0 := own])]
      modifies pool
      ensures pool[..] == before[c := Context(before[c].next, true, NewArray(before, threads[..], thread, c, own, layers - 1))]
    {
      hide Zeros, Inherit, Echo;
      NothingInherited(own, layers - 1);
      if !IsValidThreadContextLocked(thread) || threads[thread.i].count <= 0 ||
         threads[thread.i].count > MAX_THREAD_ASYNC_CTX_DEPTH {
        return;
      }
      assert ThreadOk(threads[..][thread.i], thread.i in freeThreads);
      var cur := threads[thread.i].contexts[threads[thread.i].count - 1];
      if !IsValidAsyncContextLocked(cur) { return; }
      CopyChain(c, cur.i, own, layers - 1);
    }

    /** The copying loop, which reads what it writes when the two contexts are one. */
    method CopyChain(c: nat, cur: nat, own: AsyncCtx, copyLimit: nat)
      requires c < pool.Length && cur < pool.Length && copyLimit < MAX_ASYNC_CHAIN_LAYERS_LIMIT
      requires |pool[cur].ctxs| == MAX_ASYNC_CHAIN_LAYERS_LIMIT
      requires pool[c].ctxs == Zeros(MAX_ASYNC_CHAIN_LAYERS_LIMIT)[0 := own]
      modifies pool
      ensures pool[..] == old(pool[..])[c := old(pool[c]).(ctxs :=
        if cur == c then Echo(own, copyLimit) else Inherit(own, old(pool[cur]).ctxs, copyLimit))]
    {
      hide Zeros, Inherit, Echo, Partial;
      var i := 0;
      ghost var src := pool[cur].ctxs;
      PartialNone(own, src, cur == c);
      while i < copyLimit && pool[cur].ctxs[i].id != 0
        invariant i <= copyLimit && |pool[cur].ctxs| == MAX_ASYNC_CHAIN_LAYERS_LIMIT
        invariant cur != c ==> pool[cur].ctxs == src && forall k :: 0 <= k < i ==> src[k].id != 0
        invariant cur == c && own.id == 0 ==> i == 0
        invariant pool[c] == old(pool[c]).(ctxs := Partial(own, src, i, cur == c))
        invariant forall x :: 0 <= x < pool.Length && x != c ==> pool[x] == old(pool[x])
      {
        PartialStep(own, src, i, cur == c);
        pool[c] := pool[c].(ctxs := pool[c].ctxs[i + 1 := pool[cur].ctxs[i]]);
        i := i + 1;
      }
      PartialDone(own, src, i, copyLimit, cur == c);
    }

    /** GetCurrentChainedContext: the current chain, as far as the buffer and the layer limit go. */
    method GetCurrentChainedContext(thread: Ref, buffer: array<AsyncCtx>, sz: nat, layers: nat) returns (count: nat)
      requires Valid() && sz <= buffer.Length && 0 < layers <= MAX_ASYNC_CHAIN_LAYERS_LIMIT
      modifies buffer
      ensures count <= sz && buffer[count..] == old(buffer[count..])
      ensures initialized ==>
        buffer[..count] == Chain(CurrentChain(pool[..], threads[..], thread), if sz > layers then layers else sz)
      ensures !initialized ==> count == 0
    {
      count := 0;
      if thread.Null? || sz == 0 { return; }
      if !IsValidThreadContextLocked(thread) || threads[thread.i].count <= 0 ||
         threads[thread.i].count > MAX_THREAD_ASYNC_CTX_DEPTH {
        return;
      }
      assert ThreadOk(threads[..][thread.i], thread.i in freeThreads);
      var ctx := threads[thread.i].contexts[threads[thread.i].count - 1];
      if !IsValidAsyncContextLocked(ctx) { return; }
      assert ContextOk(pool[..][ctx.i], ctx.i in free);
      var ctxs := pool[ctx.i].ctxs;
      var loopCount := if sz > layers then layers else sz;
      while count < loopCount && ctxs[count].id != 0
        invariant count <= loopCount && buffer[..count] == ctxs[..count] && buffer[count..] == old(buffer[count..])
        invariant forall k :: 0 <= k < count ==> ctxs[k].id != 0
      {
        buffer[count] := ctxs[count];
        count := count + 1;
      }
      ChainTo(ctxs, loopCount, count);
    }

    // ---- Threads ----

    /** AcquireThreadContext: the first free thread context, with an empty stack. */
    method AcquireThreadContext() returns (thread: Ref)
      requires Valid()
      modifies this`freeThreadList, this`freeThreads, threads
      ensures Valid()
      ensures thread.Null? <==> !initialized || old(freeThreads) == []
      ensures thread.Null? ==> threads[..] == old(threads[..]) && freeThreads == old(freeThreads)
      ensures thread.At? ==>
        && thread.i == old(freeThreads)[0] && freeThreads == old(freeThreads)[1..] && thread.i < THREAD_POOL_SIZE
        && threads[thread.i].valid && threads[thread.i].count == 0
        && forall x :: 0 <= x < THREAD_POOL_SIZE && x != thread.i ==> threads[x] == old(threads[x])
    {
      hide PoolOk, Fifo, ThreadsOk;
      if !initialized { return Null; }
      FirstThread(threads[..], freeThreadList, freeThreads);
      if freeThreadList.Null? { return Null; }
      thread := freeThreadList;
      var none := seq(MAX_THREAD_ASYNC_CTX_DEPTH, i => Null);
      ghost var before := threads[..];
      ThreadTaken(before, freeThreadList, freeThreads, none);
      freeThreadList := threads[freeThreadList.i].next;
      threads[thread.i] := threads[thread.i].(valid := true, count := 0, contexts := none);
      freeThreads := freeThreads[1..];
      assert threads[..] == before[thread.i := ThreadContext(none, before[thread.i].next, true, 0)];
    }

    /** ReleaseThreadContext. */
    method ReleaseThreadContext(thread: Ref)
      requires Valid()
      modifies this`freeThreadList, this`freeThreads, threads
      ensures Valid()
      ensures !old(IsValidThreadContextLocked(thread)) ==> threads[..] == old(threads[..]) && freeThreads == old(freeThreads)
      ensures old(IsValidThreadContextLocked(thread)) ==>
        && freeThreads == [thread.i] + old(freeThreads)
        && forall x :: 0 <= x < THREAD_POOL_SIZE && x != thread.i ==> threads[x] == old(threads[x])
    {
      hide PoolOk, Fifo, ThreadsOk;
      if !IsValidThreadContextLocked(thread) { return; }
      ghost var before := threads[..];
      ThreadGiven(before, freeThreadList, freeThreads, thread.i);
      threads[thread.i] := threads[thread.i].(valid := false, next := freeThreadList, count := 0);
      freeThreadList := thread;
      freeThreads := [thread.i] + freeThreads;
      assert threads[..] == before[thread.i := ThreadContext(before[thread.i].contexts, old(freeThreadList), false, 0)];
    }

    /** The current contexts of a held thread context, oldest first. */
    ghost function StackOf(thread: Ref): seq<Ref>
      requires Valid() && IsValidThreadContextLocked(thread)
      reads this, pool, threads
    {
      assert ThreadOk(threads[..][thread.i], thread.i in freeThreads);
      Stack(threads[thread.i])
    }

    /** PushContextToThread. */
    method PushContextToThread(thread: Ref, ctx: Ref) returns (ok: bool)
      requires Valid()
      modifies threads
      ensures Valid()
      ensures ok <==> (IsValidThreadContextLocked(thread) && |old(StackOf(thread))| < MAX_THREAD_ASYNC_CTX_DEPTH &&
                       IsValidAsyncContextLocked(ctx))
      ensures ok ==> StackOf(thread) == old(StackOf(thread)) + [ctx]
      ensures ok ==> forall x :: 0 <= x < THREAD_POOL_SIZE && x != thread.i ==> threads[x] == old(threads[x])
      ensures !ok ==> threads[..] == old(threads[..])
    {
      hide PoolOk, Fifo, ThreadsOk;
      ok := false;
      if !IsValidThreadContextLocked(thread) { return; }
      HeldThread(threads[..], freeThreadList, freeThreads, thread.i);
      if threads[thread.i].count >= MAX_THREAD_ASYNC_CTX_DEPTH { return; }
      if !IsValidAsyncContextLocked(ctx) { return; }
      ghost var before := threads[..];
      var t := threads[thread.i];
      var contexts := t.contexts[t.count := ctx];
      ThreadChanged(before, freeThreadList, freeThreads, thread.i, contexts, t.count + 1);
      threads[thread.i] := t.(contexts := contexts, count := t.count + 1);
      assert threads[..] == before[thread.i := t.(contexts := contexts, count := t.count + 1)];
      ok := true;
    }

    /** PopContextFromThread. */
    method PopContextFromThread(thread: Ref) returns (ok: bool)
      requires Valid()
      modifies threads
      ensures Valid()
      ensures ok <==> IsValidThreadContextLocked(thread) && old(StackOf(thread)) != []
      ensures ok ==> StackOf(thread) == old(StackOf(thread))[..|old(StackOf(thread))| - 1]
      ensures ok ==> forall x :: 0 <= x < THREAD_POOL_SIZE && x != thread.i ==> threads[x] == old(threads[x])
      ensures !ok ==> threads[..] == old(threads[..])
    {
      hide PoolOk, Fifo, ThreadsOk;
      ok := false;
      if !IsValidThreadContextLocked(thread) { return; }
      HeldThread(threads[..], freeThreadList, freeThreads, thread.i);
      if threads[thread.i].count <= 0 { return; }
      SetCount(thread.i, threads[thread.i].count - 1);
      ok := true;
    }

    method SetCount(i: nat, count: int)
      requires Valid() && initialized && i < THREAD_POOL_SIZE && threads[i].valid && 0 <= count <= threads[i].count
      modifies threads
      ensures Valid() && threads[..] == old(threads[..])[i := old(threads[i]).(count := count)]
      ensures |threads[i].contexts| == MAX_THREAD_ASYNC_CTX_DEPTH
    {
      hide PoolOk, Fifo, ThreadsOk;
      ghost var before := threads[..];
      HeldThread(before, freeThreadList, freeThreads, i);
      ThreadChanged(before, freeThreadList, freeThreads, i, before[i].contexts, count);
      threads[i] := threads[i].(count := count);
      assert threads[..] == before[i := before[i].(contexts := before[i].contexts, count := count)];
    }

    /** PopContextFromThreadIfMatch: undoes the push of `ctx` when it is still on top. */
    method PopContextFromThreadIfMatch(thread: Ref, ctx: Ref) returns (ok: bool)
      requires Valid()
      modifies threads
      ensures Valid()
      ensures ok <==> (IsValidThreadContextLocked(thread) && old(StackOf(thread)) != [] &&
                       old(StackOf(thread))[|old(StackOf(thread))| - 1] == ctx)
      ensures ok ==> StackOf(thread) + [ctx] == old(StackOf(thread))
      ensures ok ==> forall x :: 0 <= x < THREAD_POOL_SIZE && x != thread.i ==> threads[x] == old(threads[x])
      ensures !ok ==> threads[..] == old(threads[..])
    {
      hide PoolOk, Fifo, ThreadsOk;
      ok := false;
      if !IsValidThreadContextLocked(thread) { return; }
      HeldThread(threads[..], freeThreadList, freeThreads, thread.i);
      if threads[thread.i].count <= 0 || threads[thread.i].count > MAX_THREAD_ASYNC_CTX_DEPTH { return; }
      if ctx != threads[thread.i].contexts[threads[thread.i].count - 1] { return; }
      SetCount(thread.i, threads[thread.i].count - 1);
      ok := true;
    }

    /** ClearThreadContext. */
    method ClearThreadContext(thread: Ref) returns (ok: bool)
      requires Valid()
      modifies threads
      ensures Valid() && ok == IsValidThreadContextLocked(thread)
      ensures ok ==> StackOf(thread) == []
      ensures ok ==> forall x :: 0 <= x < THREAD_POOL_SIZE && x != thread.i ==> threads[x] == old(threads[x])
      ensures !ok ==> threads[..] == old(threads[..])
    {
      hide PoolOk, Fifo, ThreadsOk;
      ok := false;
      if !IsValidThreadContextLocked(thread) { return; }
      HeldThread(threads[..], freeThreadList, freeThreads, thread.i);
      if threads[thread.i].count < 0 || threads[thread.i].count > MAX_THREAD_ASYNC_CTX_DEPTH { return; }
      SetCount(thread.i, 0);
      ok := true;
    }
  }

  // ---- Fresh pools ----

  function FreshContext(k: nat, size: nat): Context {
    Context(if k + 1 < size then At(k + 1) else Null, false, Zeros(MAX_ASYNC_CHAIN_LAYERS_LIMIT))
  }

  function FreshThread(k: nat): ThreadContext {
    ThreadContext(seq(MAX_THREAD_ASYNC_CTX_DEPTH, i => Null), if k + 1 < THREAD_POOL_SIZE then At(k + 1) else Null, false, 0)
  }

  lemma FreshPoolOk(pool: seq<Context>, size: nat)
    requires |pool| == size > 0 && forall k :: 0 <= k < size ==> pool[k] == FreshContext(k, size)
    ensures PoolOk(pool, At(0), At(size - 1), UpTo(size)) && Fifo([], [], UpTo(size), size)
  {
    forall x | 0 <= x < size ensures ContextOk(pool[x], x in UpTo(size)) { assert UpTo(size)[x] == x; }
  }

  lemma FreshThreads(threads: seq<ThreadContext>)
    requires |threads| == THREAD_POOL_SIZE && forall k :: 0 <= k < THREAD_POOL_SIZE ==> threads[k] == FreshThread(k)
    ensures ThreadsOk(threads, At(0), UpTo(THREAD_POOL_SIZE))
  {
    forall x | 0 <= x < THREAD_POOL_SIZE ensures ThreadOk(threads[x], x in UpTo(THREAD_POOL_SIZE)) { assert UpTo(THREAD_POOL_SIZE)[x] == x; }
  }

  // ---- What the invariants say about one element ----

  /** The test for exhaustion: head and tail meet exactly when one context is left. */
  lemma OneLeft(pool: seq<Context>, head: Ref, tail: Ref, free: seq<nat>)
    requires PoolOk(pool, head, tail, free)
    ensures free != [] && (head == tail <==> |free| == 1)
    ensures head == At(free[0]) && free[0] < |pool| && !pool[free[0]].valid
    ensures pool[free[0]].ctxs == Zeros(MAX_ASYNC_CHAIN_LAYERS_LIMIT)
    ensures forall x :: 0 <= x < |pool| ==> |pool[x].ctxs| == MAX_ASYNC_CHAIN_LAYERS_LIMIT
  {
    assert FreeLink(pool, free, 0);
    assert ContextOk(pool[free[0]], free[0] in free);
    forall x | 0 <= x < |pool| ensures |pool[x].ctxs| == MAX_ASYNC_CHAIN_LAYERS_LIMIT { assert ContextOk(pool[x], x in free); }
  }

  lemma FirstThread(threads: seq<ThreadContext>, head: Ref, free: seq<nat>)
    requires ThreadsOk(threads, head, free)
    ensures head.Null? <==> free == []
    ensures free != [] ==> head == At(free[0]) && free[0] < |threads|
  {
    if free != [] { assert ThreadLink(threads, free, 0); }
  }

  lemma HeldThread(threads: seq<ThreadContext>, head: Ref, free: seq<nat>, i: nat)
    requires ThreadsOk(threads, head, free) && i < |threads| && threads[i].valid
    ensures |threads[i].contexts| == MAX_THREAD_ASYNC_CTX_DEPTH && 0 <= threads[i].count <= MAX_THREAD_ASYNC_CTX_DEPTH
  {
    assert ThreadOk(threads[i], i in free);
  }

  lemma NewLength(pool: seq<Context>, threads: seq<ThreadContext>, thread: Ref, c: nat, own: AsyncCtx, n: nat)
    requires n < MAX_ASYNC_CHAIN_LAYERS_LIMIT
    ensures |NewArray(pool, threads, thread, c, own, n)| == MAX_ASYNC_CHAIN_LAYERS_LIMIT
  {
  }

  lemma NothingInherited(own: AsyncCtx, n: nat)
    requires n < MAX_ASYNC_CHAIN_LAYERS_LIMIT
    ensures Inherit(own, [], n) == Zeros(MAX_ASYNC_CHAIN_LAYERS_LIMIT)[0 := own]
  {
  }

  // ---- The copying loop ----

  /** The array after copying `i` entries of `src`, or of itself. */
  ghost function Partial(own: AsyncCtx, src: seq<AsyncCtx>, i: nat, same: bool): (r: seq<AsyncCtx>)
    requires i < MAX_ASYNC_CHAIN_LAYERS_LIMIT && (!same ==> i <= |src|)
    ensures |r| == MAX_ASYNC_CHAIN_LAYERS_LIMIT && (same ==> r[i] == own)
  {
    (if same then seq(i + 1, k => own) else [own] + src[..i]) + Zeros(MAX_ASYNC_CHAIN_LAYERS_LIMIT - 1 - i)
  }

  lemma PartialNone(own: AsyncCtx, src: seq<AsyncCtx>, same: bool)
    ensures Partial(own, src, 0, same) == Zeros(MAX_ASYNC_CHAIN_LAYERS_LIMIT)[0 := own]
  {
  }

  lemma PartialStep(own: AsyncCtx, src: seq<AsyncCtx>, i: nat, same: bool)
    requires i + 1 < MAX_ASYNC_CHAIN_LAYERS_LIMIT && (!same ==> i < |src|)
    ensures var a := Partial(own, src, i, same);
      Partial(own, src, i + 1, same) == a[i + 1 := if same then a[i] else src[i]]
  {
  }

  lemma PartialDone(own: AsyncCtx, src: seq<AsyncCtx>, i: nat, n: nat, same: bool)
    requires i <= n < MAX_ASYNC_CHAIN_LAYERS_LIMIT && |src| == MAX_ASYNC_CHAIN_LAYERS_LIMIT
    requires i == n || (if same then own.id == 0 else src[i].id == 0)
    requires !same ==> forall k :: 0 <= k < i ==> src[k].id != 0
    requires same && own.id == 0 ==> i == 0
    ensures Partial(own, src, i, same) == if same then Echo(own, n) else Inherit(own, src, n)
  {
    if !same { ChainTo(src, n, i); }
  }
}
