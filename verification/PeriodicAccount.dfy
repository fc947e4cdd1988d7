/** The account of all periodic tasks over a whole run: every task ever added is queued, or it is on
    record why not. */
module PeriodicAccount {
  import opened TimerModel
  import opened PeriodicModel
  import opened PeriodicTurns

  /** A call of `id` answered false. */
  ghost predicate Ended(calls: seq<Call>, id: nat) {
    exists k :: 0 <= k < |calls| && calls[k].id == id && !calls[k].beat.again
  }

  /** `id` was removed when `dropped[id]` calls had begun, and was not called since. */
  ghost predicate DroppedOk(p: Periodics, id: nat)
    requires id in p.dropped
  {
    1 <= id < p.nextId && p.dropped[id] <= |p.calls| && forall k :: p.dropped[id] <= k < |p.calls| ==> p.calls[k].id != id
  }

  /** `id` was discarded after a call whose callback had removed its own task, and was not called since. */
  ghost predicate LostOk(p: Periodics, id: nat)
    requires id in p.lost
  {
    && 1 <= id < p.nextId && id !in p.dropped && p.lost[id] < |p.calls| && Discards(p.calls[p.lost[id]])
    && forall k :: p.lost[id] <= k < |p.calls| ==> p.calls[k].id != id
  }

  /** The time of the last call of `id`, or `at` when there is none. */
  function LastTime(calls: seq<Call>, id: nat, at: nat): nat {
    if calls == [] then at
    else if calls[|calls| - 1].id == id then calls[|calls| - 1].at
    else LastTime(calls[..|calls| - 1], id, at)
  }

  /** How often `id` was called. */
  function Times(calls: seq<Call>, id: nat): nat {
    if calls == [] then 0 else Times(calls[..|calls| - 1], id) + if calls[|calls| - 1].id == id then 1 else 0
  }

  /** What a callback does the `n`-th time; when its list is at its end it answers false. */
  function BeatAt(beats: seq<Beat>, n: nat): Beat { if n < |beats| then beats[n] else Beat([], false) }

  function RestOf(beats: seq<Beat>, n: nat): seq<Beat> { if n < |beats| then beats[n..] else [] }

  /** A call comes when it is due: an interval after the last call of its task, or after the task was added;
      it does what the task was added to do that time; and it never follows an answer of false. */
  ghost predicate CallOk(p: Periodics, k: nat, now: nat)
    requires k < |p.calls|
  {
    var c := p.calls[k];
    && 1 <= c.id < p.nextId && c.id in p.born && c.due <= c.at <= now && c.interval == p.born[c.id].interval
    && c.due == LastTime(p.calls[..k], c.id, p.born[c.id].at) + c.interval * US_PER_S
    && c.beat == BeatAt(p.born[c.id].beats, Times(p.calls[..k], c.id))
    && forall j :: 0 <= j < k && p.calls[j].id == c.id ==> p.calls[j].beat.again
  }

  /** A queued task is due an interval after its last call, or after it was added. */
  ghost predicate QueuedOk(x: PeriodicTask, born: map<nat, Birth>, calls: seq<Call>) {
    && x.id in born && x.interval == born[x.id].interval
    && x.due == LastTime(calls, x.id, born[x.id].at) + x.interval * US_PER_S
    && x.beats == RestOf(born[x.id].beats, Times(calls, x.id))
  }

  /** A task is queued exactly when it was added and neither removed nor discarded nor has answered false. */
  ghost predicate Explained(p: Periodics, id: nat) {
    Queued(p.tasks, id) <==> 1 <= id < p.nextId && id !in p.dropped && id !in p.lost && !Ended(p.calls, id)
  }

  /** A callback that removed its own task cost another one its place, or went beyond what is defined. */
  ghost predicate QuitOk(calls: seq<Call>, lost: map<nat, nat>, undefined: bool, k: nat)
    requires k < |calls|
  {
    Quits(calls[k]) ==> undefined || exists id :: id in lost && lost[id] == k
  }

  ghost predicate QuitsOk(calls: seq<Call>, lost: map<nat, nat>, undefined: bool, until: nat) {
    && (forall k :: 0 <= k < |calls| && k < until ==> QuitOk(calls, lost, undefined, k))
    && (undefined ==> exists k :: 0 <= k < |calls| && Quits(calls[k]))
  }

  /** What is on record is sound. */
  ghost predicate Records(p: Periodics, now: nat) {
    && (forall id :: id in p.dropped ==> DroppedOk(p, id))
    && (forall id :: id in p.lost ==> LostOk(p, id))
    && (forall k :: 0 <= k < |p.calls| ==> CallOk(p, k, now))
    && (forall id :: id in p.born <==> 1 <= id < p.nextId)
  }

  ghost predicate Punctual(s: seq<PeriodicTask>, born: map<nat, Birth>, calls: seq<Call>, running: nat) {
    forall x :: x in s && x.id != running ==> QueuedOk(x, born, calls)
  }

  ghost predicate AllExplained(p: Periodics, running: nat) {
    && (forall id :: id != running || id == 0 ==> Explained(p, id))
    && (running > 0 ==> Running(p, running))
  }

  /** A task whose callback runs is queued exactly until the callback removes it. */
  ghost predicate Running(p: Periodics, id: nat) {
    && 1 <= id < p.nextId && id !in p.lost && (Queued(p.tasks, id) <==> id !in p.dropped)
    && p.calls != [] && p.calls[|p.calls| - 1].id == id
  }

  /** The books of the periodic queue; `running` is the task whose callback runs, or 0. */
  ghost predicate Books(p: Periodics, now: nat, running: nat) {
    && Records(p, now) && Punctual(p.tasks, p.born, p.calls, running) && AllExplained(p, running)
    && QuitsOk(p.calls, p.lost, p.undefined, if running > 0 && p.calls != [] then |p.calls| - 1 else |p.calls|)
  }

  lemma BooksAtFirst(now: nat)
    ensures Books(NoTasks(), now, 0)
  {
  }

  lemma BooksLater(p: Periodics, clock: nat, now: nat)
    requires Books(p, clock, 0) && clock <= now
    ensures Books(p, now, 0)
  {
    forall k | 0 <= k < |p.calls| ensures CallOk(p, k, now) { assert CallOk(p, k, clock); }
  }

  /** A task the two queues agree on. */
  lemma QueuedElse(s: seq<PeriodicTask>, s': seq<PeriodicTask>, id: nat)
    requires forall x: PeriodicTask :: x.id == id ==> (x in s <==> x in s')
    ensures Queued(s, id) <==> Queued(s', id)
  {
    if Queued(s, id) { var i :| 0 <= i < |s| && s[i].id == id; assert s[i] in s'; }
    if Queued(s', id) { var i :| 0 <= i < |s'| && s'[i].id == id; assert s'[i] in s; }
  }

  lemma NotQueued(s: seq<PeriodicTask>, id: nat)
    ensures Queued(s, id) <==> exists x :: x in s && x.id == id
  {
    if x :| x in s && x.id == id { var i :| 0 <= i < |s| && s[i] == x; }
  }

  /** A task is added under the next number. */
  lemma BooksAdd(p: Periodics, interval: nat, beats: seq<Beat>, now: nat, running: nat)
    requires Books(p, now, running) && PeriodicOk(p.tasks, p.nextId, now)
    ensures Books(AddedP(p, interval, beats, now), now, running)
  {
    hide InsertP, LaterP, PeriodicOk, QuitsOk, Explained, Running, Punctual, Records;
    if interval != 0 {
      var t, p', born := NewTask(p, interval, beats, now), AddedP(p, interval, beats, now), Birth(now, interval, beats);
      forall x ensures x in p'.tasks <==> x in p.tasks || x == t { InsertMembersP(p.tasks, LaterP(p.tasks, t.due), t, x); }
      InOrder(p, now);
      RecordsAdd(p, p', born, now);
      PunctualAdd(p, p', born, t, now, running);
      forall id | id != running || id == 0 ensures Explained(p', id) { ExplainedAdd(p, p', born, t, now, id); }
      if running > 0 { RunningAdd(p, p', born, t, running); }
    }
  }

  function Bearing(p: Periodics, tasks: seq<PeriodicTask>, born: Birth): Periodics {
    p.(tasks := tasks, nextId := p.nextId + 1, born := p.born[p.nextId := born])
  }

  lemma RecordsAdd(p: Periodics, p': Periodics, born: Birth, now: nat)
    requires Records(p, now) && p' == Bearing(p, p'.tasks, born) && p.nextId >= 1
    ensures Records(p', now)
  {
    forall id | id in p'.dropped ensures DroppedOk(p', id) { assert DroppedOk(p, id); }
    forall id | id in p'.lost ensures LostOk(p', id) { assert LostOk(p, id); }
    forall k | 0 <= k < |p'.calls| ensures CallOk(p', k, now) { assert CallOk(p, k, now); }
  }

  lemma PunctualAdd(p: Periodics, p': Periodics, born: Birth, t: PeriodicTask, now: nat, running: nat)
    requires Records(p, now) && Punctual(p.tasks, p.born, p.calls, running) && p' == Bearing(p, p'.tasks, born)
    requires t == PeriodicTask(born.at + born.interval * US_PER_S, p.nextId, born.interval, born.beats)
    requires forall x :: x in p'.tasks <==> x in p.tasks || x == t
    ensures Punctual(p'.tasks, p'.born, p'.calls, running)
  {
    forall k | 0 <= k < |p.calls| ensures p.calls[k].id != t.id { assert CallOk(p, k, now); }
    NeverCalled(p.calls, t.id, born.at);
    forall x | x in p'.tasks && x.id != running
      ensures QueuedOk(x, p'.born, p'.calls)
    {
      if x in p.tasks { assert QueuedOk(x, p.born, p.calls) && x.id != p.nextId; }
    }
  }

  lemma {:induction false} NeverCalled(calls: seq<Call>, id: nat, at: nat)
    requires forall k :: 0 <= k < |calls| ==> calls[k].id != id
    ensures LastTime(calls, id, at) == at && Times(calls, id) == 0
  {
    if calls != [] {
      var m := |calls| - 1;
      forall k | 0 <= k < m ensures calls[..m][k] == calls[k] {}
      NeverCalled(calls[..m], id, at);
    }
  }

  lemma ExplainedAdd(p: Periodics, p': Periodics, born: Birth, t: PeriodicTask, now: nat, id: nat)
    requires Records(p, now) && Explained(p, id) && p' == Bearing(p, p'.tasks, born) && p.nextId >= 1
    requires t.id == p.nextId && forall x :: x in p'.tasks <==> x in p.tasks || x == t
    ensures Explained(p', id)
  {
    if id == t.id {
      assert t in p'.tasks;
      NotQueued(p'.tasks, id);
      forall k | 0 <= k < |p.calls| ensures p.calls[k].id != t.id { assert CallOk(p, k, now); }
      assert id in p.dropped ==> DroppedOk(p, id);
      assert id in p.lost ==> LostOk(p, id);
    } else {
      QueuedElse(p.tasks, p'.tasks, id);
    }
  }

  lemma RunningAdd(p: Periodics, p': Periodics, born: Birth, t: PeriodicTask, running: nat)
    requires Running(p, running) && p' == Bearing(p, p'.tasks, born)
    requires t.id == p.nextId && forall x :: x in p'.tasks <==> x in p.tasks || x == t
    ensures Running(p', running)
  {
    QueuedElse(p.tasks, p'.tasks, running);
  }

  /** A task is removed. */
  lemma BooksDrop(p: Periodics, id: nat, now: nat, running: nat)
    requires Books(p, now, running) && PeriodicOk(p.tasks, p.nextId, now)
    ensures Books(DroppedP(p, id), now, running)
  {
    hide RemoveP, FirstP, QuitsOk, Explained, Running, Records, PeriodicOk;
    var k, p' := FirstP(p.tasks, id), DroppedP(p, id);
    if k < |p.tasks| {
      InOrder(p, now);
      NotQueued(p.tasks, id);
      forall x ensures x in p'.tasks <==> x in p.tasks && x.id != id { RemovedP(p.tasks, p.nextId, k, x); }
      assert p.tasks[k] in p.tasks;
      IdKnown(p, id, running);
      RecordsDrop(p, p', id, now);
      forall x | x != running || x == 0 ensures Explained(p', x) { ExplainedDrop(p, p', id, x); }
      if running > 0 { RunningDrop(p, p', id, running); }
    }
  }

  lemma RemovedP(s: seq<PeriodicTask>, n: nat, k: nat, x: PeriodicTask)
    requires NumberedP(s, n) && k < |s|
    ensures x in RemoveP(s, k) <==> x in s && x.id != s[k].id
  {
    hide RemoveP;
    RemoveMembersP(s, k, x);
    if x in s { var i :| 0 <= i < |s| && s[i] == x; }
  }

  lemma IdKnown(p: Periodics, id: nat, running: nat)
    requires AllExplained(p, running) && Queued(p.tasks, id)
    ensures 1 <= id < p.nextId && id !in p.lost
  {
    assert id != running || id == 0 ==> Explained(p, id);
  }

  lemma RecordsDrop(p: Periodics, p': Periodics, id: nat, now: nat)
    requires Records(p, now) && p' == p.(tasks := p'.tasks, dropped := p.dropped[id := |p.calls|])
    requires 1 <= id < p.nextId && id !in p.lost
    ensures Records(p', now)
  {
    forall x | x in p'.dropped ensures DroppedOk(p', x) { if x != id { assert DroppedOk(p, x); } }
    forall x | x in p'.lost ensures LostOk(p', x) { assert LostOk(p, x); }
    forall j | 0 <= j < |p'.calls| ensures CallOk(p', j, now) { assert CallOk(p, j, now); }
  }

  lemma ExplainedDrop(p: Periodics, p': Periodics, id: nat, x: nat)
    requires Explained(p, x) && p' == p.(tasks := p'.tasks, dropped := p.dropped[id := |p.calls|])
    requires forall t :: t in p'.tasks <==> t in p.tasks && t.id != id
    ensures Explained(p', x)
  {
    if x == id { NotQueued(p'.tasks, id); } else { QueuedElse(p.tasks, p'.tasks, x); }
  }

  lemma RunningDrop(p: Periodics, p': Periodics, id: nat, running: nat)
    requires Running(p, running) && p' == p.(tasks := p'.tasks, dropped := p.dropped[id := |p.calls|])
    requires forall t :: t in p'.tasks <==> t in p.tasks && t.id != id
    ensures Running(p', running)
  {
    if running == id { NotQueued(p'.tasks, id); } else { QueuedElse(p.tasks, p'.tasks, running); }
  }

  lemma {:induction false} BooksScript(p: Periodics, cmds: seq<Cmd>, now: nat, running: nat)
    requires Books(p, now, running) && PeriodicOk(p.tasks, p.nextId, now)
    ensures Books(ScriptP(p, cmds, now), now, running)
    decreases |cmds|
  {
    hide Books, PeriodicOk, AddedP, DroppedP;
    if cmds != [] {
      var m := |cmds| - 1;
      BooksScript(p, cmds[..m], now, running);
      ScriptKeeps(p, cmds[..m], now);
      var q := ScriptP(p, cmds[..m], now);
      match cmds[m]
      case AddPeriodic(interval, beats) => BooksAdd(q, interval % UINT32_LIMIT, beats, now, running);
      case DropPeriodic(id) => BooksDrop(q, id, now, running);
      case _ =>
    }
  }

  /** The callback of the front task is called. */
  lemma BooksBegin(p: Periodics, now: nat)
    requires Books(p, now, 0) && PeriodicOk(p.tasks, p.nextId, now) && FrontDue(p, now)
    ensures Books(p.(calls := p.calls + [CallOf(p.tasks[0], now)]), now, p.tasks[0].id)
  {
    hide PeriodicOk, Records, Explained;
    var f, c := p.tasks[0], CallOf(p.tasks[0], now);
    var p' := p.(calls := p.calls + [c]);
    InOrder(p, now);
    assert f in p.tasks;
    NotQueued(p.tasks, f.id);
    assert Explained(p, f.id);
    RecordsBegin(p, p', f, now);
    forall x | x in p.tasks && x.id != f.id
      ensures QueuedOk(x, p'.born, p'.calls)
    {
      assert QueuedOk(x, p.born, p.calls);
      CalledOnce(p.calls, c, x.id, p.born[x.id].at);
    }
    forall id | id != f.id || id == 0 ensures Explained(p', id) { ExplainedBegin(p, p', c, id); }
    forall k | 0 <= k < |p.calls| ensures p'.calls[k] == p.calls[k] {}
    forall k | 0 <= k < |p.calls| ensures QuitOk(p'.calls, p.lost, p.undefined, k) { assert QuitOk(p.calls, p.lost, p.undefined, k); }
    if p.undefined { var k :| 0 <= k < |p.calls| && Quits(p.calls[k]); assert Quits(p'.calls[k]); }
    assert Running(p', f.id) by { KnownQueued(p, f.id); }
  }

  lemma KnownQueued(p: Periodics, id: nat)
    requires Explained(p, id) && Queued(p.tasks, id)
    ensures 1 <= id < p.nextId && id !in p.lost && id !in p.dropped && !Ended(p.calls, id)
  {
  }

  lemma RecordsBegin(p: Periodics, p': Periodics, f: PeriodicTask, now: nat)
    requires Records(p, now) && Explained(p, f.id) && Queued(p.tasks, f.id) && QueuedOk(f, p.born, p.calls) && f.due <= now
    requires p' == p.(calls := p.calls + [CallOf(f, now)])
    ensures Records(p', now)
  {
    forall k | 0 <= k < |p.calls| ensures p'.calls[k] == p.calls[k] {}
    assert p'.calls[|p.calls|] == CallOf(f, now);
    forall id | id in p'.dropped ensures DroppedOk(p', id) { assert DroppedOk(p, id); }
    forall id | id in p'.lost ensures LostOk(p', id) { assert LostOk(p, id); }
    forall k | 0 <= k < |p'.calls|
      ensures CallOk(p', k, now)
    {
      if k < |p.calls| {
        assert CallOk(p, k, now) && p'.calls[..k] == p.calls[..k];
      } else {
        assert p'.calls[..k] == p.calls;
        FirstRest(p.born[f.id].beats, Times(p.calls, f.id), f);
      }
    }
  }

  /** The next call does what comes next. */
  lemma FirstRest(beats: seq<Beat>, n: nat, f: PeriodicTask)
    requires f.beats == RestOf(beats, n)
    ensures FirstBeat(f) == BeatAt(beats, n) && (if f.beats == [] then [] else f.beats[1..]) == RestOf(beats, n + 1)
  {
  }

  lemma CalledOnce(calls: seq<Call>, c: Call, id: nat, at: nat)
    ensures LastTime(calls + [c], id, at) == if c.id == id then c.at else LastTime(calls, id, at)
    ensures Times(calls + [c], id) == Times(calls, id) + if c.id == id then 1 else 0
  {
    assert (calls + [c])[..|calls|] == calls;
  }

  lemma ExplainedBegin(p: Periodics, p': Periodics, c: Call, id: nat)
    requires Explained(p, id) && p' == p.(calls := p.calls + [c]) && c.id != id
    ensures Explained(p', id)
  {
    EndedOn(p.calls, c, id);
  }

  lemma EndedOn(calls: seq<Call>, c: Call, id: nat)
    ensures Ended(calls + [c], id) <==> Ended(calls, id) || (c.id == id && !c.beat.again)
  {
    var calls' := calls + [c];
    assert calls'[|calls|] == c;
    if Ended(calls, id) {
      var k :| 0 <= k < |calls| && calls[k].id == id && !calls[k].beat.again;
      assert calls'[k] == calls[k];
    }
  }

  /** A callback that left its task alone: the task goes to its next time, or out. */
  lemma EndWell(m: Periodics, f: PeriodicTask, call: nat, now: nat)
    requires Books(m, now, f.id) && PeriodicOk(m.tasks, m.nextId, now) && f.id > 0 && f.due <= now
    requires |m.calls| == call + 1 && m.calls[call] == CallOf(f, now)
    requires !Quits(CallOf(f, now)) && m.tasks != [] && m.tasks[0] == f && QueuedOk(Again(f, now), m.born, m.calls)
    ensures Books(AfterCall(m, f, call, now), now, 0)
  {
    hide PeriodicOk, SplicedP, Records, Explained, QuitsOk;
    var p, again := AfterCall(m, f, call, now), FirstBeat(f).again;
    MoveKeeps(m.tasks, m.nextId, again, now);
    RecordsMoved(m, p, now);
    assert Records(p, now);
    PunctualEnd(m, p.tasks, f, again, now);
    forall id
      ensures Explained(p, id)
    {
      if id == f.id {
        assert f in m.tasks;
        NotQueued(m.tasks, id);
        ExplainedMoved(m, p, f, call, now);
      } else {
        ExplainedElse(m, p, f, id, now);
      }
    }
    QuitsAll(m, f, call, now);
  }

  lemma RecordsMoved(m: Periodics, p: Periodics, now: nat)
    requires Records(m, now) && p == m.(tasks := p.tasks, undefined := p.undefined)
    ensures Records(p, now)
  {
    forall id | id in p.dropped ensures DroppedOk(p, id) { assert DroppedOk(m, id); }
    forall id | id in p.lost ensures LostOk(p, id) { assert LostOk(m, id); }
    forall k | 0 <= k < |p.calls| ensures CallOk(p, k, now) { assert CallOk(m, k, now); }
  }

  lemma PunctualEnd(m: Periodics, s: seq<PeriodicTask>, f: PeriodicTask, again: bool, now: nat)
    requires Punctual(m.tasks, m.born, m.calls, f.id) && QueuedOk(Again(f, now), m.born, m.calls)
    requires forall x :: x in s ==> (x in m.tasks && x.id != f.id) || (again && x == Again(f, now))
    ensures Punctual(s, m.born, m.calls, 0)
  {
  }

  /** The task itself: queued again exactly when it answered true. */
  lemma ExplainedMoved(m: Periodics, p: Periodics, f: PeriodicTask, call: nat, now: nat)
    requires Records(m, now) && Running(m, f.id) && Queued(m.tasks, f.id) && |m.calls| == call + 1
    requires m.calls[call] == CallOf(f, now)
    requires p == m.(tasks := p.tasks)
    requires forall x :: x in p.tasks && x.id == f.id <==> FirstBeat(f).again && x == Again(f, now)
    ensures Explained(p, f.id)
  {
    NotQueued(p.tasks, f.id);
    assert CallOk(m, call, now);
    if FirstBeat(f).again { assert Again(f, now) in p.tasks && Again(f, now).id == f.id; } else { assert Ended(p.calls, f.id); }
  }

  lemma ExplainedElse(m: Periodics, p: Periodics, f: PeriodicTask, id: nat, now: nat)
    requires Explained(m, id) && id != f.id && p == m.(tasks := p.tasks, undefined := p.undefined)
    requires forall x: PeriodicTask :: x.id == id ==> (x in m.tasks <==> x in p.tasks)
    ensures Explained(p, id)
  {
    QueuedElse(m.tasks, p.tasks, id);
  }

  lemma QuitsAll(m: Periodics, f: PeriodicTask, call: nat, now: nat)
    requires |m.calls| == call + 1 && m.calls[call] == CallOf(f, now) && !Quits(CallOf(f, now))
    requires QuitsOk(m.calls, m.lost, m.undefined, call)
    ensures QuitsOk(m.calls, m.lost, m.undefined, call + 1)
  {
  }

  /** A callback that removed its task. */
  lemma EndBadly(m: Periodics, f: PeriodicTask, call: nat, now: nat)
    requires Books(m, now, f.id) && PeriodicOk(m.tasks, m.nextId, now) && f.id > 0
    requires |m.calls| == call + 1 && m.calls[call] == CallOf(f, now)
    requires Quits(CallOf(f, now)) && forall x :: x in m.tasks ==> x.id != f.id
    ensures Books(AfterCall(m, f, call, now), now, 0)
  {
    hide PeriodicOk, SplicedP, Records, Explained, QuitsOk;
    var p, again := AfterCall(m, f, call, now), FirstBeat(f).again;
    NotQueued(m.tasks, f.id);
    if m.tasks == [] || again {
      RecordsMoved(m, p, now);
      forall x | x in p.tasks ensures QueuedOk(x, p.born, p.calls) { assert x in m.tasks; }
      forall id
        ensures Explained(p, id)
      {
        if id == f.id { ExplainedGone(p, id); } else { ExplainedElse(m, p, f, id, now); }
      }
      QuitsUndefined(m, call);
    } else {
      var v := m.tasks[0].id;
      assert m.tasks[0] in m.tasks;
      NotQueued(m.tasks, v);
      assert Explained(m, v);
      KnownQueued(m, v);
      MoveKeeps(m.tasks, m.nextId, false, now);
      RecordsLost(m, p, v, call, now);
      forall x | x in p.tasks ensures QueuedOk(x, p.born, p.calls) { assert x in m.tasks; }
      forall id
        ensures Explained(p, id)
      {
        if id == f.id {
          NotQueued(p.tasks, id);
          ExplainedGone(p, id);
        } else {
          ExplainedLost(m, p, v, call, id);
        }
      }
      QuitsLost(m, v, call);
    }
  }

  lemma ExplainedGone(p: Periodics, id: nat)
    requires !Queued(p.tasks, id) && id in p.dropped
    ensures Explained(p, id)
  {
  }

  lemma ExplainedLost(m: Periodics, p: Periodics, v: nat, call: nat, id: nat)
    requires Explained(m, id) && p == m.(tasks := p.tasks, lost := m.lost[v := call])
    requires forall x :: x in p.tasks <==> x in m.tasks && x.id != v
    ensures Explained(p, id)
  {
    if id == v { NotQueued(p.tasks, id); } else { QueuedElse(m.tasks, p.tasks, id); }
  }

  lemma RecordsLost(m: Periodics, p: Periodics, v: nat, call: nat, now: nat)
    requires Records(m, now) && p == m.(tasks := p.tasks, lost := m.lost[v := call]) && call + 1 == |m.calls|
    requires 1 <= v < m.nextId && v !in m.dropped && Discards(m.calls[call]) && m.calls[call].id != v
    ensures Records(p, now)
  {
    forall id | id in p.dropped ensures DroppedOk(p, id) { assert DroppedOk(m, id); }
    forall id | id in p.lost ensures LostOk(p, id) { if id != v { assert LostOk(m, id); } }
    forall k | 0 <= k < |p.calls| ensures CallOk(p, k, now) { assert CallOk(m, k, now); }
  }

  lemma QuitsUndefined(m: Periodics, call: nat)
    requires |m.calls| == call + 1 && Quits(m.calls[call])
    ensures QuitsOk(m.calls, m.lost, true, call + 1)
  {
  }

  lemma QuitsLost(m: Periodics, v: nat, call: nat)
    requires |m.calls| == call + 1 && v !in m.lost && QuitsOk(m.calls, m.lost, m.undefined, call)
    ensures QuitsOk(m.calls, m.lost[v := call], m.undefined, call + 1)
  {
    var lost := m.lost[v := call];
    assert v in lost && lost[v] == call;
    forall k | 0 <= k < |m.calls|
      ensures QuitOk(m.calls, lost, m.undefined, k)
    {
      if k < call && Quits(m.calls[k]) && !m.undefined {
        assert QuitOk(m.calls, m.lost, m.undefined, k);
        var id :| id in m.lost && m.lost[id] == k;
        assert id in lost && lost[id] == k;
      }
    }
  }

  /** The task as it is queued again is due an interval after its call. */
  lemma NextQueued(p: Periodics, now: nat)
    requires Books(p, now, 0) && PeriodicOk(p.tasks, p.nextId, now) && FrontDue(p, now)
    ensures var m := CalledP(p, now); QueuedOk(Again(p.tasks[0], now), m.born, m.calls)
  {
    hide Records, AllExplained, QuitsOk, PeriodicOk, Thinned;
    var f, c := p.tasks[0], CallOf(p.tasks[0], now);
    InOrder(p, now);
    assert f in p.tasks && QueuedOk(f, p.born, p.calls);
    ScriptBears(p.(calls := p.calls + [c]), FirstBeat(f).cmds, now);
    CallKeeps(p, now);
    CalledOnce(p.calls, c, f.id, p.born[f.id].at);
    FirstRest(p.born[f.id].beats, Times(p.calls, f.id), f);
  }

  /** A turn keeps the books. */
  lemma BooksTurn(p: Periodics, now: nat)
    requires Books(p, now, 0) && PeriodicOk(p.tasks, p.nextId, now) && FrontDue(p, now)
    ensures Books(TurnP(p, now), now, 0)
  {
    hide Books, PeriodicOk, AfterCall, Thinned;
    var f, q := p.tasks[0], p.(calls := p.calls + [CallOf(p.tasks[0], now)]);
    InOrder(p, now);
    BooksBegin(p, now);
    BooksScript(q, FirstBeat(f).cmds, now, f.id);
    CallKeeps(p, now);
    if Quits(CallOf(f, now)) {
      EndBadly(CalledP(p, now), f, |p.calls|, now);
    } else {
      NextQueued(p, now);
      EndWell(CalledP(p, now), f, |p.calls|, now);
    }
  }

  lemma {:induction false} BooksExec(p: Periodics, now: nat)
    requires Books(p, now, 0) && PeriodicOk(p.tasks, p.nextId, now)
    ensures Books(ExecP(p, now), now, 0)
    decreases DueIds(p.tasks, now)
  {
    hide Books, PeriodicOk, TurnP;
    if FrontDue(p, now) {
      TurnKeeps(p, now);
      BooksTurn(p, now);
      BooksExec(TurnP(p, now), now);
    }
  }

  /** No task is ever discarded and nothing undefined is done exactly while no callback removes the task
      it is called for. */
  lemma NoneDiscarded(p: Periodics, now: nat)
    requires Books(p, now, 0)
    ensures p.lost == map[] && !p.undefined <==> forall k :: 0 <= k < |p.calls| ==> !Quits(p.calls[k])
  {
    if p.lost != map[] {
      var id :| id in p.lost;
      assert LostOk(p, id);
    }
    forall k | 0 <= k < |p.calls| && Quits(p.calls[k])
      ensures p.lost != map[] || p.undefined
    {
      assert QuitOk(p.calls, p.lost, p.undefined, k);
    }
  }

  lemma BooksSay(p: Periodics, now: nat)
    requires Books(p, now, 0)
    ensures forall id: nat :: Queued(p.tasks, id) <==> 1 <= id < p.nextId && id !in p.dropped && id !in p.lost && !Ended(p.calls, id)
    ensures forall id :: id in p.dropped ==> DroppedOk(p, id)
    ensures forall id :: id in p.lost ==> LostOk(p, id)
    ensures forall k :: 0 <= k < |p.calls| ==> CallOk(p, k, now)
  {
    hide Queued, Ended, DroppedOk, LostOk, CallOk;
    forall id: nat
      ensures Queued(p.tasks, id) <==> 1 <= id < p.nextId && id !in p.dropped && id !in p.lost && !Ended(p.calls, id)
    {
      assert Explained(p, id);
    }
  }

  lemma {:induction false} LastTimeIs(calls: seq<Call>, id: nat, at: nat, j: nat)
    requires j < |calls| && calls[j].id == id && forall i :: j < i < |calls| ==> calls[i].id != id
    ensures LastTime(calls, id, at) == calls[j].at
  {
    var m := |calls| - 1;
    if j < m {
      forall i | 0 <= i < m ensures calls[..m][i] == calls[i] {}
      LastTimeIs(calls[..m], id, at, j);
    }
  }

  /** The calls of `id`. */
  ghost function CallsOf(calls: seq<Call>, id: nat): set<nat> { set k: nat | k < |calls| && calls[k].id == id }

  lemma {:induction false} TimesIs(calls: seq<Call>, id: nat)
    ensures Times(calls, id) == |CallsOf(calls, id)|
  {
    if calls != [] {
      var m := |calls| - 1;
      TimesIs(calls[..m], id);
      forall i | 0 <= i < m ensures calls[..m][i] == calls[i] {}
      assert CallsOf(calls, id) == CallsOf(calls[..m], id) + if calls[m].id == id then {m} else {};
    }
  }

  /** When the calls come: the first call of a task an interval after the task was added, each later one an
      interval after the one before it, and none sooner; the n-th does what the task was added to do n-th. */
  lemma CallsOnTime(p: Periodics, now: nat)
    requires Books(p, now, 0)
    ensures forall k :: 0 <= k < |p.calls| ==> p.calls[k].id in p.born && p.calls[k].due <= p.calls[k].at <= now
    ensures forall k :: 0 <= k < |p.calls| && NewIn(p.calls, k) ==>
      p.calls[k].due == p.born[p.calls[k].id].at + p.born[p.calls[k].id].interval * 1_000_000
    ensures forall j, k :: 0 <= j < k < |p.calls| && NextAfter(p.calls, j, k) ==>
      p.calls[k].due == p.calls[j].at + p.born[p.calls[k].id].interval * 1_000_000
    ensures forall k :: 0 <= k < |p.calls| ==>
      var n, beats := |CallsOf(p.calls[..k], p.calls[k].id)|, p.born[p.calls[k].id].beats;
      p.calls[k].beat == if n < |beats| then beats[n] else Beat([], false)
  {
    hide Books, QuitsOk, AllExplained, Punctual;
    BooksSay(p, now);
    forall k | 0 <= k < |p.calls|
      ensures CallOk(p, k, now) && Times(p.calls[..k], p.calls[k].id) == |CallsOf(p.calls[..k], p.calls[k].id)|
    {
      TimesIs(p.calls[..k], p.calls[k].id);
    }
    forall k | 0 <= k < |p.calls| && NewIn(p.calls, k)
      ensures p.calls[k].due == p.born[p.calls[k].id].at + p.born[p.calls[k].id].interval * 1_000_000
    {
      NeverCalled(p.calls[..k], p.calls[k].id, p.born[p.calls[k].id].at);
    }
    forall j, k | 0 <= j < k < |p.calls| && NextAfter(p.calls, j, k)
      ensures p.calls[k].due == p.calls[j].at + p.born[p.calls[k].id].interval * 1_000_000
    {
      LastTimeIs(p.calls[..k], p.calls[k].id, p.born[p.calls[k].id].at, j);
    }
  }

  /** Call `k` is the first of its task. */
  ghost predicate NewIn(calls: seq<Call>, k: nat)
    requires k < |calls|
  {
    forall i :: 0 <= i < k ==> calls[i].id != calls[k].id
  }

  /** Calls `j` and `k` are of one task, with none of it between. */
  ghost predicate NextAfter(calls: seq<Call>, j: nat, k: nat)
    requires j < k < |calls|
  {
    calls[j].id == calls[k].id && forall i :: j < i < k ==> calls[i].id != calls[k].id
  }

  // ---- What became of a task ----

  lemma BooksWork(p: Periodics, work: Work, now: nat)
    requires Books(p, now, 0) && PeriodicOk(p.tasks, p.nextId, now)
    ensures Books(WorkP(p, work, now), now, 0)
  {
    hide Books, PeriodicOk, ScriptP, ExecP;
    match work
    case RemoveSession(_) =>
    case Script(cmds) => BooksScript(p, cmds, now, 0);
    case RunPeriodic => BooksExec(p, now);
  }

  lemma {:induction false} BooksWorks(p: Periodics, ran: seq<DelayTask>, now: nat)
    requires Books(p, now, 0) && PeriodicOk(p.tasks, p.nextId, now)
    ensures Books(WorksP(p, ran, now), now, 0)
    decreases |ran|
  {
    hide Books, PeriodicOk, WorkP;
    if ran != [] {
      BooksWorks(p, ran[..|ran| - 1], now);
      BooksWork(WorksP(p, ran[..|ran| - 1], now), ran[|ran| - 1].work, now);
    }
  }

  lemma ThinnedQueued(s: seq<PeriodicTask>, s': seq<PeriodicTask>, n: nat, cmds: seq<Cmd>, now: nat, id: nat)
    requires Thinned(s, s', n, cmds, now) && id < n
    ensures Queued(s', id) <==> Queued(s, id) && DropPeriodic(id) !in cmds
  {
    if Queued(s, id) && DropPeriodic(id) !in cmds {
      var i :| 0 <= i < |s| && s[i].id == id;
      assert s[i] in s';
      NotQueued(s', id);
    }
    if Queued(s', id) {
      var i :| 0 <= i < |s'| && s'[i].id == id;
      assert s'[i] in s';
      NotQueued(s, id);
    }
  }

  /** A script removes exactly what it names and finds. */
  lemma {:induction false} ScriptDrops(p: Periodics, cmds: seq<Cmd>, now: nat, id: nat)
    requires PeriodicOk(p.tasks, p.nextId, now) && id < p.nextId
    ensures var p' := ScriptP(p, cmds, now);
      && (Queued(p'.tasks, id) <==> Queued(p.tasks, id) && DropPeriodic(id) !in cmds)
      && (id in p'.dropped ==> id in p.dropped || DropPeriodic(id) in cmds)
    decreases |cmds|
  {
    hide PeriodicOk, Thinned, AddedP, Queued;
    ScriptKeeps(p, cmds, now);
    ThinnedQueued(p.tasks, ScriptP(p, cmds, now).tasks, p.nextId, cmds, now, id);
    if cmds != [] {
      var m := |cmds| - 1;
      ScriptDrops(p, cmds[..m], now, id);
      var q := ScriptP(p, cmds[..m], now);
      AddDropsNot(q, cmds[m], now);
    }
  }

  lemma AddDropsNot(p: Periodics, cmd: Cmd, now: nat)
    ensures forall id :: id in CmdP(p, cmd, now).dropped ==> id in p.dropped || cmd == DropPeriodic(id)
  {
    hide InsertP, LaterP, RemoveP, FirstP;
  }

  /** A turn removes what its callback names; what is not queued does not come back. */
  lemma TurnDrops(p: Periodics, now: nat, id: nat)
    requires PeriodicOk(p.tasks, p.nextId, now) && FrontDue(p, now) && id < p.nextId
    ensures var p', cmds := TurnP(p, now), FirstBeat(p.tasks[0]).cmds;
      && (Queued(p'.tasks, id) ==> Queued(p.tasks, id) && DropPeriodic(id) !in cmds)
      && (id in p'.dropped ==> id in p.dropped || DropPeriodic(id) in cmds)
  {
    hide PeriodicOk, ScriptP, SplicedP, Queued, Thinned;
    var f, q, m := p.tasks[0], p.(calls := p.calls + [CallOf(p.tasks[0], now)]), CalledP(p, now);
    ScriptDrops(q, FirstBeat(f).cmds, now, id);
    CallKeeps(p, now);
    var p' := TurnP(p, now);
    if m.tasks != [] { MoveKeeps(m.tasks, m.nextId, FirstBeat(f).again, now); }
    NotQueued(p'.tasks, id);
    NotQueued(m.tasks, id);
    assert m.tasks != [] ==> m.tasks[0] in m.tasks;
    forall x | x in p'.tasks
      ensures exists y :: y in m.tasks && y.id == x.id
    {
      assert x in m.tasks || x.id == m.tasks[0].id;
    }
  }

  lemma {:induction false} ExecDrops(p: Periodics, now: nat, id: nat)
    requires PeriodicOk(p.tasks, p.nextId, now) && id < p.nextId
    ensures var e := ExecP(p, now);
      && (Queued(e.tasks, id) ==> Queued(p.tasks, id) && !DroppedSince(id, |p.calls|, e.calls))
      && (id in e.dropped ==> id in p.dropped || DroppedSince(id, |p.calls|, e.calls))
    decreases DueIds(p.tasks, now)
  {
    hide PeriodicOk, TurnP, Queued;
    if FrontDue(p, now) {
      TurnKeeps(p, now);
      TurnDrops(p, now, id);
      var t := TurnP(p, now);
      ExecKeeps(t, now);
      ExecDrops(t, now, id);
      var e := ExecP(t, now);
      assert e.calls[|p.calls|] == CallOf(p.tasks[0], now);
      if DroppedSince(id, |t.calls|, e.calls) {
        var j :| |t.calls| <= j < |e.calls| && DropPeriodic(id) in e.calls[j].beat.cmds;
        assert |p.calls| <= j;
      }
    }
  }

  /** A callback run since, of a delay task in `ran` or of a periodic task since call `made`, removes `id`. */
  ghost predicate AskedAway(id: nat, ran: seq<DelayTask>, made: nat, calls: seq<Call>) {
    || DroppedSince(id, made, calls)
    || (exists k :: 0 <= k < |ran| && ran[k].work.Script? && DropPeriodic(id) in ran[k].work.cmds)
  }

  lemma {:induction false} WorksDrop(p: Periodics, ran: seq<DelayTask>, now: nat, id: nat)
    requires PeriodicOk(p.tasks, p.nextId, now) && id < p.nextId
    ensures var e := WorksP(p, ran, now);
      && (Queued(e.tasks, id) ==> Queued(p.tasks, id) && !AskedAway(id, ran, |p.calls|, e.calls))
      && (id in e.dropped ==> id in p.dropped || AskedAway(id, ran, |p.calls|, e.calls))
    decreases |ran|
  {
    hide PeriodicOk, ScriptP, ExecP, Queued, DroppedSince;
    if ran != [] {
      var m, q := |ran| - 1, WorksP(p, ran[..|ran| - 1], now);
      WorksDrop(p, ran[..m], now, id);
      var e := WorkP(q, ran[m].work, now);
      AskedOn(id, ran, p.calls, q.calls, e.calls);
      match ran[m].work
      case RemoveSession(_) =>
      case Script(cmds) =>
        ScriptKeeps(q, cmds, now);
        ScriptDrops(q, cmds, now, id);
      case RunPeriodic => ExecDrops(q, now, id);
    } else {
      NoneSince(id, p.calls);
    }
  }

  lemma NoneSince(id: nat, calls: seq<Call>)
    ensures !DroppedSince(id, |calls|, calls)
  {
  }

  lemma AskedOn(id: nat, ran: seq<DelayTask>, made: seq<Call>, calls: seq<Call>, calls': seq<Call>)
    requires ran != [] && made <= calls <= calls'
    ensures AskedAway(id, ran, |made|, calls') <==>
      || AskedAway(id, ran[..|ran| - 1], |made|, calls) || DroppedSince(id, |calls|, calls')
      || (var w := ran[|ran| - 1].work; w.Script? && DropPeriodic(id) in w.cmds)
  {
    var m := |ran| - 1;
    forall k | 0 <= k < m ensures ran[..m][k] == ran[k] {}
    if DroppedSince(id, |made|, calls) {
      var j :| |made| <= j < |calls| && DropPeriodic(id) in calls[j].beat.cmds;
      assert calls'[j] == calls[j];
    }
    if DroppedSince(id, |made|, calls') && !DroppedSince(id, |calls|, calls') {
      var j :| |made| <= j < |calls'| && DropPeriodic(id) in calls'[j].beat.cmds;
      assert j < |calls|;
      assert calls'[j] == calls[j];
    }
    if exists k :: 0 <= k < |ran| - 1 && ran[..m][k].work.Script? && DropPeriodic(id) in ran[..m][k].work.cmds {
      var k :| 0 <= k < |ran| - 1 && ran[..m][k].work.Script? && DropPeriodic(id) in ran[..m][k].work.cmds;
      assert ran[k].work.Script?;
    }
  }

  /** Over any number of delay tasks run, a periodic task stays queued exactly unless a callback removes
      it, it answers false, or it is discarded. */
  lemma TaskStays(p: Periodics, ran: seq<DelayTask>, now: nat, id: nat)
    requires Books(p, now, 0) && PeriodicOk(p.tasks, p.nextId, now) && Queued(p.tasks, id)
    ensures var e := WorksP(p, ran, now);
      Queued(e.tasks, id) <==> !AskedAway(id, ran, |p.calls|, e.calls) && id !in e.lost && !Ended(e.calls, id)
  {
    hide PeriodicOk, Records, Punctual, QuitsOk, Queued, Ended, AskedAway;
    var e := WorksP(p, ran, now);
    BooksWorks(p, ran, now);
    assert Explained(p, id) && Explained(e, id);
    WorksDrop(p, ran, now, id);
  }
}
