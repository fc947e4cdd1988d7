/** The event loop's state as data: what holds between and inside its operations, and what each of them
    keeps. */
module LoopModel {
  import opened TimerModel
  import opened PeriodicModel
  import opened PeriodicTurns
  import opened PeriodicAccount
  import opened CoredumpModel

  ghost predicate Live(sessions: map<int, Session>, pid: int, serial: nat) {
    pid in sessions && sessions[pid].serial == serial
  }

  lemma SignalsOk(trace: seq<Event>, nextSerial: nat, k: nat)
    requires TraceOk(trace, nextSerial) && k < |trace|
    ensures SignalOk(trace, k)
  {
  }

  /** What any run's trace says: one reply per session; signals only to a worker seen after a cancel; the
      first result of a worker is the reply; the first cancel while a worker is dumping, and the first worker
      after a cancel, are a signal at once; and a session is live until its removal. */
  lemma RunStory(trace: seq<Event>, sessions: map<int, Session>, nextSerial: nat)
    requires TableOk(trace, sessions, nextSerial) && Told(trace, sessions)
    ensures forall j, k :: 0 <= j < k < |trace| && trace[j].Replied? && trace[k].Replied? ==>
      trace[j].serial != trace[k].serial
    ensures forall k :: 0 <= k < |trace| ==> SignalOk(trace, k)
    ensures forall k :: 0 <= k < |trace| ==> AnsweredAt(trace, k)
    ensures forall j, k :: 0 <= j < k < |trace| && ResultOf(trace, j, k) ==>
      Follow(trace, k, [Replied(trace[k].serial, 0, trace[k].path), Removed(trace[k].serial, false)])
    ensures forall j, k :: 0 <= j < k < |trace| && CancelOf(trace, j, k) ==>
      var n := trace[k].serial; Follow(trace, k, [Signalled(n, trace[j].worker), Replied(n, 0, ""), Removed(n, false)])
    ensures forall j, k :: 0 <= j < k < |trace| && LateWorker(trace, j, k) ==>
      Follow(trace, k, [Signalled(trace[k].serial, trace[k].worker)])
    ensures forall n, pid :: Created(n, pid) in trace ==> (Gone(trace, n) <==> !Live(sessions, pid, n))
  {
    hide AnsweredAt, Follow, TraceOk;
    forall j, k | 0 <= j < k < |trace| && trace[j].Replied? && trace[k].Replied?
      ensures trace[j].serial != trace[k].serial
    {
      OneReply(trace, nextSerial, j, k);
    }
    forall k | 0 <= k < |trace| ensures SignalOk(trace, k) { SignalsOk(trace, nextSerial, k); }
    forall j, k | 0 <= j < k < |trace| && ResultOf(trace, j, k)
      ensures Follow(trace, k, [Replied(trace[k].serial, 0, trace[k].path), Removed(trace[k].serial, false)])
    {
      ResultIsReply(trace, j, k, trace[k].serial, trace[k].path);
    }
    forall j, k | 0 <= j < k < |trace| && CancelOf(trace, j, k)
      ensures var n := trace[k].serial; Follow(trace, k, [Signalled(n, trace[j].worker), Replied(n, 0, ""), Removed(n, false)])
    {
      CancelIsSignal(trace, j, k, trace[k].serial, trace[j].worker);
    }
    forall j, k | 0 <= j < k < |trace| && LateWorker(trace, j, k)
      ensures Follow(trace, k, [Signalled(trace[k].serial, trace[k].worker)])
    {
      LateWorkerIsStopped(trace, j, k, trace[k].serial, trace[k].worker);
    }
    forall n, pid | Created(n, pid) in trace
      ensures Gone(trace, n) <==> !Live(sessions, pid, n)
    {
      if Live(sessions, pid, n) { assert SessionOk(trace, sessions[pid], pid); }
    }
  }

  // ---- What the timer does to sessions ----

  /** The events of a session's start; with no delay it ends there. */
  function Begins(serial: nat, pid: int, delay: nat): seq<Event> {
    [Created(serial, pid)] + [StartSent(serial, pid)] + if delay > 0 then [] else [Removed(serial, true)]
  }

  /** Only removals by timer were added. */
  ghost predicate ByTimer(trace: seq<Event>, trace': seq<Event>) {
    && trace <= trace' && forall k :: |trace| <= k < |trace'| ==> trace'[k].Removed? && trace'[k].byTimer
  }

  lemma ByTimerOn(e: seq<Event>, e': seq<Event>, e'': seq<Event>)
    requires ByTimer(e, e') && ByTimer(e', e'')
    ensures ByTimer(e, e'')
  {
    forall k | |e| <= k < |e''|
      ensures e''[k].Removed? && e''[k].byTimer
    {
      if k < |e'| { assert e''[k] == e'[k]; }
    }
  }

  /** Some sessions whose time has come are gone; nothing else changed. */
  ghost predicate Expired(before: map<int, Session>, after: map<int, Session>, now: nat) {
    && (forall pid :: pid in after ==> pid in before && after[pid] == before[pid])
    && (forall pid :: pid in before && pid !in after ==> before[pid].delayTaskId % TIME_LIMIT <= now)
  }

  /** The tasks that ran since were queued at the start, and due. */
  ghost predicate RanFrom(ran: seq<DelayTask>, ran': seq<DelayTask>, tasks: seq<DelayTask>, now: nat) {
    ran <= ran' && forall k :: |ran| <= k < |ran'| ==> ran'[k] in tasks && Due(ran'[k]) <= now
  }

  lemma ExpiredOn(a: map<int, Session>, b: map<int, Session>, c: map<int, Session>, now: nat)
    requires Expired(a, b, now) && Expired(b, c, now)
    ensures Expired(a, c, now)
  {
  }

  lemma OneExpired(before: map<int, Session>, tasks: seq<DelayTask>, after: map<int, Session>, f: DelayTask, now: nat)
    requires TimersMatch(before, tasks) && f in tasks && Due(f) <= now
    requires after == if f.work.RemoveSession? then before - {f.work.pid} else before
    ensures Expired(before, after, now)
  {
  }

  lemma AllExpired(before: map<int, Session>, after: map<int, Session>, tasks: seq<DelayTask>, now: nat)
    requires Expired(before, after, now) && TimersMatch(after, tasks) && forall t :: t in tasks ==> Due(t) > now
    ensures forall pid :: pid in before ==> (pid in after <==> before[pid].delayTaskId % TIME_LIMIT > now)
    ensures forall pid :: pid in after ==> pid in before && after[pid] == before[pid]
  {
    forall pid | pid in after
      ensures after[pid].delayTaskId % TIME_LIMIT > now
    {
      assert HasTimer(after[pid], pid, tasks);
    }
  }

  /** The id counter, and the executor's timer with its next expiry in nanoseconds. */
  datatype Timer = Timer(sequence: nat, executor: bool, armed: bool, armedAt: nat)

  /** Tasks in order, told apart, and a timer armed no later than the first of them is due. */
  ghost predicate QueueInv(q: Queue, w: Timer) {
    && Sorted(q.tasks) && Numbered(q.tasks, q.issued) && w.sequence == q.issued % 256
    && (forall i :: 0 <= i < |q.tasks| ==> q.tasks[i].id > 0)
    && (!q.crowded ==> DistinctIds(q.tasks))
    && (q.tasks != [] ==> w.executor && w.armed && w.armedAt <= Due(q.tasks[0]) * NS_PER_US)
  }

  /** `t` was put into the queue, in its place. */
  ghost predicate Added(q: Queue, q': Queue, t: DelayTask) {
    && (exists k: nat :: k <= |q.tasks| && q'.tasks == InsertAt(q.tasks, k, t))
    && t.issue == q.issued && q'.issued == q.issued + 1
    && q'.crowded == (q.crowded || !Window(q.tasks, Due(t), q.issued))
  }

  /** The first task with `id` was taken out. */
  ghost predicate Dropped(s: seq<DelayTask>, s': seq<DelayTask>, id: nat) {
    exists k: nat :: k < |s| && DroppedAt(s, s', id, k)
  }

  ghost predicate DroppedAt(s: seq<DelayTask>, s': seq<DelayTask>, id: nat, k: nat)
    requires k < |s|
  {
    s[k].id == id && s' == RemoveAt(s, k) && forall i :: 0 <= i < k ==> s[i].id != id
  }

  lemma AddKeeps(s: seq<DelayTask>, k: nat, t: DelayTask, crowded: bool)
    requires Sorted(s) && Numbered(s, t.issue) && k <= |s| && (!crowded ==> DistinctIds(s))
    requires t.id == PackId(t.issue, Due(t)) && t.id > 0 && forall i :: 0 <= i < |s| ==> s[i].id > 0
    requires forall i :: 0 <= i < k ==> Due(s[i]) <= Due(t)
    requires k < |s| ==> Due(s[k]) > Due(t)
    ensures Sorted(InsertAt(s, k, t)) && Numbered(InsertAt(s, k, t), t.issue + 1)
    ensures forall i :: 0 <= i <= |s| ==> InsertAt(s, k, t)[i].id > 0
    ensures !crowded && Window(s, Due(t), t.issue) ==> DistinctIds(InsertAt(s, k, t))
    ensures |InsertAt(s, k, t)| == |s| + 1 && InsertAt(s, k, t)[0] == if k == 0 then t else s[0]
  {
    InsertSorted(s, k, t);
    InsertNumbered(s, k, t);
    if !crowded && Window(s, Due(t), t.issue) { InsertDistinct(s, k, t); }
  }

  /** The 8-bit counter follows the number of tasks issued. */
  lemma NextSequence(n: nat)
    ensures (n % 256 + 1) % 256 == (n + 1) % 256
  {
  }

  lemma RemoveFront(s: seq<DelayTask>, k: nat)
    requires Sorted(s) && k < |s|
    ensures RemoveAt(s, k) != [] ==> Due(s[0]) <= Due(RemoveAt(s, k)[0])
  {
    if |s| > 1 { assert Before(s[0], s[1]); }
  }

  lemma AddedMembers(q: Queue, q': Queue, t: DelayTask)
    requires Added(q, q', t)
    ensures forall x :: x in q'.tasks <==> x in q.tasks || x == t
  {
    var k: nat :| k <= |q.tasks| && q'.tasks == InsertAt(q.tasks, k, t);
    forall x ensures x in q'.tasks <==> x in q.tasks || x == t { InsertMembers(q.tasks, k, t, x); }
  }

  lemma DroppedMembers(s: seq<DelayTask>, s': seq<DelayTask>, id: nat) returns (t: DelayTask)
    requires Sorted(s) && Dropped(s, s', id)
    ensures t in s && t.id == id && forall x :: x in s' <==> x in s && x != t
    ensures forall x :: x in s && x.id == id && x != t ==> Before(t, x)
    ensures DistinctIds(s) ==> forall x :: x in s' <==> x in s && x.id != id
  {
    var k: nat :| k < |s| && DroppedAt(s, s', id, k);
    t := s[k];
    SortedDistinct(s);
    forall x ensures x in s' <==> x in s && x != t { RemoveMembers(s, k, x); }
  }

  lemma CalmItself(q: Queue, now: nat)
    ensures Calm(q, q, now)
  {
  }

  lemma AddedCalm(q: Queue, q': Queue, t: DelayTask, now: nat)
    requires Added(q, q', t) && Due(t) > now && !t.work.RemoveSession?
    ensures Calm(q, q', now)
  {
    AddedMembers(q, q', t);
  }

  lemma DropsOwn(s: seq<DelayTask>, k: nat, id: nat)
    requires Sorted(s) && k < |s| && s[k].id == id && s[k].work.Script? && forall i :: 0 <= i < k ==> s[i].id != id
    ensures forall s', t :: Dropped(s, s', id) && t in s && !t.work.Script? ==> t in s'
  {
    forall s', t | Dropped(s, s', id) && t in s && !t.work.Script?
      ensures t in s'
    {
      var j: nat :| j < |s| && DroppedAt(s, s', id, j);
      assert j == k;
      SortedDistinct(s);
      RemoveMembers(s, k, t);
    }
  }

  lemma DroppedCalm(q: Queue, q': Queue, id: nat, now: nat)
    requires Sorted(q.tasks) && Dropped(q.tasks, q'.tasks, id) && q'.issued == q.issued && q'.crowded == q.crowded
    requires forall t :: t in q.tasks && !t.work.Script? ==> t in q'.tasks
    ensures Calm(q, q', now)
  {
    var t := DroppedMembers(q.tasks, q'.tasks, id);
  }

  lemma CalmIssued(q: Queue, q': Queue, now: nat)
    requires Calm(q, q', now)
    ensures q.issued <= q'.issued
  {
  }

  lemma NothingDue(s: seq<PeriodicTask>, n: nat, now: nat)
    requires PeriodicOk(s, n, now) && (s != [] ==> s[0].due > now)
    ensures forall p :: p in s ==> p.due > now
  {
  }

  lemma TimerGone(sessions: map<int, Session>, s: seq<DelayTask>, s': seq<DelayTask>, pid: int, found: bool, crowded: bool)
    requires pid in sessions && Sorted(s) && (!crowded ==> DistinctIds(s) && TimersMatch(sessions, s))
    requires found ==> Dropped(s, s', sessions[pid].delayTaskId)
    requires !found ==> s' == s && forall t :: t in s ==> t.id != sessions[pid].delayTaskId
    ensures forall t :: t in s' ==> t in s
    ensures !crowded ==> TimersMatch(sessions - {pid}, s')
    ensures !crowded ==> forall t :: t in s ==> (t in s' <==> t.work != Work.RemoveSession(pid))
  {
    if found { var t := DroppedMembers(s, s', sessions[pid].delayTaskId); }
    if !crowded {
      assert HasTimer(sessions[pid], pid, s);
      assert forall t :: t in s' <==> t in s && t.id != sessions[pid].delayTaskId;
      assert forall t, u :: t in s && u in s && t.id == u.id ==> t == u;
      MatchAfterRemove(sessions, s, s', pid);
    }
  }

  lemma NoTimer(sessions: map<int, Session>, s: seq<DelayTask>, pid: int, crowded: bool)
    requires pid !in sessions && (!crowded ==> TimersMatch(sessions, s))
    ensures !crowded ==> forall t :: t in s ==> t.work != Work.RemoveSession(pid)
  {
  }

  lemma WakesKept(s: seq<DelayTask>, s': seq<DelayTask>, p: seq<PeriodicTask>)
    requires WakesUp(s, p) && forall t :: t in s && t.work == RunPeriodic ==> t in s'
    ensures WakesUp(s', p)
  {
    if p != [] {
      var t :| t in s && Wakes(t, p[0].due);
      assert t in s';
    }
  }

  lemma ReplyTable(trace: seq<Event>, sessions: map<int, Session>, nextSerial: nat, pid: int, code: int, path: string)
    requires TableOk(trace, sessions, nextSerial) && pid in sessions
    ensures TableOk(trace + [Replied(sessions[pid].serial, code, path), Removed(sessions[pid].serial, false)],
                    sessions - {pid}, nextSerial)
  {
    var n := sessions[pid].serial;
    var ext := [Replied(n, code, path), Removed(n, false)];
    assert SessionOk(trace, sessions[pid], pid);
    SerialUsed(trace, nextSerial, Created(n, pid));
    TraceReply(trace, nextSerial, n, code, path);
    assert (trace + ext)[|trace| + 1] == Removed(n, false);
    RemoveFromTable(trace, ext, sessions, nextSerial, pid);
  }

  lemma SessionFacts(trace: seq<Event>, sessions: map<int, Session>, nextSerial: nat, pid: int)
    requires TableOk(trace, sessions, nextSerial) && pid in sessions
    ensures sessions[pid].status == RUNNING ==> sessions[pid].workerPid > 0
    ensures sessions[pid].status == CANCEL_PENDING ==> CancelAsked(sessions[pid].serial) in trace
    ensures sessions[pid].errorCode == 0
  {
    assert SessionOk(trace, sessions[pid], pid);
  }

  lemma SignalTable(trace: seq<Event>, sessions: map<int, Session>, nextSerial: nat, pid: int)
    requires TableOk(trace, sessions, nextSerial) && pid in sessions
    requires sessions[pid].workerPid > 0 && CancelAsked(sessions[pid].serial) in trace
    ensures var e := Signalled(sessions[pid].serial, sessions[pid].workerPid);
      TraceOk(trace + [e], nextSerial) && SessionOk(trace + [e], sessions[pid], pid)
  {
    var s := sessions[pid];
    assert SessionOk(trace, s, pid);
    SerialUsed(trace, nextSerial, Created(s.serial, pid));
    TraceAppend(trace, nextSerial, Signalled(s.serial, s.workerPid), nextSerial);
    TraceGrows(trace, Signalled(s.serial, s.workerPid), s.serial);
  }

  lemma CancelPendingTable(trace: seq<Event>, sessions: map<int, Session>, nextSerial: nat, pid: int)
    requires TableOk(trace, sessions, nextSerial) && pid in sessions && CancelAsked(sessions[pid].serial) in trace
    ensures TraceOk(trace, nextSerial)
    ensures SessionOk(trace, sessions[pid].(cancelRequest := true, status := CANCEL_PENDING), pid)
  {
    assert SessionOk(trace, sessions[pid], pid);
  }

  /** Tasks ran in queue order and before everything still pending, the one being run apart. */
  ghost predicate RanOk(ran: seq<DelayTask>, tasks: seq<DelayTask>, clock: nat, running: set<DelayTask>) {
    && Sorted(ran) && (forall r :: r in ran ==> Due(r) <= clock)
    && (forall r, t :: r in ran && t in tasks && t !in running ==> Before(r, t))
  }

  lemma RanKept(ran: seq<DelayTask>, s: seq<DelayTask>, s': seq<DelayTask>, issued: nat, now: nat, running: set<DelayTask>)
    requires RanOk(ran, s, now, running) && Evolves(s, s', issued, now)
    ensures RanOk(ran, s', now, running)
  {
    forall r, t | r in ran && t in s' && t !in running
      ensures Before(r, t)
    {
      assert t !in s ==> Due(t) > now && Due(r) <= now;
    }
  }

  /** Time passes between operations. */
  lemma Later(p: Periodics, ran: seq<DelayTask>, tasks: seq<DelayTask>, clock: nat, now: nat)
    requires PeriodicOk(p.tasks, p.nextId, clock) && Books(p, clock, 0) && RanOk(ran, tasks, clock, {}) && clock <= now
    ensures PeriodicOk(p.tasks, p.nextId, now) && Books(p, now, 0) && RanOk(ran, tasks, now, {})
  {
    hide Books;
    BooksLater(p, clock, now);
  }

  /** A session whose delay is zero is created and removed in one go. */
  lemma BriefSession(trace: seq<Event>, sessions: map<int, Session>, n: nat, pid: int, s: Session)
    requires TableOk(trace, sessions, n) && pid !in sessions && s.serial == n
    requires s.workerPid == 0 && !s.cancelRequest && s.status == PENDING && s.errorCode == 0
    ensures TableOk(trace + [Created(n, pid)] + [StartSent(n, pid)] + [Removed(n, true)], sessions, n + 1)
  {
    var trace' := trace + [Created(n, pid)] + [StartSent(n, pid)];
    CreateInTable(trace, sessions, n, pid, s);
    var sessions' := sessions[pid := s];
    assert SessionOk(trace', s, pid) by { assert sessions'[pid] == s; }
    TraceAppend(trace', n + 1, Removed(n, true), n + 1);
    TraceGrows(trace', Removed(n, true), n);
    RemoveFromTable(trace', [Removed(n, true)], sessions', n + 1, pid);
    assert sessions' - {pid} == sessions;
  }

  /** A session created together with its removal task. */
  lemma TimedSession(trace: seq<Event>, sessions: map<int, Session>, n: nat, pid: int, s: Session,
                     q: Queue, q': Queue, t: DelayTask, p: seq<PeriodicTask>, ran: seq<DelayTask>, now: nat)
    requires TableOk(trace, sessions, n) && pid !in sessions && s.serial == n
    requires s.workerPid == 0 && !s.cancelRequest && s.status == PENDING && s.errorCode == 0 && s.delayTaskId == t.id
    requires Added(q, q', t) && t.work == Work.RemoveSession(pid) && Due(t) > now
    requires !q.crowded ==> TimersMatch(sessions, q.tasks) && WakesUp(q.tasks, p)
    requires RanOk(ran, q.tasks, now, {})
    ensures TableOk(trace + [Created(n, pid)] + [StartSent(n, pid)], sessions[pid := s], n + 1)
    ensures !q'.crowded ==> TimersMatch(sessions[pid := s], q'.tasks) && WakesUp(q'.tasks, p)
    ensures RanOk(ran, q'.tasks, now, {})
  {
    CreateInTable(trace, sessions, n, pid, s);
    AddedMembers(q, q', t);
    if !q'.crowded {
      MatchAfterAdd(sessions, q.tasks, q'.tasks, pid, s, t);
      WakesKept(q.tasks, q'.tasks, p);
    }
    RanKept(ran, q.tasks, q'.tasks, q.issued, now, {});
  }

  /** A session as CreateSession leaves it. */
  predicate Untouched(s: Session, n: nat) {
    && s.serial == n && s.workerPid == 0 && !s.cancelRequest && s.status == PENDING
    && s.errorCode == 0 && s.filePath == "" && s.delayTaskId == 0
  }

  lemma NoZeroTask(q: Queue, w: Timer)
    requires QueueInv(q, w)
    ensures forall s' :: !Dropped(q.tasks, s', 0)
  {
  }

  lemma RanFewer(ran: seq<DelayTask>, s: seq<DelayTask>, s': seq<DelayTask>, now: nat)
    requires RanOk(ran, s, now, {}) && forall t :: t in s' ==> t in s
    ensures RanOk(ran, s', now, {})
  {
  }

  /** A request is noted in the session and on the trace. */
  lemma NoteTable(trace: seq<Event>, sessions: map<int, Session>, nextSerial: nat, pid: int, s: Session, ev: SessionEvent,
                  note: seq<Event>)
    requires TableOk(trace, sessions, nextSerial) && pid in sessions && Noted(sessions[pid], s, ev, note)
    ensures sessions[pid].errorCode == 0 && OnlyAbout(note, s.serial)
    ensures TraceOk(trace + note, nextSerial) && SessionOk(trace + note, s, pid)
    ensures ev == CANCEL ==> CancelAsked(s.serial) in trace + note
  {
    assert SessionOk(trace, sessions[pid], pid);
    if note == [] {
      assert trace + note == trace;
    } else {
      var e := note[0];
      assert note == [e];
      SerialUsed(trace, nextSerial, Created(s.serial, pid));
      TraceAppend(trace, nextSerial, e, nextSerial);
      TraceGrows(trace, e, s.serial);
      assert (trace + [e])[|trace|] == e;
    }
  }

  /** A wakeup other than the task being run. */
  ghost predicate WakesBesides(tasks: seq<DelayTask>, p: seq<PeriodicTask>, f: DelayTask) {
    p != [] ==> exists t :: t in tasks && t != f && Wakes(t, p[0].due)
  }

  lemma OtherWakes(tasks: seq<DelayTask>, p: seq<PeriodicTask>, f: DelayTask)
    requires WakesUp(tasks, p) && f.work != RunPeriodic
    ensures WakesBesides(tasks, p, f)
  {
    if p != [] {
      var t :| t in tasks && Wakes(t, p[0].due);
      assert t != f;
    }
  }

  lemma NewWakes(q: Queue, tasks: seq<DelayTask>, p: seq<PeriodicTask>, f: DelayTask,
                 w: Timer)
    requires QueueInv(q, w) && f in q.tasks
    requires p != [] ==> exists t :: t in tasks && t.issue >= q.issued && Wakes(t, p[0].due)
    ensures WakesBesides(tasks, p, f)
  {
    if p != [] {
      var t :| t in tasks && t.issue >= q.issued && Wakes(t, p[0].due);
      assert f.issue < q.issued;
    }
  }

  lemma CalmParts(q: Queue, q': Queue, now: nat)
    requires Calm(q, q', now)
    ensures q.issued <= q'.issued && (q.crowded ==> q'.crowded) && Evolves(q.tasks, q'.tasks, q.issued, now)
    ensures forall t :: t in q.tasks && t.work.RemoveSession? ==> t in q'.tasks
    ensures forall t :: t in q'.tasks && t.work.RemoveSession? ==> t in q.tasks
  {
  }

  lemma FewerEvolves(s: seq<DelayTask>, s': seq<DelayTask>, issued: nat, now: nat)
    requires forall t :: t in s' ==> t in s
    ensures Evolves(s, s', issued, now)
  {
  }

  /** The removal timer of a live session fires. */
  lemma ExpireTable(trace: seq<Event>, sessions: map<int, Session>, nextSerial: nat, pid: int)
    requires TableOk(trace, sessions, nextSerial) && pid in sessions
    ensures TableOk(trace + [Removed(sessions[pid].serial, true)], sessions - {pid}, nextSerial)
  {
    var n := sessions[pid].serial;
    assert SessionOk(trace, sessions[pid], pid);
    SerialUsed(trace, nextSerial, Created(n, pid));
    TraceAppend(trace, nextSerial, Removed(n, true), nextSerial);
    TraceGrows(trace, Removed(n, true), n);
    RemoveFromTable(trace, [Removed(n, true)], sessions, nextSerial, pid);
  }

  ghost function DueNow(s: seq<DelayTask>, now: nat): set<DelayTask> {
    set t | t in s && Due(t) <= now
  }

  lemma NowShrinks(s: seq<DelayTask>, s': seq<DelayTask>, issued: nat, now: nat)
    requires s != [] && Due(s[0]) <= now && s[0] !in s' && Evolves(s, s', issued, now)
    ensures DueNow(s', now) < DueNow(s, now)
  {
    assert s[0] in DueNow(s, now);
  }

  lemma AllLater(q: Queue, w: Timer, now: nat)
    requires QueueInv(q, w) && q.tasks != [] && Due(q.tasks[0]) > now
    ensures forall t :: t in q.tasks ==> Due(t) > now
  {
    forall t | t in q.tasks
      ensures Due(t) > now
    {
      var k :| 0 <= k < |q.tasks| && q.tasks[k] == t;
      if k > 0 { assert Before(q.tasks[0], q.tasks[k]); }
    }
  }

  /** The task about to run comes after all that ran and before all that wait. */
  lemma RanNext(ran: seq<DelayTask>, q: Queue, w: Timer, now: nat)
    requires RanOk(ran, q.tasks, now, {}) && QueueInv(q, w)
    requires q.tasks != [] && Due(q.tasks[0]) <= now
    ensures RanOk(ran + [q.tasks[0]], q.tasks, now, {q.tasks[0]})
  {
    var f := q.tasks[0];
    var r := ran + [f];
    forall i, j | 0 <= i < j < |r|
      ensures Before(r[i], r[j])
    {
      if j == |ran| { assert r[i] in ran && f in q.tasks; }
    }
    forall t | t in q.tasks && t != f
      ensures Before(f, t)
    {
      var k :| 0 <= k < |q.tasks| && q.tasks[k] == t;
    }
  }

  lemma RanDone(ran: seq<DelayTask>, s: seq<DelayTask>, s': seq<DelayTask>, f: DelayTask, now: nat)
    requires RanOk(ran, s, now, {f}) && f !in s' && forall t :: t in s' ==> t in s
    ensures RanOk(ran, s', now, {})
  {
  }

  lemma WakesRemain(s: seq<DelayTask>, s': seq<DelayTask>, p: seq<PeriodicTask>, f: DelayTask)
    requires WakesBesides(s, p, f) && forall t :: t in s && t != f ==> t in s'
    ensures WakesUp(s', p)
  {
    if p != [] {
      var t :| t in s && t != f && Wakes(t, p[0].due);
      assert t in s';
    }
  }

  /** The removal after the callback takes out the task that ran, if the callback has not done so. */
  lemma FrontGone(q: Queue, u: Queue, s': seq<DelayTask>, found: bool, now: nat,
                  w0: Timer, w1: Timer)
    requires QueueInv(q, w0) && QueueInv(u, w1) && q.tasks != [] && Due(q.tasks[0]) <= now
    requires Evolves(q.tasks, u.tasks, q.issued, now) && (q.crowded ==> u.crowded)
    requires found ==> Dropped(u.tasks, s', q.tasks[0].id)
    requires !found ==> s' == u.tasks && forall t :: t in u.tasks ==> t.id != q.tasks[0].id
    ensures q.tasks[0] !in s' && forall t :: t in s' ==> t in u.tasks
    ensures !u.crowded ==> forall t :: t in u.tasks && t != q.tasks[0] ==> t in s'
  {
    hide Evolves;
    var f := q.tasks[0];
    if found {
      var x := DroppedMembers(u.tasks, s', f.id);
      SameDue(q, u, f, x, now, w0);
    }
  }

  /** A task with the id of the front task is one of the old queue, at or after the front. */
  lemma SameDue(q: Queue, u: Queue, f: DelayTask, x: DelayTask, now: nat, w0: Timer)
    requires QueueInv(q, w0) && q.tasks != [] && f == q.tasks[0] && Due(f) <= now
    requires Evolves(q.tasks, u.tasks, q.issued, now) && x in u.tasks && x.id == f.id
    ensures x in q.tasks && (x != f ==> Before(f, x)) && (!q.crowded ==> x == f)
  {
    assert Due(x) == Due(f);
    assert x in q.tasks;
    var k :| 0 <= k < |q.tasks| && q.tasks[k] == x;
    if k > 0 { assert Before(q.tasks[0], q.tasks[k]); }
  }

  lemma Unqueued(q: Queue, k: nat, w: Timer)
    requires QueueInv(q, w) && k < |q.tasks|
    ensures QueueInv(q.(tasks := RemoveAt(q.tasks, k)), w) && |RemoveAt(q.tasks, k)| == |q.tasks| - 1
  {
    RemoveKeeps(q.tasks, k, q.issued);
    RemoveFront(q.tasks, k);
  }

  lemma Rearmed(q: Queue, w: Timer, w': Timer)
    requires QueueInv(q, w) && w'.sequence == w.sequence
    requires q.tasks != [] ==> w'.executor == w.executor && w'.armed && w'.armedAt == Due(q.tasks[0]) * NS_PER_US
    ensures QueueInv(q, w')
  {
  }

  /** When every delay task lies ahead, no periodic task is a second or more behind. */
  lemma NothingOverdue(tasks: seq<DelayTask>, p: seq<PeriodicTask>, sequence: nat, now: nat)
    requires WakesUp(tasks, p) && PeriodicOk(p, sequence, now) && forall t :: t in tasks ==> Due(t) > now
    ensures forall x :: x in p ==> now < x.due + US_PER_S
  {
    forall x | x in p
      ensures now < x.due + US_PER_S
    {
      var k :| 0 <= k < |p| && p[k] == x;
      if k > 0 { assert p[0].due <= p[k].due; }
    }
  }

  /** The first task with `id` was added by another component. */
  ghost predicate OwnFirst(s: seq<DelayTask>, id: nat) {
    exists k: nat :: k < |s| && s[k].id == id && s[k].work.Script? && forall i :: 0 <= i < k ==> s[i].id != id
  }

  lemma OwnIsThere(s: seq<DelayTask>, id: nat)
    requires OwnFirst(s, id)
    ensures exists t :: t in s && t.id == id
  {
    var k: nat :| k < |s| && s[k].id == id;
    assert s[k] in s;
  }

  /** The effect on the delay queue of one call made by a callback. */
  ghost predicate CmdDone(cmd: Cmd, q: Queue, q': Queue, now: nat) {
    match cmd
    case AddDelay(delay, cmds) =>
      if delay % UINT32_LIMIT == 0 then q' == q
      else exists t :: Added(q, q', t) && t.work == Script(cmds) && Due(t) == now + delay % UINT32_LIMIT * US_PER_S
    case DropDelay(id) =>
      if OwnFirst(q.tasks, id) then Dropped(q.tasks, q'.tasks, id) else q' == q
    case _ => true
  }

  // ---- Every task is accounted for ----

  /** The delay tasks ever added, and those removed before they ran. */
  datatype Ledger = Ledger(added: set<DelayTask>, removed: set<DelayTask>)

  /** Every task added waits, ran or was removed; what was removed does not wait and did not run. */
  ghost predicate Accounted(l: Ledger, tasks: seq<DelayTask>, ran: seq<DelayTask>, issued: nat) {
    && (forall t :: t in l.added <==> t in tasks || t in ran || t in l.removed)
    && (forall t :: t in l.removed ==> t !in tasks && t !in ran)
    && (forall t :: t in l.added ==> t.issue < issued)
  }

  ghost predicate Grew(l: Ledger, l': Ledger) { l.added <= l'.added && l.removed <= l'.removed }

  ghost function NoteAdded(l: Ledger, t: DelayTask): Ledger { l.(added := l.added + {t}) }

  /** A task taken out of the queue after it started to run counts as run. */
  ghost function NoteRemoved(l: Ledger, t: DelayTask, ran: seq<DelayTask>): Ledger {
    if t in ran then l else l.(removed := l.removed + {t})
  }

  ghost predicate FirstWith(tasks: seq<DelayTask>, id: nat, t: DelayTask) {
    exists k: nat :: k < |tasks| && tasks[k] == t && t.id == id && forall i :: 0 <= i < k ==> tasks[i].id != id
  }

  /** At most the first task with `id` was removed. */
  ghost predicate TakenOut(l: Ledger, l': Ledger, tasks: seq<DelayTask>, id: nat) {
    && l'.added == l.added && l.removed <= l'.removed
    && (forall t :: t in l'.removed && t !in l.removed ==> t in tasks && FirstWith(tasks, id, t))
  }

  /** What was added is for later. */
  ghost predicate NewLater(l: Ledger, l': Ledger, now: nat) {
    forall t :: t in l'.added && t !in l.added ==> Due(t) > now
  }

  // ---- What callbacks ask of the delay queue is done ----

  /** A call that adds a delay task: a delay of zero is refused. */
  predicate Orderly(c: Cmd) { c.AddDelay? && c.delay % 0x1_0000_0000 != 0 }

  /** The delay tasks that `cmds` ask for, in order. */
  function Orders(cmds: seq<Cmd>): seq<Cmd> {
    if cmds == [] then []
    else
      var last := cmds[|cmds| - 1];
      Orders(cmds[..|cmds| - 1]) + if Orderly(last) then [last] else []
  }

  lemma {:induction false} OrdersOn(a: seq<Cmd>, b: seq<Cmd>)
    ensures Orders(a + b) == Orders(a) + Orders(b)
    decreases |b|
  {
    if b == [] {
      assert a + b == a;
    } else {
      var m := |b| - 1;
      OrdersOn(a, b[..m]);
      assert (a + b)[..|a + b| - 1] == a + b[..m] && (a + b)[|a + b| - 1] == b[m];
    }
  }

  lemma OneOrder(c: Cmd)
    ensures Orders([c]) == if c.AddDelay? && c.delay % 0x1_0000_0000 != 0 then [c] else []
  {
    assert [c][..0] == [] && Orders([]) == [];
  }

  /** The orders are the calls that add a task, both ways. */
  lemma {:induction false} OrdersAre(cmds: seq<Cmd>, c: Cmd)
    ensures c in Orders(cmds) <==> c in cmds && c.AddDelay? && c.delay % 0x1_0000_0000 != 0
  {
    if cmds != [] {
      var m := |cmds| - 1;
      OrdersAre(cmds[..m], c);
      assert cmds == cmds[..m] + [cmds[m]];
    }
  }

  /** `t` is what `c` asks for at time `now`. */
  predicate Meets(t: DelayTask, c: Cmd, now: nat) {
    c.AddDelay? && t.work == Script(c.cmds) && Due(t) == now + c.delay % 0x1_0000_0000 * 1_000_000
  }

  /** The callbacks added are `made`: one for each order, in order. */
  ghost predicate Makes(l: Ledger, l': Ledger, made: seq<DelayTask>, cmds: seq<Cmd>, now: nat) {
    && |made| == |Orders(cmds)| && (forall i :: 0 <= i < |made| ==> Meets(made[i], Orders(cmds)[i], now))
    && (forall i, j :: 0 <= i < j < |made| ==> made[i] != made[j])
    && (forall t :: t in made <==> t in l'.added && t !in l.added && t.work.Script?)
  }

  ghost predicate Ordered(l: Ledger, l': Ledger, cmds: seq<Cmd>, now: nat) { exists made :: Makes(l, l', made, cmds, now) }

  lemma NothingOrdered(l: Ledger, l': Ledger, cmds: seq<Cmd>, now: nat)
    requires Orders(cmds) == [] && forall t :: t in l'.added && t !in l.added ==> !t.work.Script?
    ensures Ordered(l, l', cmds, now)
  {
    assert Makes(l, l', [], cmds, now);
  }

  lemma MakesOn(l: Ledger, l': Ledger, l'': Ledger, x: seq<DelayTask>, y: seq<DelayTask>, a: seq<Cmd>, b: seq<Cmd>, now: nat)
    requires Makes(l, l', x, a, now) && Makes(l', l'', y, b, now) && Grew(l, l') && Grew(l', l'')
    ensures Makes(l, l'', x + y, a + b, now)
  {
    hide Meets, Orders;
    OrdersOn(a, b);
    var made, o := x + y, Orders(a) + Orders(b);
    forall i | 0 <= i < |made|
      ensures Meets(made[i], o[i], now)
    {
      if i < |x| { assert o[i] == Orders(a)[i]; } else { assert made[i] == y[i - |x|] && o[i] == Orders(b)[i - |x|]; }
    }
    forall i, j | 0 <= i < j < |made|
      ensures made[i] != made[j]
    {
      if i < |x| <= j { assert made[i] in x && made[j] in y; }
    }
  }

  lemma OrderedOn(l: Ledger, l': Ledger, l'': Ledger, a: seq<Cmd>, b: seq<Cmd>, now: nat)
    requires Ordered(l, l', a, now) && Ordered(l', l'', b, now) && Grew(l, l') && Grew(l', l'')
    ensures Ordered(l, l'', a + b, now)
  {
    hide Makes;
    var x :| Makes(l, l', x, a, now);
    var y :| Makes(l', l'', y, b, now);
    MakesOn(l, l', l'', x, y, a, b, now);
  }

  /** Every pending callback that `cmds` remove is removed, unless it is the one that runs or ran. */
  ghost predicate Struck(tasks: seq<DelayTask>, ran: seq<DelayTask>, l: Ledger, cmds: seq<Cmd>) {
    forall t :: t in tasks && t.work.Script? && DropDelay(t.id) in cmds ==> t in l.removed || t in ran
  }

  lemma {:induction false} CmdStruck(cmd: Cmd, q: Queue, q': Queue, w: Timer, l: Ledger, l': Ledger, ran: seq<DelayTask>, now: nat)
    requires QueueInv(q, w) && !q.crowded && CmdDone(cmd, q, q', now) && Grew(l, l')
    requires Accounted(l, q.tasks, ran, q.issued) && Accounted(l', q'.tasks, ran, q'.issued)
    ensures Struck(q.tasks, ran, l', [cmd])
  {
    hide Due, Added;
    forall t | t in q.tasks && t.work.Script? && cmd == DropDelay(t.id)
      ensures t in l'.removed || t in ran
    {
      var k :| 0 <= k < |q.tasks| && q.tasks[k] == t;
      forall i | 0 <= i < k ensures q.tasks[i].id != t.id {}
      assert OwnFirst(q.tasks, t.id);
      var x := DroppedMembers(q.tasks, q'.tasks, t.id);
      assert t !in q'.tasks && t in l.added && t in l'.added;
    }
  }

  lemma StruckOn(tasks: seq<DelayTask>, l: Ledger, issued: nat, tasks': seq<DelayTask>, l': Ledger, issued': nat, l'': Ledger,
                 ran: seq<DelayTask>, a: seq<Cmd>, b: seq<Cmd>)
    requires Accounted(l, tasks, ran, issued) && Accounted(l', tasks', ran, issued') && Grew(l, l') && Grew(l', l'')
    requires Struck(tasks, ran, l', a) && Struck(tasks', ran, l'', b)
    ensures Struck(tasks, ran, l'', a + b)
  {
    forall t | t in tasks && t.work.Script? && DropDelay(t.id) in a + b
      ensures t in l''.removed || t in ran
    {
      if DropDelay(t.id) !in a && t !in tasks' { assert t in l.added && t in l'.added; }
    }
  }

  lemma NoneStruck(tasks: seq<DelayTask>, ran: seq<DelayTask>, l: Ledger)
    ensures Struck(tasks, ran, l, [])
  {
  }

  lemma StruckStill(tasks: seq<DelayTask>, ran: seq<DelayTask>, l: Ledger, l': Ledger, cmds: seq<Cmd>)
    requires Struck(tasks, ran, l, cmds) && Grew(l, l')
    ensures Struck(tasks, ran, l', cmds)
  {
  }

  /** One more call of a callback. */
  lemma ScriptStruck(q: Queue, l: Ledger, q': Queue, w: Timer, l': Ledger, q'': Queue, l'': Ledger, ran: seq<DelayTask>,
                     cmds: seq<Cmd>, cmd: Cmd, now: nat)
    requires Accounted(l, q.tasks, ran, q.issued) && DoneFor(l, l', cmds, now) && (!q'.crowded ==> Struck(q.tasks, ran, l', cmds))
    requires QueueInv(q', w) && Accounted(l', q'.tasks, ran, q'.issued) && Calm(q', q'', now)
    requires CmdDone(cmd, q', q'', now) && DoneFor(l', l'', [cmd], now) && Accounted(l'', q''.tasks, ran, q''.issued)
    ensures !q''.crowded ==> Struck(q.tasks, ran, l'', cmds + [cmd])
  {
    hide Accounted, Struck, CmdDone, Ordered, NewLater, Grew, QueueInv;
    if !q''.crowded {
      assert !q'.crowded;
      CmdStruck(cmd, q', q'', w, l', l'', ran, now);
      StruckOn(q.tasks, l, q.issued, q'.tasks, l', q'.issued, l'', ran, cmds, [cmd]);
    }
  }

  lemma NoneCalled(tasks: seq<DelayTask>, ran: seq<DelayTask>, l: Ledger, calls: seq<Call>)
    ensures Struck(tasks, ran, l, CallCmds(calls[|calls|..]))
  {
    assert calls[|calls|..] == [];
  }

  /** One more call of a periodic callback. */
  lemma CallStruck(q: Queue, l: Ledger, q': Queue, l': Ledger, q'': Queue, l'': Ledger, ran: seq<DelayTask>,
                   c: seq<Call>, c': seq<Call>, made: nat, now: nat)
    requires made <= |c| && |c'| == |c| + 1 && c <= c'
    requires Accounted(l, q.tasks, ran, q.issued) && DoneByCalls(l, l', c, made, now) && Accounted(l', q'.tasks, ran, q'.issued)
    requires Calm(q', q'', now) && DoneFor(l', l'', c'[|c|].beat.cmds, now)
    requires !q'.crowded ==> Struck(q.tasks, ran, l', CallCmds(c[made..]))
    requires !q''.crowded ==> Struck(q'.tasks, ran, l'', c'[|c|].beat.cmds)
    ensures !q''.crowded ==> Struck(q.tasks, ran, l'', CallCmds(c'[made..]))
  {
    hide Accounted, Struck, Ordered, NewLater, Grew, CallCmds;
    if !q''.crowded {
      assert !q'.crowded;
      CmdsNext(c, c', made);
      StruckOn(q.tasks, l, q.issued, q'.tasks, l', q'.issued, l'', ran, CallCmds(c[made..]), c'[|c|].beat.cmds);
    }
  }

  /** The queue is scheduled again. */
  lemma StruckLater(q'': Queue, q': Queue, tasks: seq<DelayTask>, ran: seq<DelayTask>, l': Ledger, l'': Ledger,
                    cmds: seq<Cmd>, now: nat)
    requires Calm(q', q'', now) && DoneFor(l', l'', [], now) && (!q'.crowded ==> Struck(tasks, ran, l', cmds))
    ensures !q''.crowded ==> Struck(tasks, ran, l'', cmds)
  {
    hide Ordered;
    if !q''.crowded { StruckStill(tasks, ran, l', l'', cmds); }
  }

  /** All that periodic callbacks did, in order. */
  function CallCmds(calls: seq<Call>): seq<Cmd> {
    if calls == [] then [] else CallCmds(calls[..|calls| - 1]) + calls[|calls| - 1].beat.cmds
  }

  lemma CmdsNext(c: seq<Call>, c': seq<Call>, made: nat)
    requires made <= |c| && |c'| == |c| + 1 && c <= c'
    ensures CallCmds(c'[made..]) == CallCmds(c[made..]) + c'[|c|].beat.cmds
  {
    var x := c'[made..];
    assert x[..|x| - 1] == c[made..] && x[|x| - 1] == c'[|c|];
  }

  lemma {:induction false} CmdsAre(calls: seq<Call>, cmd: Cmd)
    ensures cmd in CallCmds(calls) <==> exists k :: 0 <= k < |calls| && cmd in calls[k].beat.cmds
  {
    if calls != [] {
      var m := |calls| - 1;
      CmdsAre(calls[..m], cmd);
      forall k | 0 <= k < m ensures calls[..m][k] == calls[k] {}
      if cmd in CallCmds(calls[..m]) {
        var k :| 0 <= k < m && cmd in calls[..m][k].beat.cmds;
        assert cmd in calls[k].beat.cmds;
      }
      if k :| 0 <= k < |calls| && cmd in calls[k].beat.cmds && k != m { assert cmd in calls[..m][k].beat.cmds; }
    }
  }

  /** The delay tasks that `cmds` add were added, and only tasks of other components were removed, each by
      one of `cmds`. */
  ghost predicate DoneFor(l: Ledger, l': Ledger, cmds: seq<Cmd>, now: nat) {
    && Grew(l, l') && NewLater(l, l', now) && Ordered(l, l', cmds, now)
    && forall t :: t in l'.removed && t !in l.removed ==> t.work.Script? && DropDelay(t.id) in cmds
  }

  /** A call of a periodic callback since call `made` removes `id`. */
  ghost predicate AskedIn(calls: seq<Call>, made: nat, id: nat) {
    exists k :: made <= k < |calls| && DropDelay(id) in calls[k].beat.cmds
  }

  ghost predicate DoneByCalls(l: Ledger, l': Ledger, calls: seq<Call>, made: nat, now: nat) {
    && Grew(l, l') && NewLater(l, l', now) && made <= |calls| && Ordered(l, l', CallCmds(calls[made..]), now)
    && forall t :: t in l'.removed && t !in l.removed ==> t.work.Script? && AskedIn(calls, made, t.id)
  }

  /** The work of `f`, or a periodic callback that it called, removes `id`. */
  ghost predicate Asks(f: DelayTask, calls: seq<Call>, made: nat, id: nat) {
    match f.work
    case RemoveSession(_) => false
    case RunPeriodic => AskedIn(calls, made, id)
    case Script(cmds) => DropDelay(id) in cmds
  }

  /** A task run since run `from`, whose turn came before that of `t`, removes `t`. */
  ghost predicate AskedBefore(t: DelayTask, ran: seq<DelayTask>, from: nat, calls: seq<Call>, made: nat) {
    exists k :: from <= k < |ran| && Before(ran[k], t) && Asks(ran[k], calls, made, t.id)
  }

  /** Only tasks of other components were removed, each before its turn by a callback since. */
  ghost predicate RemovedSince(l: Ledger, l': Ledger, ran: seq<DelayTask>, from: nat, calls: seq<Call>, made: nat) {
    forall t :: t in l'.removed && t !in l.removed ==> t.work.Script? && AskedBefore(t, ran, from, calls, made)
  }

  ghost predicate NoRemovals(ran: seq<DelayTask>, from: nat, calls: seq<Call>, made: nat) {
    forall k, id :: from <= k < |ran| ==> !Asks(ran[k], calls, made, id)
  }

  lemma AccountAdded(l: Ledger, tasks: seq<DelayTask>, ran: seq<DelayTask>, issued: nat, k: nat, t: DelayTask)
    requires Accounted(l, tasks, ran, issued) && k <= |tasks| && t.issue == issued
    ensures Accounted(NoteAdded(l, t), InsertAt(tasks, k, t), ran, issued + 1) && t !in l.added
  {
    forall x ensures x in InsertAt(tasks, k, t) <==> x in tasks || x == t { InsertMembers(tasks, k, t, x); }
  }

  lemma AccountRemoved(l: Ledger, q: Queue, ran: seq<DelayTask>, k: nat, w: Timer)
    requires Accounted(l, q.tasks, ran, q.issued) && QueueInv(q, w) && k < |q.tasks|
    requires forall i :: 0 <= i < k ==> q.tasks[i].id != q.tasks[k].id
    ensures Accounted(NoteRemoved(l, q.tasks[k], ran), RemoveAt(q.tasks, k), ran, q.issued)
    ensures TakenOut(l, NoteRemoved(l, q.tasks[k], ran), q.tasks, q.tasks[k].id)
  {
    SortedDistinct(q.tasks);
    forall x ensures x in RemoveAt(q.tasks, k) <==> x in q.tasks && x != q.tasks[k] { RemoveMembers(q.tasks, k, x); }
  }

  /** A task that starts to run is still queued. */
  lemma AccountRan(l: Ledger, tasks: seq<DelayTask>, ran: seq<DelayTask>, issued: nat)
    requires Accounted(l, tasks, ran, issued) && tasks != []
    ensures Accounted(l, tasks, ran + [tasks[0]], issued)
  {
    var ran' := ran + [tasks[0]];
    forall t ensures t in ran' <==> t in ran || t == tasks[0] { if t == tasks[0] { assert ran'[|ran|] == t; } }
  }

  lemma GrewOn(l: Ledger, l': Ledger, l'': Ledger)
    requires Grew(l, l') && Grew(l', l'')
    ensures Grew(l, l'')
  {
  }

  lemma GrewByOne(l: Ledger, l': Ledger, l'': Ledger, tasks: seq<DelayTask>, id: nat)
    requires Grew(l, l') && TakenOut(l', l'', tasks, id)
    ensures Grew(l, l'')
  {
  }

  lemma TakenGrew(l: Ledger, l': Ledger, tasks: seq<DelayTask>, id: nat)
    requires TakenOut(l, l', tasks, id)
    ensures l'.added == l.added && l.removed <= l'.removed
  {
  }

  lemma NothingDone(l: Ledger, cmds: seq<Cmd>, now: nat)
    requires Orders(cmds) == []
    ensures DoneFor(l, l, cmds, now)
  {
    NothingOrdered(l, l, cmds, now);
  }

  lemma DoneOn(l: Ledger, l': Ledger, l'': Ledger, a: seq<Cmd>, b: seq<Cmd>, now: nat)
    requires DoneFor(l, l', a, now) && DoneFor(l', l'', b, now)
    ensures DoneFor(l, l'', a + b, now)
  {
    hide Ordered;
    OrderedOn(l, l', l'', a, b, now);
  }

  lemma NothingCalled(l: Ledger, calls: seq<Call>, now: nat)
    ensures DoneByCalls(l, l, calls, |calls|, now)
  {
    assert calls[|calls|..] == [];
    NothingOrdered(l, l, [], now);
  }

  lemma AskedStill(calls: seq<Call>, calls': seq<Call>, made: nat, id: nat)
    requires AskedIn(calls, made, id) && calls <= calls'
    ensures AskedIn(calls', made, id)
  {
    var k :| made <= k < |calls| && DropDelay(id) in calls[k].beat.cmds;
    assert calls'[k] == calls[k];
  }

  lemma CalledOn(l: Ledger, l': Ledger, l'': Ledger, c: seq<Call>, c': seq<Call>, made: nat, now: nat)
    requires DoneByCalls(l, l', c, made, now) && made <= |c| && |c'| == |c| + 1 && c <= c'
    requires DoneFor(l', l'', c'[|c|].beat.cmds, now)
    ensures DoneByCalls(l, l'', c', made, now)
  {
    hide Ordered, CallCmds;
    CmdsNext(c, c', made);
    OrderedOn(l, l', l'', CallCmds(c[made..]), c'[|c|].beat.cmds, now);
    forall t | t in l''.removed && t !in l.removed
      ensures t.work.Script? && AskedIn(c', made, t.id)
    {
      if t in l'.removed { AskedStill(c, c', made, t.id); }
    }
  }

  lemma ScheduledOn(l: Ledger, l': Ledger, l'': Ledger, calls: seq<Call>, made: nat, now: nat)
    requires DoneByCalls(l, l', calls, made, now) && DoneFor(l', l'', [], now)
    ensures DoneByCalls(l, l'', calls, made, now)
  {
    hide Ordered, CallCmds;
    var cmds := CallCmds(calls[made..]);
    OrderedOn(l, l', l'', cmds, [], now);
    assert cmds + [] == cmds;
  }

  /** Whatever the running task removed comes behind it in the queue. */
  lemma Behind(l: Ledger, l': Ledger, tasks: seq<DelayTask>, ran: seq<DelayTask>, issued: nat, tasks': seq<DelayTask>, issued': nat,
               now: nat, t: DelayTask)
    requires Accounted(l, tasks, ran, issued) && Sorted(tasks) && tasks != [] && Due(tasks[0]) <= now
    requires Accounted(l', tasks', ran + [tasks[0]], issued') && NewLater(l, l', now)
    requires t in l'.removed && t !in l.removed
    ensures Before(tasks[0], t)
  {
    var f, ran' := tasks[0], ran + [tasks[0]];
    assert ran'[|ran|] == f;
    assert f in ran' && t != f;
    if t in l.added {
      assert t !in ran by { assert t in ran ==> t in ran'; }
      FirstIsLeast(tasks, t);
    }
  }

  lemma RemovedSinceOn(l: Ledger, l': Ledger, l'': Ledger, r: seq<DelayTask>, r': seq<DelayTask>, from: nat,
                       c: seq<Call>, c': seq<Call>, made: nat)
    requires RemovedSince(l, l', r, from, c, made) && RemovedSince(l', l'', r', |r|, c', |c|)
    requires r <= r' && c <= c' && from <= |r| && made <= |c|
    ensures RemovedSince(l, l'', r', from, c', made)
  {
    forall t | t in l''.removed && t !in l.removed
      ensures t.work.Script? && AskedBefore(t, r', from, c', made)
    {
      if t in l'.removed {
        var k :| from <= k < |r| && Before(r[k], t) && Asks(r[k], c, made, t.id);
        assert r'[k] == r[k];
        if r[k].work.RunPeriodic? { AskedStill(c, c', made, t.id); }
      } else {
        var k :| |r| <= k < |r'| && Before(r'[k], t) && Asks(r'[k], c', |c|, t.id);
        assert Asks(r'[k], c', made, t.id);
      }
    }
  }

  /** The executor's own removal takes out the task that ran and no other. */
  lemma FrontNotRemoved(l: Ledger, l': Ledger, q: Queue, u: Queue, tasks: seq<DelayTask>, ran: seq<DelayTask>, issued: nat,
                        f: DelayTask, now: nat, w0: Timer)
    requires QueueInv(q, w0) && !q.crowded && q.tasks != [] && f == q.tasks[0] && Due(f) <= now && f in ran
    requires Evolves(q.tasks, u.tasks, q.issued, now) && TakenOut(l, l', u.tasks, f.id) && Accounted(l', tasks, ran, issued)
    ensures l' == l
  {
    forall t | t in l'.removed
      ensures t in l.removed
    {
      if t !in l.removed { SameDue(q, u, f, t, now, w0); }
    }
  }

  // ---- What was due ----

  /** The tasks of a queue that are due, in order. */
  ghost function DuePart(s: seq<DelayTask>, now: nat): seq<DelayTask> {
    if s == [] || Due(s[0]) > now then [] else [s[0]] + DuePart(s[1..], now)
  }

  lemma {:induction false} DuePartIs(s: seq<DelayTask>, now: nat)
    requires Sorted(s)
    ensures Sorted(DuePart(s, now)) && forall t :: t in DuePart(s, now) <==> t in s && Due(t) <= now
  {
    if s != [] && Due(s[0]) <= now {
      DuePartIs(s[1..], now);
      var d, rest := DuePart(s, now), DuePart(s[1..], now);
      forall i, j | 0 <= i < j < |d|
        ensures Before(d[i], d[j])
      {
        if i == 0 {
          assert d[j] == rest[j - 1] && d[j] in rest && d[j] in s[1..];
        } else {
          assert d[i] == rest[i - 1] && d[j] == rest[j - 1];
        }
      }
    } else {
      forall t | t in s
        ensures Due(t) > now
      {
        var k :| 0 <= k < |s| && s[k] == t;
        assert k > 0 ==> Before(s[0], s[k]);
      }
    }
  }

  lemma FirstIsLeast(s: seq<DelayTask>, t: DelayTask)
    requires Sorted(s) && t in s
    ensures t == s[0] || Before(s[0], t)
  {
    var k :| 0 <= k < |s| && s[k] == t;
  }

  lemma HasMember(s: seq<DelayTask>)
    requires s != []
    ensures s[0] in s
  {
  }

  /** Sorted lists of the same tasks are equal. */
  lemma {:induction false} SortedEqual(a: seq<DelayTask>, b: seq<DelayTask>)
    requires Sorted(a) && Sorted(b) && forall t :: t in a <==> t in b
    ensures a == b
  {
    if a != [] {
      HasMember(a);
      FirstIsLeast(b, a[0]);
      HasMember(b);
      FirstIsLeast(a, b[0]);
      forall t ensures t in a[1..] <==> t in b[1..] { TailMembers(a, t); TailMembers(b, t); }
      SortedEqual(a[1..], b[1..]);
      assert a == [a[0]] + a[1..] && b == [b[0]] + b[1..];
    } else if b != [] {
      HasMember(b);
    }
  }

  lemma TailMembers(s: seq<DelayTask>, t: DelayTask)
    requires Sorted(s) && s != []
    ensures t in s[1..] <==> t in s && t != s[0]
  {
    SortedDistinct(s);
    assert s == [s[0]] + s[1..];
    if t in s[1..] {
      var k :| 0 <= k < |s| - 1 && s[1..][k] == t;
      assert s[k + 1] == t;
    }
  }

  /** After a timer step every due task ran or was removed; when no callback removed any, exactly the
      due tasks ran, in queue order. */
  lemma AllSettled(l: Ledger, l': Ledger, s: seq<DelayTask>, s': seq<DelayTask>, ran: seq<DelayTask>, ran': seq<DelayTask>,
                   issued: nat, issued': nat, crowded: bool, clock: nat, calls: seq<Call>, made: nat, now: nat)
    requires Accounted(l, s, ran, issued) && Accounted(l', s', ran', issued') && Grew(l, l') && Sorted(s)
    requires RanFrom(ran, ran', s, now) && RanOk(ran, s, clock, {}) && RanOk(ran', s', now, {})
    requires forall t :: t in s' ==> Due(t) > now
    requires !crowded ==> RemovedSince(l, l', ran', |ran|, calls, made)
    ensures forall t :: t in s && Due(t) <= now ==> t in ran' || t in l'.removed
    ensures !crowded && NoRemovals(ran', |ran|, calls, made) ==> ran' == ran + DuePart(s, now)
  {
    if !crowded && NoRemovals(ran', |ran|, calls, made) {
      var fresh' := ran'[|ran|..];
      forall t
        ensures t in fresh' <==> t in s && Due(t) <= now
      {
        SettledOne(l, l', s, s', ran, ran', issued, issued', clock, calls, made, now, t);
      }
      DuePartIs(s, now);
      SortedEqual(fresh', DuePart(s, now));
      assert ran' == ran + fresh';
    }
  }

  lemma SettledOne(l: Ledger, l': Ledger, s: seq<DelayTask>, s': seq<DelayTask>, ran: seq<DelayTask>, ran': seq<DelayTask>,
                   issued: nat, issued': nat, clock: nat, calls: seq<Call>, made: nat, now: nat, t: DelayTask)
    requires Accounted(l, s, ran, issued) && Accounted(l', s', ran', issued') && Grew(l, l')
    requires RanFrom(ran, ran', s, now) && RanOk(ran, s, clock, {}) && forall t :: t in s' ==> Due(t) > now
    requires RemovedSince(l, l', ran', |ran|, calls, made) && NoRemovals(ran', |ran|, calls, made)
    ensures t in ran'[|ran|..] <==> t in s && Due(t) <= now
  {
    assert ran' == ran + ran'[|ran|..];
    if t in s && Due(t) <= now {
      assert t in l.added && t in l'.added && t !in l.removed;
      assert t !in ran;
      assert t in ran';
    }
    if t in ran'[|ran|..] {
      var k :| 0 <= k < |ran'| - |ran| && ran'[|ran|..][k] == t;
      assert ran'[|ran| + k] == t;
    }
  }

  /** A session has one removal task. */
  lemma OnlyTimer(sessions: map<int, Session>, q: Queue, f: DelayTask, w: Timer)
    requires QueueInv(q, w) && !q.crowded && TimersMatch(sessions, q.tasks)
    requires f in q.tasks && f.work.RemoveSession?
    ensures f.work.pid in sessions && sessions[f.work.pid].delayTaskId == f.id
    ensures forall t :: t in q.tasks && t.id == f.id ==> t == f
  {
    forall t | t in q.tasks && t.id == f.id
      ensures t == f
    {
      var i :| 0 <= i < |q.tasks| && q.tasks[i] == t;
      var j :| 0 <= j < |q.tasks| && q.tasks[j] == f;
    }
  }

  /** The first task with `id` was taken out, if there is one. */
  ghost predicate DropEffect(s: seq<DelayTask>, s': seq<DelayTask>, id: nat) {
    Dropped(s, s', id) || (s' == s && forall t :: t in s ==> t.id != id)
  }

  lemma QueueSorted(q: Queue, w: Timer)
    requires QueueInv(q, w)
    ensures Sorted(q.tasks)
  {
  }

  lemma AddedFor(l: Ledger, t: DelayTask, cmds: seq<Cmd>, now: nat)
    requires Due(t) > now && t !in l.added
    requires if t.work.Script? then |cmds| == 1 && Orderly(cmds[0]) && Meets(t, cmds[0], now) else Orders(cmds) == []
    ensures DoneFor(l, NoteAdded(l, t), cmds, now) && Grew(l, NoteAdded(l, t))
  {
    if t.work.Script? {
      OneOrder(cmds[0]);
      assert cmds == [cmds[0]];
      assert Makes(l, NoteAdded(l, t), [t], cmds, now);
    } else {
      NothingOrdered(l, NoteAdded(l, t), cmds, now);
    }
  }

  lemma TakenFor(l: Ledger, l': Ledger, tasks: seq<DelayTask>, id: nat, now: nat)
    requires TakenOut(l, l', tasks, id) && OwnFirst(tasks, id)
    ensures DoneFor(l, l', [DropDelay(id)], now)
  {
    OneOrder(DropDelay(id));
    NothingOrdered(l, l', [DropDelay(id)], now);
  }

  lemma DoneMore(l: Ledger, l': Ledger, cmds: seq<Cmd>, now: nat)
    requires DoneFor(l, l', [], now) && Orders(cmds) == []
    ensures DoneFor(l, l', cmds, now)
  {
    var made :| Makes(l, l', made, [], now);
    assert Makes(l, l', made, cmds, now);
  }

  // ---- A timer step as a whole ----

  datatype Snap = Snap(tasks: seq<DelayTask>, issued: nat, crowded: bool, ran: seq<DelayTask>, ledger: Ledger, p: Periodics,
                       sessions: map<int, Session>, trace: seq<Event>)

  /** What running tasks since state `a` did: tasks of `a` that were due ran, in order, and new ones are
      for later; sessions left by timer, when theirs had come; and only callbacks removed tasks, their own. */
  ghost predicate Since(a: Snap, b: Snap, now: nat) {
    && PeriodsSince(a, b, now) && Fewer(a.sessions, b.sessions)
    && a.issued <= b.issued && (a.crowded ==> b.crowded) && a.p.calls <= b.p.calls && Grew(a.ledger, b.ledger)
    && Evolves(a.tasks, b.tasks, a.issued, now) && RanFrom(a.ran, b.ran, a.tasks, now) && ByTimer(a.trace, b.trace)
    && ObeyedSince(a, b, now) && (!b.crowded ==> Expired(a.sessions, b.sessions, now))
    && (!b.crowded ==> RemovedSince(a.ledger, b.ledger, b.ran, |a.ran|, b.p.calls, |a.p.calls|))
  }

  /** A callback that ran since, of a delay task or of a periodic one, made the call `cmd`. */
  ghost predicate Made(cmd: Cmd, ran: seq<DelayTask>, from: nat, calls: seq<Call>, made: nat) {
    || (exists k :: from <= k < |ran| && ran[k].work.Script? && cmd in ran[k].work.cmds)
    || (exists k :: made <= k < |calls| && cmd in calls[k].beat.cmds)
  }

  /** `t` was added since, for the call `c`. */
  ghost predicate MadeFor(l: Ledger, l': Ledger, t: DelayTask, c: Cmd, now: nat) {
    t in l'.added && t !in l.added && Meets(t, c, now)
  }

  /** The callbacks added since are those that callbacks asked for, and what they removed is gone or ran. */
  ghost predicate ObeyedSince(a: Snap, b: Snap, now: nat) {
    && (forall c :: Made(c, b.ran, |a.ran|, b.p.calls, |a.p.calls|) && Orderly(c) ==>
          exists t :: MadeFor(a.ledger, b.ledger, t, c, now))
    && (forall t :: t in b.ledger.added && t !in a.ledger.added && t.work.Script? ==>
          exists c :: Made(c, b.ran, |a.ran|, b.p.calls, |a.p.calls|) && Meets(t, c, now))
    && (!b.crowded ==> forall t :: t in a.tasks && t.work.Script? && Made(DropDelay(t.id), b.ran, |a.ran|, b.p.calls, |a.p.calls|) ==>
          t in b.ledger.removed || t in b.ran)
  }

  lemma NothingMade(ran: seq<DelayTask>, calls: seq<Call>, c: Cmd)
    ensures !Made(c, ran, |ran|, calls, |calls|)
  {
  }

  lemma MadeOn(c: Cmd, r: seq<DelayTask>, r': seq<DelayTask>, from: nat, calls: seq<Call>, calls': seq<Call>, made: nat)
    requires from <= |r| && r <= r' && made <= |calls| && calls <= calls'
    ensures Made(c, r', from, calls', made) <==> Made(c, r, from, calls, made) || Made(c, r', |r|, calls', |calls|)
  {
    if Made(c, r, from, calls, made) {
      if k :| from <= k < |r| && r[k].work.Script? && c in r[k].work.cmds {
        assert r'[k] == r[k];
      } else {
        var k :| made <= k < |calls| && c in calls[k].beat.cmds;
        assert calls'[k] == calls[k];
      }
    }
    if Made(c, r', from, calls', made) && !Made(c, r', |r|, calls', |calls|) {
      if k :| from <= k < |r'| && r'[k].work.Script? && c in r'[k].work.cmds {
        assert r[k] == r'[k];
      } else {
        var k :| made <= k < |calls'| && c in calls'[k].beat.cmds;
        assert calls[k] == calls'[k];
      }
    }
  }

  lemma ObeyedOn(a: Snap, b: Snap, c: Snap, now: nat)
    requires ObeyedSince(a, b, now) && ObeyedSince(b, c, now) && a.ran <= b.ran <= c.ran && a.p.calls <= b.p.calls <= c.p.calls
    requires Grew(a.ledger, b.ledger) && Grew(b.ledger, c.ledger) && (b.crowded ==> c.crowded)
    requires Accounted(a.ledger, a.tasks, a.ran, a.issued) && Accounted(b.ledger, b.tasks, b.ran, b.issued)
    ensures ObeyedSince(a, c, now)
  {
    hide Made, Meets;
    forall x: Cmd
      ensures Made(x, c.ran, |a.ran|, c.p.calls, |a.p.calls|) <==>
        Made(x, b.ran, |a.ran|, b.p.calls, |a.p.calls|) || Made(x, c.ran, |b.ran|, c.p.calls, |b.p.calls|)
    {
      MadeOn(x, b.ran, c.ran, |a.ran|, b.p.calls, c.p.calls, |a.p.calls|);
    }
    forall x | Made(x, c.ran, |a.ran|, c.p.calls, |a.p.calls|) && Orderly(x)
      ensures exists t :: MadeFor(a.ledger, c.ledger, t, x, now)
    {
      if Made(x, b.ran, |a.ran|, b.p.calls, |a.p.calls|) {
        var t :| MadeFor(a.ledger, b.ledger, t, x, now);
        assert MadeFor(a.ledger, c.ledger, t, x, now);
      } else {
        var t :| MadeFor(b.ledger, c.ledger, t, x, now);
        assert MadeFor(a.ledger, c.ledger, t, x, now);
      }
    }
    if !c.crowded { StruckSince(a, b, c); }
  }

  lemma StruckSince(a: Snap, b: Snap, c: Snap)
    requires a.ran <= b.ran <= c.ran && a.p.calls <= b.p.calls <= c.p.calls
    requires Grew(a.ledger, b.ledger) && Grew(b.ledger, c.ledger)
    requires Accounted(a.ledger, a.tasks, a.ran, a.issued) && Accounted(b.ledger, b.tasks, b.ran, b.issued)
    requires forall t :: t in a.tasks && t.work.Script? && Made(DropDelay(t.id), b.ran, |a.ran|, b.p.calls, |a.p.calls|) ==>
      t in b.ledger.removed || t in b.ran
    requires forall t :: t in b.tasks && t.work.Script? && Made(DropDelay(t.id), c.ran, |b.ran|, c.p.calls, |b.p.calls|) ==>
      t in c.ledger.removed || t in c.ran
    ensures forall t :: t in a.tasks && t.work.Script? && Made(DropDelay(t.id), c.ran, |a.ran|, c.p.calls, |a.p.calls|) ==>
      t in c.ledger.removed || t in c.ran
  {
    hide Made;
    forall t | t in a.tasks && t.work.Script? && Made(DropDelay(t.id), c.ran, |a.ran|, c.p.calls, |a.p.calls|)
      ensures t in c.ledger.removed || t in c.ran
    {
      MadeOn(DropDelay(t.id), b.ran, c.ran, |a.ran|, b.p.calls, c.p.calls, |a.p.calls|);
      if t !in b.tasks { assert t in a.ledger.added && t in b.ledger.added; }
    }
  }

  /** One task ran. */
  lemma ObeyedOnce(a: Snap, u: Snap, b: Snap, f: DelayTask, now: nat)
    requires WorkDone(a.(ran := a.ran + [f]), u, f, now) && u.ran == a.ran + [f]
    requires b == u.(tasks := b.tasks, ledger := b.ledger) && b.ledger.added == u.ledger.added && u.ledger.removed <= b.ledger.removed
    ensures ObeyedSince(a, b, now)
  {
    hide Meets, Orderly;
    var cmds := WorkCmds(f, u.p.calls[|a.p.calls|..]);
    forall c ensures Made(c, b.ran, |a.ran|, b.p.calls, |a.p.calls|) <==> c in cmds { MadeOnce(a, b, f, c); }
    var made :| Makes(a.ledger, u.ledger, made, cmds, now);
    forall c | c in cmds && Orderly(c)
      ensures exists t :: MadeFor(a.ledger, b.ledger, t, c, now)
    {
      OrderThere(cmds, c);
      var i :| 0 <= i < |made| && Orders(cmds)[i] == c;
      assert made[i] in made && MadeFor(a.ledger, b.ledger, made[i], c, now);
    }
    forall t | t in b.ledger.added && t !in a.ledger.added && t.work.Script?
      ensures exists c :: Made(c, b.ran, |a.ran|, b.p.calls, |a.p.calls|) && Meets(t, c, now)
    {
      var i :| 0 <= i < |made| && made[i] == t;
      OrderFrom(cmds, i);
      assert Made(Orders(cmds)[i], b.ran, |a.ran|, b.p.calls, |a.p.calls|);
    }
  }

  lemma OrderThere(cmds: seq<Cmd>, c: Cmd)
    requires c in cmds && Orderly(c)
    ensures c in Orders(cmds)
  {
    OrdersAre(cmds, c);
  }

  lemma OrderFrom(cmds: seq<Cmd>, i: nat)
    requires i < |Orders(cmds)|
    ensures Orders(cmds)[i] in cmds
  {
    OrdersAre(cmds, Orders(cmds)[i]);
  }

  lemma MadeOnce(a: Snap, b: Snap, f: DelayTask, c: Cmd)
    requires b.ran == a.ran + [f] && a.p.calls <= b.p.calls && (!f.work.RunPeriodic? ==> b.p.calls == a.p.calls)
    ensures Made(c, b.ran, |a.ran|, b.p.calls, |a.p.calls|) <==> c in WorkCmds(f, b.p.calls[|a.p.calls|..])
  {
    assert b.ran[|a.ran|] == f;
    var x := b.p.calls[|a.p.calls|..];
    CmdsAre(x, c);
    forall k | 0 <= k < |x| ensures x[k] == b.p.calls[|a.p.calls| + k] {}
    if k :| |a.p.calls| <= k < |b.p.calls| && c in b.p.calls[k].beat.cmds { assert c in x[k - |a.p.calls|].beat.cmds; }
  }

  /** The periodic queue is what the tasks run since have made of it. */
  ghost predicate PeriodsSince(a: Snap, b: Snap, now: nat) {
    && PeriodicOk(a.p.tasks, a.p.nextId, now) && a.ran <= b.ran && b.p == WorksP(a.p, b.ran[|a.ran|..], now)
  }

  /** Sessions leave; nothing else changes. */
  ghost predicate Fewer(before: map<int, Session>, after: map<int, Session>) {
    forall pid :: pid in after ==> pid in before && after[pid] == before[pid]
  }

  lemma SinceItself(a: Snap, now: nat)
    requires PeriodicOk(a.p.tasks, a.p.nextId, now)
    ensures Since(a, a, now)
  {
    forall c ensures !Made(c, a.ran, |a.ran|, a.p.calls, |a.p.calls|) { NothingMade(a.ran, a.p.calls, c); }
    assert a.ran[|a.ran|..] == [];
  }

  lemma PeriodsOn(a: Snap, b: Snap, c: Snap, now: nat)
    requires PeriodsSince(a, b, now) && PeriodsSince(b, c, now)
    ensures PeriodsSince(a, c, now)
  {
    hide PeriodicOk, WorksP;
    WorksOn(a.p, b.ran[|a.ran|..], c.ran[|b.ran|..], now);
    assert c.ran[|a.ran|..] == b.ran[|a.ran|..] + c.ran[|b.ran|..];
  }

  lemma SinceOn(a: Snap, b: Snap, c: Snap, now: nat)
    requires Since(a, b, now) && Since(b, c, now)
    requires Accounted(a.ledger, a.tasks, a.ran, a.issued) && Accounted(b.ledger, b.tasks, b.ran, b.issued)
    ensures Since(a, c, now)
  {
    hide ObeyedSince, Accounted, Evolves, RanFrom, ByTimer, Expired, RemovedSince, Grew, PeriodsSince;
    EvolvesOn(a.tasks, b.tasks, c.tasks, a.issued, b.issued, now);
    PeriodsOn(a, b, c, now);
    RanFromOn(a, b, c, now);
    ByTimerOn(a.trace, b.trace, c.trace);
    GrewOn(a.ledger, b.ledger, c.ledger);
    ObeyedOn(a, b, c, now);
    if !c.crowded {
      ExpiredOn(a.sessions, b.sessions, c.sessions, now);
      RemovedSinceOn(a.ledger, b.ledger, c.ledger, b.ran, c.ran, |a.ran|, b.p.calls, c.p.calls, |a.p.calls|);
    }
  }

  lemma RanFromOn(a: Snap, b: Snap, c: Snap, now: nat)
    requires RanFrom(a.ran, b.ran, a.tasks, now) && RanFrom(b.ran, c.ran, b.tasks, now)
    requires Evolves(a.tasks, b.tasks, a.issued, now)
    ensures RanFrom(a.ran, c.ran, a.tasks, now) && a.ran <= b.ran <= c.ran
  {
    forall k | |a.ran| <= k < |c.ran|
      ensures c.ran[k] in a.tasks && Due(c.ran[k]) <= now
    {
      if k < |b.ran| { assert c.ran[k] == b.ran[k]; } else { assert c.ran[k] in b.tasks; }
    }
  }

  /** What the work of task `f`, the latest to run, did. */
  ghost predicate Worked(a: Snap, b: Snap, f: DelayTask, now: nat) {
    && PeriodsWorked(a.p, b.p, f, now) && Fewer(a.sessions, b.sessions) && WorkDone(a, b, f, now)
    && a.issued <= b.issued && (a.crowded ==> b.crowded) && a.p.calls <= b.p.calls && Grew(a.ledger, b.ledger) && b.ran == a.ran
    && Evolves(a.tasks, b.tasks, a.issued, now) && NewLater(a.ledger, b.ledger, now) && ByTimer(a.trace, b.trace)
    && (!b.crowded ==> WakesBesides(b.tasks, b.p.tasks, f) && WorkRemoved(a, b, f) && WorkExpired(a, b, f))
  }

  /** What the work of `f` asks of the delay queue, `calls` being the calls it made. */
  function WorkCmds(f: DelayTask, calls: seq<Call>): seq<Cmd> {
    match f.work
    case RemoveSession(_) => []
    case RunPeriodic => CallCmds(calls)
    case Script(cmds) => cmds
  }

  /** What the work of a task asks of the delay queue is done. */
  ghost predicate WorkDone(a: Snap, b: Snap, f: DelayTask, now: nat) {
    && a.p.calls <= b.p.calls && (!f.work.RunPeriodic? ==> b.p.calls == a.p.calls)
    && Ordered(a.ledger, b.ledger, WorkCmds(f, b.p.calls[|a.p.calls|..]), now)
    && (!b.crowded ==> Struck(a.tasks, a.ran, b.ledger, WorkCmds(f, b.p.calls[|a.p.calls|..])))
  }

  /** The work of a task changes the periodic queue as it should. */
  ghost predicate PeriodsWorked(p: Periodics, p': Periodics, f: DelayTask, now: nat) {
    PeriodicOk(p.tasks, p.nextId, now) && p' == WorkP(p, f.work, now)
  }

  ghost predicate WorkRemoved(a: Snap, b: Snap, f: DelayTask) {
    forall t :: t in b.ledger.removed && t !in a.ledger.removed ==> t.work.Script? && Asks(f, b.p.calls, |a.p.calls|, t.id)
  }

  ghost predicate WorkExpired(a: Snap, b: Snap, f: DelayTask) {
    if f.work.RemoveSession? then f !in b.tasks && b.sessions == a.sessions - {f.work.pid} else b.sessions == a.sessions
  }

  lemma NoEvents(trace: seq<Event>, n: nat)
    ensures ByTimer(trace, trace) && ByTimer(trace, trace + [Removed(n, true)])
  {
  }

  /** A callback of another component ran. */
  lemma ScriptWorked(a: Snap, b: Snap, f: DelayTask, now: nat)
    requires Calm(Queue(a.tasks, a.issued, a.crowded), Queue(b.tasks, b.issued, b.crowded), now)
    requires b.ran == a.ran && f.work.Script? && DoneFor(a.ledger, b.ledger, f.work.cmds, now)
    requires PeriodsWorked(a.p, b.p, f, now) && b.p.calls == a.p.calls && b.sessions == a.sessions
    requires b.trace == a.trace && (!b.crowded ==> WakesUp(b.tasks, b.p.tasks))
    requires !b.crowded ==> Struck(a.tasks, a.ran, b.ledger, f.work.cmds)
    ensures Worked(a, b, f, now)
  {
    hide Ordered, Struck, Calm, WakesUp, WakesBesides, ByTimer, Evolves;
    CalmParts(Queue(a.tasks, a.issued, a.crowded), Queue(b.tasks, b.issued, b.crowded), now);
    NoEvents(a.trace, 0);
    if !b.crowded { OtherWakes(b.tasks, b.p.tasks, f); }
  }

  /** The periodic queue was executed. */
  lemma PeriodicWorked(a: Snap, b: Snap, f: DelayTask, now: nat,
                       w: Timer)
    requires Calm(Queue(a.tasks, a.issued, a.crowded), Queue(b.tasks, b.issued, b.crowded), now)
    requires QueueInv(Queue(a.tasks, a.issued, a.crowded), w) && f in a.tasks
    requires b.p.tasks != [] ==> exists t :: t in b.tasks && t.issue >= a.issued && Wakes(t, b.p.tasks[0].due)
    requires PeriodsWorked(a.p, b.p, f, now) && b.ran == a.ran && a.p.calls <= b.p.calls
    requires DoneByCalls(a.ledger, b.ledger, b.p.calls, |a.p.calls|, now)
    requires f.work.RunPeriodic? && b.sessions == a.sessions && b.trace == a.trace
    requires !b.crowded ==> Struck(a.tasks, a.ran, b.ledger, CallCmds(b.p.calls[|a.p.calls|..]))
    ensures Worked(a, b, f, now)
  {
    hide Ordered, Struck, CallCmds, Calm, WakesBesides, ByTimer, Evolves, QueueInv, Wakes;
    CalmParts(Queue(a.tasks, a.issued, a.crowded), Queue(b.tasks, b.issued, b.crowded), now);
    NoEvents(a.trace, 0);
    NewWakes(Queue(a.tasks, a.issued, a.crowded), b.tasks, b.p.tasks, f, w);
  }

  /** A removal timer fired. */
  lemma RemovalWorked(a: Snap, b: Snap, f: DelayTask, now: nat, issued: nat)
    requires b.issued == a.issued && b.crowded == a.crowded && b.p == a.p && PeriodicOk(a.p.tasks, a.p.nextId, now)
    requires Grew(a.ledger, b.ledger)
    requires b.ran == a.ran && f in a.ran && Accounted(b.ledger, b.tasks, b.ran, issued) && f.work.RemoveSession?
    requires (forall t :: t in b.tasks ==> t in a.tasks) && ByTimer(a.trace, b.trace)
    requires b.sessions == a.sessions - {f.work.pid}
    requires !a.crowded ==> f !in b.tasks && WakesUp(b.tasks, b.p.tasks)
    requires !a.crowded ==> forall t :: t in b.ledger.removed && t !in a.ledger.removed ==> t == f
    requires b.ledger.added == a.ledger.added
    ensures Worked(a, b, f, now)
  {
    hide WakesBesides, WakesUp, ByTimer, Evolves, Accounted, Ordered;
    NothingOrdered(a.ledger, b.ledger, [], now);
    FewerEvolves(a.tasks, b.tasks, a.issued, now);
    if !a.crowded {
      OtherWakes(b.tasks, b.p.tasks, f);
      NoneButRunning(a.ledger, b.ledger, b.tasks, b.ran, issued, f);
    }
  }

  /** A removal timer takes out nothing but itself, which counts as run. */
  lemma NoneButRunning(l: Ledger, l': Ledger, tasks: seq<DelayTask>, ran: seq<DelayTask>, issued: nat, f: DelayTask)
    requires Accounted(l', tasks, ran, issued) && f in ran
    requires forall t :: t in l'.removed && t !in l.removed ==> t == f
    ensures forall t :: t in l'.removed ==> t in l.removed
  {
  }

  lemma TurnRemoved(a: Snap, b: Snap, f: DelayTask, issued: nat, now: nat)
    requires Accounted(a.ledger, a.tasks, a.ran, a.issued) && Sorted(a.tasks) && a.tasks != [] && f == a.tasks[0]
    requires Due(f) <= now
    requires Accounted(b.ledger, b.tasks, b.ran, issued) && b.ran == a.ran + [f] && NewLater(a.ledger, b.ledger, now)
    requires WorkRemoved(a, b, f)
    ensures RemovedSince(a.ledger, b.ledger, b.ran, |a.ran|, b.p.calls, |a.p.calls|)
  {
    forall t | t in b.ledger.removed && t !in a.ledger.removed
      ensures t.work.Script? && AskedBefore(t, b.ran, |a.ran|, b.p.calls, |a.p.calls|)
    {
      Behind(a.ledger, b.ledger, a.tasks, a.ran, a.issued, b.tasks, issued, now, t);
      assert b.ran[|a.ran|] == f;
    }
  }

  /** The front task ran and left the queue. */
  lemma FrontRan(a: Snap, u: Snap, b: Snap, f: DelayTask, now: nat, issued: nat,
                 w0: Timer, w1: Timer, found: bool)
    requires QueueInv(Queue(a.tasks, a.issued, a.crowded), w0) && a.tasks != [] && f == a.tasks[0] && Due(f) <= now
    requires QueueInv(Queue(u.tasks, u.issued, u.crowded), w1)
    requires Worked(a.(ran := a.ran + [f]), u, f, now)
    requires b == u.(tasks := b.tasks, ledger := b.ledger) && Accounted(b.ledger, b.tasks, b.ran, issued)
    requires Accounted(a.ledger, a.tasks, a.ran, a.issued)
    requires found ==> Dropped(u.tasks, b.tasks, f.id)
    requires !found ==> b.tasks == u.tasks && forall t :: t in u.tasks ==> t.id != f.id
    requires TakenOut(u.ledger, b.ledger, u.tasks, f.id) && (!a.crowded ==> TimersMatch(a.sessions, a.tasks))
    ensures Since(a, b, now) && b.ran == a.ran + [f] && f !in b.tasks
    ensures (forall t :: t in b.tasks ==> t in u.tasks) && Evolves(a.tasks, u.tasks, a.issued, now)
    ensures !b.crowded ==> WakesUp(b.tasks, b.p.tasks) && forall t :: t in u.tasks && t != f ==> t in b.tasks
    ensures !b.crowded && f.work.RemoveSession? ==> f !in u.tasks
  {
    hide QueueInv, Accounted, Dropped, TakenOut, TimersMatch, WakesUp, WakesBesides, RemovedSince, Evolves, ByTimer,
      Expired, Due, Grew, PeriodsWorked, PeriodsSince, WorkDone, ObeyedSince;
    TakenGrew(u.ledger, b.ledger, u.tasks, f.id);
    ObeyedOnce(a, u, b, f, now);
    PeriodsJust(a, b, f, now);
    var q, v := Queue(a.tasks, a.issued, a.crowded), Queue(u.tasks, u.issued, u.crowded);
    FrontGone(q, v, b.tasks, found, now, w0, w1);
    GrewByOne(a.ledger, u.ledger, b.ledger, u.tasks, f.id);
    FewerEvolves(u.tasks, b.tasks, u.issued, now);
    EvolvesOn(a.tasks, u.tasks, b.tasks, a.issued, u.issued, now);
    RanJust(a.ran, f, a.tasks, now);
    if !b.crowded {
      WakesRemain(u.tasks, b.tasks, b.p.tasks, f);
      OneExpired(a.sessions, a.tasks, u.sessions, f, now);
      FrontNotRemoved(u.ledger, b.ledger, q, v, b.tasks, b.ran, issued, f, now, w0);
      QueueSorted(q, w0);
      TurnRemoved(a, b, f, issued, now);
    }
  }

  /** All that a turn of OnTimer's loop keeps. */
  lemma FrontDone(a: Snap, u: Snap, b: Snap, f: DelayTask, now: nat, issued: nat, w0: Timer, w1: Timer, found: bool)
    requires QueueInv(Queue(a.tasks, a.issued, a.crowded), w0) && a.tasks != [] && f == a.tasks[0] && Due(f) <= now
    requires QueueInv(Queue(u.tasks, u.issued, u.crowded), w1)
    requires Worked(a.(ran := a.ran + [f]), u, f, now)
    requires b == u.(tasks := b.tasks, ledger := b.ledger) && Accounted(b.ledger, b.tasks, b.ran, issued)
    requires Accounted(a.ledger, a.tasks, a.ran, a.issued)
    requires found ==> Dropped(u.tasks, b.tasks, f.id)
    requires !found ==> b.tasks == u.tasks && forall t :: t in u.tasks ==> t.id != f.id
    requires TakenOut(u.ledger, b.ledger, u.tasks, f.id) && (!a.crowded ==> TimersMatch(a.sessions, a.tasks))
    requires (!u.crowded ==> TimersMatch(u.sessions, u.tasks)) && Told(a.trace, a.sessions)
    requires RanOk(a.ran + [f], a.tasks, now, {f})
    ensures Since(a, b, now) && b.ran == a.ran + [f] && f !in b.tasks && Told(b.trace, b.sessions)
    ensures RanOk(b.ran, b.tasks, now, {})
    ensures !b.crowded ==> WakesUp(b.tasks, b.p.tasks) && TimersMatch(b.sessions, b.tasks)
  {
    hide QueueInv, Accounted, Dropped, TakenOut, TimersMatch, WakesUp, Evolves, Due, Since, Worked, Told, RanOk;
    FrontRan(a, u, b, f, now, issued, w0, w1, found);
    SinceTold(a, b, now);
    RanKept(b.ran, a.tasks, u.tasks, a.issued, now, {f});
    RanDone(b.ran, u.tasks, b.tasks, f, now);
    if !b.crowded { MatchAfterFront(b.sessions, u.tasks, b.tasks, f); }
  }

  lemma PeriodsJust(a: Snap, b: Snap, f: DelayTask, now: nat)
    requires PeriodsWorked(a.p, b.p, f, now) && b.ran == a.ran + [f]
    ensures PeriodsSince(a, b, now)
  {
    hide PeriodicOk, WorkP;
    assert b.ran[|a.ran|..] == [f];
    assert [f][..0] == [] && WorksP(a.p, [], now) == a.p;
  }

  lemma RanJust(ran: seq<DelayTask>, f: DelayTask, tasks: seq<DelayTask>, now: nat)
    requires f in tasks && Due(f) <= now
    ensures RanFrom(ran, ran + [f], tasks, now) && f in ran + [f]
  {
    assert (ran + [f])[|ran|] == f;
  }

  lemma MatchAfterFront(sessions: map<int, Session>, s: seq<DelayTask>, s': seq<DelayTask>, f: DelayTask)
    requires TimersMatch(sessions, s) && (forall t :: t in s' ==> t in s) && forall t :: t in s && t != f ==> t in s'
    requires f.work.RemoveSession? ==> f !in s
    ensures TimersMatch(sessions, s')
  {
    MatchAfterCalm(sessions, s, s');
  }

  lemma SinceShrinks(b: Snap, c: Snap, now: nat)
    requires Since(b, c, now) && b.tasks != [] && Due(b.tasks[0]) <= now && b.tasks[0] !in c.tasks
    ensures DueNow(c.tasks, now) < DueNow(b.tasks, now)
  {
    NowShrinks(b.tasks, c.tasks, b.issued, now);
  }

  /** Nothing due is left since state `a`: a task that was due ran or was removed, and when no callback
      removed any, exactly the due tasks ran, in queue order; sessions are there exactly when their time
      lies ahead; and no periodic task is a second or more behind. */
  ghost predicate Settled(a: Snap, b: Snap, now: nat) {
    && (forall t :: t in a.tasks && Due(t) <= now ==> t in b.ran || t in b.ledger.removed)
    && (!b.crowded && NoRemovals(b.ran, |a.ran|, b.p.calls, |a.p.calls|) ==> b.ran == a.ran + DuePart(a.tasks, now))
    && (!b.crowded ==> forall pid :: pid in a.sessions ==>
          (pid in b.sessions <==> a.sessions[pid].delayTaskId % TIME_LIMIT > now))
    && (!b.crowded ==> forall pid :: pid in b.sessions ==> pid in a.sessions && b.sessions[pid] == a.sessions[pid])
    && (!b.crowded ==> forall x :: x in b.p.tasks ==> now < x.due + US_PER_S)
  }

  lemma Settles(a: Snap, b: Snap, clock: nat, now: nat)
    requires Since(a, b, now) && Sorted(a.tasks) && (forall t :: t in b.tasks ==> Due(t) > now)
    requires PeriodicOk(b.p.tasks, b.p.nextId, now)
    requires Accounted(a.ledger, a.tasks, a.ran, a.issued) && Accounted(b.ledger, b.tasks, b.ran, b.issued)
    requires RanOk(a.ran, a.tasks, clock, {}) && RanOk(b.ran, b.tasks, now, {})
    requires !b.crowded ==> TimersMatch(b.sessions, b.tasks) && WakesUp(b.tasks, b.p.tasks)
    ensures Settled(a, b, now)
  {
    hide ObeyedSince, Evolves, ByTimer, Expired, RemovedSince, Grew, Accounted, RanOk, RanFrom, TimersMatch, WakesUp, PeriodicOk,
      NoRemovals, DuePart;
    AllSettled(a.ledger, b.ledger, a.tasks, b.tasks, a.ran, b.ran, a.issued, b.issued, b.crowded, clock, b.p.calls, |a.p.calls|, now);
    if !b.crowded {
      AllExpired(a.sessions, b.sessions, b.tasks, now);
      NothingOverdue(b.tasks, b.p.tasks, b.p.nextId, now);
    }
  }

  /** Without an executor the queue is empty, so its timer is free to be set. */
  lemma NobodyWaits(q: Queue, w: Timer, w': Timer)
    requires QueueInv(q, w) && !w.executor && w'.sequence == w.sequence
    ensures q.tasks == [] && QueueInv(q, w')
  {
  }

  /** A task is put in its place, and the timer is set for it when it is the first. */
  lemma Enqueued(q: Queue, k: nat, t: DelayTask, due: nat, w: Timer, w': Timer)
    requires QueueInv(q, w) && w.executor && k <= |q.tasks| && 0 < due < TIME_LIMIT
    requires t.issue == q.issued && t.id == PackId(w.sequence, due)
    requires (forall i :: 0 <= i < k ==> Due(q.tasks[i]) <= due) && (k < |q.tasks| ==> Due(q.tasks[k]) > due)
    requires w' == if k == 0 then w.(armed := true, armedAt := due * NS_PER_US) else w
    ensures var q' := Queue(InsertAt(q.tasks, k, t), q.issued + 1, q.crowded || !Window(q.tasks, due, q.issued));
      QueueInv(q', w'.(sequence := (w.sequence + 1) % 256)) && Added(q, q', t)
    ensures t.id == PackId(q.issued, due) && t.id > 0 && Due(t) == due
  {
    hide Sorted, Numbered, DistinctIds, Window, PackId, InsertAt, Before;
    PackedDue(q.issued, due);
    AddKeeps(q.tasks, k, t, q.crowded);
    NextSequence(q.issued);
  }

  lemma NothingAtFirst()
    ensures QueueInv(Queue([], 0, false), Timer(0, false, false, 0)) && Accounted(Ledger({}, {}), [], [], 0)
    ensures PeriodicOk([], 1, 0) && Books(NoTasks(), 0, 0)
    ensures TableOk([], map[], 0) && Told([], map[])
    ensures TimersMatch(map[], []) && WakesUp([], []) && RanOk([], [], 0, {})
  {
    hide Books, TableOk, Told;
    BooksAtFirst(0);
    NobodyAtFirst();
  }

  /** The delay task that runs the queue: at the first whole second from now at which its front is due, a
      second from now when it is due already. */
  predicate WokenAt(t: DelayTask, due: nat, now: nat) {
    && t.work == RunPeriodic && (Due(t) - now) % 1_000_000 == 0
    && if due > now then due <= Due(t) < due + 1_000_000 else Due(t) == now + 1_000_000
  }

  lemma WokenUp(tasks: seq<DelayTask>, p: seq<PeriodicTask>, now: nat)
    requires p != [] ==> p[0].due > now && exists t :: t in tasks && WokenAt(t, p[0].due, now)
    ensures WakesUp(tasks, p)
  {
    if p != [] {
      var t :| t in tasks && WokenAt(t, p[0].due, now);
      assert Wakes(t, p[0].due);
    }
  }

  lemma WokenSince(tasks: seq<DelayTask>, p: seq<PeriodicTask>, issued: nat, now: nat)
    requires p != [] ==> p[0].due > now && exists t :: t in tasks && t.issue >= issued && WokenAt(t, p[0].due, now)
    ensures p != [] ==> exists t :: t in tasks && t.issue >= issued && Wakes(t, p[0].due)
  {
    if p != [] {
      var t :| t in tasks && t.issue >= issued && WokenAt(t, p[0].due, now);
      assert Wakes(t, p[0].due);
    }
  }

  lemma TimedAt(issued: nat, now: nat, delay: nat)
    requires now < CLOCK_LIMIT && delay < UINT32_LIMIT
    ensures PackId(issued, now + delay * US_PER_S) % TIME_LIMIT == now + delay * 1_000_000
  {
    PackedDue(issued, now + delay * US_PER_S);
  }

  lemma BeginsWith(serial: nat, pid: int, delay: nat)
    requires delay > 0
    ensures Begins(serial, pid, delay) == [Created(serial, pid)] + [StartSent(serial, pid)]
  {
  }

  // ---- The periodic queue as the methods change it ----

  /** The loop of AddPeriodicTask finds the place, and the front of the queue is no later than before. */
  lemma PlaceFound(p: Periodics, interval: nat, beats: seq<Beat>, k: nat, now: nat)
    requires PeriodicOk(p.tasks, p.nextId, now) && 0 < interval < UINT32_LIMIT && k <= |p.tasks|
    requires var due := NewTask(p, interval, beats, now).due;
      (forall i :: 0 <= i < k ==> p.tasks[i].due <= due) && (k < |p.tasks| ==> p.tasks[k].due > due)
    ensures var p', t := AddedP(p, interval, beats, now), NewTask(p, interval, beats, now);
      && p' == p.(tasks := InsertP(p.tasks, k, t), nextId := p.nextId + 1, born := p.born[p.nextId := Birth(now, interval, beats)])
      && PeriodicOk(p'.tasks, p'.nextId, now)
      && p'.tasks != [] && p'.tasks[0] == if k == 0 then t else p.tasks[0]
  {
    hide InsertP, LaterP;
    var t := NewTask(p, interval, beats, now);
    assert k == LaterP(p.tasks, t.due);
    InsertKeepsP(p.tasks, k, t, p.nextId, p.nextId + 1, now);
    InsertedP(p.tasks, k, t, 0);
  }

  /** The task is there, for an interval from now, and the others are as they were. */
  lemma OneMore(p: Periodics, interval: nat, beats: seq<Beat>, now: nat)
    requires PeriodicOk(p.tasks, p.nextId, now) && interval > 0
    ensures p.nextId > 0 && forall x :: x in p.tasks ==> x.id != p.nextId
    ensures forall x :: x in AddedP(p, interval, beats, now).tasks <==>
      x in p.tasks || x == PeriodicTask(now + interval * 1_000_000, p.nextId, interval, beats)
  {
    hide InsertP, LaterP, PeriodicOk;
    InOrder(p, now);
    var t := NewTask(p, interval, beats, now);
    forall x
      ensures x in AddedP(p, interval, beats, now).tasks <==> x in p.tasks || x == t
    {
      InsertMembersP(p.tasks, LaterP(p.tasks, t.due), t, x);
    }
  }

  lemma NothingAdded(p: Periodics, beats: seq<Beat>, now: nat)
    ensures AddedP(p, 0, beats, now) == p
  {
  }

  /** Execute serves a queue whose books are in order. */
  lemma ServesAll(p: Periodics, now: nat) returns (pos: seq<nat>)
    requires PeriodicOk(p.tasks, p.nextId, now) && Books(p, now, 0)
    ensures var e := ExecP(p, now);
      && p.calls <= e.calls
      && Served(p.tasks, p.nextId, e.tasks, pos, e.calls[|p.calls|..], GoneSince(e.lost, |p.calls|), now)
  {
    hide PeriodicOk, Served;
    forall id | id in p.lost ensures p.lost[id] < |p.calls| { assert LostOk(p, id); }
    pos := Serves(p, now);
  }

  /** The loop of RemovePeriodicTask finds the task. */
  lemma TaskFound(p: Periodics, id: nat, k: nat, now: nat)
    requires PeriodicOk(p.tasks, p.nextId, now) && k <= |p.tasks|
    requires (forall i :: 0 <= i < k ==> p.tasks[i].id != id) && (k < |p.tasks| ==> p.tasks[k].id == id)
    ensures k == |p.tasks| ==> DroppedP(p, id) == p && !Queued(p.tasks, id)
    ensures forall x :: x in DroppedP(p, id).tasks <==> x in p.tasks && x.id != id
    ensures k < |p.tasks| ==>
      var p' := p.(tasks := RemoveP(p.tasks, k), dropped := p.dropped[id := |p.calls|]);
      && DroppedP(p, id) == p' && Queued(p.tasks, id) && PeriodicOk(p'.tasks, p'.nextId, now)
      && (p'.tasks != [] ==> p.tasks[0].due <= p'.tasks[0].due)
  {
    hide FirstP;
    assert k == FirstP(p.tasks, id);
    if k < |p.tasks| {
      RemoveKeepsP(p.tasks, k, p.nextId, now);
      forall x ensures x in RemoveP(p.tasks, k) <==> x in p.tasks && x.id != id { RemovedP(p.tasks, p.nextId, k, x); }
    }
  }

  /** The splice of Execute, which works on the list with the front task already changed. */
  lemma SpliceIs(s: seq<PeriodicTask>, k: nat, now: nat)
    requires s != [] && k <= |s| && s[0].due <= now
    requires var list := s[0 := Again(s[0], now)];
      && (forall i :: 0 <= i < k ==> list[i].due <= list[0].due) && (k < |s| ==> list[k].due > list[0].due)
    ensures k > 0
    ensures var list := s[0 := Again(s[0], now)]; list[1..k] + [list[0]] + list[k..] == SplicedP(s, now)
  {
    hide LaterP;
    var list, t := s[0 := Again(s[0], now)], s[1..];
    assert list[0] == Again(s[0], now) && list[1..] == t;
    forall i | 0 <= i < |t| ensures t[i] == list[i + 1] {}
    assert k - 1 == LaterP(t, list[0].due);
    assert list[1..k] == t[..k - 1] && list[k..] == t[k - 1..];
  }

  /** What became of a session's removal timer when the session ended, or did not. */
  ghost predicate TimerLeaves(s: seq<DelayTask>, s': seq<DelayTask>, pid: int, ended: bool, crowded: bool) {
    if ended then
      && (forall t :: t in s' ==> t in s)
      && (!crowded ==> forall t :: t in s ==> (t in s' <==> t.work != Work.RemoveSession(pid)))
    else s' == s
  }

  lemma LeavesFewer(s: seq<DelayTask>, s': seq<DelayTask>, pid: int, ended: bool, crowded: bool)
    requires TimerLeaves(s, s', pid, ended, crowded)
    ensures (forall t :: t in s' ==> t in s) && (!ended ==> s' == s)
  {
  }

  lemma SameSessions(sessions: map<int, Session>)
    ensures Fewer(sessions, sessions)
  {
  }

  lemma ToldBegins(trace: seq<Event>, sessions: map<int, Session>, n: nat, pid: int, delay: nat, sessions': map<int, Session>)
    requires TableOk(trace, sessions, n) && Told(trace, sessions) && sessions' - {pid} == sessions - {pid}
    requires pid !in sessions
    requires pid in sessions' ==> sessions'[pid].serial == n && sessions'[pid].status == PENDING && sessions'[pid].workerPid == 0
    requires pid in sessions' ==> sessions'[pid].filePath == ""
    ensures Told(trace + Begins(n, pid, delay), sessions')
  {
    hide Told;
    forall q | q in sessions' && q != pid
      ensures q in sessions && sessions'[q] == sessions[q]
    {
      assert q in sessions' - {pid} && (sessions' - {pid})[q] == (sessions - {pid})[q];
    }
    ToldCreate(trace, sessions, n, Begins(n, pid, delay), sessions');
  }

  lemma SinceTold(a: Snap, b: Snap, now: nat)
    requires Since(a, b, now) && Told(a.trace, a.sessions)
    ensures Told(b.trace, b.sessions)
  {
    hide ObeyedSince, Told, PeriodsSince, Evolves, RanFrom, Expired, RemovedSince, Grew;
    var ext := b.trace[|a.trace|..];
    assert b.trace == a.trace + ext;
    forall k | 0 <= k < |ext| ensures ext[k].Removed? { assert ext[k] == b.trace[|a.trace| + k]; }
    ToldFewer(a.trace, a.sessions, ext, b.sessions);
  }
}
