/** Coredump sessions as data, and the trace of what the daemon did for them. */
module CoredumpModel {
  import opened TimerModel

  const MAX_FILE_NAME := 256

  datatype Status = PENDING | RUNNING | SUCCESS | FAILED | CANCEL_PENDING | CANCELED | CANCEL_TIMEOUT

  /** A session; `serial` numbers the sessions ever created and is used by specifications only. */
  datatype Session = Session(
    serial: nat, workerPid: int, cancelRequest: bool, status: Status, filePath: string, errorCode: int,
    endTime: nat, delayTaskId: nat)

  /** What happened to the session with a given serial. */
  datatype Event =
    | Created(serial: nat, pid: int)
    | StartSent(serial: nat, pid: int)
    | CancelAsked(serial: nat)
    | WorkerSeen(serial: nat, worker: int)
    | Reported(serial: nat, path: string)
    | Signalled(serial: nat, worker: int)
    | Replied(serial: nat, code: int, path: string)
    | Removed(serial: nat, byTimer: bool)

  datatype SessionEvent = UPDATE_DUMPER | CANCEL | REPORT_SUCCESS | REPORT_FAIL | TIMEOUT

  datatype Response = REQUEST_SUCCESS | CORE_DUMP_REPEAT | DEFAULT_ERROR_CODE | ABNORMAL_SERVICE

  // ---- The state machine, as a table ----

  /** Where the worker is told to stop. */
  predicate Signals(st: Status, ev: SessionEvent) {
    (st == RUNNING && ev == CANCEL) || (st == CANCEL_PENDING && ev == UPDATE_DUMPER)
  }

  /** Where the session tries to answer its client with the recorded result. */
  predicate Answers(st: Status, ev: SessionEvent) {
    Signals(st, ev) || (st == RUNNING && (ev == REPORT_SUCCESS || ev == REPORT_FAIL))
  }

  predicate TimesOut(st: Status, ev: SessionEvent) {
    (st == PENDING || st == CANCEL_PENDING) && ev == TIMEOUT
  }

  function StatusAfter(st: Status, ev: SessionEvent): Status {
    if Signals(st, ev) then CANCELED
    else if Answers(st, ev) then (if ev == REPORT_SUCCESS then SUCCESS else FAILED)
    else if TimesOut(st, ev) then CANCEL_TIMEOUT
    else if st == PENDING && ev == UPDATE_DUMPER then RUNNING
    else if st == PENDING && ev == CANCEL then CANCEL_PENDING
    else st
  }

  /** The file name must fit the reply with its terminator. */
  predicate Sendable(path: string) { |path| < MAX_FILE_NAME }

  /** Whether the session ends with the event. */
  predicate Ends(s: Session, ev: SessionEvent) {
    TimesOut(s.status, ev) || (Answers(s.status, ev) && Sendable(s.filePath))
  }

  /** What the daemon does when the event reaches the session. */
  function Effects(s: Session, ev: SessionEvent): seq<Event> {
    (if Signals(s.status, ev) then [Signalled(s.serial, s.workerPid)] else []) +
    if TimesOut(s.status, ev) then [Replied(s.serial, -1, ""), Removed(s.serial, false)]
    else if Ends(s, ev) then [Replied(s.serial, s.errorCode, s.filePath), Removed(s.serial, false)]
    else []
  }

  // ---- The trace ----

  /** A terminate signal follows a cancel request and the report of that very worker. */
  ghost predicate SignalOk(trace: seq<Event>, k: nat)
    requires k < |trace|
  {
    trace[k].Signalled? ==>
      && trace[k].worker > 0
      && WorkerSeen(trace[k].serial, trace[k].worker) in trace[..k]
      && CancelAsked(trace[k].serial) in trace[..k]
  }

  /** A reply is at once followed by the removal; other removals are the timer's. */
  ghost predicate ReplyOk(trace: seq<Event>, k: nat)
    requires k < |trace|
  {
    && (trace[k].Replied? ==> k + 1 < |trace| && trace[k + 1] == Removed(trace[k].serial, false))
    && (trace[k].Removed? && !trace[k].byTimer ==>
          k > 0 && trace[k - 1].Replied? && trace[k - 1].serial == trace[k].serial)
  }

  ghost predicate Gone(trace: seq<Event>, serial: nat) {
    exists k :: 0 <= k < |trace| && trace[k].Removed? && trace[k].serial == serial
  }

  ghost predicate TraceOk(trace: seq<Event>, nextSerial: nat) {
    && (forall k :: 0 <= k < |trace| ==> trace[k].serial < nextSerial)
    && (forall k :: 0 <= k < |trace| ==> SignalOk(trace, k) && ReplyOk(trace, k))
    && (forall j, k :: 0 <= j < k < |trace| && trace[j].Removed? ==> trace[k].serial != trace[j].serial)
  }

  // ---- The session table ----

  ghost predicate SessionOk(trace: seq<Event>, s: Session, pid: int) {
    && Created(s.serial, pid) in trace && !Gone(trace, s.serial)
    && (s.workerPid != 0 ==> s.workerPid > 0 && WorkerSeen(s.serial, s.workerPid) in trace)
    && (s.status == RUNNING ==> s.workerPid > 0)
    && (s.cancelRequest || s.status == CANCEL_PENDING ==> CancelAsked(s.serial) in trace)
    && s.errorCode == 0
  }

  /** The live sessions are those created and not yet removed, one per pid. */
  ghost predicate TableOk(trace: seq<Event>, sessions: map<int, Session>, nextSerial: nat) {
    && TraceOk(trace, nextSerial)
    && (forall pid :: pid in sessions ==> SessionOk(trace, sessions[pid], pid))
    && (forall p, q :: p in sessions && q in sessions && p != q ==> sessions[p].serial != sessions[q].serial)
    && (forall n, pid :: Created(n, pid) in trace && !Gone(trace, n) ==> pid in sessions && sessions[pid].serial == n)
  }

  // ---- What the trace demands ----

  predicate Sees(e: Event, n: nat) { e.WorkerSeen? && e.serial == n }

  predicate Reports(e: Event, n: nat) { e.Reported? && e.serial == n }

  ghost predicate Seen(trace: seq<Event>, n: nat) { exists k :: 0 <= k < |trace| && Sees(trace[k], n) }

  /** A result was reported after a worker was seen. */
  ghost predicate Finished(trace: seq<Event>, n: nat) {
    exists j, k :: 0 <= j < k < |trace| && Sees(trace[j], n) && Reports(trace[k], n)
  }

  /** The worker of session `n` is dumping: it was seen, and no result and no cancel came since. */
  ghost predicate AtWork(trace: seq<Event>, n: nat) { Seen(trace, n) && CancelAsked(n) !in trace && !Finished(trace, n) }

  /** The worker seen last, or 0. */
  function LastWorker(trace: seq<Event>, n: nat): int {
    if trace == [] then 0
    else if Sees(trace[|trace| - 1], n) then trace[|trace| - 1].worker
    else LastWorker(trace[..|trace| - 1], n)
  }

  /** The file reported last, or none. */
  function LastPath(trace: seq<Event>, n: nat): string {
    if trace == [] then ""
    else if Reports(trace[|trace| - 1], n) then trace[|trace| - 1].path
    else LastPath(trace[..|trace| - 1], n)
  }

  /** The worker is told to stop, and the client is answered if the file name fits. */
  function Stops(n: nat, worker: int, path: string): seq<Event> {
    [Signalled(n, worker)] + if |path| < 256 then [Replied(n, 0, path), Removed(n, false)] else []
  }

  /** Event `k` is at once followed by `ext`. */
  ghost predicate Follow(trace: seq<Event>, k: nat, ext: seq<Event>)
    requires k < |trace|
  {
    k + 1 + |ext| <= |trace| && trace[k + 1..k + 1 + |ext|] == ext
  }

  /** A worker that is dumping is told to stop by a cancel, one that is seen after a cancel by being seen. */
  ghost predicate ToStop(before: seq<Event>, e: Event, n: nat, worker: int) {
    || (e == CancelAsked(n) && AtWork(before, n) && worker == LastWorker(before, n))
    || (e == WorkerSeen(n, worker) && !Seen(before, n) && CancelAsked(n) in before)
  }

  /** A result reported by a worker that is dumping, with a file name that fits. */
  ghost predicate ToAnswer(before: seq<Event>, e: Event, n: nat, path: string) {
    e == Reported(n, path) && AtWork(before, n) && |path| < 256
  }

  /** What is asked for is done at once, and nothing is done that was not asked for: the result of a worker
      that is dumping is the reply; it is told to stop when a cancel comes, or came before it was seen; and
      a client is answered for one of these, or with -1 while no worker was seen. */
  ghost predicate AnsweredAt(trace: seq<Event>, k: nat)
    requires k < |trace|
  {
    var before := trace[..k];
    match trace[k]
    case Reported(n, path) => ToAnswer(before, trace[k], n, path) ==> Follow(trace, k, [Replied(n, 0, path), Removed(n, false)])
    case CancelAsked(n) => forall w :: ToStop(before, trace[k], n, w) ==> Follow(trace, k, Stops(n, w, LastPath(before, n)))
    case WorkerSeen(n, w) => ToStop(before, trace[k], n, w) ==> Follow(trace, k, Stops(n, w, LastPath(before, n)))
    case Signalled(n, w) => k > 0 && ToStop(trace[..k - 1], trace[k - 1], n, w)
    case Replied(n, code, path) =>
      || (code == -1 && path == "" && !Seen(before, n))
      || (code == 0 && path == LastPath(before, n) && k > 0 && |path| < 256 &&
          (ToAnswer(trace[..k - 1], trace[k - 1], n, path) || (trace[k - 1].Signalled? && trace[k - 1].serial == n)))
    case _ => true
  }

  /** The status of a session is told by its events. */
  ghost predicate Tracks(trace: seq<Event>, s: Session) {
    && (s.workerPid == 0 <==> !Seen(trace, s.serial))
    && s.workerPid == LastWorker(trace, s.serial) && s.filePath == LastPath(trace, s.serial)
    && (s.status == PENDING <==> !Seen(trace, s.serial) && CancelAsked(s.serial) !in trace)
    && (s.status == CANCEL_PENDING <==> !Seen(trace, s.serial) && CancelAsked(s.serial) in trace)
    && (s.status == RUNNING <==> AtWork(trace, s.serial))
  }

  /** What holds of trace and sessions between requests. */
  ghost predicate Told(trace: seq<Event>, sessions: map<int, Session>) {
    && (forall k :: 0 <= k < |trace| ==> AnsweredAt(trace, k))
    && (forall pid :: pid in sessions ==> Tracks(trace, sessions[pid]))
  }

  /** Live sessions and pending removal tasks correspond one to one. */
  ghost predicate TimersMatch(sessions: map<int, Session>, tasks: seq<DelayTask>) {
    && (forall pid :: pid in sessions ==> HasTimer(sessions[pid], pid, tasks))
    && (forall t :: t in tasks && t.work.RemoveSession? ==>
          t.work.pid in sessions && sessions[t.work.pid].delayTaskId == t.id)
  }

  ghost predicate HasTimer(s: Session, pid: int, tasks: seq<DelayTask>) {
    exists t :: t in tasks && t.id == s.delayTaskId && t.work == RemoveSession(pid)
  }

  lemma NobodyAtFirst()
    ensures TableOk([], map[], 0) && Told([], map[])
  {
  }

  // ---- Growing the trace ----

  lemma TraceGrows(trace: seq<Event>, e: Event, n: nat)
    ensures Gone(trace + [e], n) <==> Gone(trace, n) || (e.Removed? && e.serial == n)
  {
    if Gone(trace, n) {
      var k :| 0 <= k < |trace| && trace[k].Removed? && trace[k].serial == n;
      assert (trace + [e])[k] == trace[k];
    }
    if e.Removed? && e.serial == n { assert (trace + [e])[|trace|] == e; }
    if Gone(trace + [e], n) {
      var k :| 0 <= k < |trace + [e]| && (trace + [e])[k].Removed? && (trace + [e])[k].serial == n;
      if k < |trace| { assert trace[k] == (trace + [e])[k]; }
    }
  }

  /** An event other than a reply or a reply's removal extends a sound trace. */
  lemma TraceAppend(trace: seq<Event>, nextSerial: nat, e: Event, nextSerial': nat)
    requires TraceOk(trace, nextSerial) && nextSerial <= nextSerial' && e.serial < nextSerial' && !Gone(trace, e.serial)
    requires !e.Replied? && (e.Removed? ==> e.byTimer)
    requires e.Signalled? ==> e.worker > 0 && WorkerSeen(e.serial, e.worker) in trace && CancelAsked(e.serial) in trace
    ensures TraceOk(trace + [e], nextSerial')
  {
    var r := trace + [e];
    forall k | 0 <= k < |r|
      ensures r[k].serial < nextSerial' && SignalOk(r, k) && ReplyOk(r, k)
    {
      if k < |trace| {
        assert SignalOk(trace, k) && ReplyOk(trace, k) && r[k] == trace[k];
        assert r[..k] == trace[..k];
      } else {
        assert r[..k] == trace;
      }
    }
    forall j, k | 0 <= j < k < |r| && r[j].Removed?
      ensures r[k].serial != r[j].serial
    {
      if k == |trace| { assert trace[j].Removed?; }
    }
  }

  /** A reply with its removal extends a sound trace. */
  lemma TraceReply(trace: seq<Event>, nextSerial: nat, n: nat, code: int, path: string)
    requires TraceOk(trace, nextSerial) && n < nextSerial && !Gone(trace, n)
    ensures TraceOk(trace + [Replied(n, code, path), Removed(n, false)], nextSerial)
  {
    var r := trace + [Replied(n, code, path), Removed(n, false)];
    forall k | 0 <= k < |r|
      ensures r[k].serial < nextSerial && SignalOk(r, k) && ReplyOk(r, k)
    {
      if k < |trace| {
        assert SignalOk(trace, k) && ReplyOk(trace, k) && r[k] == trace[k];
        assert r[..k] == trace[..k];
      }
    }
    forall j, k | 0 <= j < k < |r| && r[j].Removed?
      ensures r[k].serial != r[j].serial
    {
      if k >= |trace| { assert trace[j].Removed?; }
    }
  }

  // ---- Changing one session ----

  ghost predicate OnlyAbout(ext: seq<Event>, n: nat) { forall k :: 0 <= k < |ext| ==> ext[k].serial == n && !ext[k].Created? }

  lemma GoneGrows(trace: seq<Event>, ext: seq<Event>, n: nat, m: nat)
    requires OnlyAbout(ext, n)
    ensures m != n ==> (Gone(trace + ext, m) <==> Gone(trace, m))
    ensures Gone(trace, m) ==> Gone(trace + ext, m)
  {
    if Gone(trace, m) {
      var k :| 0 <= k < |trace| && trace[k].Removed? && trace[k].serial == m;
      assert (trace + ext)[k] == trace[k];
    }
    if m != n && Gone(trace + ext, m) {
      var k :| 0 <= k < |trace + ext| && (trace + ext)[k].Removed? && (trace + ext)[k].serial == m;
      assert trace[k] == (trace + ext)[k];
    }
  }

  /** Other sessions are not touched by events about session `n`. */
  lemma OtherSession(trace: seq<Event>, ext: seq<Event>, n: nat, s: Session, pid: int)
    requires SessionOk(trace, s, pid) && OnlyAbout(ext, n) && s.serial != n
    ensures SessionOk(trace + ext, s, pid)
  {
    GoneGrows(trace, ext, n, s.serial);
  }

  lemma CreatedBefore(trace: seq<Event>, ext: seq<Event>, n: nat, m: nat, pid: int)
    requires OnlyAbout(ext, n) && Created(m, pid) in trace + ext
    ensures Created(m, pid) in trace
  {
  }

  /** A session changes, with events about it. */
  lemma UpdateTable(trace: seq<Event>, ext: seq<Event>, sessions: map<int, Session>, nextSerial: nat, pid: int, s: Session)
    requires TableOk(trace, sessions, nextSerial) && pid in sessions && s.serial == sessions[pid].serial
    requires OnlyAbout(ext, s.serial) && TraceOk(trace + ext, nextSerial) && SessionOk(trace + ext, s, pid)
    ensures TableOk(trace + ext, sessions[pid := s], nextSerial)
  {
    forall q | q in sessions && q != pid
      ensures SessionOk(trace + ext, sessions[q], q)
    {
      OtherSession(trace, ext, s.serial, sessions[q], q);
    }
    forall n, q | Created(n, q) in trace + ext && !Gone(trace + ext, n)
      ensures q in sessions && sessions[pid := s][q].serial == n
    {
      CreatedBefore(trace, ext, s.serial, n, q);
      GoneGrows(trace, ext, s.serial, n);
    }
  }

  /** A session leaves the table, with its removal on record. */
  lemma RemoveFromTable(trace: seq<Event>, ext: seq<Event>, sessions: map<int, Session>, nextSerial: nat, pid: int)
    requires TableOk(trace, sessions, nextSerial) && pid in sessions
    requires OnlyAbout(ext, sessions[pid].serial) && TraceOk(trace + ext, nextSerial)
    requires Gone(trace + ext, sessions[pid].serial)
    ensures TableOk(trace + ext, sessions - {pid}, nextSerial)
  {
    var k := sessions[pid].serial;
    forall q | q in sessions && q != pid
      ensures SessionOk(trace + ext, sessions[q], q)
    {
      OtherSession(trace, ext, k, sessions[q], q);
    }
    forall n, q | Created(n, q) in trace + ext && !Gone(trace + ext, n)
      ensures q in sessions - {pid} && sessions[q].serial == n
    {
      CreatedBefore(trace, ext, k, n, q);
      GoneGrows(trace, ext, k, n);
    }
  }

  /** A new session enters the table, and its process is told to start. */
  lemma CreateInTable(trace: seq<Event>, sessions: map<int, Session>, nextSerial: nat, pid: int, s: Session)
    requires TableOk(trace, sessions, nextSerial) && pid !in sessions && s.serial == nextSerial
    requires s.workerPid == 0 && !s.cancelRequest && s.status == PENDING && s.errorCode == 0
    ensures TableOk(trace + [Created(nextSerial, pid)] + [StartSent(nextSerial, pid)], sessions[pid := s], nextSerial + 1)
  {
    var trace', e := trace + [Created(nextSerial, pid)], StartSent(nextSerial, pid);
    AddToTable(trace, sessions, nextSerial, pid, s);
    var sessions' := sessions[pid := s];
    assert SessionOk(trace', sessions'[pid], pid);
    TraceAppend(trace', nextSerial + 1, e, nextSerial + 1);
    TraceGrows(trace', e, nextSerial);
    UpdateTable(trace', [e], sessions', nextSerial + 1, pid, s);
    assert sessions'[pid := s] == sessions';
  }

  lemma AddToTable(trace: seq<Event>, sessions: map<int, Session>, nextSerial: nat, pid: int, s: Session)
    requires TableOk(trace, sessions, nextSerial) && pid !in sessions && s.serial == nextSerial
    requires s.workerPid == 0 && !s.cancelRequest && s.status == PENDING && s.errorCode == 0
    ensures TableOk(trace + [Created(nextSerial, pid)], sessions[pid := s], nextSerial + 1)
  {
    var e := Created(nextSerial, pid);
    var trace' := trace + [e];
    NotGoneYet(trace, nextSerial);
    TraceAppend(trace, nextSerial, e, nextSerial + 1);
    forall n ensures Gone(trace', n) <==> Gone(trace, n) { TraceGrows(trace, e, n); }
    forall q | q in sessions
      ensures SessionOk(trace', sessions[q], q) && sessions[q].serial != nextSerial
    {
      assert SessionOk(trace, sessions[q], q);
      SerialUsed(trace, nextSerial, Created(sessions[q].serial, q));
    }
    assert trace'[|trace|] == e;
  }

  lemma SerialUsed(trace: seq<Event>, nextSerial: nat, e: Event)
    requires TraceOk(trace, nextSerial) && e in trace
    ensures e.serial < nextSerial
  {
  }

  lemma NotGoneYet(trace: seq<Event>, nextSerial: nat)
    requires TraceOk(trace, nextSerial)
    ensures !Gone(trace, nextSerial)
  {
  }

  // ---- Between requests ----

  lemma StillAnswered(trace: seq<Event>, ext: seq<Event>, k: nat)
    requires k < |trace| && AnsweredAt(trace, k)
    ensures AnsweredAt(trace + ext, k)
  {
    hide ToStop, ToAnswer, Stops, Seen, LastPath;
    var r := trace + ext;
    assert r[..k] == trace[..k] && r[k] == trace[k];
    if k > 0 { assert r[..k - 1] == trace[..k - 1] && r[k - 1] == trace[k - 1]; }
    forall x | Follow(trace, k, x)
      ensures Follow(r, k, x)
    {
      assert r[k + 1..k + 1 + |x|] == trace[k + 1..k + 1 + |x|];
    }
  }

  lemma AnsweredOn(trace: seq<Event>, ext: seq<Event>)
    requires forall k :: 0 <= k < |trace| ==> AnsweredAt(trace, k)
    requires forall k :: |trace| <= k < |trace + ext| ==> AnsweredAt(trace + ext, k)
    ensures forall k :: 0 <= k < |trace + ext| ==> AnsweredAt(trace + ext, k)
  {
    hide AnsweredAt;
    forall k | 0 <= k < |trace + ext|
      ensures AnsweredAt(trace + ext, k)
    {
      if k < |trace| { StillAnswered(trace, ext, k); }
    }
  }

  predicate Note(e: Event) { e.WorkerSeen? || e.Reported? || e.CancelAsked? }

  /** One more event. */
  lemma Grown(trace: seq<Event>, e: Event, n: nat)
    ensures Seen(trace + [e], n) <==> Seen(trace, n) || Sees(e, n)
    ensures Finished(trace + [e], n) <==> Finished(trace, n) || (Seen(trace, n) && Reports(e, n))
    ensures CancelAsked(n) in trace + [e] <==> CancelAsked(n) in trace || e == CancelAsked(n)
    ensures LastWorker(trace + [e], n) == if Sees(e, n) then e.worker else LastWorker(trace, n)
    ensures LastPath(trace + [e], n) == if Reports(e, n) then e.path else LastPath(trace, n)
  {
    hide Seen, Finished;
    assert (trace + [e])[..|trace|] == trace && (trace + [e])[|trace|] == e;
    SeenGrows(trace, e, n);
    FinishedGrows(trace, e, n);
  }

  lemma SeenGrows(trace: seq<Event>, e: Event, n: nat)
    ensures Seen(trace + [e], n) <==> Seen(trace, n) || Sees(e, n)
  {
    var r := trace + [e];
    if Seen(trace, n) { var k :| 0 <= k < |trace| && Sees(trace[k], n); assert Sees(r[k], n); }
    if Sees(e, n) { assert Sees(r[|trace|], n); }
  }

  lemma FinishedGrows(trace: seq<Event>, e: Event, n: nat)
    ensures Finished(trace + [e], n) <==> Finished(trace, n) || (Seen(trace, n) && Reports(e, n))
  {
    var r := trace + [e];
    if Seen(trace, n) && Reports(e, n) {
      var j :| 0 <= j < |trace| && Sees(trace[j], n);
      assert Sees(r[j], n) && Reports(r[|trace|], n);
    }
    if Finished(trace, n) {
      var j, k :| 0 <= j < k < |trace| && Sees(trace[j], n) && Reports(trace[k], n);
      assert Sees(r[j], n) && Reports(r[k], n);
    }
    if Finished(r, n) {
      var j, k :| 0 <= j < k < |r| && Sees(r[j], n) && Reports(r[k], n);
      assert Sees(trace[j], n);
      if k < |trace| { assert Reports(trace[k], n); }
    }
  }

  /** Events that tell nothing new of session `n`. */
  lemma {:induction false} Quiet(trace: seq<Event>, ext: seq<Event>, n: nat)
    requires forall k :: 0 <= k < |ext| ==> !Note(ext[k]) || ext[k].serial != n
    ensures Seen(trace + ext, n) == Seen(trace, n) && Finished(trace + ext, n) == Finished(trace, n)
    ensures CancelAsked(n) in trace + ext <==> CancelAsked(n) in trace
    ensures LastWorker(trace + ext, n) == LastWorker(trace, n) && LastPath(trace + ext, n) == LastPath(trace, n)
    decreases |ext|
  {
    hide Seen, Finished, LastWorker, LastPath;
    if ext == [] {
      assert trace + ext == trace;
    } else {
      var m := |ext| - 1;
      Quiet(trace, ext[..m], n);
      Grown(trace + ext[..m], ext[m], n);
      assert trace + ext == trace + ext[..m] + [ext[m]];
    }
  }

  lemma TracksStill(trace: seq<Event>, ext: seq<Event>, s: Session)
    requires Tracks(trace, s) && forall k :: 0 <= k < |ext| ==> !Note(ext[k]) || ext[k].serial != s.serial
    ensures Tracks(trace + ext, s)
  {
    hide Seen, Finished, LastWorker, LastPath;
    Quiet(trace, ext, s.serial);
  }

  /** Events about session `n` do not concern the others. */
  lemma OthersTrack(trace: seq<Event>, ext: seq<Event>, sessions: map<int, Session>, n: nat)
    requires OnlyAbout(ext, n) && forall pid :: pid in sessions ==> Tracks(trace, sessions[pid])
    ensures forall pid :: pid in sessions && sessions[pid].serial != n ==> Tracks(trace + ext, sessions[pid])
  {
    hide Tracks;
    forall pid | pid in sessions && sessions[pid].serial != n
      ensures Tracks(trace + ext, sessions[pid])
    {
      TracksStill(trace, ext, sessions[pid]);
    }
  }

  /** What the session becomes when the event reaches it. */
  function After(sessions: map<int, Session>, pid: int, s: Session, ev: SessionEvent): map<int, Session> {
    if Ends(s, ev) then sessions - {pid} else sessions[pid := s.(status := StatusAfter(s.status, ev))]
  }

  /** What an event does to a session, case by case. */
  lemma EffectsAre(s: Session, ev: SessionEvent)
    ensures s.status == RUNNING && (ev == REPORT_SUCCESS || ev == REPORT_FAIL) ==>
      if |s.filePath| < 256
      then Ends(s, ev) && Effects(s, ev) == [Replied(s.serial, s.errorCode, s.filePath), Removed(s.serial, false)]
      else !Ends(s, ev) && Effects(s, ev) == [] && StatusAfter(RUNNING, ev) == if ev == REPORT_SUCCESS then SUCCESS else FAILED
    ensures (s.status == RUNNING && ev == CANCEL) || (s.status == CANCEL_PENDING && ev == UPDATE_DUMPER) ==>
      if |s.filePath| < 256
      then Ends(s, ev) && Effects(s, ev) == [Signalled(s.serial, s.workerPid), Replied(s.serial, s.errorCode, s.filePath),
                                             Removed(s.serial, false)]
      else !Ends(s, ev) && Effects(s, ev) == [Signalled(s.serial, s.workerPid)] && StatusAfter(s.status, ev) == CANCELED
    ensures (s.status == PENDING || s.status == CANCEL_PENDING) && ev == TIMEOUT ==>
      Ends(s, ev) && Effects(s, ev) == [Replied(s.serial, -1, ""), Removed(s.serial, false)]
    ensures s.status == PENDING && (ev == UPDATE_DUMPER || ev == CANCEL) ==>
      !Ends(s, ev) && Effects(s, ev) == [] && StatusAfter(PENDING, ev) == if ev == CANCEL then CANCEL_PENDING else RUNNING
    ensures (s.status == PENDING && (ev == REPORT_SUCCESS || ev == REPORT_FAIL)) ||
            (s.status == RUNNING && (ev == UPDATE_DUMPER || ev == TIMEOUT)) ||
            (s.status == CANCEL_PENDING && ev != UPDATE_DUMPER && ev != TIMEOUT) ||
            (s.status != PENDING && s.status != RUNNING && s.status != CANCEL_PENDING) ==>
      !Ends(s, ev) && Effects(s, ev) == [] && StatusAfter(s.status, ev) == s.status
  {
  }

  /** A report: the reply of a running session if the name fits, whatever the return code; else it is noted. */
  lemma ReportDoes(trace: seq<Event>, sessions: map<int, Session>, pid: int, retCode: int, path: string)
    requires pid in sessions && sessions[pid].errorCode == 0
    ensures var o, ev := sessions[pid], if retCode == 0 then REPORT_SUCCESS else REPORT_FAIL;
      var s := o.(filePath := path);
      var all, after := trace + [Reported(o.serial, path)] + Effects(s, ev), After(sessions, pid, s, ev);
      && Ends(s, ev) == (o.status == RUNNING && |path| < 256)
      && if o.status == RUNNING && |path| < 256
         then all == trace + [Reported(o.serial, path), Replied(o.serial, 0, path), Removed(o.serial, false)] &&
              after == sessions - {pid}
         else all == trace + [Reported(o.serial, path)] &&
              after == sessions[pid := o.(filePath := path, status :=
                if o.status != RUNNING then o.status else if retCode == 0 then SUCCESS else FAILED)]
  {
    hide Effects, Ends, StatusAfter;
    EffectsAre(sessions[pid].(filePath := path), if retCode == 0 then REPORT_SUCCESS else REPORT_FAIL);
  }

  /** A cancel: the signal and the reply of a running session; a waiting one keeps it. */
  lemma CancelDoes(trace: seq<Event>, sessions: map<int, Session>, pid: int)
    requires pid in sessions && sessions[pid].errorCode == 0
    ensures var o := sessions[pid];
      var s, n := o.(cancelRequest := true), o.serial;
      var all, after := trace + [CancelAsked(n)] + Effects(s, CANCEL), After(sessions, pid, s, CANCEL);
      && Ends(s, CANCEL) == (o.status == RUNNING && |o.filePath| < 256)
      && if o.status == RUNNING && |o.filePath| < 256
         then all == trace + [CancelAsked(n), Signalled(n, o.workerPid), Replied(n, 0, o.filePath), Removed(n, false)] &&
              after == sessions - {pid}
         else all == trace + (if o.status == RUNNING then [CancelAsked(n), Signalled(n, o.workerPid)] else [CancelAsked(n)]) &&
              after == sessions[pid := s.(status :=
                if o.status == RUNNING then CANCELED else if o.status == PENDING then CANCEL_PENDING else o.status)]
  {
    hide Effects, Ends, StatusAfter;
    EffectsAre(sessions[pid].(cancelRequest := true), CANCEL);
  }

  /** A worker is seen: a waiting session runs; where a cancel is kept, the signal and the reply. */
  lemma WorkerDoes(trace: seq<Event>, sessions: map<int, Session>, pid: int, worker: int)
    requires pid in sessions && sessions[pid].errorCode == 0
    ensures var o := sessions[pid];
      var s, n := o.(workerPid := worker), o.serial;
      var all, after := trace + [WorkerSeen(n, worker)] + Effects(s, UPDATE_DUMPER), After(sessions, pid, s, UPDATE_DUMPER);
      && Ends(s, UPDATE_DUMPER) == (o.status == CANCEL_PENDING && |o.filePath| < 256)
      && if o.status == CANCEL_PENDING && |o.filePath| < 256
         then all == trace + [WorkerSeen(n, worker), Signalled(n, worker), Replied(n, 0, o.filePath), Removed(n, false)] &&
              after == sessions - {pid}
         else all == trace + (if o.status == CANCEL_PENDING then [WorkerSeen(n, worker), Signalled(n, worker)]
                              else [WorkerSeen(n, worker)]) &&
              after == sessions[pid := s.(status :=
                if o.status == CANCEL_PENDING then CANCELED else if o.status == PENDING then RUNNING else o.status)]
  {
    hide Effects, Ends, StatusAfter;
    EffectsAre(sessions[pid].(workerPid := worker), UPDATE_DUMPER);
  }

  /** The client gives up: a session that waits is answered with -1, any other is left alone. */
  lemma TimeoutDoes(trace: seq<Event>, sessions: map<int, Session>, pid: int)
    requires pid in sessions
    ensures var o := sessions[pid];
      var all, after := trace + Effects(o, TIMEOUT), After(sessions, pid, o, TIMEOUT);
      && Ends(o, TIMEOUT) == (o.status == PENDING || o.status == CANCEL_PENDING)
      && if o.status == PENDING || o.status == CANCEL_PENDING
         then all == trace + [Replied(o.serial, -1, ""), Removed(o.serial, false)] && after == sessions - {pid}
         else all == trace && after == sessions
  {
    hide Effects, Ends, StatusAfter;
    EffectsAre(sessions[pid], TIMEOUT);
  }

  lemma EffectsAbout(s: Session, ev: SessionEvent)
    ensures OnlyAbout(Effects(s, ev), s.serial) && forall k :: 0 <= k < |Effects(s, ev)| ==> !Note(Effects(s, ev)[k])
  {
  }

  /** The request behind a session event, as the trace records it. */
  ghost predicate Noted(o: Session, s: Session, ev: SessionEvent, note: seq<Event>) {
    match ev
    case CANCEL => note == [CancelAsked(o.serial)] && s == o.(cancelRequest := true)
    case UPDATE_DUMPER => s.workerPid > 0 && note == [WorkerSeen(o.serial, s.workerPid)] && s == o.(workerPid := s.workerPid)
    case TIMEOUT => note == [] && s == o
    case _ => note == [Reported(o.serial, s.filePath)] && s == o.(filePath := s.filePath)
  }

  /** A request is noted, and the event it stands for reaches the session. */
  lemma ToldOn(trace: seq<Event>, sessions: map<int, Session>, nextSerial: nat, pid: int, note: seq<Event>, s: Session,
               ev: SessionEvent)
    requires TableOk(trace, sessions, nextSerial) && Told(trace, sessions) && pid in sessions && sessions[pid].errorCode == 0
    requires Noted(sessions[pid], s, ev, note)
    ensures Told(trace + note + Effects(s, ev), After(sessions, pid, s, ev))
  {
    hide TableOk, Effects, AnsweredAt, Tracks, Ends, StatusAfter;
    var o, ext := sessions[pid], note + Effects(s, ev);
    assert trace + note + Effects(s, ev) == trace + ext;
    EffectsAbout(s, ev);
    OthersTrack(trace, ext, sessions, s.serial);
    SerialsDiffer(trace, sessions, nextSerial, pid);
    TracksOn(trace, o, s, ev, note);
    NoteAnswered(trace, o, s, ev, note);
    AnsweredOn(trace, ext);
  }

  lemma SerialsDiffer(trace: seq<Event>, sessions: map<int, Session>, nextSerial: nat, pid: int)
    requires TableOk(trace, sessions, nextSerial) && pid in sessions
    ensures forall q :: q in sessions && q != pid ==> sessions[q].serial != sessions[pid].serial
  {
  }

  lemma TracksOn(trace: seq<Event>, o: Session, s: Session, ev: SessionEvent, note: seq<Event>)
    requires Tracks(trace, o) && Noted(o, s, ev, note)
    ensures !Ends(s, ev) ==> Tracks(trace + (note + Effects(s, ev)), s.(status := StatusAfter(s.status, ev)))
  {
    hide Seen, Finished, LastWorker, LastPath, Effects;
    var n, e := s.serial, Effects(s, ev);
    EffectsAbout(s, ev);
    if note == [] {
      assert trace + note == trace;
    } else {
      assert note == [note[0]];
      if !Seen(trace, n) { UnseenUnfinished(trace, n); }
      Grown(trace, note[0], n);
    }
    Quiet(trace + note, e, n);
    assert trace + note + e == trace + (note + e);
  }

  lemma UnseenUnfinished(trace: seq<Event>, n: nat)
    requires !Seen(trace, n)
    ensures !Finished(trace, n)
  {
  }

  /** The request is answered, as far as it is to be. */
  lemma NoteAnswered(trace: seq<Event>, o: Session, s: Session, ev: SessionEvent, note: seq<Event>)
    requires Tracks(trace, o) && Noted(o, s, ev, note) && o.errorCode == 0
    ensures var r := trace + (note + Effects(s, ev)); forall k :: |trace| <= k < |r| ==> AnsweredAt(r, k)
  {
    hide Seen, Finished, LastWorker, LastPath, AnsweredAt, Effects, StatusAfter, Ends, AtWork;
    EffectsAre(s, ev);
    var n, e := s.serial, Effects(s, ev);
    match ev
    case TIMEOUT =>
      assert note + e == e;
      if e != [] { GaveUp(trace, n); }
    case CANCEL =>
      if o.status == RUNNING {
        assert note + e == [note[0]] + Stops(n, s.workerPid, LastPath(trace, n));
        Stopped(trace, note[0], n, s.workerPid);
      } else {
        assert note + e == note;
        JustNoted(trace, note[0]);
      }
    case UPDATE_DUMPER =>
      if o.status == CANCEL_PENDING {
        assert note + e == [note[0]] + Stops(n, s.workerPid, LastPath(trace, n));
        Stopped(trace, note[0], n, s.workerPid);
      } else {
        assert note + e == note;
        JustNoted(trace, note[0]);
      }
    case _ =>
      if o.status == RUNNING && |s.filePath| < 256 {
        Delivered(trace, n, s.filePath);
        assert note + e == [note[0]] + [Replied(n, 0, s.filePath), Removed(n, false)];
      } else {
        assert note + e == note;
        JustNoted(trace, note[0]);
      }
  }

  lemma GaveUp(trace: seq<Event>, n: nat)
    requires !Seen(trace, n)
    ensures var r := trace + [Replied(n, -1, ""), Removed(n, false)]; forall k :: |trace| <= k < |r| ==> AnsweredAt(r, k)
  {
    hide Seen;
    var r := trace + [Replied(n, -1, ""), Removed(n, false)];
    assert r[..|trace|] == trace;
  }

  lemma JustNoted(trace: seq<Event>, e: Event)
    requires Note(e) && (forall w :: !ToStop(trace, e, e.serial, w)) && (e.Reported? ==> !ToAnswer(trace, e, e.serial, e.path))
    ensures AnsweredAt(trace + [e], |trace|)
  {
    hide ToStop, ToAnswer, Seen, LastPath;
    assert (trace + [e])[..|trace|] == trace;
  }

  lemma Stopped(trace: seq<Event>, e: Event, n: nat, worker: int)
    requires ToStop(trace, e, n, worker)
    ensures var r := trace + ([e] + Stops(n, worker, LastPath(trace, n))); forall k :: |trace| <= k < |r| ==> AnsweredAt(r, k)
  {
    hide ToStop, AnsweredAt, LastPath;
    var path := LastPath(trace, n);
    var x := Stops(n, worker, path);
    var r, m := trace + ([e] + x), |trace|;
    StopNoted(trace, e, n, worker, r);
    assert r[m + 1] == x[0];
    StopSignalled(trace, e, n, worker, r);
    if |x| > 1 {
      assert r[..m + 2] == trace + [e] + [x[0]] && r[m + 2] == x[1] && r[m + 3] == x[2];
      StopReplied(trace, e, n, worker, r);
    }
  }

  lemma StopNoted(trace: seq<Event>, e: Event, n: nat, worker: int, r: seq<Event>)
    requires ToStop(trace, e, n, worker) && r == trace + ([e] + Stops(n, worker, LastPath(trace, n)))
    ensures AnsweredAt(r, |trace|)
  {
    hide Seen, AtWork, LastPath, LastWorker, Stops;
    var x, m := Stops(n, worker, LastPath(trace, n)), |trace|;
    assert r[..m] == trace && r[m] == e && r[m + 1..m + 1 + |x|] == x;
  }

  lemma StopSignalled(trace: seq<Event>, e: Event, n: nat, worker: int, r: seq<Event>)
    requires ToStop(trace, e, n, worker) && |r| > |trace| + 1 && r[..|trace|] == trace && r[|trace|] == e
    requires r[|trace| + 1] == Signalled(n, worker)
    ensures AnsweredAt(r, |trace| + 1)
  {
    hide ToStop;
  }

  lemma StopReplied(trace: seq<Event>, e: Event, n: nat, worker: int, r: seq<Event>)
    requires ToStop(trace, e, n, worker) && |r| == |trace| + 4 && r[..|trace| + 2] == trace + [e] + [Signalled(n, worker)]
    requires |LastPath(trace, n)| < 256 && r[|trace| + 2] == Replied(n, 0, LastPath(trace, n)) && r[|trace| + 3] == Removed(n, false)
    ensures AnsweredAt(r, |trace| + 2) && AnsweredAt(r, |trace| + 3)
  {
    hide Seen, AtWork, LastPath, LastWorker, Finished;
    Grown(trace, e, n);
    Grown(trace + [e], Signalled(n, worker), n);
    assert r[|trace| + 1] == r[..|trace| + 2][|trace| + 1] == Signalled(n, worker);
  }

  lemma Delivered(trace: seq<Event>, n: nat, path: string)
    requires AtWork(trace, n) && |path| < 256
    ensures var r := trace + ([Reported(n, path)] + [Replied(n, 0, path), Removed(n, false)]);
      forall k :: |trace| <= k < |r| ==> AnsweredAt(r, k)
  {
    hide Seen, AtWork, LastPath, LastWorker;
    var e, x := Reported(n, path), [Replied(n, 0, path), Removed(n, false)];
    var r, m := trace + ([e] + x), |trace|;
    assert r[..m] == trace && r[m] == e && r[m + 1..m + 1 + |x|] == x;
    Grown(trace, e, n);
    assert r[..m + 1] == trace + [e] && r[m + 1] == x[0] && r[m + 2] == x[1];
  }

  /** A session is created. */
  lemma ToldCreate(trace: seq<Event>, sessions: map<int, Session>, nextSerial: nat, ext: seq<Event>, sessions': map<int, Session>)
    requires TraceOk(trace, nextSerial) && Told(trace, sessions)
    requires forall k :: 0 <= k < |ext| ==> ext[k].Created? || ext[k].StartSent? || ext[k].Removed?
    requires forall pid :: pid in sessions' ==>
      || (pid in sessions && sessions'[pid] == sessions[pid])
      || (sessions'[pid].serial == nextSerial && sessions'[pid].status == PENDING && sessions'[pid].workerPid == 0 &&
          sessions'[pid].filePath == "")
    ensures Told(trace + ext, sessions')
  {
    hide Seen, LastPath, LastWorker;
    Unasked(trace, ext);
    forall pid | pid in sessions'
      ensures Tracks(trace + ext, sessions'[pid])
    {
      if pid in sessions && sessions'[pid] == sessions[pid] {
        TracksStill(trace, ext, sessions[pid]);
      } else {
        Unheard(trace, nextSerial);
        Quiet(trace, ext, nextSerial);
      }
    }
  }

  lemma Unasked(trace: seq<Event>, ext: seq<Event>)
    requires forall k :: 0 <= k < |trace| ==> AnsweredAt(trace, k)
    requires forall k :: 0 <= k < |ext| ==> ext[k].Created? || ext[k].StartSent? || ext[k].Removed?
    ensures forall k :: 0 <= k < |trace + ext| ==> AnsweredAt(trace + ext, k)
  {
    forall k | |trace| <= k < |trace + ext|
      ensures AnsweredAt(trace + ext, k)
    {
      assert (trace + ext)[k] == ext[k - |trace|];
    }
    AnsweredOn(trace, ext);
  }

  lemma {:induction false} Unheard(trace: seq<Event>, n: nat)
    requires forall k :: 0 <= k < |trace| ==> trace[k].serial < n
    ensures !Seen(trace, n) && !Finished(trace, n) && CancelAsked(n) !in trace && LastWorker(trace, n) == 0 && LastPath(trace, n) == ""
  {
    Quiet([], trace, n);
    assert [] + trace == trace;
  }

  /** Sessions leave. */
  lemma ToldFewer(trace: seq<Event>, sessions: map<int, Session>, ext: seq<Event>, sessions': map<int, Session>)
    requires Told(trace, sessions) && forall k :: 0 <= k < |ext| ==> ext[k].Removed?
    requires forall pid :: pid in sessions' ==> pid in sessions && sessions'[pid] == sessions[pid]
    ensures Told(trace + ext, sessions')
  {
    hide AnsweredAt, Tracks;
    Unasked(trace, ext);
    forall pid | pid in sessions' ensures Tracks(trace + ext, sessions'[pid]) { TracksStill(trace, ext, sessions[pid]); }
  }

  // ---- The trace tells the story ----

  /** Over any sound trace a session is answered at most once. */
  lemma OneReply(trace: seq<Event>, nextSerial: nat, j: nat, k: nat)
    requires TraceOk(trace, nextSerial) && j < k < |trace| && trace[j].Replied? && trace[k].Replied?
    ensures trace[j].serial != trace[k].serial
  {
    assert ReplyOk(trace, j);
  }

  lemma {:induction false} LastWorkerIs(trace: seq<Event>, n: nat, j: nat)
    requires j < |trace| && Sees(trace[j], n) && forall i :: j < i < |trace| ==> !Sees(trace[i], n)
    ensures LastWorker(trace, n) == trace[j].worker
  {
    var m := |trace| - 1;
    if j < m {
      forall i | 0 <= i < m ensures trace[..m][i] == trace[i] {}
      LastWorkerIs(trace[..m], n, j);
    }
  }

  lemma {:induction false} NoPath(trace: seq<Event>, n: nat)
    requires forall i :: 0 <= i < |trace| ==> !Reports(trace[i], n)
    ensures LastPath(trace, n) == ""
  {
    if trace != [] {
      var m := |trace| - 1;
      forall i | 0 <= i < m ensures trace[..m][i] == trace[i] {}
      NoPath(trace[..m], n);
    }
  }

  /** Nothing but workers seen came for session `n` before event `k`. */
  ghost predicate NothingSince(trace: seq<Event>, k: nat, n: nat)
    requires k <= |trace|
  {
    forall i :: 0 <= i < k && trace[i].serial == n ==> !trace[i].CancelAsked? && !trace[i].Reported?
  }

  /** At `j` a worker is seen, and at `k` it reports the first result, with a file name that fits; no cancel came. */
  ghost predicate ResultOf(trace: seq<Event>, j: nat, k: nat)
    requires j < k < |trace|
  {
    && trace[j].WorkerSeen? && trace[k].Reported? && trace[j].serial == trace[k].serial && |trace[k].path| < 256
    && NothingSince(trace, k, trace[k].serial)
  }

  /** At `j` the latest worker is seen, and at `k` the first cancel comes; no result did. */
  ghost predicate CancelOf(trace: seq<Event>, j: nat, k: nat)
    requires j < k < |trace|
  {
    && trace[j].WorkerSeen? && trace[k].CancelAsked? && trace[j].serial == trace[k].serial
    && NothingSince(trace, k, trace[k].serial)
    && forall i :: j < i < k && trace[i].WorkerSeen? ==> trace[i].serial != trace[k].serial
  }

  /** At `j` a cancel came, and at `k` the first worker is seen. */
  ghost predicate LateWorker(trace: seq<Event>, j: nat, k: nat)
    requires j < k < |trace|
  {
    && trace[j].CancelAsked? && trace[k].WorkerSeen? && trace[j].serial == trace[k].serial
    && forall i :: 0 <= i < k && trace[i].WorkerSeen? ==> trace[i].serial != trace[k].serial
  }

  lemma Working(trace: seq<Event>, j: nat, k: nat, n: nat)
    requires j < k <= |trace| && Sees(trace[j], n) && NothingSince(trace, k, n)
    ensures AtWork(trace[..k], n)
  {
    assert Sees(trace[..k][j], n);
  }

  /** The first result a worker reports, with a file name that fits, is at once the client's reply, and the
      session is gone. */
  lemma ResultIsReply(trace: seq<Event>, j: nat, k: nat, n: nat, path: string)
    requires j < k < |trace| && AnsweredAt(trace, k) && trace[j].WorkerSeen? && trace[j].serial == n
    requires trace[k] == Reported(n, path) && |path| < 256 && NothingSince(trace, k, n)
    ensures k + 2 < |trace| && trace[k + 1] == Replied(n, 0, path) && trace[k + 2] == Removed(n, false)
    ensures Follow(trace, k, [Replied(n, 0, path), Removed(n, false)])
  {
    hide AtWork, LastPath;
    Working(trace, j, k, n);
    var x := trace[k + 1..k + 3];
    assert x[0] == Replied(n, 0, path) && x[1] == Removed(n, false);
  }

  /** The first cancel that comes while a worker is dumping is at once a signal to the worker seen last, then
      the client's reply, and the session is gone. */
  lemma CancelIsSignal(trace: seq<Event>, j: nat, k: nat, n: nat, worker: int)
    requires j < k < |trace| && AnsweredAt(trace, k) && trace[j] == WorkerSeen(n, worker) && trace[k] == CancelAsked(n)
    requires NothingSince(trace, k, n) && forall i :: j < i < k && trace[i].WorkerSeen? ==> trace[i].serial != n
    ensures k + 3 < |trace| && trace[k + 1] == Signalled(n, worker)
    ensures trace[k + 2] == Replied(n, 0, "") && trace[k + 3] == Removed(n, false)
    ensures Follow(trace, k, [Signalled(n, worker), Replied(n, 0, ""), Removed(n, false)])
  {
    hide AtWork;
    Working(trace, j, k, n);
    LastWorkerIs(trace[..k], n, j);
    NoPath(trace[..k], n);
    assert ToStop(trace[..k], trace[k], n, worker);
    var x := trace[k + 1..k + 4];
    assert x == Stops(n, worker, "");
    assert x[0] == trace[k + 1] && x[1] == trace[k + 2] && x[2] == trace[k + 3];
  }

  /** The first worker seen after a cancel is at once told to stop. */
  lemma LateWorkerIsStopped(trace: seq<Event>, j: nat, k: nat, n: nat, worker: int)
    requires j < k < |trace| && AnsweredAt(trace, k) && trace[j] == CancelAsked(n) && trace[k] == WorkerSeen(n, worker)
    requires forall i :: 0 <= i < k && trace[i].WorkerSeen? ==> trace[i].serial != n
    ensures k + 1 < |trace| && trace[k + 1] == Signalled(n, worker) && Follow(trace, k, [Signalled(n, worker)])
  {
    assert trace[..k][j] == CancelAsked(n) && !Seen(trace[..k], n);
    assert ToStop(trace[..k], trace[k], n, worker);
    var x := Stops(n, worker, LastPath(trace[..k], n));
    assert trace[k + 1] == trace[k + 1..k + 1 + |x|][0];
  }

  // ---- The removal timer ----

  const INT32_LIMIT := 0x8000_0000

  /** static_cast<int32_t> of an unsigned 64-bit value. */
  function ToInt32(n: nat): int {
    var low := n % UINT32_LIMIT;
    if low < INT32_LIMIT then low else low - UINT32_LIMIT
  }

  /** ScheduleCancelTime's delay in seconds, as AddDelayTask receives it. */
  function RemovalDelay(endTime: nat, now: nat): nat {
    var left := if endTime > now then ToInt32((endTime - now) / 1000) else 0;
    var capped := if left < 30 then left else 30;
    capped % UINT32_LIMIT
  }

  /** The smaller of the remaining whole seconds and 30; none when the end has come; and a remainder whose
      cast to 32 bits is negative goes on as it is, modulo 2^32. */
  lemma RemovalDelayIs(endTime: nat, now: nat)
    ensures endTime <= now ==> RemovalDelay(endTime, now) == 0
    ensures now < endTime ==>
      var left := (endTime - now) / 1000 % 0x1_0000_0000;
      RemovalDelay(endTime, now) == if left >= 0x8000_0000 then left else if left < 30 then left else 30
    ensures now <= endTime < now + 30_000 ==> RemovalDelay(endTime, now) == (endTime - now) / 1000
    ensures RemovalDelay(endTime, now) < UINT32_LIMIT
    ensures now + 30_000 <= endTime < now + 2_147_483_648_000 ==> RemovalDelay(endTime, now) == 30
  {
  }

  /** The cap of 30 seconds holds exactly while the cast of the remaining seconds to 32 bits is not
      negative. */
  lemma RemovalDelayCapped(endTime: nat, now: nat)
    ensures RemovalDelay(endTime, now) <= 30 <==>
      endTime <= now || (endTime - now) / 1000 % UINT32_LIMIT < INT32_LIMIT
    ensures RemovalDelay(endTime, now) < UINT32_LIMIT
  {
  }

  /** An end time about 68 years ahead puts the removal off for as long again. */
  lemma RemovalDelayUncapped()
    ensures RemovalDelay(2_147_483_648_000, 0) == 2_147_483_648
  {
  }

  // ---- Timers and sessions ----

  /** Removing a session together with its timer. */
  lemma MatchAfterRemove(sessions: map<int, Session>, tasks: seq<DelayTask>, tasks': seq<DelayTask>, pid: int)
    requires TimersMatch(sessions, tasks) && pid in sessions
    requires forall t :: t in tasks' <==> t in tasks && t.id != sessions[pid].delayTaskId
    requires forall t, u :: t in tasks && u in tasks && t.id == u.id ==> t == u
    ensures TimersMatch(sessions - {pid}, tasks')
  {
    forall q | q in sessions && q != pid
      ensures HasTimer(sessions[q], q, tasks')
    {
      var t :| t in tasks && t.id == sessions[q].delayTaskId && t.work == RemoveSession(q);
      var u :| u in tasks && u.id == sessions[pid].delayTaskId && u.work == RemoveSession(pid);
      assert t in tasks';
    }
    forall t | t in tasks' && t.work.RemoveSession?
      ensures t.work.pid in sessions - {pid} && (sessions - {pid})[t.work.pid].delayTaskId == t.id
    {
      assert t in tasks;
    }
  }

  /** A session gets its timer. */
  lemma MatchAfterAdd(sessions: map<int, Session>, tasks: seq<DelayTask>, tasks': seq<DelayTask>, pid: int, s: Session, t: DelayTask)
    requires TimersMatch(sessions, tasks) && pid !in sessions && t.work == RemoveSession(pid) && s.delayTaskId == t.id
    requires forall x :: x in tasks' <==> x in tasks || x == t
    ensures TimersMatch(sessions[pid := s], tasks')
  {
    forall q | q in sessions
      ensures HasTimer(sessions[q], q, tasks')
    {
      var u :| u in tasks && u.id == sessions[q].delayTaskId && u.work == RemoveSession(q);
      assert u in tasks';
    }
    assert t in tasks';
  }

  /** Changes of a session that leave its timer alone. */
  lemma MatchAfterUpdate(sessions: map<int, Session>, tasks: seq<DelayTask>, pid: int, s: Session)
    requires TimersMatch(sessions, tasks) && pid in sessions && s.delayTaskId == sessions[pid].delayTaskId
    ensures TimersMatch(sessions[pid := s], tasks)
  {
    forall q | q in sessions ensures HasTimer(sessions[pid := s][q], q, tasks) { assert HasTimer(sessions[q], q, tasks); }
  }

  /** Queue changes that keep exactly the removal tasks. */
  lemma MatchAfterCalm(sessions: map<int, Session>, tasks: seq<DelayTask>, tasks': seq<DelayTask>)
    requires TimersMatch(sessions, tasks)
    requires forall t :: t in tasks && t.work.RemoveSession? ==> t in tasks'
    requires forall t :: t in tasks' && t.work.RemoveSession? ==> t in tasks
    ensures TimersMatch(sessions, tasks')
  {
    forall q | q in sessions
      ensures HasTimer(sessions[q], q, tasks')
    {
      var u :| u in tasks && u.id == sessions[q].delayTaskId && u.work == RemoveSession(q);
      assert u in tasks';
    }
  }
}
