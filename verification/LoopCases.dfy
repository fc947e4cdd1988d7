/** Runs of the event loop in which it does not keep what one expects of it. */
module LoopCases {
  import opened TimerModel
  import opened PeriodicModel
  import opened PeriodicAccount
  import opened CoredumpModel
  import opened LoopModel
  import opened EventLoop

  const DUE := 30_000_001       // thirty seconds after the first microsecond

  /** `n` tasks of another component for the same microsecond. */
  ghost function Batch(n: nat): (s: seq<DelayTask>)
    ensures |s| == n && forall i :: 0 <= i < n ==> s[i] == DelayTask(PackId(i, DUE), i, Script([]))
  {
    seq(n, (i: nat) => DelayTask(PackId(i, DUE), i, Script([])))
  }

  lemma AppendedLast(q: Queue, q': Queue, t: DelayTask, w': Timer)
    requires Added(q, q', t) && QueueInv(q', w')
    requires forall i :: 0 <= i < |q.tasks| ==> Due(q.tasks[i]) == Due(t) && q.tasks[i].issue < t.issue
    ensures q'.tasks == q.tasks + [t] && q'.issued == q.issued + 1
  {
    hide Window;
    var k: nat :| k <= |q.tasks| && q'.tasks == InsertAt(q.tasks, k, t);
    if k < |q.tasks| {
      InsertedAt(q.tasks, k, t, k);
      InsertedAt(q.tasks, k, t, k + 1);
    }
  }

  /** Sixteen numbers later the id comes back. */
  lemma SameId()
    ensures PackId(16, DUE) == PackId(0, DUE) && forall i :: 0 <= i < 16 ==> PackId(i, DUE) % TIME_LIMIT == DUE
  {
  }

  method AddBatch(d: Daemon)
    requires d.QueueOk() && d.delayTasks == [] && d.issued == 0
    modifies d`delayTasks, d`delaySequence, d`executor, d`armed, d`armedAt, d`issued, d`crowded, d`ledger
    ensures d.QueueOk() && d.delayTasks == Batch(16) && d.issued == 16
  {
    hide QueueInv, Accounted, PackId, Added;
    SameId();
    for i := 0 to 16
      invariant d.QueueOk() && d.delayTasks == Batch(i) && d.issued == i
    {
      ghost var q := d.Q();
      var id := d.AddDelayTask(Script([]), 30, 1);
      AppendedLast(q, d.Q(), DelayTask(id, i, Script([])), d.W());
      assert Batch(i + 1) == Batch(i) + [DelayTask(id, i, Script([]))];
    }
  }

  lemma ReadyForSession(tasks: seq<DelayTask>, sessions: map<int, Session>, p: seq<PeriodicTask>, ran: seq<DelayTask>, clock: nat)
    requires sessions == map[] && p == [] && ran == [] && tasks == Batch(16)
    ensures TimersMatch(sessions, tasks) && WakesUp(tasks, p) && RanOk(ran, tasks, clock, {})
  {
  }

  /** A component adds sixteen tasks for one microsecond, then a session gets its timer for the same one.
      Ending the session takes out the first task of the component and leaves the session's timer. */
  method Collision() returns (d: Daemon, lost: DelayTask, stays: DelayTask)
    ensures d.QueueOk() && 7 !in d.sessions && lost.id == stays.id
    ensures stays in d.delayTasks && stays.work == Work.RemoveSession(7)
    ensures lost in d.ledger.removed && lost.work.Script?
  {
    hide QueueInv, Accounted, Books, PeriodicOk, TimersMatch, WakesUp, TableOk, Told, RanOk, PackId, Added, Dropped,
      DropEffect,
      Begins, RemovalDelay, TimerLeaves;
    d := new Daemon();
    AddBatch(d);
    ReadyForSession(d.delayTasks, d.sessions, d.periodicTasks, d.ran, d.clock);
    RemovalInTime();
    ghost var q := d.Q();
    var res := d.HandleCreateEvent(7, true, 60_000, 0, 1);
    SameId();
    var id := d.sessions[7].delayTaskId;
    stays := DelayTask(id, 16, Work.RemoveSession(7));
    AppendedLast(q, d.Q(), stays, d.W());
    lost := DelayTask(id, 0, Script([]));
    ghost var s, l := d.delayTasks, d.ledger;
    d.RemoveSession(7, 1);
    FirstGoes(s, d.delayTasks, id, lost, stays);
    WasRemoved(l, d.ledger, s, d.delayTasks, d.ran, d.issued, lost);
  }

  lemma RemovalInTime()
    ensures RemovalDelay(60_000, 0) == 30
  {
  }

  lemma FirstGoes(s: seq<DelayTask>, s': seq<DelayTask>, id: nat, lost: DelayTask, stays: DelayTask)
    requires s == Batch(16) + [stays] && DropEffect(s, s', id) && id == PackId(0, DUE) == stays.id
    requires lost == DelayTask(id, 0, Script([])) && stays.issue == 16
    ensures lost in s && lost !in s' && stays in s'
  {
    hide PackId;
    assert s[0] == lost && s[16] == stays;
    assert s[0] in s;
    var k: nat :| k < |s| && DroppedAt(s, s', id, k);
    assert k == 0 && s' == s[1..];
    assert s'[15] == stays;
    forall i | 0 <= i < 16 ensures s'[i].issue == i + 1 { assert s'[i] == s[i + 1]; }
  }

  lemma WasRemoved(l: Ledger, l': Ledger, s: seq<DelayTask>, s': seq<DelayTask>, ran: seq<DelayTask>, issued: nat, t: DelayTask)
    requires Accounted(l, s, ran, issued) && Accounted(l', s', ran, issued) && Grew(l, l') && t in s && t !in s'
    requires t !in ran
    ensures t in l'.removed
  {
  }

  // ---- A callback that removes its own task ----

  const AT := 1_000_001         // a second after the first microsecond

  /** Removes itself and answers false. */
  const LEAVER := [Beat([DropPeriodic(1)], false)]
  const OTHER := [Beat([], true)]

  function First(): PeriodicTask { PeriodicTask(AT, 1, 1, LEAVER) }

  function Second(): PeriodicTask { PeriodicTask(AT, 2, 1, OTHER) }

  function Births(): map<nat, Birth> { map[1 := Birth(1, 1, LEAVER), 2 := Birth(1, 1, OTHER)] }

  function Both(): Periodics { Periodics([First(), Second()], 3, Births(), [], map[], map[], false) }

  lemma BothAdded()
    ensures var p := AddedP(NoTasks(), 1, LEAVER, 1);
      p.nextId == 2 && AddedP(p, 1, OTHER, 1) == Both()
  {
    var p := AddedP(NoTasks(), 1, LEAVER, 1);
    assert p.tasks == [First()];
    assert LaterP(p.tasks, AT) == 1;
    assert InsertP(p.tasks, 1, Second()) == [First(), Second()];
  }

  /** The first task is called; its callback takes it out, and then the second one is discarded. */
  lemma SecondDiscarded()
    requires PeriodicOk(Both().tasks, 3, AT)
    ensures ExecP(Both(), AT) == Periodics([], 3, Births(), [CallOf(First(), AT)], map[1 := 1], map[2 := 0], false)
  {
    var p, f := Both(), First();
    var q := p.(calls := [CallOf(f, AT)]);
    assert p.calls + [CallOf(f, AT)] == q.calls;
    var m := DroppedP(q, 1);
    assert FirstP(q.tasks, 1) == 0 && RemoveP(q.tasks, 0) == [Second()];
    assert m == q.(tasks := [Second()], dropped := map[1 := 1]);
    var cmds := FirstBeat(f).cmds;
    assert cmds == [DropPeriodic(1)] && cmds[..0] == [] && ScriptP(q, [], AT) == q;
    assert CalledP(p, AT) == m;
    assert TurnP(p, AT) == m.(tasks := [], lost := map[2 := 0]);
  }

  /** Two periodic tasks are due. The callback of the first removes its own task: the second is neither
      called nor removed by anyone, and is gone. */
  method Discarded() returns (d: Daemon)
    ensures d.Ready(AT) && d.calls == [CallOf(First(), AT)] && FirstBeat(First()) == Beat([DropPeriodic(1)], false)
    ensures !Queued(d.periodicTasks, 2) && 2 < d.periodicSequence && 2 !in d.dropped && 2 in d.lost && !d.undefined
  {
    hide QueueInv, Accounted, Books, PeriodicOk, TimersMatch, WakesUp, TableOk, Told, RanOk, AddedP, ExecP, Calm,
      DoneFor;
    d := new Daemon();
    ghost var p := d.P();
    FirstMoment(p);
    BooksAdd(p, 1, LEAVER, 1, 0);
    var id := d.AddPeriodicTask(LEAVER, 1, 1);
    BooksAdd(d.P(), 1, OTHER, 1, 0);
    id := d.AddPeriodicTask(OTHER, 1, 1);
    BothAdded();
    BooksLater(d.P(), 1, AT);
    StillInOrder(d.P(), 1, AT);
    SecondDiscarded();
    ghost var pos := d.Execute(AT);
  }

  lemma FirstMoment(p: Periodics)
    requires p == NoTasks()
    ensures PeriodicOk(p.tasks, p.nextId, 1) && Books(p, 1, 0)
  {
    hide Books;
    BooksAtFirst(1);
  }

  lemma StillInOrder(p: Periodics, clock: nat, now: nat)
    requires PeriodicOk(p.tasks, p.nextId, clock) && clock <= now
    ensures PeriodicOk(p.tasks, p.nextId, now)
  {
  }
}
