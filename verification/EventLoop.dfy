/** The daemon's event loop: the delay queue driven by one timer, the periodic queue on top of it
    and the coredump sessions whose removal timers sit in it. */
module EventLoop {
  import opened TimerModel
  import opened PeriodicModel
  import opened PeriodicTurns
  import opened PeriodicAccount
  import opened CoredumpModel
  import opened LoopModel

  class Daemon {
    // DelayTaskQueue, with the executor's timer: `armedAt` is its next expiry in nanoseconds
    var delayTasks: seq<DelayTask>
    var delaySequence: nat
    var executor: bool
    var armed: bool
    var armedAt: nat
    // PeriodicTaskQueue
    var periodicTasks: seq<PeriodicTask>
    var periodicSequence: nat
    var currentDelayTaskId: nat
    // CoredumpSessionManager, and the effects of the coredump services in order
    var sessions: map<int, Session>
    var trace: seq<Event>

    // Bookkeeping for the specifications: nothing above depends on it
    var issued: nat                     // delay tasks added so far
    var nextSerial: nat                 // sessions created so far
    ghost var crowded: bool             // some microsecond held tasks further than 16 issues apart
    ghost var ran: seq<DelayTask>       // delay tasks run so far
    ghost var ledger: Ledger            // delay tasks added so far, and those removed before they ran
    ghost var born: map<nat, Birth>     // periodic tasks added so far
    ghost var calls: seq<Call>          // calls of periodic tasks so far
    ghost var dropped: map<nat, nat>    // periodic tasks removed so far, each with the calls begun until then
    ghost var lost: map<nat, nat>       // periodic tasks discarded by mistake, each with the call that did it
    ghost var undefined: bool           // the code has used an entry of the periodic queue that was gone
    ghost var clock: nat                // latest time read

    ghost function Q(): Queue
      reads this
    {
      Queue(delayTasks, issued, crowded)
    }

    ghost function W(): Timer
      reads this
    {
      Timer(delaySequence, executor, armed, armedAt)
    }

    ghost function P(): Periodics
      reads this
    {
      Periodics(periodicTasks, periodicSequence, born, calls, dropped, lost, undefined)
    }

    ghost function View(): Snap
      reads this
    {
      Snap(delayTasks, issued, crowded, ran, ledger, P(), sessions, trace)
    }

    /** The delay queue between operations: in order, told apart, with a timer that fires in time, and
        with every task ever added accounted for. */
    ghost predicate QueueOk()
      reads this
    {
      QueueInv(Q(), W()) && Accounted(ledger, delayTasks, ran, issued)
    }

    /** The periodic queue between operations, and the calls that led to it. */
    ghost predicate PeriodicsOk(now: nat)
      reads this
    {
      PeriodicOk(periodicTasks, periodicSequence, now) && Books(P(), now, 0)
    }

    /** SetTimeOptionForTimeFd: a zero delay disarms the timer. */
    method Arm(now: nat, delayInNs: nat)
      modifies this`armed, this`armedAt
      ensures armed == (delayInNs > 0) && armedAt == now * NS_PER_US + delayInNs
    {
      armed, armedAt := delayInNs > 0, now * NS_PER_US + delayInNs;
    }

    /** The first task that is due later than `due`. */
    method FindLater(due: nat) returns (k: nat)
      ensures k <= |delayTasks| && (forall i :: 0 <= i < k ==> Due(delayTasks[i]) <= due)
      ensures k < |delayTasks| ==> Due(delayTasks[k]) > due
    {
      k := 0;
      while k < |delayTasks| && Due(delayTasks[k]) <= due
        invariant k <= |delayTasks| && forall i :: 0 <= i < k ==> Due(delayTasks[i]) <= due
      {
        k := k + 1;
      }
    }

    /** AddDelayTask. */
    method AddDelayTask(work: Work, delay: nat, now: nat) returns (id: nat)
      requires QueueOk() && now < CLOCK_LIMIT && delay < UINT32_LIMIT
      modifies this`delayTasks, this`delaySequence, this`executor, this`armed, this`armedAt, this`issued, this`crowded,
               this`ledger
      ensures QueueOk()
      ensures id == 0 <==> delay == 0 || now == 0
      ensures id == 0 ==> Q() == old(Q()) && ledger == old(ledger)
      ensures id != 0 ==> Added(old(Q()), Q(), DelayTask(id, old(issued), work))
      ensures id != 0 ==> ledger == NoteAdded(old(ledger), DelayTask(id, old(issued), work))
      ensures id != 0 ==> DelayTask(id, old(issued), work) !in old(ledger).added
      ensures id != 0 ==> id == PackId(old(issued), now + delay * US_PER_S) && id % TIME_LIMIT == now + delay * US_PER_S
      ensures id != 0 ==>
        if old(delayTasks) == [] || now + delay * 1_000_000 < Due(old(delayTasks)[0])
        then armed && armedAt == (now + delay * 1_000_000) * 1000
        else armed == old(armed) && armedAt == old(armedAt)
    {
      hide QueueInv, Accounted, NoteAdded, Added, PackId;
      if delay == 0 { return 0; }
      if !executor {
        ghost var w := W();
        executor := true;
        Arm(now, delay * NS_PER_S);
        NobodyWaits(Q(), w, W());
      }
      if now == 0 { return 0; }
      id := Enqueue(work, now + delay * US_PER_S, now);
    }

    /** The rest of AddDelayTask: the task is put before the first later one, and the timer is set for it
        when it is the first. */
    method Enqueue(work: Work, due: nat, now: nat) returns (id: nat)
      requires QueueOk() && executor && 0 < now < due < TIME_LIMIT
      modifies this`delayTasks, this`delaySequence, this`armed, this`armedAt, this`issued, this`crowded, this`ledger
      ensures QueueOk() && id == PackId(old(issued), due) && id > 0 && id % TIME_LIMIT == due
      ensures Added(old(Q()), Q(), DelayTask(id, old(issued), work))
      ensures ledger == NoteAdded(old(ledger), DelayTask(id, old(issued), work))
      ensures DelayTask(id, old(issued), work) !in old(ledger).added
      ensures if old(delayTasks) == [] || due < Due(old(delayTasks)[0]) then armed && armedAt == due * 1000
        else armed == old(armed) && armedAt == old(armedAt)
    {
      hide QueueInv, Window, PackId, InsertAt, Accounted, NoteAdded, Added;
      var k := FindLater(due);
      ghost var w := W();
      if k == 0 { Arm(now, (due - now) * NS_PER_US); }
      id := PackId(delaySequence, due);
      var t := DelayTask(id, issued, work);
      Enqueued(Q(), k, t, due, w, W());
      AccountAdded(ledger, delayTasks, ran, issued, k, t);
      crowded := crowded || !Window(delayTasks, due, issued);
      ledger := NoteAdded(ledger, t);
      delayTasks := InsertAt(delayTasks, k, t);
      issued := issued + 1;
      delaySequence := (delaySequence + 1) % 256;
    }

    /** RemoveDelayTask: takes out the first task with that id. */
    method RemoveDelayTask(id: nat, now: nat) returns (found: bool)
      requires QueueOk()
      modifies this`delayTasks, this`armed, this`armedAt, this`ledger
      ensures QueueOk()
      ensures !found ==> delayTasks == old(delayTasks) && forall t :: t in delayTasks ==> t.id != id
      ensures found ==> Dropped(old(delayTasks), delayTasks, id)
      ensures TakenOut(old(ledger), ledger, old(delayTasks), id)
      ensures if found && executor && delayTasks == [] then armed && armedAt == now * 1000 + 1
        else armed == old(armed) && armedAt == old(armedAt)
    {
      hide QueueInv, RemoveAt, Accounted;
      var k := 0;
      while k < |delayTasks| && delayTasks[k].id != id
        invariant k <= |delayTasks| && forall i :: 0 <= i < k ==> delayTasks[i].id != id
      {
        k := k + 1;
      }
      if k == |delayTasks| { return false; }
      ghost var before := delayTasks;
      Unqueued(Q(), k, W());
      AccountRemoved(ledger, Q(), ran, k, W());
      ledger := NoteRemoved(ledger, delayTasks[k], ran);
      delayTasks := RemoveAt(delayTasks, k);
      assert DroppedAt(before, delayTasks, id, k);
      if k == 0 && executor && delayTasks == [] {
        Rearmed(Q(), W(), W().(armed := true, armedAt := now * NS_PER_US + 1));
        Arm(now, 1);
      }
      found := true;
    }

    // ---- The periodic queue ----

    ghost predicate Ready(now: nat)
      reads this
    {
      && QueueOk() && PeriodicOk(periodicTasks, periodicSequence, now)
      && (!crowded ==> WakesUp(delayTasks, periodicTasks)) && 0 < now < CLOCK_LIMIT
    }

    /** ScheduleNextTask: a delay task that runs the periodic queue once its front is due. */
    method ScheduleNextTask(now: nat)
      requires QueueOk() && PeriodicOk(periodicTasks, periodicSequence, now) && 0 < now < CLOCK_LIMIT
      modifies this`delayTasks, this`delaySequence, this`executor, this`armed, this`armedAt, this`issued, this`crowded,
               this`currentDelayTaskId, this`ledger
      ensures QueueOk() && Calm(old(Q()), Q(), now) && DoneFor(old(ledger), ledger, [], now)
      ensures periodicTasks == [] ==> Q() == old(Q())
      ensures periodicTasks != [] ==> exists t :: t in delayTasks && t.issue == old(issued) && WokenAt(t, periodicTasks[0].due, now)
    {
      hide Sorted, Numbered, DistinctIds, Window, PackId, InsertAt, Before, SortedP, Calm, Accounted, DoneFor,
        NoteAdded;
      if periodicTasks == [] {
        CalmItself(Q(), now);
        NothingDone(ledger, [], now);
        return;
      }
      var next := periodicTasks[0].due;
      var wait := 0;
      if next > now {
        wait := (next - now + US_PER_S - 1) / US_PER_S;
        WaitSeconds(next, now);
        WaitFits(next, now, periodicTasks[0].interval);
      }
      if wait == 0 { wait := wait + 1; }
      currentDelayTaskId := AddDelayTask(RunPeriodic, wait, now);
      ghost var t := DelayTask(currentDelayTaskId, old(issued), RunPeriodic);
      AddedMembers(old(Q()), Q(), t);
      AddedCalm(old(Q()), Q(), t, now);
      AddedFor(old(ledger), t, [], now);
      assert t in delayTasks && WokenAt(t, next, now);
    }

    /** The first periodic task that is due later than `due`. */
    method FindLaterPeriodic(s: seq<PeriodicTask>, due: nat) returns (k: nat)
      ensures k <= |s| && (forall i :: 0 <= i < k ==> s[i].due <= due) && (k < |s| ==> s[k].due > due)
    {
      k := 0;
      while k < |s| && s[k].due <= due
        invariant k <= |s| && forall i :: 0 <= i < k ==> s[i].due <= due
      {
        k := k + 1;
      }
    }

    /** AddPeriodicTask. */
    method AddPeriodicTask(beats: seq<Beat>, interval: nat, now: nat) returns (id: nat)
      requires Ready(now) && interval < UINT32_LIMIT
      modifies this`delayTasks, this`delaySequence, this`executor, this`armed, this`armedAt, this`issued, this`crowded,
               this`ledger, this`currentDelayTaskId, this`periodicTasks, this`periodicSequence, this`born
      ensures Ready(now) && Calm(old(Q()), Q(), now) && DoneFor(old(ledger), ledger, [], now)
      ensures P() == AddedP(old(P()), interval, beats, now) && id == if interval == 0 then 0 else old(periodicSequence)
      ensures interval == 0 ==> P() == old(P())
      ensures old(periodicTasks) != [] && old(periodicTasks)[0].due <= now + interval * 1_000_000 ==> Q() == old(Q())
      ensures interval > 0 && (old(periodicTasks) == [] || now + interval * 1_000_000 < old(periodicTasks)[0].due) ==>
        exists x :: x in delayTasks && x.issue == old(issued) && WokenAt(x, now + interval * 1_000_000, now)
      ensures interval > 0 ==> id > 0 && (forall x :: x in old(periodicTasks) ==> x.id != id)
      ensures interval > 0 ==> forall x :: x in periodicTasks <==>
        x in old(periodicTasks) || x == PeriodicTask(now + interval * 1_000_000, id, interval, beats)
    {
      hide QueueInv, Calm, Accounted, DoneFor, PeriodicOk, InsertP, AddedP, WakesUp, WokenAt;
      if interval == 0 {
        CalmItself(Q(), now);
        NothingDone(ledger, [], now);
        NothingAdded(P(), beats, now);
        return 0;
      }
      id := periodicSequence;
      var next := now + interval * US_PER_S;
      var k := FindLaterPeriodic(periodicTasks, next);
      PlaceFound(P(), interval, beats, k, now);
      OneMore(P(), interval, beats, now);
      born := born[id := Birth(now, interval, beats)];
      PutPeriodic(PeriodicTask(next, id, interval, beats), k, now);
    }

    /** The new task takes its place, and the queue is scheduled when it is the first. */
    method PutPeriodic(t: PeriodicTask, k: nat, now: nat)
      requires Ready(now) && k <= |periodicTasks| && t.due > now
      requires PeriodicOk(InsertP(periodicTasks, k, t), periodicSequence + 1, now)
      modifies this`delayTasks, this`delaySequence, this`executor, this`armed, this`armedAt, this`issued, this`crowded,
               this`ledger, this`currentDelayTaskId, this`periodicTasks, this`periodicSequence
      ensures Ready(now) && Calm(old(Q()), Q(), now) && DoneFor(old(ledger), ledger, [], now)
      ensures periodicTasks == InsertP(old(periodicTasks), k, t) && periodicSequence == old(periodicSequence) + 1
      ensures k > 0 ==> Q() == old(Q())
      ensures k == 0 ==> exists x :: x in delayTasks && x.issue == old(issued) && WokenAt(x, t.due, now)
    {
      hide QueueInv, Calm, Accounted, DoneFor, PeriodicOk, WakesUp, WokenAt;
      CalmItself(Q(), now);
      NothingDone(ledger, [], now);
      ghost var s, q := periodicTasks, Q();
      InsertedP(s, k, t, 0);
      periodicSequence := periodicSequence + 1;
      periodicTasks := InsertP(periodicTasks, k, t);
      if k == 0 {
        ScheduleNextTask(now);
        WokenUp(delayTasks, periodicTasks, now);
      } else {
        CalmWakes(q, Q(), now, s, periodicTasks);
      }
    }

    /** RemovePeriodicTask. */
    method RemovePeriodicTask(id: nat, now: nat) returns (found: bool)
      requires Ready(now)
      modifies this`delayTasks, this`delaySequence, this`executor, this`armed, this`armedAt, this`issued, this`crowded,
               this`ledger, this`currentDelayTaskId, this`periodicTasks, this`dropped
      ensures Ready(now) && Calm(old(Q()), Q(), now) && DoneFor(old(ledger), ledger, [], now)
      ensures P() == DroppedP(old(P()), id) && (found <==> Queued(old(periodicTasks), id))
      ensures forall x :: x in periodicTasks <==> x in old(periodicTasks) && x.id != id
      ensures old(periodicTasks) != [] && old(periodicTasks)[0].id != id ==> Q() == old(Q())
      ensures old(periodicTasks) != [] && old(periodicTasks)[0].id == id && periodicTasks != [] ==>
        exists x :: x in delayTasks && x.issue == old(issued) && WokenAt(x, periodicTasks[0].due, now)
    {
      hide QueueInv, Calm, PeriodicOk, RemoveP, DroppedP, WakesUp, Accounted, DoneFor, Queued, WokenAt;
      var k := 0;
      while k < |periodicTasks| && periodicTasks[k].id != id
        invariant k <= |periodicTasks| && forall i :: 0 <= i < k ==> periodicTasks[i].id != id
      {
        k := k + 1;
      }
      TaskFound(P(), id, k, now);
      if k == |periodicTasks| {
        CalmItself(Q(), now);
        NothingDone(ledger, [], now);
        return false;
      }
      found := true;
      dropped := dropped[id := |calls|];
      TakePeriodic(k, now);
    }

    /** The task leaves its place, and the queue is scheduled when it was the first. */
    method TakePeriodic(k: nat, now: nat)
      requires Ready(now) && k < |periodicTasks| && PeriodicOk(RemoveP(periodicTasks, k), periodicSequence, now)
      requires RemoveP(periodicTasks, k) != [] ==> periodicTasks[0].due <= RemoveP(periodicTasks, k)[0].due
      modifies this`delayTasks, this`delaySequence, this`executor, this`armed, this`armedAt, this`issued, this`crowded,
               this`ledger, this`currentDelayTaskId, this`periodicTasks
      ensures Ready(now) && Calm(old(Q()), Q(), now) && DoneFor(old(ledger), ledger, [], now)
      ensures periodicTasks == RemoveP(old(periodicTasks), k) && (k > 0 ==> Q() == old(Q()))
      ensures k == 0 && periodicTasks != [] ==>
        exists x :: x in delayTasks && x.issue == old(issued) && WokenAt(x, periodicTasks[0].due, now)
    {
      hide QueueInv, Calm, PeriodicOk, RemoveP, WakesUp, Accounted, DoneFor, WokenAt;
      CalmItself(Q(), now);
      NothingDone(ledger, [], now);
      ghost var s, q := periodicTasks, Q();
      periodicTasks := RemoveP(periodicTasks, k);
      if k == 0 { ScheduleNextTask(now); }
      CalmWakes(q, Q(), now, s, periodicTasks);
    }

    // ---- Callbacks ----

    /** Whether the first task with `id` is one that another component added. */
    method OwnTask(id: nat) returns (own: bool)
      requires Sorted(delayTasks)
      ensures own <==> OwnFirst(delayTasks, id)
      ensures own ==> forall s', t :: Dropped(delayTasks, s', id) && t in delayTasks && !t.work.Script? ==> t in s'
    {
      var k: nat := 0;
      while k < |delayTasks| && delayTasks[k].id != id
        invariant k <= |delayTasks| && forall i :: 0 <= i < k ==> delayTasks[i].id != id
      {
        k := k + 1;
      }
      own := k < |delayTasks| && delayTasks[k].work.Script?;
      if own { DropsOwn(delayTasks, k, id); }
    }

    /** One call made by a callback. Components remove only delay tasks of their own. */
    method RunCmd(cmd: Cmd, now: nat)
      requires Ready(now)
      modifies this`delayTasks, this`delaySequence, this`executor, this`armed, this`armedAt, this`issued, this`crowded,
               this`ledger, this`currentDelayTaskId, this`periodicTasks, this`periodicSequence, this`born, this`dropped
      ensures Ready(now) && Calm(old(Q()), Q(), now) && DoneFor(old(ledger), ledger, [cmd], now)
      ensures P() == CmdP(old(P()), cmd, now) && CmdDone(cmd, old(Q()), Q(), now)
    {
      hide QueueInv, PackId, Calm, PeriodicOk, WakesUp, Dropped, Added, OwnFirst, Accounted, DoneFor, TakenOut,
        NoteAdded, AddedP, DroppedP, Orders;
      CalmItself(Q(), now);
      OneOrder(cmd);
      match cmd
      case AddDelay(delay, cmds) =>
        var id := AddDelayTask(Script(cmds), delay % UINT32_LIMIT, now);
        if id != 0 {
          AddedCalm(old(Q()), Q(), DelayTask(id, old(issued), Script(cmds)), now);
          AddedFor(old(ledger), DelayTask(id, old(issued), Script(cmds)), [cmd], now);
        } else {
          NothingDone(ledger, [cmd], now);
        }
        CalmWakes(old(Q()), Q(), now, periodicTasks, periodicTasks);
      case DropDelay(id) =>
        QueueSorted(Q(), W());
        var own := OwnTask(id);
        if own {
          OwnIsThere(delayTasks, id);
          var found := RemoveDelayTask(id, now);
          if found {
            DroppedCalm(old(Q()), Q(), id, now);
          }
          TakenFor(old(ledger), ledger, old(delayTasks), id, now);
        } else {
          NothingDone(ledger, [cmd], now);
        }
        CalmWakes(old(Q()), Q(), now, periodicTasks, periodicTasks);
      case AddPeriodic(interval, beats) =>
        var id := AddPeriodicTask(beats, interval % UINT32_LIMIT, now);
        DoneMore(old(ledger), ledger, [cmd], now);
      case DropPeriodic(id) =>
        var found := RemovePeriodicTask(id, now);
        DoneMore(old(ledger), ledger, [cmd], now);
    }

    method RunScript(cmds: seq<Cmd>, now: nat)
      requires Ready(now)
      modifies this`delayTasks, this`delaySequence, this`executor, this`armed, this`armedAt, this`issued, this`crowded,
               this`ledger, this`currentDelayTaskId, this`periodicTasks, this`periodicSequence, this`born, this`dropped
      ensures Ready(now) && Calm(old(Q()), Q(), now) && DoneFor(old(ledger), ledger, cmds, now)
      ensures P() == ScriptP(old(P()), cmds, now) && (!crowded ==> Struck(old(delayTasks), ran, ledger, cmds))
    {
      hide QueueInv, Calm, PeriodicOk, WakesUp, Accounted, DoneFor, CmdDone, CmdP, Struck, Grew;
      CalmItself(Q(), now);
      NoneStruck(delayTasks, ran, ledger);
      NothingDone(ledger, [], now);
      for i := 0 to |cmds|
        invariant DoneFor(old(ledger), ledger, cmds[..i], now) && P() == ScriptP(old(P()), cmds[..i], now)
        invariant Ready(now) && Calm(old(Q()), Q(), now)
        invariant !crowded ==> Struck(old(delayTasks), ran, ledger, cmds[..i])
      {
        ghost var q, l, w := Q(), ledger, W();
        RunCmd(cmds[i], now);
        ScriptStruck(old(Q()), old(ledger), q, w, l, Q(), ledger, ran, cmds[..i], cmds[i], now);
        assert cmds[..i + 1] == cmds[..i] + [cmds[i]];
        assert cmds[..i + 1][..i] == cmds[..i];
        DoneOn(old(ledger), l, ledger, cmds[..i], [cmds[i]], now);
        CalmOn(old(Q()), q, Q(), now);
      }
      assert cmds[..|cmds|] == cmds;
    }

    /** The front task goes to its next time, or out. */
    method MoveFront(again: bool, now: nat)
      requires PeriodicOk(periodicTasks, periodicSequence, now) && periodicTasks != []
      requires again ==> periodicTasks[0].due <= now
      modifies this`periodicTasks
      ensures periodicTasks == if again then SplicedP(old(periodicTasks), now) else old(periodicTasks)[1..]
      ensures PeriodicOk(periodicTasks, periodicSequence, now)
      ensures periodicTasks != [] ==> old(periodicTasks)[0].due <= periodicTasks[0].due
    {
      hide PeriodicOk, SplicedP;
      MoveKeeps(periodicTasks, periodicSequence, again, now);
      if again {
        var moved := Again(periodicTasks[0], now);
        var list := periodicTasks[0 := moved];
        var k := FindLaterPeriodic(list, moved.due);
        SpliceIs(periodicTasks, k, now);
        periodicTasks := list[1..k] + [moved] + list[k..];
      } else {
        periodicTasks := periodicTasks[1..];
      }
    }

    /** One turn of Execute's loop: calls the front task, then moves whatever is the front by then. */
    method CallFront(now: nat)
      requires Ready(now) && periodicTasks != [] && periodicTasks[0].due <= now
      modifies this`delayTasks, this`delaySequence, this`executor, this`armed, this`armedAt, this`issued, this`crowded,
               this`ledger, this`currentDelayTaskId, this`periodicTasks, this`periodicSequence, this`born, this`dropped, this`calls,
               this`lost, this`undefined
      ensures Ready(now) && Calm(old(Q()), Q(), now) && P() == TurnP(old(P()), now)
      ensures DoneFor(old(ledger), ledger, FirstBeat(old(periodicTasks)[0]).cmds, now)
      ensures !crowded ==> Struck(old(delayTasks), ran, ledger, FirstBeat(old(periodicTasks)[0]).cmds)
    {
      hide QueueInv, Accounted, Calm, WakesUp, PeriodicOk, DoneFor, ScriptP, SplicedP, FirstBeat, Thinned, Struck;
      ghost var p := P();
      CallKeeps(p, now);
      var front, beat := periodicTasks[0], FirstBeat(periodicTasks[0]);
      calls := calls + [CallOf(front, now)];
      RunScript(beat.cmds, now);
      ghost var s, q := periodicTasks, Q();
      assert P() == CalledP(p, now);
      if periodicTasks == [] || (beat.again && periodicTasks[0].id != front.id) {
        undefined := true;
      } else {
        if periodicTasks[0].id != front.id { lost := lost[periodicTasks[0].id := |p.calls|]; }
        MoveFront(beat.again, now);
      }
      CalmItself(q, now);
      CalmWakes(q, Q(), now, s, periodicTasks);
    }

    /** Execute: see PeriodicTurns.Served for what it does to the queue. Afterwards nothing is due and the
        next wakeup is on its way. */
    method Execute(now: nat) returns (ghost pos: seq<nat>)
      requires Ready(now) && Books(P(), now, 0)
      modifies this`delayTasks, this`delaySequence, this`executor, this`armed, this`armedAt, this`issued, this`crowded,
               this`ledger, this`currentDelayTaskId, this`periodicTasks, this`periodicSequence, this`born, this`dropped, this`calls,
               this`lost, this`undefined
      ensures Ready(now) && Books(P(), now, 0) && Calm(old(Q()), Q(), now) && P() == ExecP(old(P()), now)
      ensures old(calls) <= calls && DoneByCalls(old(ledger), ledger, calls, |old(calls)|, now)
      ensures !crowded ==> Struck(old(delayTasks), ran, ledger, CallCmds(calls[|old(calls)|..]))
      ensures Served(old(periodicTasks), old(periodicSequence), periodicTasks, pos, calls[|old(calls)|..],
                     GoneSince(lost, |old(calls)|), now)
      ensures periodicTasks != [] ==>
        periodicTasks[0].due > now &&
        exists t :: t in delayTasks && t.issue >= old(issued) && WokenAt(t, periodicTasks[0].due, now)
    {
      hide QueueInv, Accounted, Calm, WakesUp, PeriodicOk, Books, WokenAt, DoneFor, DoneByCalls, Served, TurnP, Due, Struck,
        CallCmds, FirstBeat;
      ghost var made := |calls|;
      pos := ServesAll(P(), now);
      BooksExec(P(), now);
      CalmItself(Q(), now);
      NothingCalled(ledger, calls, now);
      NoneCalled(delayTasks, ran, ledger, calls);
      while periodicTasks != [] && periodicTasks[0].due <= now
        invariant Ready(now) && Calm(old(Q()), Q(), now) && ExecP(P(), now) == ExecP(old(P()), now)
        invariant old(calls) <= calls && DoneByCalls(old(ledger), ledger, calls, made, now)
        invariant !crowded ==> Struck(old(delayTasks), ran, ledger, CallCmds(calls[made..]))
        decreases DueIds(periodicTasks, now)
      {
        ghost var q, l, c := Q(), ledger, calls;
        TurnKeeps(P(), now);
        CallFront(now);
        CalmOn(old(Q()), q, Q(), now);
        CallStruck(old(Q()), old(ledger), q, l, Q(), ledger, ran, c, calls, made, now);
        CalledOn(old(ledger), l, ledger, c, calls, made, now);
      }
      NothingDue(periodicTasks, periodicSequence, now);
      ghost var q, l := Q(), ledger;
      ScheduleNextTask(now);
      CalmOn(old(Q()), q, Q(), now);
      CalmWakes(q, Q(), now, periodicTasks, periodicTasks);
      CalmIssued(old(Q()), q, now);
      StruckLater(Q(), q, old(delayTasks), ran, l, ledger, CallCmds(calls[made..]), now);
      ScheduledOn(old(ledger), l, ledger, calls, made, now);
    }

    // ---- Coredump sessions ----

    ghost predicate SessionsOk()
      reads this
    {
      TableOk(trace, sessions, nextSerial) && (!crowded ==> TimersMatch(sessions, delayTasks))
    }

    /** RemoveSession with CancelTimeout: the session and its removal task go together. */
    method RemoveSession(pid: int, now: nat)
      requires QueueOk() && (!crowded ==> TimersMatch(sessions, delayTasks) && WakesUp(delayTasks, periodicTasks))
      modifies this`sessions, this`delayTasks, this`armed, this`armedAt, this`ledger
      ensures Grew(old(ledger), ledger) && ledger.added == old(ledger).added
      ensures forall t :: t in ledger.removed && t !in old(ledger).removed ==>
        t in old(delayTasks) && pid in old(sessions) && t.id == old(sessions)[pid].delayTaskId
      ensures pid in old(sessions) ==> DropEffect(old(delayTasks), delayTasks, old(sessions)[pid].delayTaskId)
      ensures QueueOk() && (!crowded ==> TimersMatch(sessions, delayTasks) && WakesUp(delayTasks, periodicTasks))
      ensures sessions == old(sessions) - {pid}
      ensures forall t :: t in delayTasks ==> t in old(delayTasks)
      ensures pid in old(sessions) ==> TimerLeaves(old(delayTasks), delayTasks, pid, true, crowded)
      ensures pid !in old(sessions) ==> delayTasks == old(delayTasks)
      ensures !crowded ==> forall t :: t in old(delayTasks) ==> (t in delayTasks <==> t.work != Work.RemoveSession(pid))
    {
      hide Sorted, Numbered, Due, TimersMatch, Dropped, WakesUp;
      if pid in sessions {
        ghost var before := delayTasks;
        var found := RemoveDelayTask(sessions[pid].delayTaskId, now);
        TimerGone(sessions, before, delayTasks, pid, found, crowded);
        sessions := sessions - {pid};
        if !crowded { WakesKept(before, delayTasks, periodicTasks); }
      } else {
        NoTimer(sessions, delayTasks, pid, crowded);
        assert sessions - {pid} == sessions;
      }
    }

    /** Sessions, queue and wakeups, while a request is being served. */
    ghost predicate Steady()
      reads this
    {
      QueueOk() && SessionsOk() && (!crowded ==> WakesUp(delayTasks, periodicTasks))
    }

    /** SendMsgToSocket and RemoveSession: the client is answered and the session ends. */
    method Reply(pid: int, code: int, path: string, now: nat)
      requires Steady() && pid in sessions
      modifies this`sessions, this`trace, this`delayTasks, this`armed, this`armedAt, this`ledger
      ensures Grew(old(ledger), ledger)
      ensures Steady() && sessions == old(sessions) - {pid}
      ensures trace == old(trace) + [Replied(old(sessions)[pid].serial, code, path), Removed(old(sessions)[pid].serial, false)]
      ensures TimerLeaves(old(delayTasks), delayTasks, pid, true, crowded)
    {
      hide QueueInv, Accounted, TableOk, TimersMatch, WakesUp;
      var n := sessions[pid].serial;
      ReplyTable(trace, sessions, nextSerial, pid, code, path);
      RemoveSession(pid, now);
      trace := trace + [Replied(n, code, path), Removed(n, false)];
    }

    /** Writes session `pid` back with events about it. */
    method Update(pid: int, s: Session, ext: seq<Event>)
      requires Steady() && pid in sessions
      requires s.serial == sessions[pid].serial && s.delayTaskId == sessions[pid].delayTaskId
      requires OnlyAbout(ext, s.serial) && TraceOk(trace + ext, nextSerial) && SessionOk(trace + ext, s, pid)
      modifies this`sessions, this`trace
      ensures Steady() && sessions == old(sessions)[pid := s] && trace == old(trace) + ext
    {
      hide QueueInv, Accounted, TableOk, TimersMatch, WakesUp, TraceOk, SessionOk;
      UpdateTable(trace, ext, sessions, nextSerial, pid, s);
      if !crowded { MatchAfterUpdate(sessions, delayTasks, pid, s); }
      sessions := sessions[pid := s];
      trace := trace + ext;
    }

    /** SendCancelSignal to the worker of session `pid`. */
    method Signal(pid: int)
      requires Steady() && pid in sessions && sessions[pid].workerPid > 0 && CancelAsked(sessions[pid].serial) in trace
      modifies this`sessions, this`trace
      ensures Steady() && sessions == old(sessions)
      ensures trace == old(trace) + [Signalled(sessions[pid].serial, sessions[pid].workerPid)]
    {
      hide QueueInv, Accounted, Books, TimersMatch, WakesUp;
      SignalTable(trace, sessions, nextSerial, pid);
      assert sessions[pid := sessions[pid]] == sessions;
      Update(pid, sessions[pid], [Signalled(sessions[pid].serial, sessions[pid].workerPid)]);
    }

    method SetStatus(pid: int, st: Status)
      requires Steady() && pid in sessions
      requires st == RUNNING ==> sessions[pid].workerPid > 0
      requires st == CANCEL_PENDING ==> CancelAsked(sessions[pid].serial) in trace
      modifies this`sessions, this`trace
      ensures Steady() && sessions == old(sessions)[pid := old(sessions)[pid].(status := st)] && trace == old(trace)
    {
      hide QueueInv, Accounted, Books, TimersMatch, WakesUp;
      assert trace + [] == trace && SessionOk(trace, sessions[pid], pid);
      Update(pid, sessions[pid].(status := st), []);
    }

    /** WriteResult: gives up, leaving the session, when the file name does not fit the reply. */
    method WriteResult(pid: int, now: nat) returns (ok: bool)
      requires Steady() && pid in sessions
      modifies this`sessions, this`trace, this`delayTasks, this`armed, this`armedAt, this`ledger
      ensures Grew(old(ledger), ledger)
      ensures Steady() && ok == Sendable(old(sessions)[pid].filePath)
      ensures !ok ==> sessions == old(sessions) && trace == old(trace)
      ensures ok ==> sessions == old(sessions) - {pid}
      ensures ok ==> trace == old(trace) + [Replied(old(sessions)[pid].serial, old(sessions)[pid].errorCode,
                         old(sessions)[pid].filePath), Removed(old(sessions)[pid].serial, false)]
      ensures TimerLeaves(old(delayTasks), delayTasks, pid, ok, crowded)
    {
      hide QueueInv, Accounted, Books, TimersMatch, WakesUp, TableOk;
      ok := Sendable(sessions[pid].filePath);
      if ok { Reply(pid, sessions[pid].errorCode, sessions[pid].filePath, now); }
    }

    /** HandleEvent: the state objects' OnEvent. */
    method HandleEvent(pid: int, ev: SessionEvent, now: nat)
      requires Steady() && pid in sessions
      requires ev == UPDATE_DUMPER ==> sessions[pid].workerPid > 0
      requires ev == CANCEL ==> sessions[pid].cancelRequest && CancelAsked(sessions[pid].serial) in trace
      modifies this`sessions, this`trace, this`delayTasks, this`armed, this`armedAt, this`ledger
      ensures Grew(old(ledger), ledger)
      ensures Steady() && trace == old(trace) + Effects(old(sessions)[pid], ev)
      ensures sessions == if Ends(old(sessions)[pid], ev) then old(sessions) - {pid}
        else old(sessions)[pid := old(sessions)[pid].(status := StatusAfter(old(sessions)[pid].status, ev))]
      ensures old(sessions)[pid].status == RUNNING && (ev == REPORT_SUCCESS || ev == REPORT_FAIL) &&
              |old(sessions)[pid].filePath| < 256 ==>
        var s := old(sessions)[pid];
        trace == old(trace) + [Replied(s.serial, 0, s.filePath), Removed(s.serial, false)] && sessions == old(sessions) - {pid}
      ensures old(sessions)[pid].status == RUNNING && ev == CANCEL && |old(sessions)[pid].filePath| < 256 ==>
        var s := old(sessions)[pid];
        && trace == old(trace) + [Signalled(s.serial, s.workerPid), Replied(s.serial, 0, s.filePath), Removed(s.serial, false)]
        && sessions == old(sessions) - {pid}
      ensures TimerLeaves(old(delayTasks), delayTasks, pid, Ends(old(sessions)[pid], ev), crowded)
    {
      hide QueueInv, Accounted, Books, TimersMatch, WakesUp, TableOk;
      ghost var s := sessions[pid];
      SessionFacts(trace, sessions, nextSerial, pid);
      assert sessions[pid := s] == sessions;
      match sessions[pid].status
      case PENDING => PendingOnEvent(pid, ev, now);
      case RUNNING => RunningOnEvent(pid, ev, now);
      case CANCEL_PENDING => CancelPendingOnEvent(pid, ev, now);
      case _ =>
    }

    method PendingOnEvent(pid: int, ev: SessionEvent, now: nat)
      requires Steady() && pid in sessions && sessions[pid].status == PENDING
      requires ev == UPDATE_DUMPER ==> sessions[pid].workerPid > 0
      requires ev == CANCEL ==> sessions[pid].cancelRequest && CancelAsked(sessions[pid].serial) in trace
      modifies this`sessions, this`trace, this`delayTasks, this`armed, this`armedAt, this`ledger
      ensures Grew(old(ledger), ledger)
      ensures Steady() && trace == old(trace) + Effects(old(sessions)[pid], ev)
      ensures sessions == if Ends(old(sessions)[pid], ev) then old(sessions) - {pid}
        else old(sessions)[pid := old(sessions)[pid].(status := StatusAfter(PENDING, ev))]
      ensures TimerLeaves(old(delayTasks), delayTasks, pid, Ends(old(sessions)[pid], ev), crowded)
    {
      hide QueueInv, Accounted, Books, TimersMatch, WakesUp, TableOk;
      ghost var s := sessions[pid];
      assert sessions[pid := s] == sessions;
      match ev
      case UPDATE_DUMPER => SetStatus(pid, RUNNING);
      case CANCEL =>
        CancelPendingTable(trace, sessions, nextSerial, pid);
        assert trace + [] == trace;
        Update(pid, sessions[pid].(cancelRequest := true, status := CANCEL_PENDING), []);
        assert s.(cancelRequest := true, status := CANCEL_PENDING) == s.(status := CANCEL_PENDING);
      case TIMEOUT =>
        SetStatus(pid, CANCEL_TIMEOUT);
        Reply(pid, -1, "", now);
        assert sessions == old(sessions) - {pid};
      case _ =>
    }

    method RunningOnEvent(pid: int, ev: SessionEvent, now: nat)
      requires Steady() && pid in sessions && sessions[pid].status == RUNNING && sessions[pid].workerPid > 0
      requires ev == CANCEL ==> sessions[pid].cancelRequest && CancelAsked(sessions[pid].serial) in trace
      modifies this`sessions, this`trace, this`delayTasks, this`armed, this`armedAt, this`ledger
      ensures Grew(old(ledger), ledger)
      ensures Steady() && trace == old(trace) + Effects(old(sessions)[pid], ev)
      ensures sessions == if Ends(old(sessions)[pid], ev) then old(sessions) - {pid}
        else old(sessions)[pid := old(sessions)[pid].(status := StatusAfter(RUNNING, ev))]
      ensures (ev == REPORT_SUCCESS || ev == REPORT_FAIL) &&
              |old(sessions)[pid].filePath| < 256 ==>
        var s := old(sessions)[pid];
        trace == old(trace) + [Replied(s.serial, 0, s.filePath), Removed(s.serial, false)] && sessions == old(sessions) - {pid}
      ensures ev == CANCEL && |old(sessions)[pid].filePath| < 256 ==>
        var s := old(sessions)[pid];
        && trace == old(trace) + [Signalled(s.serial, s.workerPid), Replied(s.serial, 0, s.filePath), Removed(s.serial, false)]
        && sessions == old(sessions) - {pid}
      ensures TimerLeaves(old(delayTasks), delayTasks, pid, Ends(old(sessions)[pid], ev), crowded)
    {
      hide QueueInv, Accounted, Books, TimersMatch, WakesUp, TableOk;
      SessionFacts(trace, sessions, nextSerial, pid);
      ghost var s := sessions[pid];
      assert sessions[pid := s] == sessions;
      match ev
      case REPORT_SUCCESS => Finish(pid, SUCCESS, now);
      case REPORT_FAIL => Finish(pid, FAILED, now);
      case CANCEL =>
        Signal(pid);
        Finish(pid, CANCELED, now);
      case _ =>
    }

    method CancelPendingOnEvent(pid: int, ev: SessionEvent, now: nat)
      requires Steady() && pid in sessions && sessions[pid].status == CANCEL_PENDING
      requires CancelAsked(sessions[pid].serial) in trace && (ev == UPDATE_DUMPER ==> sessions[pid].workerPid > 0)
      modifies this`sessions, this`trace, this`delayTasks, this`armed, this`armedAt, this`ledger
      ensures Grew(old(ledger), ledger)
      ensures Steady() && trace == old(trace) + Effects(old(sessions)[pid], ev)
      ensures sessions == if Ends(old(sessions)[pid], ev) then old(sessions) - {pid}
        else old(sessions)[pid := old(sessions)[pid].(status := StatusAfter(CANCEL_PENDING, ev))]
      ensures TimerLeaves(old(delayTasks), delayTasks, pid, Ends(old(sessions)[pid], ev), crowded)
    {
      hide QueueInv, Accounted, Books, TimersMatch, WakesUp, TableOk;
      ghost var s := sessions[pid];
      assert sessions[pid := s] == sessions;
      match ev
      case UPDATE_DUMPER =>
        Signal(pid);
        Finish(pid, CANCELED, now);
      case TIMEOUT =>
        SetStatus(pid, CANCEL_TIMEOUT);
        Reply(pid, -1, "", now);
        assert sessions == old(sessions) - {pid};
      case _ =>
    }

    /** A final status, then the reply if it can be written. */
    method Finish(pid: int, st: Status, now: nat)
      requires Steady() && pid in sessions && st != RUNNING && st != CANCEL_PENDING
      modifies this`sessions, this`trace, this`delayTasks, this`armed, this`armedAt, this`ledger
      ensures Grew(old(ledger), ledger)
      ensures Steady()
      ensures var s := old(sessions)[pid];
        if Sendable(s.filePath)
        then sessions == old(sessions) - {pid} &&
             trace == old(trace) + [Replied(s.serial, s.errorCode, s.filePath), Removed(s.serial, false)]
        else sessions == old(sessions)[pid := s.(status := st)] && trace == old(trace)
      ensures TimerLeaves(old(delayTasks), delayTasks, pid, Sendable(old(sessions)[pid].filePath), crowded)
    {
      hide QueueInv, Accounted, Books, TimersMatch, WakesUp, TableOk;
      SetStatus(pid, st);
      var ok := WriteResult(pid, now);
      if ok { assert sessions == old(sessions) - {pid}; }
    }

    // ---- Between operations ----

    /** What holds also while a request is being served. */
    ghost predicate Sound()
      reads this
    {
      Steady() && PeriodicsOk(clock) && RanOk(ran, delayTasks, clock, {})
    }

    ghost predicate Valid()
      reads this
    {
      Sound() && Told(trace, sessions)
    }

    constructor ()
      ensures Valid() && delayTasks == [] && periodicTasks == [] && sessions == map[] && trace == [] && ran == []
      ensures clock == 0 && issued == 0 && !crowded && P() == NoTasks()
    {
      hide QueueInv, Accounted, Books, PeriodicOk, TableOk, Told, TimersMatch, WakesUp, RanOk;
      delayTasks, delaySequence, executor, armed, armedAt := [], 0, false, false, 0;
      periodicTasks, periodicSequence, currentDelayTaskId := [], 1, 0;
      sessions, trace := map[], [];
      issued, nextSerial, crowded, ran, clock := 0, 0, false, [], 0;
      ledger, born, calls, dropped, lost, undefined := Ledger({}, {}), map[], [], map[], map[], false;
      new;
      NothingAtFirst();
    }

    /** The time of the next operation: the clock does not run backwards. */
    ghost predicate At(now: nat)
      reads this
    {
      clock <= now && 0 < now < CLOCK_LIMIT
    }

    /** HandleCreateEvent: one session per pid at a time, removed after the delay computed from the
        client's end time, at once when that is below a second. */
    method HandleCreateEvent(pid: int, dupOk: bool, endTime: nat, absNow: nat, now: nat) returns (res: Response)
      requires Valid() && At(now)
      modifies this`sessions, this`trace, this`nextSerial, this`delayTasks, this`delaySequence, this`executor, this`armed,
               this`armedAt, this`issued, this`crowded, this`ledger, this`clock
      ensures Grew(old(ledger), ledger) && Valid() && clock == now
      ensures res == if pid in old(sessions) then CORE_DUMP_REPEAT else if !dupOk then DEFAULT_ERROR_CODE else REQUEST_SUCCESS
      ensures res != REQUEST_SUCCESS ==> sessions == old(sessions) && trace == old(trace) && delayTasks == old(delayTasks)
      ensures res == REQUEST_SUCCESS ==> trace == old(trace) + Begins(old(nextSerial), pid, RemovalDelay(endTime, absNow))
      ensures res == REQUEST_SUCCESS ==> sessions - {pid} == old(sessions) - {pid}
      ensures res == REQUEST_SUCCESS ==> (pid in sessions <==> RemovalDelay(endTime, absNow) > 0)
      ensures res == REQUEST_SUCCESS ==>
        trace == old(trace) + if pid in sessions then [Created(old(nextSerial), pid), StartSent(old(nextSerial), pid)]
          else [Created(old(nextSerial), pid), StartSent(old(nextSerial), pid), Removed(old(nextSerial), true)]
      ensures res == REQUEST_SUCCESS && endTime < absNow + 1000 ==> pid !in sessions
      ensures res == REQUEST_SUCCESS && absNow + 1000 <= endTime < absNow + 30_000 ==>
        pid in sessions && sessions[pid].delayTaskId % TIME_LIMIT == now + (endTime - absNow) / 1000 * 1_000_000
      ensures res == REQUEST_SUCCESS && absNow + 30_000 <= endTime < absNow + 2_147_483_648_000 ==>
        pid in sessions && sessions[pid].delayTaskId % TIME_LIMIT == now + 30_000_000
      ensures res == REQUEST_SUCCESS && pid in sessions ==>
        sessions[pid] == Session(old(nextSerial), 0, false, PENDING, "", 0, endTime, sessions[pid].delayTaskId) &&
        sessions[pid].delayTaskId == PackId(old(issued), now + RemovalDelay(endTime, absNow) * US_PER_S) &&
        Added(old(Q()), Q(), DelayTask(sessions[pid].delayTaskId, old(issued), Work.RemoveSession(pid)))
    {
      hide QueueInv, Accounted, Books, TimersMatch, WakesUp, TableOk, Told, PeriodicOk, RanOk,
        RemovalDelay, PackId, Added;
      Later(P(), ran, delayTasks, clock, now);
      clock := now;
      if pid in sessions { return CORE_DUMP_REPEAT; }
      if !dupOk { return DEFAULT_ERROR_CODE; }
      CreateCoredump(pid, endTime, absNow, now);
      RemovalDelayIs(endTime, absNow);
      TimedAt(old(issued), now, RemovalDelay(endTime, absNow));
      res := REQUEST_SUCCESS;
    }

    /** CreateCoredump with ScheduleCancelTime. */
    method CreateCoredump(pid: int, endTime: nat, absNow: nat, now: nat)
      requires Valid() && pid !in sessions && clock == now && 0 < now < CLOCK_LIMIT
      modifies this`sessions, this`trace, this`nextSerial, this`delayTasks, this`delaySequence, this`executor, this`armed,
               this`armedAt, this`issued, this`crowded, this`ledger
      ensures Grew(old(ledger), ledger) && Valid()
      ensures trace == old(trace) + Begins(old(nextSerial), pid, RemovalDelay(endTime, absNow))
      ensures sessions - {pid} == old(sessions) - {pid}
      ensures pid in sessions <==> RemovalDelay(endTime, absNow) > 0
      ensures pid in sessions ==>
        sessions[pid] == Session(old(nextSerial), 0, false, PENDING, "", 0, endTime, sessions[pid].delayTaskId) &&
        sessions[pid].delayTaskId == PackId(old(issued), now + RemovalDelay(endTime, absNow) * US_PER_S) &&
        Added(old(Q()), Q(), DelayTask(sessions[pid].delayTaskId, old(issued), Work.RemoveSession(pid)))
    {
      hide QueueInv, Accounted, Books, TimersMatch, WakesUp, TableOk, Told, PeriodicOk, RanOk, Added, Dropped,
        RemovalDelay, PackId;
      var n := nextSerial;
      var s := Session(n, 0, false, PENDING, "", 0, endTime, 0);
      sessions, trace, nextSerial := sessions[pid := s], trace + [Created(n, pid)], n + 1;
      trace := trace + [StartSent(n, pid)];
      RemovalDelayCapped(endTime, absNow);
      ScheduleCancelTime(pid, RemovalDelay(endTime, absNow), now, old(sessions), old(trace));
      assert sessions - {pid} == old(sessions) - {pid};
      ToldBegins(old(trace), old(sessions), n, pid, RemovalDelay(endTime, absNow), sessions);
    }

    /** Session `pid` has just been created and has no timer yet: `before` and `told` are the sessions and
        events until then. */
    ghost predicate Beginning(pid: int, before: map<int, Session>, told: seq<Event>)
      reads this
    {
      && QueueOk() && (!crowded ==> TimersMatch(before, delayTasks) && WakesUp(delayTasks, periodicTasks))
      && PeriodicsOk(clock) && RanOk(ran, delayTasks, clock, {})
      && pid !in before && nextSerial > 0 && TableOk(told, before, nextSerial - 1)
      && trace == told + [Created(nextSerial - 1, pid)] + [StartSent(nextSerial - 1, pid)]
      && pid in sessions && sessions == before[pid := sessions[pid]] && Untouched(sessions[pid], nextSerial - 1)
    }

    /** ScheduleCancelTime for the session just created: a removal task, or no session after all. */
    method ScheduleCancelTime(pid: int, delay: nat, now: nat, ghost before: map<int, Session>, ghost told: seq<Event>)
      requires Beginning(pid, before, told) && clock == now && 0 < now < CLOCK_LIMIT && delay < UINT32_LIMIT
      modifies this`sessions, this`trace, this`nextSerial, this`delayTasks, this`delaySequence, this`executor, this`armed,
               this`armedAt, this`issued, this`crowded, this`ledger
      ensures Grew(old(ledger), ledger) && Sound() && trace == told + Begins(old(nextSerial) - 1, pid, delay)
      ensures delay == 0 ==> sessions == before
      ensures delay > 0 ==> pid in sessions && sessions == before[pid := sessions[pid]]
      ensures delay > 0 ==> sessions[pid] == old(sessions)[pid].(delayTaskId := sessions[pid].delayTaskId)
      ensures delay > 0 ==>
        sessions[pid].delayTaskId == PackId(old(issued), now + delay * US_PER_S) &&
        Added(old(Q()), Q(), DelayTask(sessions[pid].delayTaskId, old(issued), Work.RemoveSession(pid)))
    {
      hide QueueInv, Accounted, Books, TimersMatch, WakesUp, TableOk, Told, PeriodicOk, RanOk, Added, Dropped,
        PackId, NoteAdded, Grew, Begins;
      ghost var q := Q();
      var id := AddDelayTask(Work.RemoveSession(pid), delay, now);
      if id == 0 {
        DropUntimed(pid, now, before, told);
      } else {
        AddedFor(old(ledger), DelayTask(id, q.issued, Work.RemoveSession(pid)), [], now);
        BeginsWith(nextSerial - 1, pid, delay);
        NoteTimer(pid, id, q, before, told);
      }
    }

    /** The new session remembers its removal task, which was added to the queue `q`. */
    method NoteTimer(pid: int, id: nat, ghost q: Queue, ghost before: map<int, Session>, ghost told: seq<Event>)
      requires QueueOk() && PeriodicsOk(clock) && RanOk(ran, q.tasks, clock, {})
      requires Added(q, Q(), DelayTask(id, q.issued, Work.RemoveSession(pid))) && id % TIME_LIMIT > clock
      requires !q.crowded ==> TimersMatch(before, q.tasks) && WakesUp(q.tasks, periodicTasks)
      requires pid !in before && nextSerial > 0 && TableOk(told, before, nextSerial - 1)
      requires trace == told + [Created(nextSerial - 1, pid)] + [StartSent(nextSerial - 1, pid)]
      requires pid in sessions && sessions == before[pid := sessions[pid]] && Untouched(sessions[pid], nextSerial - 1)
      modifies this`sessions
      ensures Sound() && sessions == before[pid := old(sessions)[pid].(delayTaskId := id)]
    {
      hide QueueInv, Accounted, Books, TimersMatch, WakesUp, TableOk, PeriodicOk, RanOk, Added;
      var s := sessions[pid].(delayTaskId := id);
      ghost var t := DelayTask(id, q.issued, Work.RemoveSession(pid));
      TimedSession(told, before, nextSerial - 1, pid, s, q, Q(), t, periodicTasks, ran, clock);
      sessions := sessions[pid := s];
      assert sessions == before[pid := s];
    }

    /** removeTask() called directly: there is no timer to cancel yet. */
    method DropUntimed(pid: int, now: nat, ghost before: map<int, Session>, ghost told: seq<Event>)
      requires Beginning(pid, before, told)
      modifies this`sessions, this`trace, this`delayTasks, this`armed, this`armedAt, this`ledger
      ensures Grew(old(ledger), ledger)
      ensures Sound() && sessions == before && trace == told + Begins(nextSerial - 1, pid, 0)
    {
      hide QueueInv, Accounted, Books, TimersMatch, WakesUp, TableOk, Told, PeriodicOk, RanOk, Added, Dropped;
      NoZeroTask(Q(), W());
      var found := RemoveDelayTask(sessions[pid].delayTaskId, now);
      BriefSession(told, before, nextSerial - 1, pid, sessions[pid]);
      trace := trace + [Removed(sessions[pid].serial, true)];
      sessions := sessions - {pid};
      assert sessions == before;
    }

    /** HandleCancelEvent with CancelCoredump. */
    method HandleCancelEvent(pid: int, now: nat) returns (res: Response)
      requires Valid() && At(now)
      modifies this`sessions, this`trace, this`delayTasks, this`armed, this`armedAt, this`ledger, this`clock
      ensures Grew(old(ledger), ledger)
      ensures Valid() && clock == now
      ensures res == if pid in old(sessions) then REQUEST_SUCCESS else DEFAULT_ERROR_CODE
      ensures pid !in old(sessions) ==> sessions == old(sessions) && trace == old(trace) && delayTasks == old(delayTasks)
      ensures pid in old(sessions) && old(sessions)[pid].status == RUNNING && |old(sessions)[pid].filePath| < 256 ==>
        var s := old(sessions)[pid];
        && sessions == old(sessions) - {pid} && TimerLeaves(old(delayTasks), delayTasks, pid, true, crowded)
        && trace == old(trace) + [CancelAsked(s.serial), Signalled(s.serial, s.workerPid), Replied(s.serial, 0, s.filePath),
                                  Removed(s.serial, false)]
      ensures pid in old(sessions) && !(old(sessions)[pid].status == RUNNING && |old(sessions)[pid].filePath| < 256) ==>
        var s := old(sessions)[pid];
        && delayTasks == old(delayTasks)
        && trace == old(trace) + (if s.status == RUNNING then [CancelAsked(s.serial), Signalled(s.serial, s.workerPid)]
                                  else [CancelAsked(s.serial)])
        && sessions == old(sessions)[pid := s.(cancelRequest := true, status :=
             if s.status == RUNNING then CANCELED else if s.status == PENDING then CANCEL_PENDING else s.status)]
    {
      hide QueueInv, Accounted, Books, TimersMatch, WakesUp, TableOk, Told, PeriodicOk, RanOk, TimerLeaves, After, Effects,
        Ends;
      Later(P(), ran, delayTasks, clock, now);
      clock := now;
      if pid !in sessions { return DEFAULT_ERROR_CODE; }
      var s := sessions[pid].(cancelRequest := true);
      SessionFacts(trace, sessions, nextSerial, pid);
      CancelDoes(trace, sessions, pid);
      Receive(pid, s, [CancelAsked(s.serial)], CANCEL, now);
      res := REQUEST_SUCCESS;
    }

    /** HandleUpdateWorkerPid: only a positive pid is recorded; a cancel that came first is delivered now. */
    method HandleUpdateWorkerPid(pid: int, worker: int, now: nat) returns (res: Response)
      requires Valid() && At(now)
      modifies this`sessions, this`trace, this`delayTasks, this`armed, this`armedAt, this`ledger, this`clock
      ensures Grew(old(ledger), ledger)
      ensures Valid() && clock == now
      ensures res == if worker > 0 && pid in old(sessions) then REQUEST_SUCCESS else ABNORMAL_SERVICE
      ensures res != REQUEST_SUCCESS ==> sessions == old(sessions) && trace == old(trace) && delayTasks == old(delayTasks)
      ensures res == REQUEST_SUCCESS && old(sessions)[pid].status == CANCEL_PENDING && |old(sessions)[pid].filePath| < 256 ==>
        var s := old(sessions)[pid];
        && sessions == old(sessions) - {pid} && TimerLeaves(old(delayTasks), delayTasks, pid, true, crowded)
        && trace == old(trace) + [WorkerSeen(s.serial, worker), Signalled(s.serial, worker), Replied(s.serial, 0, s.filePath),
                                  Removed(s.serial, false)]
      ensures res == REQUEST_SUCCESS && !(old(sessions)[pid].status == CANCEL_PENDING && |old(sessions)[pid].filePath| < 256) ==>
        var s := old(sessions)[pid];
        && delayTasks == old(delayTasks)
        && trace == old(trace) + (if s.status == CANCEL_PENDING then [WorkerSeen(s.serial, worker), Signalled(s.serial, worker)]
                                  else [WorkerSeen(s.serial, worker)])
        && sessions == old(sessions)[pid := s.(workerPid := worker, status :=
             if s.status == CANCEL_PENDING then CANCELED else if s.status == PENDING then RUNNING else s.status)]
    {
      hide QueueInv, Accounted, Books, TimersMatch, WakesUp, TableOk, Told, PeriodicOk, RanOk, TimerLeaves, After, Effects,
        Ends;
      Later(P(), ran, delayTasks, clock, now);
      clock := now;
      if worker <= 0 || pid !in sessions { return ABNORMAL_SERVICE; }
      var s := sessions[pid].(workerPid := worker);
      SessionFacts(trace, sessions, nextSerial, pid);
      WorkerDoes(trace, sessions, pid, worker);
      Receive(pid, s, [WorkerSeen(s.serial, worker)], UPDATE_DUMPER, now);
      res := REQUEST_SUCCESS;
    }

    /** HandleReport: the return code only selects the event; the session's own code stays 0. */
    method HandleReport(pid: int, retCode: int, path: string, now: nat) returns (res: Response)
      requires Valid() && At(now)
      modifies this`sessions, this`trace, this`delayTasks, this`armed, this`armedAt, this`ledger, this`clock
      ensures Grew(old(ledger), ledger)
      ensures Valid() && clock == now && res == REQUEST_SUCCESS
      ensures pid !in old(sessions) ==> sessions == old(sessions) && trace == old(trace) && delayTasks == old(delayTasks)
      ensures pid in old(sessions) && old(sessions)[pid].status == RUNNING && |path| < 256 ==>
        var n := old(sessions)[pid].serial;
        && sessions == old(sessions) - {pid} && TimerLeaves(old(delayTasks), delayTasks, pid, true, crowded)
        && trace == old(trace) + [Reported(n, path), Replied(n, 0, path), Removed(n, false)]
      ensures pid in old(sessions) && !(old(sessions)[pid].status == RUNNING && |path| < 256) ==>
        var s := old(sessions)[pid];
        && delayTasks == old(delayTasks) && trace == old(trace) + [Reported(s.serial, path)]
        && sessions == old(sessions)[pid := s.(filePath := path, status :=
             if s.status != RUNNING then s.status else if retCode == 0 then SUCCESS else FAILED)]
    {
      hide QueueInv, Accounted, Books, TimersMatch, WakesUp, TableOk, Told, PeriodicOk, RanOk, TimerLeaves, After, Effects,
        Ends;
      Later(P(), ran, delayTasks, clock, now);
      clock := now;
      res := REQUEST_SUCCESS;
      if pid !in sessions { return; }
      SessionFacts(trace, sessions, nextSerial, pid);
      var s := sessions[pid].(filePath := path, errorCode := 0);
      var ev := if retCode == 0 then REPORT_SUCCESS else REPORT_FAIL;
      ReportDoes(trace, sessions, pid, retCode, path);
      Receive(pid, s, [Reported(s.serial, path)], ev, now);
    }

    /** OnTimeout. */
    method OnTimeout(pid: int, now: nat)
      requires Valid() && At(now)
      modifies this`sessions, this`trace, this`delayTasks, this`armed, this`armedAt, this`ledger, this`clock
      ensures Grew(old(ledger), ledger)
      ensures Valid() && clock == now
      ensures pid !in old(sessions) ==> sessions == old(sessions) && trace == old(trace) && delayTasks == old(delayTasks)
      ensures pid in old(sessions) && (old(sessions)[pid].status == PENDING || old(sessions)[pid].status == CANCEL_PENDING) ==>
        var n := old(sessions)[pid].serial;
        && sessions == old(sessions) - {pid} && TimerLeaves(old(delayTasks), delayTasks, pid, true, crowded)
        && trace == old(trace) + [Replied(n, -1, ""), Removed(n, false)]
      ensures pid in old(sessions) && old(sessions)[pid].status != PENDING && old(sessions)[pid].status != CANCEL_PENDING ==>
        sessions == old(sessions) && trace == old(trace) && delayTasks == old(delayTasks)
    {
      hide QueueInv, Accounted, Books, TimersMatch, WakesUp, TableOk, Told, PeriodicOk, RanOk, TimerLeaves, After, Effects,
        Ends;
      Later(P(), ran, delayTasks, clock, now);
      clock := now;
      if pid !in sessions { return; }
      TimeoutDoes(trace, sessions, pid);
      assert trace + [] == trace;
      Receive(pid, sessions[pid], [], TIMEOUT, now);
    }

    /** A request for session `pid` is noted, and the event it stands for reaches the session. */
    method Receive(pid: int, s: Session, note: seq<Event>, ev: SessionEvent, now: nat)
      requires Valid() && clock == now && 0 < now < CLOCK_LIMIT && pid in sessions && Noted(sessions[pid], s, ev, note)
      modifies this`sessions, this`trace, this`delayTasks, this`armed, this`armedAt, this`ledger, this`clock
      ensures Grew(old(ledger), ledger) && Valid() && clock == now
      ensures trace == old(trace) + note + Effects(s, ev) && sessions == After(old(sessions), pid, s, ev)
      ensures TimerLeaves(old(delayTasks), delayTasks, pid, Ends(s, ev), crowded)
      ensures !Ends(s, ev) ==> delayTasks == old(delayTasks)
    {
      hide QueueInv, Accounted, Books, TimersMatch, WakesUp, TableOk, Told, PeriodicOk, RanOk, TraceOk, SessionOk,
        TimerLeaves, After, Effects, Ends;
      NoteTable(trace, sessions, nextSerial, pid, s, ev, note);
      Update(pid, s, note);
      Dispatch(pid, ev, now, old(sessions));
      ToldOn(old(trace), old(sessions), nextSerial, pid, note, s, ev);
    }

    /** HandleEvent, seen from the request that caused it. */
    method Dispatch(pid: int, ev: SessionEvent, now: nat, ghost before: map<int, Session>)
      requires Sound() && clock == now && 0 < now < CLOCK_LIMIT && pid in sessions && pid in before
      requires sessions == before[pid := sessions[pid]]
      requires ev == UPDATE_DUMPER ==> sessions[pid].workerPid > 0
      requires ev == CANCEL ==> sessions[pid].cancelRequest && CancelAsked(sessions[pid].serial) in trace
      modifies this`sessions, this`trace, this`delayTasks, this`armed, this`armedAt, this`ledger, this`clock
      ensures Grew(old(ledger), ledger)
      ensures Sound() && clock == old(clock)
      ensures TimerLeaves(old(delayTasks), delayTasks, pid, Ends(old(sessions)[pid], ev), crowded)
      ensures trace == old(trace) + Effects(old(sessions)[pid], ev)
      ensures sessions == After(before, pid, old(sessions)[pid], ev)
      ensures !Ends(old(sessions)[pid], ev) ==> delayTasks == old(delayTasks)
    {
      hide QueueInv, Accounted, Books, TimersMatch, WakesUp, TableOk, Told, PeriodicOk, RanOk, TraceOk, SessionOk,
        Effects, Ends, StatusAfter, TimerLeaves;
      ghost var tasks := delayTasks;
      HandleEvent(pid, ev, now);
      LeavesFewer(tasks, delayTasks, pid, Ends(old(sessions)[pid], ev), crowded);
      RanFewer(ran, tasks, delayTasks, now);
      assert before[pid := old(sessions)[pid]] - {pid} == before - {pid};
    }

    // ---- The timer ----

    /** Runs the work of task `f`, which is still queued. */
    method RunWork(f: DelayTask, now: nat)
      requires Steady() && PeriodicsOk(now) && 0 < now < CLOCK_LIMIT
      requires f in delayTasks && Due(f) <= now && ran != [] && ran[|ran| - 1] == f
      modifies this`delayTasks, this`delaySequence, this`executor, this`armed, this`armedAt, this`issued, this`crowded,
               this`ledger, this`currentDelayTaskId, this`periodicTasks, this`periodicSequence, this`born, this`dropped, this`calls,
               this`lost, this`undefined, this`sessions, this`trace
      ensures QueueOk() && SessionsOk() && PeriodicsOk(now) && Worked(old(View()), View(), f, now)
    {
      hide QueueInv, Accounted, Books, TimersMatch, WakesUp, TableOk, PeriodicOk, Calm, DoneFor, DoneByCalls,
        Served, Struck, CallCmds, Worked, Due, ScriptP, ExecP, Fewer;
      BooksWork(P(), f.work, now);
      SameSessions(sessions);
      match f.work
      case RemoveSession(pid) => FireRemoval(f, now);
      case RunPeriodic =>
        ghost var q := Q();
        ghost var pos := Execute(now);
        CalmParts(q, Q(), now);
        WokenSince(delayTasks, periodicTasks, old(issued), now);
        PeriodicWorked(old(View()), View(), f, now, old(W()));
        if !crowded { MatchAfterCalm(sessions, q.tasks, delayTasks); }
      case Script(cmds) =>
        ghost var q := Q();
        RunScript(cmds, now);
        CalmParts(q, Q(), now);
        ScriptWorked(old(View()), View(), f, now);
        if !crowded { MatchAfterCalm(sessions, q.tasks, delayTasks); }
    }

    /** The work of a removal timer. */
    method FireRemoval(f: DelayTask, now: nat)
      requires Steady() && f in delayTasks && f.work.RemoveSession? && ran != [] && ran[|ran| - 1] == f
      requires PeriodicOk(periodicTasks, periodicSequence, now)
      modifies this`delayTasks, this`armed, this`armedAt, this`ledger, this`sessions, this`trace
      ensures QueueOk() && SessionsOk() && Worked(old(View()), View(), f, now)
    {
      hide QueueInv, Accounted, TimersMatch, WakesUp, TableOk, Worked, ByTimer, Grew, DropEffect;
      var pid := f.work.pid;
      if !crowded { OnlyTimer(sessions, Q(), f, W()); }
      var ext := [];
      if pid in sessions {
        ext := [Removed(sessions[pid].serial, true)];
        ExpireTable(trace, sessions, nextSerial, pid);
        NoEvents(trace, sessions[pid].serial);
      } else {
        assert sessions - {pid} == sessions && trace + ext == trace;
        NoEvents(trace, 0);
      }
      RemoveSession(pid, now);
      trace := trace + ext;
      RemovalWorked(old(View()), View(), f, now, issued);
    }

    /** Runs task `f` and takes it out of the queue, if its work has not; `u` and `w` are the state in between. */
    method RunTask(f: DelayTask, now: nat) returns (found: bool, ghost u: Snap, ghost w: Timer)
      requires Steady() && PeriodicsOk(now) && 0 < now < CLOCK_LIMIT
      requires f in delayTasks && Due(f) <= now && ran != [] && ran[|ran| - 1] == f
      modifies this`delayTasks, this`delaySequence, this`executor, this`armed, this`armedAt, this`issued, this`crowded,
               this`ledger, this`currentDelayTaskId, this`periodicTasks, this`periodicSequence, this`born, this`dropped, this`calls,
               this`lost, this`undefined, this`sessions, this`trace
      ensures QueueOk() && PeriodicsOk(now) && TableOk(trace, sessions, nextSerial)
      ensures Worked(old(View()), u, f, now) && QueueInv(Queue(u.tasks, u.issued, u.crowded), w)
      ensures View() == u.(tasks := delayTasks, ledger := ledger) && (!u.crowded ==> TimersMatch(u.sessions, u.tasks))
      ensures found ==> Dropped(u.tasks, delayTasks, f.id)
      ensures !found ==> delayTasks == u.tasks && forall t :: t in u.tasks ==> t.id != f.id
      ensures TakenOut(u.ledger, ledger, u.tasks, f.id)
    {
      hide QueueInv, Accounted, Books, TimersMatch, WakesUp, TableOk, PeriodicOk, Dropped, Due, TakenOut, Worked;
      RunWork(f, now);
      u, w := View(), W();
      found := RemoveDelayTask(f.id, now);
    }

    /** One turn of OnTimer's loop: the front task is due; it runs and leaves the queue. */
    method RunFront(now: nat)
      requires Valid() && clock == now && 0 < now < CLOCK_LIMIT && delayTasks != [] && Due(delayTasks[0]) <= now
      modifies this
      ensures Valid() && clock == now && ran == old(ran) + [old(delayTasks)[0]] && old(delayTasks)[0] !in delayTasks
      ensures Since(old(View()), View(), now)
    {
      hide QueueInv, Accounted, Books, TimersMatch, WakesUp, TableOk, Told, PeriodicOk, TraceOk, SessionOk, RanOk,
        Dropped, Due, TakenOut, Worked, Since, Evolves;
      var f := delayTasks[0];
      ghost var a, n := View(), W();
      RanNext(ran, Q(), n, now);
      AccountRan(ledger, delayTasks, ran, issued);
      ran := ran + [f];
      var found; ghost var u, m;
      found, u, m := RunTask(f, now);
      FrontDone(a, u, View(), f, now, issued, n, m, found);
    }

    /** Executor::OnTimer: runs every task that is due, in queue order, whatever the callbacks do to
        the queue; then the timer is set for the next task, or the executor goes when there is none. */
    method OnTimer(now: nat) returns (keep: bool)
      requires Valid() && At(now)
      modifies this
      ensures Valid() && clock == now && keep == (delayTasks != []) && (!keep ==> !executor && !armed)
      ensures forall t :: t in delayTasks ==> Due(t) > now
      ensures delayTasks != [] ==> armedAt == Due(delayTasks[0]) * NS_PER_US
      ensures Since(old(View()), View(), now) && Settled(old(View()), View(), now)
    {
      hide QueueInv, Accounted, Books, TimersMatch, WakesUp, TableOk, Told, PeriodicOk, TraceOk, SessionOk, RanOk, Since,
        Settled, Sorted, Due;
      QueueSorted(Q(), W());
      ghost var a, c := View(), clock;
      Later(P(), ran, delayTasks, clock, now);
      clock := now;
      keep := RunDue(now);
      Settles(a, View(), c, now);
    }

    /** The loop of OnTimer. */
    method RunDue(now: nat) returns (keep: bool)
      requires Valid() && clock == now && 0 < now < CLOCK_LIMIT
      modifies this
      ensures Valid() && clock == now && keep == (delayTasks != []) && Since(old(View()), View(), now)
      ensures !keep ==> !executor && !armed
      ensures forall t :: t in delayTasks ==> Due(t) > now
      ensures delayTasks != [] ==> armedAt == Due(delayTasks[0]) * NS_PER_US
    {
      hide QueueInv, Accounted, Books, TimersMatch, WakesUp, TableOk, Told, PeriodicOk, TraceOk, SessionOk, RanOk,
        Since, DueNow,
        Due;
      SinceItself(View(), now);
      while delayTasks != []
        invariant Valid() && clock == now && Since(old(View()), View(), now)
        decreases DueNow(delayTasks, now)
      {
        var due := Due(delayTasks[0]);
        if due > now {
          AllLater(Q(), W(), now);
          Rearmed(Q(), W(), W().(armed := true, armedAt := due * NS_PER_US));
          Arm(now, (due - now) * NS_PER_US);
          return true;
        }
        ghost var b := View();
        RunFront(now);
        SinceShrinks(b, View(), now);
        SinceOn(old(View()), b, View(), now);
      }
      Rearmed(Q(), W(), W().(executor := false, armed := false));
      executor, armed := false, false;
      keep := false;
    }

    /** Another component of the daemon calls the two queues. */
    method Call(cmds: seq<Cmd>, now: nat)
      requires Valid() && At(now)
      modifies this
      ensures Grew(old(ledger), ledger) && calls == old(calls)
      ensures Valid() && clock == now && ran == old(ran) && trace == old(trace) && sessions == old(sessions)
      ensures Calm(old(Q()), Q(), now) && P() == ScriptP(old(P()), cmds, now)
      ensures DoneFor(old(ledger), ledger, cmds, now) && (!crowded ==> Struck(old(delayTasks), ran, ledger, cmds))
    {
      hide QueueInv, Accounted, Books, TimersMatch, WakesUp, TableOk, Told, PeriodicOk, TraceOk, SessionOk, RanOk,
        Calm, ScriptP, Struck, Ordered, NewLater;
      Later(P(), ran, delayTasks, clock, now);
      clock := now;
      ghost var q := Q();
      BooksScript(P(), cmds, now, 0);
      RunScript(cmds, now);
      CalmParts(q, Q(), now);
      RanKept(ran, q.tasks, delayTasks, q.issued, now, {});
      if !crowded { MatchAfterCalm(sessions, q.tasks, delayTasks); }
    }

    /** What reaches the daemon: a request of a client or worker, a call of another component, the timer. */
    method Step(input: Input, now: nat)
      requires Valid() && At(now)
      modifies this
      ensures Grew(old(ledger), ledger) && old(calls) <= calls
      ensures Valid() && clock == now && old(ran) <= ran && old(trace) <= trace
    {
      hide QueueInv, Accounted, Books, TimersMatch, WakesUp, TableOk, Told, PeriodicOk, TraceOk, SessionOk, RanOk,
        Calm, Evolves, Effects, Begins,
        Ends, StatusAfter, RemovalDelay;
      match input
      case Create(pid, dupOk, endTime, absNow) => var res := HandleCreateEvent(pid, dupOk, endTime, absNow, now);
      case Cancel(pid) => var res := HandleCancelEvent(pid, now);
      case WorkerPid(pid, worker) => var res := HandleUpdateWorkerPid(pid, worker, now);
      case Report(pid, retCode, path) => var res := HandleReport(pid, retCode, path, now);
      case Timeout(pid) => OnTimeout(pid, now);
      case Calls(cmds) => Call(cmds, now);
      case Tick => var keep := OnTimer(now);
    }
  }

  datatype Input =
    | Create(pid: int, dupOk: bool, endTime: nat, absNow: nat)
    | Cancel(pid: int)
    | WorkerPid(pid: int, worker: int)
    | Report(pid: int, retCode: int, path: string)
    | Timeout(pid: int)
    | Calls(cmds: seq<Cmd>)
    | Tick

  ghost predicate InTime(times: seq<nat>) {
    && (forall i :: 0 <= i < |times| ==> 0 < times[i] < CLOCK_LIMIT)
    && (forall i, j :: 0 <= i < j < |times| ==> times[i] <= times[j])
  }

  /** Every run of a fresh daemon, whatever reaches it and when: at most one reply per session; the first
      result of a worker is at once the reply; signals only to a worker seen after a cancel, at once when a
      cancel comes while it is dumping or came before it was seen; every delay task added waits, ran or was
      removed, never two of these, and tasks ran in order and once; a periodic task added is queued exactly
      unless it was removed, answered false or is discarded, and none is discarded, and nothing undefined
      done, exactly while no callback removes the task it is called for; periodic calls are never early, the
      first an interval after the task was added, the others an interval after the one before, and none
      follows a removal; a timer that is never missed; and, unless ids collide, removal timers exactly for
      the live sessions. */
  method Run(inputs: seq<Input>, times: seq<nat>) returns (d: Daemon)
    requires |times| == |inputs| && InTime(times)
    ensures fresh(d) && d.Valid()
    ensures forall j, k :: 0 <= j < k < |d.trace| && d.trace[j].Replied? && d.trace[k].Replied? ==>
      d.trace[j].serial != d.trace[k].serial
    ensures forall k :: 0 <= k < |d.trace| ==> SignalOk(d.trace, k) && AnsweredAt(d.trace, k)
    ensures forall j, k :: 0 <= j < k < |d.trace| && ResultOf(d.trace, j, k) ==>
      Follow(d.trace, k, [Replied(d.trace[k].serial, 0, d.trace[k].path), Removed(d.trace[k].serial, false)])
    ensures forall j, k :: 0 <= j < k < |d.trace| && CancelOf(d.trace, j, k) ==>
      var n := d.trace[k].serial; Follow(d.trace, k, [Signalled(n, d.trace[j].worker), Replied(n, 0, ""), Removed(n, false)])
    ensures forall j, k :: 0 <= j < k < |d.trace| && LateWorker(d.trace, j, k) ==>
      Follow(d.trace, k, [Signalled(d.trace[k].serial, d.trace[k].worker)])
    ensures forall n, pid :: Created(n, pid) in d.trace ==> (Gone(d.trace, n) <==> !Live(d.sessions, pid, n))
    ensures Sorted(d.ran) && forall r, t :: r in d.ran && t in d.delayTasks ==> Before(r, t)
    ensures forall t :: t in d.ledger.added <==> t in d.delayTasks || t in d.ran || t in d.ledger.removed
    ensures forall t :: t in d.ledger.removed ==> t !in d.delayTasks && t !in d.ran
    ensures forall id: nat :: Queued(d.periodicTasks, id) <==>
      1 <= id < d.periodicSequence && id !in d.dropped && id !in d.lost && !Ended(d.calls, id)
    ensures d.lost == map[] && !d.undefined <==> forall k :: 0 <= k < |d.calls| ==> !Quits(d.calls[k])
    ensures forall id :: id in d.dropped ==> DroppedOk(d.P(), id)
    ensures forall id :: id in d.lost ==> LostOk(d.P(), id)
    ensures forall k :: 0 <= k < |d.calls| ==> CallOk(d.P(), k, d.clock)
    ensures forall k :: 0 <= k < |d.calls| ==> d.calls[k].id in d.born && d.calls[k].due <= d.calls[k].at <= d.clock
    ensures forall k :: 0 <= k < |d.calls| && NewIn(d.calls, k) ==>
      d.calls[k].due == d.born[d.calls[k].id].at + d.born[d.calls[k].id].interval * 1_000_000
    ensures forall j, k :: 0 <= j < k < |d.calls| && NextAfter(d.calls, j, k) ==>
      d.calls[k].due == d.calls[j].at + d.born[d.calls[k].id].interval * 1_000_000
    ensures d.delayTasks != [] ==> d.executor && d.armed && d.armedAt <= Due(d.delayTasks[0]) * NS_PER_US
    ensures !d.crowded ==> TimersMatch(d.sessions, d.delayTasks) && WakesUp(d.delayTasks, d.periodicTasks)
  {
    hide TableOk, Told, TimersMatch, WakesUp, Queued, Ended, DroppedOk, LostOk, CallOk, SignalOk, AnsweredAt, Books,
      NewIn, NextAfter, ResultOf, CancelOf, LateWorker, Follow;
    d := Runs(inputs, times);
    RunStory(d.trace, d.sessions, d.nextSerial);
    NoneDiscarded(d.P(), d.clock);
    BooksSay(d.P(), d.clock);
    CallsOnTime(d.P(), d.clock);
  }

  method Runs(inputs: seq<Input>, times: seq<nat>) returns (d: Daemon)
    requires |times| == |inputs| && InTime(times)
    ensures fresh(d) && d.Valid()
  {
    hide QueueInv, Accounted, Books, PeriodicOk, TableOk, Told, TimersMatch, WakesUp, RanOk;
    d := new Daemon();
    for i := 0 to |inputs|
      invariant fresh(d) && d.Valid() && (i > 0 ==> d.clock == times[i - 1]) && (i == 0 ==> d.clock == 0)
    {
      d.Step(inputs[i], times[i]);
    }
  }
}
