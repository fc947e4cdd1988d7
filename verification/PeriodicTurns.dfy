/** One execution of the periodic queue: who is called, who waits, who was removed and who is lost. */
module PeriodicTurns {
  import opened TimerModel
  import opened PeriodicModel

  /** The calls `got` were made to the due tasks of `s0` at the places `pos`, in queue order. */
  ghost predicate InTurn(s0: seq<PeriodicTask>, pos: seq<nat>, got: seq<Call>, now: nat) {
    && |pos| == |got| && Increasing(pos)
    && (forall k :: 0 <= k < |pos| ==> pos[k] < |s0| && s0[pos[k]].due <= now && got[k] == CallOf(s0[pos[k]], now))
  }

  /** A callback called before the turn of `s0[i]` removes it. */
  ghost predicate DroppedBefore(s0: seq<PeriodicTask>, i: nat, pos: seq<nat>, got: seq<Call>)
    requires i < |s0| && |pos| == |got|
  {
    exists k :: 0 <= k < |pos| && pos[k] < i && DropPeriodic(s0[i].id) in got[k].beat.cmds
  }

  /** A callback called from call `from` on removes `id`. */
  ghost predicate DroppedSince(id: nat, from: nat, got: seq<Call>) {
    exists j :: from <= j < |got| && DropPeriodic(id) in got[j].beat.cmds
  }

  /** A task that was called is queued an interval on exactly when it answered true, neither its own
      callback nor a later one removed it, and it was not discarded. */
  ghost predicate Requeued(p: PeriodicTask, k: nat, got: seq<Call>, gone: set<nat>, s: seq<PeriodicTask>, now: nat)
    requires k < |got|
  {
    && (Again(p, now) in s <==> got[k].beat.again && !DroppedSince(p.id, k, got) && p.id !in gone)
    && (forall x :: x in s && x.id == p.id ==> x == Again(p, now))
  }

  /** A task that was not called stays exactly unless a callback removed it or it was discarded. */
  ghost predicate Stays(p: PeriodicTask, got: seq<Call>, gone: set<nat>, s: seq<PeriodicTask>) {
    p in s <==> !DroppedSince(p.id, 0, got) && p.id !in gone
  }

  /** What one execution did to the queue `s0`: due tasks are called once and in order, none that was
      removed before its turn, and each of them unless it was removed or discarded; the others stay. */
  ghost predicate Served(s0: seq<PeriodicTask>, n0: nat, s: seq<PeriodicTask>, pos: seq<nat>, got: seq<Call>, gone: set<nat>,
                         now: nat)
  {
    && InTurn(s0, pos, got, now)
    && (forall i :: 0 <= i < |s0| && s0[i].due <= now ==> i in pos || DroppedBefore(s0, i, pos, got) || s0[i].id in gone)
    && (forall k :: 0 <= k < |got| ==> !DroppedBefore(s0, pos[k], pos, got) && Requeued(s0[pos[k]], k, got, gone, s, now))
    && (forall i :: 0 <= i < |s0| && s0[i].due > now ==> Stays(s0[i], got, gone, s))
    && (forall x :: x in s ==> x.due > now && (x.id >= n0 || Queued(s0, x.id)))
    && (gone != {} ==> exists k :: 0 <= k < |got| && Discards(got[k]))
  }

  /** The due tasks of `s` are those of `s0` at the places `rem`. */
  ghost predicate Waiting(s0: seq<PeriodicTask>, s: seq<PeriodicTask>, rem: seq<nat>, now: nat) {
    && |rem| <= |s|
    && (forall a :: 0 <= a < |rem| ==> rem[a] < |s0| && s[a] == s0[rem[a]] && s[a].due <= now)
    && (forall a :: |rem| <= a < |s| ==> s[a].due > now)
  }

  /** The places `rem` come behind the places `pos`, both in order. */
  ghost predicate InOrderOf(pos: seq<nat>, rem: seq<nat>) {
    && Increasing(pos) && Increasing(rem)
    && (forall k, a :: 0 <= k < |pos| && 0 <= a < |rem| ==> pos[k] < rem[a])
  }

  /** Part way through: as Served, with the tasks at `rem` still waiting for their turn. */
  ghost predicate Underway(s0: seq<PeriodicTask>, n0: nat, s: seq<PeriodicTask>, pos: seq<nat>, rem: seq<nat>, got: seq<Call>,
                           gone: set<nat>, now: nat)
  {
    && InTurn(s0, pos, got, now) && Waiting(s0, s, rem, now) && InOrderOf(pos, rem)
    && (forall i :: 0 <= i < |s0| && s0[i].due <= now ==>
          i in pos || i in rem || DroppedBefore(s0, i, pos, got) || s0[i].id in gone)
    && (forall k :: 0 <= k < |got| ==> !DroppedBefore(s0, pos[k], pos, got) && Requeued(s0[pos[k]], k, got, gone, s, now))
    && (forall i :: 0 <= i < |s0| && i !in pos ==> Stays(s0[i], got, gone, s))
    && (forall x :: x in s ==> x.id >= n0 || Queued(s0, x.id))
    && (gone != {} ==> exists k :: 0 <= k < |got| && Discards(got[k]))
  }

  // ---- One turn ----

  lemma TurnsBegin(s0: seq<PeriodicTask>, n0: nat, m: nat, now: nat)
    requires m <= |s0| && (forall i :: 0 <= i < m ==> s0[i].due <= now) && forall i :: m <= i < |s0| ==> s0[i].due > now
    ensures Underway(s0, n0, s0, [], UpTo(m), [], {}, now)
  {
    hide Stays, Queued, Requeued, DroppedBefore;
    var rem := UpTo(m);
    forall i | 0 <= i < |s0| && s0[i].due <= now ensures i in rem { assert rem[i] == i; }
    forall x | x in s0 ensures Queued(s0, x.id) { InQueue(s0, x); }
    forall i | 0 <= i < |s0| ensures Stays(s0[i], [], {}, s0) { StaysAtFirst(s0, i); }
  }

  lemma InQueue(s: seq<PeriodicTask>, x: PeriodicTask)
    requires x in s
    ensures Queued(s, x.id)
  {
  }

  lemma StaysAtFirst(s: seq<PeriodicTask>, i: nat)
    requires i < |s|
    ensures Stays(s[i], [], {}, s)
  {
  }

  /** The places still waiting after a callback that kept the places `kept` of the queue. */
  ghost function Left(rem: seq<nat>, kept: seq<nat>): (r: seq<nat>)
    requires forall a :: 0 <= a < |kept| ==> kept[a] < |rem|
    ensures |r| == |kept| && forall a :: 0 <= a < |kept| ==> r[a] == rem[kept[a]]
  {
    seq(|kept|, a requires 0 <= a < |kept| => rem[kept[a]])
  }

  lemma KeptWait(s0: seq<PeriodicTask>, s: seq<PeriodicTask>, mid: seq<PeriodicTask>, rem: seq<nat>, kept: seq<nat>,
                 cmds: seq<Cmd>, n: nat, now: nat)
    requires Waiting(s0, s, rem, now) && Increasing(rem) && Thins(s, mid, n, kept, cmds, now)
    ensures forall a :: 0 <= a < |kept| ==> kept[a] < |rem|
    ensures Waiting(s0, mid, Left(rem, kept), now) && Increasing(Left(rem, kept))
  {
  }

  /** What the end of a turn does to the queue: the called task goes to its next time or out, and the
      tasks of `lost` are discarded. */
  ghost predicate Turned(mid: seq<PeriodicTask>, s': seq<PeriodicTask>, f: PeriodicTask, stays: bool, lost: set<nat>, now: nat) {
    forall x :: x in s' <==> (x in mid && x.id != f.id && x.id !in lost) || (stays && x == Again(f, now))
  }

  /** A callback that leaves its task alone: the task goes to its next time or out. */
  lemma EndsWell(s0: seq<PeriodicTask>, m: Periodics, f: PeriodicTask, l: seq<nat>, call: nat, now: nat)
    requires PeriodicOk(m.tasks, m.nextId, now) && Waiting(s0, m.tasks, l, now) && f.due <= now && m.tasks != []
    requires m.tasks[0] == f
    ensures var p := AfterCall(m, f, call, now);
      && l != [] && Waiting(s0, p.tasks, l[1..], now) && p.lost == m.lost && p.undefined == m.undefined
      && Turned(m.tasks, p.tasks, f, FirstBeat(f).again, {}, now)
  {
    hide SplicedP, Again, PeriodicOk;
    MoveKeeps(m.tasks, m.nextId, FirstBeat(f).again, now);
    InOrder(m, now);
    WaitsOn(s0, m.tasks, l, FirstBeat(f).again, now);
  }

  /** A callback that has removed its task: whatever is the front by then is discarded, or nothing is known. */
  lemma EndsBadly(s0: seq<PeriodicTask>, m: Periodics, f: PeriodicTask, l: seq<nat>, call: nat, now: nat)
    returns (lost: set<nat>)
    requires PeriodicOk(m.tasks, m.nextId, now) && Waiting(s0, m.tasks, l, now) && forall x :: x in m.tasks ==> x.id != f.id
    ensures var p := AfterCall(m, f, call, now);
      && Waiting(s0, p.tasks, if lost == {} || l == [] then l else l[1..], now) && Turned(m.tasks, p.tasks, f, false, lost, now)
      && (lost == {} ==> p.undefined && p.lost == m.lost)
      && (lost != {} ==> !FirstBeat(f).again && m.tasks != [] && lost == {m.tasks[0].id} && p.lost == m.lost[m.tasks[0].id := call])
  {
    hide SplicedP, Again, PeriodicOk;
    lost := {};
    if m.tasks != [] && !FirstBeat(f).again {
      assert m.tasks[0] in m.tasks;
      MoveKeeps(m.tasks, m.nextId, false, now);
      WaitsOn(s0, m.tasks, l, false, now);
      lost := {m.tasks[0].id};
    }
  }

  lemma WaitsOn(s0: seq<PeriodicTask>, mid: seq<PeriodicTask>, rem: seq<nat>, again: bool, now: nat)
    requires Waiting(s0, mid, rem, now) && mid != [] && (again ==> mid[0].interval > 0 && mid[0].due <= now)
    ensures var s' := if again then SplicedP(mid, now) else mid[1..];
      Waiting(s0, s', if rem == [] then [] else rem[1..], now)
  {
    WaitsPopped(s0, mid, rem, now);
    if again {
      var t, a := mid[1..], Again(mid[0], now);
      WaitsInserted(s0, t, if rem == [] then [] else rem[1..], LaterP(t, a.due), a, now);
    }
  }

  lemma WaitsPopped(s0: seq<PeriodicTask>, mid: seq<PeriodicTask>, rem: seq<nat>, now: nat)
    requires Waiting(s0, mid, rem, now) && mid != []
    ensures Waiting(s0, mid[1..], if rem == [] then [] else rem[1..], now)
  {
  }

  lemma WaitsInserted(s0: seq<PeriodicTask>, s: seq<PeriodicTask>, rem: seq<nat>, k: nat, t: PeriodicTask, now: nat)
    requires Waiting(s0, s, rem, now) && k <= |s| && t.due > now && (k < |s| ==> s[k].due > now)
    ensures Waiting(s0, InsertP(s, k, t), rem, now)
  {
    hide InsertP;
    assert |rem| <= k;
    InsertedP(s, k, t, 0);
    forall a | 0 <= a < |s| + 1
      ensures a < |rem| ==> InsertP(s, k, t)[a] == s[a]
      ensures a >= |rem| ==> InsertP(s, k, t)[a].due > now
    {
      InsertedP(s, k, t, a);
    }
  }

  lemma OrderOn(pos: seq<nat>, rem: seq<nat>, rem': seq<nat>)
    requires InOrderOf(pos, rem) && rem != [] && Increasing(rem')
    requires forall a :: 0 <= a < |rem'| ==> rem'[a] in rem && rem'[a] != rem[0]
    ensures InOrderOf(pos + [rem[0]], rem')
  {
  }

  lemma DroppedOn(id: nat, from: nat, got: seq<Call>, c: Call)
    requires from <= |got|
    ensures DroppedSince(id, from, got + [c]) <==> DroppedSince(id, from, got) || DropPeriodic(id) in c.beat.cmds
  {
    var got' := got + [c];
    assert got'[|got|] == c;
    if DroppedSince(id, from, got) {
      var j :| from <= j < |got| && DropPeriodic(id) in got[j].beat.cmds;
      assert got'[j] == got[j];
    }
  }

  /** Where the turn of `f` leaves another task. */
  lemma OtherOn(x: PeriodicTask, s: seq<PeriodicTask>, mid: seq<PeriodicTask>, s': seq<PeriodicTask>, n: nat, f: PeriodicTask,
                stays: bool, lost: set<nat>, cmds: seq<Cmd>, now: nat)
    requires Thinned(s, mid, n, cmds, now) && Turned(mid, s', f, stays, lost, now) && x.id < n && x.id != f.id
    ensures x in s' <==> x in s && DropPeriodic(x.id) !in cmds && x.id !in lost
  {
  }

  lemma StaysOn(x: PeriodicTask, s: seq<PeriodicTask>, mid: seq<PeriodicTask>, s': seq<PeriodicTask>, n: nat, f: PeriodicTask,
                stays: bool, gone: set<nat>, lost: set<nat>, got: seq<Call>, now: nat)
    requires Thinned(s, mid, n, FirstBeat(f).cmds, now) && Turned(mid, s', f, stays, lost, now) && x.id < n && x.id != f.id
    requires Stays(x, got, gone, s)
    ensures Stays(x, got + [CallOf(f, now)], gone + lost, s')
  {
    hide Thinned, Turned, DroppedSince;
    OtherOn(x, s, mid, s', n, f, stays, lost, FirstBeat(f).cmds, now);
    DroppedOn(x.id, 0, got, CallOf(f, now));
  }

  lemma RequeuedOn(p: PeriodicTask, k: nat, s: seq<PeriodicTask>, mid: seq<PeriodicTask>, s': seq<PeriodicTask>, n: nat,
                   f: PeriodicTask, stays: bool, gone: set<nat>, lost: set<nat>, got: seq<Call>, now: nat)
    requires Thinned(s, mid, n, FirstBeat(f).cmds, now) && Turned(mid, s', f, stays, lost, now) && p.id < n && p.id != f.id
    requires k < |got| && Requeued(p, k, got, gone, s, now)
    ensures Requeued(p, k, got + [CallOf(f, now)], gone + lost, s', now)
  {
    hide Thinned, Turned, DroppedSince, Again;
    assert Again(p, now).id == p.id by { AgainId(p, now); }
    OtherOn(Again(p, now), s, mid, s', n, f, stays, lost, FirstBeat(f).cmds, now);
    DroppedOn(p.id, k, got, CallOf(f, now));
    assert (got + [CallOf(f, now)])[k] == got[k];
    forall x | x in s' && x.id == p.id
      ensures x == Again(p, now)
    {
      OtherOn(x, s, mid, s', n, f, stays, lost, FirstBeat(f).cmds, now);
    }
  }

  lemma AgainId(p: PeriodicTask, now: nat)
    ensures Again(p, now).id == p.id
  {
  }

  /** The task just called. */
  lemma LatestRequeued(mid: seq<PeriodicTask>, s': seq<PeriodicTask>, f: PeriodicTask, gone: set<nat>, lost: set<nat>,
                       got: seq<Call>, now: nat)
    requires Turned(mid, s', f, FirstBeat(f).again && !Quits(CallOf(f, now)), lost, now) && f.id !in gone && f.id !in lost
    ensures Requeued(f, |got|, got + [CallOf(f, now)], gone + lost, s', now)
  {
    var got' := got + [CallOf(f, now)];
    assert got'[|got|] == CallOf(f, now);
    assert DroppedSince(f.id, |got|, got') <==> Quits(CallOf(f, now));
  }

  /** Everyone due is called, waits, was removed before its turn or is discarded. */
  lemma NobodyLost(s0: seq<PeriodicTask>, s: seq<PeriodicTask>, mid: seq<PeriodicTask>, pos: seq<nat>, rem: seq<nat>,
                   kept: seq<nat>, rem': seq<nat>, got: seq<Call>, c: Call, n: nat, gone: set<nat>, lost: set<nat>, now: nat, i: nat)
    requires Waiting(s0, s, rem, now) && InOrderOf(pos, rem) && rem != [] && |pos| == |got| && NumberedP(s, n)
    requires Thins(s, mid, n, kept, c.beat.cmds, now) && forall a :: 0 <= a < |kept| ==> kept[a] < |rem|
    requires var l := Left(rem, kept);
      rem' == l || (l != [] && rem' == l[1..] && (l[0] == rem[0] || (l[0] < |s0| && s0[l[0]].id in lost)))
    requires i < |s0| && (i in pos || i in rem || DroppedBefore(s0, i, pos, got) || s0[i].id in gone)
    ensures i in pos + [rem[0]] || i in rem' || DroppedBefore(s0, i, pos + [rem[0]], got + [c]) || s0[i].id in gone + lost
  {
    var l, pos', got' := Left(rem, kept), pos + [rem[0]], got + [c];
    if i in rem && i != rem[0] {
      var a :| 0 <= a < |rem| && rem[a] == i;
      assert s[a] == s0[i];
      if s[a] in mid {
        var b :| 0 <= b < |mid| && mid[b] == s[a];
        assert b < |kept| && s[kept[b]] == s[a];
        assert kept[b] == a && l[b] == i;
        assert b > 0 ==> l[1..][b - 1] == i;
      } else {
        assert pos'[|pos|] == rem[0] && got'[|pos|] == c;
        assert DropPeriodic(s0[i].id) in got'[|pos|].beat.cmds;
      }
    } else if i !in pos && i !in rem && DroppedBefore(s0, i, pos, got) {
      var k :| 0 <= k < |pos| && pos[k] < i && DropPeriodic(s0[i].id) in got[k].beat.cmds;
      assert pos'[k] == pos[k] && got'[k] == got[k];
    }
  }

  /** The task called is the first of those waiting; it stays among them exactly when it is still queued. */
  lemma FirstWaits(s0: seq<PeriodicTask>, s: seq<PeriodicTask>, mid: seq<PeriodicTask>, rem: seq<nat>, kept: seq<nat>, n: nat,
                   cmds: seq<Cmd>, now: nat)
    requires Waiting(s0, s, rem, now) && Increasing(rem) && NumberedP(s, n) && s != [] && s[0].due <= now
    requires Thins(s, mid, n, kept, cmds, now)
    requires (mid != [] && mid[0] == s[0]) || forall x :: x in mid ==> x.id != s[0].id
    ensures rem != [] && rem[0] < |s0| && s0[rem[0]] == s[0] && forall a :: 0 <= a < |kept| ==> kept[a] < |rem|
    ensures var l := Left(rem, kept);
      && (forall a :: 0 <= a < |l| ==> l[a] in rem && l[a] < |s0|)
      && (mid != [] && mid[0] == s[0] ==> l != [] && l[0] == rem[0] && forall a :: 0 < a < |l| ==> l[a] != rem[0])
      && ((forall x :: x in mid ==> x.id != s[0].id) ==> forall a :: 0 <= a < |l| ==> l[a] != rem[0])
  {
    KeptWait(s0, s, mid, rem, kept, cmds, n, now);
    var l := Left(rem, kept);
    if mid != [] && mid[0] == s[0] {
      assert mid[0] == s[kept[0]];
      assert kept[0] == 0;
    }
    forall a | 0 <= a < |l|
      ensures kept[a] == 0 ==> mid[a] == s[0]
      ensures l[a] == rem[kept[a]] && (kept[a] != 0 ==> l[a] != rem[0])
    {
    }
  }

  /** How a turn ends, with the places that still wait. */
  lemma TurnEnds(s0: seq<PeriodicTask>, m: Periodics, f: PeriodicTask, l: seq<nat>, call: nat, now: nat)
    returns (rem': seq<nat>, lost: set<nat>)
    requires PeriodicOk(m.tasks, m.nextId, now) && Waiting(s0, m.tasks, l, now) && f.due <= now
    requires !Quits(CallOf(f, now)) ==> m.tasks != [] && m.tasks[0] == f
    requires Quits(CallOf(f, now)) ==> forall x :: x in m.tasks ==> x.id != f.id
    ensures var p := AfterCall(m, f, call, now);
      && Waiting(s0, p.tasks, rem', now)
      && Turned(m.tasks, p.tasks, f, FirstBeat(f).again && !Quits(CallOf(f, now)), lost, now)
      && (lost == {} ==> p.lost == m.lost)
      && (lost != {} ==> exists v :: lost == {v} && p.lost == m.lost[v := call])
    ensures rem' == l || (l != [] && rem' == l[1..] && (m.tasks[0] == f || (l[0] < |s0| && s0[l[0]].id in lost)))
    ensures (lost != {} ==> Discards(CallOf(f, now))) && f.id !in lost
    ensures !Quits(CallOf(f, now)) ==> l != [] && rem' == l[1..]
  {
    hide PeriodicOk, Turned, AfterCall;
    if Quits(CallOf(f, now)) {
      lost := EndsBadly(s0, m, f, l, call, now);
      rem' := if lost == {} || l == [] then l else l[1..];
    } else {
      EndsWell(s0, m, f, l, call, now);
      rem', lost := l[1..], {};
    }
  }

  /** The turn of the first place waiting: who waits then, and who is lost. */
  lemma TurnPlaces(s0: seq<PeriodicTask>, p: Periodics, pos: seq<nat>, rem: seq<nat>, now: nat)
    returns (kept: seq<nat>, rem': seq<nat>, lost: set<nat>)
    requires Waiting(s0, p.tasks, rem, now) && InOrderOf(pos, rem) && PeriodicOk(p.tasks, p.nextId, now) && FrontDue(p, now)
    ensures rem != [] && rem[0] < |s0| && s0[rem[0]] == p.tasks[0] && forall a :: 0 <= a < |kept| ==> kept[a] < |rem|
    ensures var m, p', f := CalledP(p, now), TurnP(p, now), p.tasks[0];
      && Thins(p.tasks, m.tasks, p.nextId, kept, FirstBeat(f).cmds, now)
      && Waiting(s0, p'.tasks, rem', now) && InOrderOf(pos + [rem[0]], rem')
      && Turned(m.tasks, p'.tasks, f, FirstBeat(f).again && !Quits(CallOf(f, now)), lost, now)
      && (lost == {} ==> p'.lost == p.lost)
      && (lost != {} ==> Discards(CallOf(f, now)) && exists v :: lost == {v} && p'.lost == p.lost[v := |p.calls|])
      && f.id !in lost
    ensures var l := Left(rem, kept);
      rem' == l || (l != [] && rem' == l[1..] && (l[0] == rem[0] || (l[0] < |s0| && s0[l[0]].id in lost)))
  {
    hide PeriodicOk, Thins, Turned, CalledP, AfterCall, Waiting, InOrderOf, Quits;
    var f, m := p.tasks[0], CalledP(p, now);
    CallKeeps(p, now);
    InOrder(p, now);
    kept :| Thins(p.tasks, m.tasks, p.nextId, kept, FirstBeat(f).cmds, now);
    OrderParts(pos, rem);
    FirstWaits(s0, p.tasks, m.tasks, rem, kept, p.nextId, FirstBeat(f).cmds, now);
    KeptWait(s0, p.tasks, m.tasks, rem, kept, FirstBeat(f).cmds, p.nextId, now);
    var l := Left(rem, kept);
    rem', lost := TurnEnds(s0, m, f, l, |p.calls|, now);
    OrderOn(pos, rem, rem');
  }

  /** One turn keeps the account: the callback of the front task runs, whatever it adds or removes, and
      the task goes to its next time or out. */
  lemma TakeTurn(s0: seq<PeriodicTask>, n0: nat, p: Periodics, pos: seq<nat>, rem: seq<nat>, got: seq<Call>, gone: set<nat>,
                 now: nat)
    returns (rem': seq<nat>, lost: set<nat>)
    requires Underway(s0, n0, p.tasks, pos, rem, got, gone, now) && PeriodicOk(p.tasks, p.nextId, now) && FrontDue(p, now)
    requires NumberedP(s0, n0) && n0 <= p.nextId
    ensures rem != []
    ensures var p' := TurnP(p, now);
      && Underway(s0, n0, p'.tasks, pos + [rem[0]], rem', got + [CallOf(p.tasks[0], now)], gone + lost, now)
      && (lost == {} ==> p'.lost == p.lost)
      && (lost != {} ==> exists v :: lost == {v} && p'.lost == p.lost[v := |p.calls|])
  {
    hide PeriodicOk, Thins, Turned, CalledP, TurnP, Waiting, Requeued, DroppedBefore, Stays, InOrderOf, InTurn,
      Quits, Queued,
      NumberedP, CallOf;
    var s, f, m, p' := p.tasks, p.tasks[0], CalledP(p, now), TurnP(p, now);
    var c := CallOf(f, now);
    var kept;
    kept, rem', lost := TurnPlaces(s0, p, pos, rem, now);
    var pos', got' := pos + [rem[0]], got + [c];
    InOrder(p, now);
    OrderParts(pos, rem);
    NextInTurn(s0, pos, rem[0], got, now);
    forall i | 0 <= i < |s0| && s0[i].due <= now
      ensures i in pos' || i in rem' || DroppedBefore(s0, i, pos', got') || s0[i].id in gone + lost
    {
      CmdsOf(f, now);
      NobodyLost(s0, s, m.tasks, pos, rem, kept, rem', got, c, p.nextId, gone, lost, now, i);
    }
    TurnOthers(s0, n0, s, p.nextId, m.tasks, p'.tasks, pos, rem[0], got, gone, lost, now);
    DiscardsOn(got, c, gone, lost);
  }

  lemma CmdsOf(f: PeriodicTask, now: nat)
    ensures CallOf(f, now).beat.cmds == FirstBeat(f).cmds
  {
  }

  lemma NextInTurn(s0: seq<PeriodicTask>, pos: seq<nat>, here: nat, got: seq<Call>, now: nat)
    requires InTurn(s0, pos, got, now) && here < |s0| && s0[here].due <= now && forall k :: 0 <= k < |pos| ==> pos[k] < here
    ensures |pos| == |got| && InTurn(s0, pos + [here], got + [CallOf(s0[here], now)], now)
  {
  }

  lemma DiscardsOn(got: seq<Call>, c: Call, gone: set<nat>, lost: set<nat>)
    requires (gone != {} ==> exists k :: 0 <= k < |got| && Discards(got[k])) && (lost != {} ==> Discards(c))
    ensures gone + lost != {} ==> exists k :: 0 <= k < |got + [c]| && Discards((got + [c])[k])
  {
    var got' := got + [c];
    assert got'[|got|] == c;
    if gone != {} {
      var k :| 0 <= k < |got| && Discards(got[k]);
      assert got'[k] == got[k];
    }
  }

  lemma OrderParts(pos: seq<nat>, rem: seq<nat>)
    requires InOrderOf(pos, rem)
    ensures Increasing(pos) && Increasing(rem) && (rem != [] ==> forall k :: 0 <= k < |pos| ==> pos[k] < rem[0])
  {
  }

  /** The other tasks of the queue, and the tasks called so far. */
  lemma TurnOthers(s0: seq<PeriodicTask>, n0: nat, s: seq<PeriodicTask>, n: nat, mid: seq<PeriodicTask>, s': seq<PeriodicTask>,
                   pos: seq<nat>, here: nat, got: seq<Call>, gone: set<nat>, lost: set<nat>, now: nat)
    requires NumberedP(s0, n0) && n0 <= n && s != [] && InTurn(s0, pos, got, now)
    requires here < |s0| && s0[here] == s[0] && s[0].due <= now && s[0].id !in lost
    requires forall k :: 0 <= k < |pos| ==> pos[k] < here
    requires forall k :: 0 <= k < |got| ==> !DroppedBefore(s0, pos[k], pos, got) && Requeued(s0[pos[k]], k, got, gone, s, now)
    requires forall i :: 0 <= i < |s0| && i !in pos ==> Stays(s0[i], got, gone, s)
    requires forall x :: x in s ==> x.id >= n0 || Queued(s0, x.id)
    requires Thinned(s, mid, n, FirstBeat(s[0]).cmds, now)
    requires Turned(mid, s', s[0], FirstBeat(s[0]).again && !Quits(CallOf(s[0], now)), lost, now)
    ensures var pos', got', gone' := pos + [here], got + [CallOf(s[0], now)], gone + lost;
      && (forall k :: 0 <= k < |got'| ==> !DroppedBefore(s0, pos'[k], pos', got') && Requeued(s0[pos'[k]], k, got', gone', s', now))
      && (forall i :: 0 <= i < |s0| && i !in pos' ==> Stays(s0[i], got', gone', s'))
      && (forall x :: x in s' ==> x.id >= n0 || Queued(s0, x.id))
  {
    hide Thinned, Turned, Requeued, DroppedBefore, Stays, Quits, Queued;
    var f, pos', got', gone' := s[0], pos + [here], got + [CallOf(s[0], now)], gone + lost;
    var stays := FirstBeat(f).again && !Quits(CallOf(f, now));
    NotYet(s0, here, pos, got, gone, s);
    forall i | 0 <= i < |s0| && i !in pos'
      ensures Stays(s0[i], got', gone', s')
    {
      assert pos'[|pos|] == here;
      StaysOn(s0[i], s, mid, s', n, f, stays, gone, lost, got, now);
    }
    forall k | 0 <= k < |got'|
      ensures !DroppedBefore(s0, pos'[k], pos', got') && Requeued(s0[pos'[k]], k, got', gone', s', now)
    {
      NotBefore(s0, here, pos, got, CallOf(f, now), k);
      if k < |got| {
        assert pos'[k] == pos[k];
        RequeuedOn(s0[pos[k]], k, s, mid, s', n, f, stays, gone, lost, got, now);
      } else {
        LatestRequeued(mid, s', f, gone, lost, got, now);
      }
    }
    MembersOn(s0, n0, s, n, mid, s', f, stays, lost, FirstBeat(f).cmds, now);
  }

  /** The task whose turn it is has not been removed or discarded so far. */
  lemma NotYet(s0: seq<PeriodicTask>, here: nat, pos: seq<nat>, got: seq<Call>, gone: set<nat>, s: seq<PeriodicTask>)
    requires here < |s0| && s != [] && s0[here] == s[0] && |pos| == |got| && here !in pos && Stays(s0[here], got, gone, s)
    ensures s[0].id !in gone && !DroppedSince(s[0].id, 0, got)
  {
    assert s[0] in s;
  }

  lemma NotBefore(s0: seq<PeriodicTask>, here: nat, pos: seq<nat>, got: seq<Call>, c: Call, k: nat)
    requires here < |s0| && |pos| == |got| && k <= |pos| && !DroppedSince(s0[here].id, 0, got)
    requires (forall j :: 0 <= j < |pos| ==> pos[j] < here) && (k < |pos| ==> !DroppedBefore(s0, pos[k], pos, got))
    ensures !DroppedBefore(s0, (pos + [here])[k], pos + [here], got + [c])
  {
    var pos', got' := pos + [here], got + [c];
    forall j | 0 <= j < |pos'| && pos'[j] < pos'[k]
      ensures DropPeriodic(s0[pos'[k]].id) !in got'[j].beat.cmds
    {
      assert j < |pos|;
      assert pos'[j] == pos[j] && got'[j] == got[j];
    }
  }

  lemma MembersOn(s0: seq<PeriodicTask>, n0: nat, s: seq<PeriodicTask>, n: nat, mid: seq<PeriodicTask>, s': seq<PeriodicTask>,
                  f: PeriodicTask, stays: bool, lost: set<nat>, cmds: seq<Cmd>, now: nat)
    requires n0 <= n && f in s && forall x :: x in s ==> x.id >= n0 || Queued(s0, x.id)
    requires Thinned(s, mid, n, cmds, now) && Turned(mid, s', f, stays, lost, now)
    ensures forall x :: x in s' ==> x.id >= n0 || Queued(s0, x.id)
  {
  }

  // ---- The whole execution ----

  /** Tasks discarded since call `made`. */
  ghost function GoneSince(lost: map<nat, nat>, made: nat): set<nat> { set id | id in lost && lost[id] >= made }

  lemma GoneOn(lost: map<nat, nat>, v: nat, call: nat, made: nat)
    requires made <= call
    ensures GoneSince(lost[v := call], made) == GoneSince(lost, made) + {v}
  {
  }

  lemma Finished(s0: seq<PeriodicTask>, n0: nat, p: Periodics, pos: seq<nat>, rem: seq<nat>, got: seq<Call>, gone: set<nat>, now: nat)
    requires Underway(s0, n0, p.tasks, pos, rem, got, gone, now) && !FrontDue(p, now)
    ensures Served(s0, n0, p.tasks, pos, got, gone, now)
  {
    hide Requeued, DroppedBefore, Stays;
    assert rem == [];
    forall i | 0 <= i < |s0| && s0[i].due > now
      ensures i !in pos
    {
    }
  }

  /** From the middle of an execution to its end. */
  lemma {:induction false} ServesOn(s0: seq<PeriodicTask>, n0: nat, p: Periodics, pos: seq<nat>, rem: seq<nat>, made: nat, now: nat)
    returns (pos': seq<nat>)
    requires PeriodicOk(p.tasks, p.nextId, now) && made <= |p.calls| && NumberedP(s0, n0) && n0 <= p.nextId
    requires Underway(s0, n0, p.tasks, pos, rem, p.calls[made..], GoneSince(p.lost, made), now)
    ensures var e := ExecP(p, now);
      p.calls <= e.calls && Served(s0, n0, e.tasks, pos', e.calls[made..], GoneSince(e.lost, made), now)
    decreases DueIds(p.tasks, now)
  {
    hide PeriodicOk, Underway, Served, TurnP, NumberedP, GoneSince;
    if FrontDue(p, now) {
      TurnKeeps(p, now);
      var p' := TurnP(p, now);
      var rem', lost := TakeTurn(s0, n0, p, pos, rem, p.calls[made..], GoneSince(p.lost, made), now);
      if lost == {} {
        assert GoneSince(p.lost, made) + lost == GoneSince(p.lost, made);
      } else {
        var v :| lost == {v} && p'.lost == p.lost[v := |p.calls|];
        GoneOn(p.lost, v, |p.calls|, made);
      }
      assert p'.calls[made..] == p.calls[made..] + [CallOf(p.tasks[0], now)];
      pos' := ServesOn(s0, n0, p', pos + [rem[0]], rem', made, now);
    } else {
      Finished(s0, n0, p, pos, rem, p.calls[made..], GoneSince(p.lost, made), now);
      pos' := pos;
    }
  }

  /** Execute serves the queue. */
  lemma Serves(p: Periodics, now: nat) returns (pos: seq<nat>)
    requires PeriodicOk(p.tasks, p.nextId, now) && forall id :: id in p.lost ==> p.lost[id] < |p.calls|
    ensures var e := ExecP(p, now);
      && p.calls <= e.calls
      && Served(p.tasks, p.nextId, e.tasks, pos, e.calls[|p.calls|..], GoneSince(e.lost, |p.calls|), now)
  {
    hide PeriodicOk, Underway, Served, ExecP, LaterP;
    InOrder(p, now);
    LaterAll(p.tasks, now);
    var m, made := LaterP(p.tasks, now), |p.calls|;
    TurnsBegin(p.tasks, p.nextId, m, now);
    assert p.calls[made..] == [] && GoneSince(p.lost, made) == {};
    pos := ServesOn(p.tasks, p.nextId, p, [], UpTo(m), made, now);
  }

  /** When no callback removes a periodic task, the calls are exactly the due tasks, in queue order, and
      nothing else changes. */
  lemma AllCalled(s0: seq<PeriodicTask>, n0: nat, s: seq<PeriodicTask>, pos: seq<nat>, got: seq<Call>, gone: set<nat>, now: nat)
    requires SortedP(s0) && Served(s0, n0, s, pos, got, gone, now)
    requires forall k, id :: 0 <= k < |got| ==> DropPeriodic(id) !in got[k].beat.cmds
    ensures |got| == LaterP(s0, now)
    ensures forall k :: 0 <= k < |got| ==> got[k] == CallOf(s0[k], now) && (got[k].beat.again <==> Again(s0[k], now) in s)
    ensures forall i :: |got| <= i < |s0| ==> s0[i] in s
  {
    hide LaterP, Again;
    var m := LaterP(s0, now);
    LaterAll(s0, now);
    assert gone == {};
    forall i | 0 <= i < m ensures i in pos { assert s0[i].due <= now; }
    IncreasingFits(pos, m);
    EachInPlace(pos, m);
    forall k | 0 <= k < |got|
      ensures got[k] == CallOf(s0[k], now) && (got[k].beat.again <==> Again(s0[k], now) in s)
    {
      assert Requeued(s0[pos[k]], k, got, gone, s, now);
    }
    forall i | m <= i < |s0| ensures s0[i] in s { assert Stays(s0[i], got, gone, s); }
  }

  lemma {:induction false} IncreasingFits(s: seq<nat>, n: nat)
    requires Increasing(s) && forall i :: 0 <= i < |s| ==> s[i] < n
    ensures |s| <= n && forall i :: 0 <= i < |s| ==> i <= s[i]
  {
    if s != [] {
      var m := |s| - 1;
      IncreasingFits(s[..m], s[m]);
      forall i | 0 <= i < |s| ensures i <= s[i] { if i < m { assert s[..m][i] == s[i]; } }
    }
  }

  lemma {:induction false} EachInPlace(pos: seq<nat>, m: nat)
    requires Increasing(pos) && |pos| <= m && (forall i :: 0 <= i < |pos| ==> i <= pos[i] < m)
    requires forall i :: 0 <= i < m ==> i in pos
    ensures |pos| == m && forall i :: 0 <= i < m ==> pos[i] == i
  {
    if m > 0 {
      var last := |pos| - 1;
      assert m - 1 in pos;
      var j :| 0 <= j < |pos| && pos[j] == m - 1;
      assert pos[last] < m;
      assert j == last;
      forall i | 0 <= i < m - 1
        ensures i in pos[..last]
      {
        assert i in pos;
        var k :| 0 <= k < |pos| && pos[k] == i;
        assert pos[..last][k] == i;
      }
      EachInPlace(pos[..last], m - 1);
      forall i | 0 <= i < m ensures pos[i] == i { if i < last { assert pos[..last][i] == pos[i]; } }
    }
  }
}
