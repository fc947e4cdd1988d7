/** Periodic tasks as data, and how callbacks may change both queues. */
module PeriodicModel {
  import opened TimerModel

  /** A periodic task; `beats` is what its callback will do the next times it is called. */
  datatype PeriodicTask = PeriodicTask(due: nat, id: nat, interval: nat, beats: seq<Beat>)

  /** One call of a periodic callback: what was due when, and what the callback did and answered. */
  datatype Call = Call(id: nat, due: nat, at: nat, interval: nat, beat: Beat)

  /** When a task was added, and with what. */
  datatype Birth = Birth(at: nat, interval: nat, beats: seq<Beat>)

  /** The periodic queue and what led to it: the tasks added; the calls made; the tasks removed, each with the number of
      calls begun until then; the tasks discarded by mistake, each with the call that did it; and whether
      the code has used a list entry that was gone. */
  datatype Periodics = Periodics(
    tasks: seq<PeriodicTask>, nextId: nat, born: map<nat, Birth>, calls: seq<Call>, dropped: map<nat, nat>,
    lost: map<nat, nat>, undefined: bool)

  function NoTasks(): Periodics { Periodics([], 1, map[], [], map[], map[], false) }

  ghost predicate SortedP(s: seq<PeriodicTask>) {
    forall i, j :: 0 <= i < j < |s| ==> s[i].due <= s[j].due
  }

  ghost predicate NumberedP(s: seq<PeriodicTask>, nextId: nat) {
    && (forall i :: 0 <= i < |s| ==> 1 <= s[i].id < nextId && 0 < s[i].interval < UINT32_LIMIT)
    && (forall i, j :: 0 <= i < j < |s| ==> s[i].id != s[j].id)
  }

  /** No due time lies further ahead than the longest interval. */
  ghost predicate NearP(s: seq<PeriodicTask>, now: nat) {
    forall i :: 0 <= i < |s| ==> s[i].due <= now + s[i].interval * US_PER_S
  }

  ghost predicate PeriodicOk(s: seq<PeriodicTask>, nextId: nat, now: nat) {
    nextId >= 1 && SortedP(s) && NumberedP(s, nextId) && NearP(s, now)
  }

  function InsertP(s: seq<PeriodicTask>, k: nat, t: PeriodicTask): seq<PeriodicTask>
    requires k <= |s|
  {
    s[..k] + [t] + s[k..]
  }

  function RemoveP(s: seq<PeriodicTask>, k: nat): seq<PeriodicTask>
    requires k < |s|
  {
    s[..k] + s[k + 1..]
  }

  lemma InsertedP(s: seq<PeriodicTask>, k: nat, t: PeriodicTask, i: nat)
    requires k <= |s| && i <= |s|
    ensures |InsertP(s, k, t)| == |s| + 1
    ensures InsertP(s, k, t)[i] == if i < k then s[i] else if i == k then t else s[i - 1]
  {
  }

  lemma InsertKeepsP(s: seq<PeriodicTask>, k: nat, t: PeriodicTask, nextId: nat, nextId': nat, now: nat)
    requires PeriodicOk(s, nextId, now) && k <= |s| && nextId <= nextId' && 1 <= t.id < nextId'
    requires forall i :: 0 <= i < |s| ==> s[i].id != t.id
    requires 0 < t.interval < UINT32_LIMIT && t.due <= now + t.interval * US_PER_S
    requires forall i :: 0 <= i < k ==> s[i].due <= t.due
    requires k < |s| ==> s[k].due > t.due
    ensures PeriodicOk(InsertP(s, k, t), nextId', now)
  {
    var r := InsertP(s, k, t);
    forall i | 0 <= i < |r|
      ensures 1 <= r[i].id < nextId' && 0 < r[i].interval < UINT32_LIMIT
      ensures r[i].due <= now + r[i].interval * US_PER_S
    {
      InsertedP(s, k, t, i);
    }
    forall i, j | 0 <= i < j < |r|
      ensures r[i].id != r[j].id && r[i].due <= r[j].due
    {
      InsertedP(s, k, t, i);
      InsertedP(s, k, t, j);
    }
  }

  lemma RemoveKeepsP(s: seq<PeriodicTask>, k: nat, nextId: nat, now: nat)
    requires PeriodicOk(s, nextId, now) && k < |s|
    ensures PeriodicOk(RemoveP(s, k), nextId, now)
  {
    var r := RemoveP(s, k);
    forall i | 0 <= i < |r| ensures r[i] == s[if i < k then i else i + 1] {}
  }

  lemma InsertMembersP(s: seq<PeriodicTask>, k: nat, t: PeriodicTask, x: PeriodicTask)
    requires k <= |s|
    ensures x in InsertP(s, k, t) <==> x in s || x == t
  {
    assert s == s[..k] + s[k..];
  }

  lemma RemoveMembersP(s: seq<PeriodicTask>, k: nat, x: PeriodicTask)
    requires k < |s| && forall i, j :: 0 <= i < j < |s| ==> s[i].id != s[j].id
    ensures x in RemoveP(s, k) <==> x in s && x != s[k]
  {
    if x in s && x != s[k] {
      var i :| 0 <= i < |s| && s[i] == x;
      assert RemoveP(s, k)[if i < k then i else i - 1] == x;
    }
    if x in RemoveP(s, k) {
      var i :| 0 <= i < |RemoveP(s, k)| && RemoveP(s, k)[i] == x;
      assert s[if i < k then i else i + 1] == x;
    }
  }

  // ---- What a callback may do ----

  /** The delay queue as callbacks change it. */
  datatype Queue = Queue(tasks: seq<DelayTask>, issued: nat, crowded: bool)

  /** Callbacks of other components add tasks for later and remove only their own. */
  ghost predicate Calm(q: Queue, q': Queue, now: nat) {
    && q.issued <= q'.issued && (q.crowded ==> q'.crowded)
    && Evolves(q.tasks, q'.tasks, q.issued, now)
    && (forall t :: t in q.tasks && !t.work.Script? ==> t in q'.tasks)
    && (forall t :: t in q'.tasks && t.work.RemoveSession? ==> t in q.tasks)
  }

  lemma CalmOn(q: Queue, q': Queue, q'': Queue, now: nat)
    requires Calm(q, q', now) && Calm(q', q'', now)
    ensures Calm(q, q'', now)
  {
  }

  /** Some pending task will run the periodic queue less than a second after its front is due. */
  ghost predicate WakesUp(tasks: seq<DelayTask>, s: seq<PeriodicTask>) {
    s != [] ==> exists t :: t in tasks && Wakes(t, s[0].due)
  }

  predicate Wakes(t: DelayTask, due: nat) { t.work == RunPeriodic && Due(t) < due + US_PER_S }

  lemma CalmWakes(q: Queue, q': Queue, now: nat, s: seq<PeriodicTask>, s': seq<PeriodicTask>)
    requires Calm(q, q', now) && (!q.crowded ==> WakesUp(q.tasks, s))
    requires s' != [] ==> s != [] && s[0].due <= s'[0].due
    ensures !q'.crowded ==> WakesUp(q'.tasks, s')
  {
    if s' != [] && !q'.crowded {
      var t :| t in q.tasks && Wakes(t, s[0].due);
      assert t in q'.tasks && Wakes(t, s'[0].due);
    }
  }

  /** Rounding the wait up to whole seconds: in time, and less than a second late. */
  lemma WaitSeconds(next: nat, now: nat)
    requires next > now
    ensures var wait := (next - now + US_PER_S - 1) / US_PER_S;
      wait > 0 && next <= now + wait * US_PER_S < next + US_PER_S
  {
  }

  lemma WaitFits(next: nat, now: nat, interval: nat)
    requires now < next <= now + interval * US_PER_S
    ensures (next - now + US_PER_S - 1) / US_PER_S <= interval
  {
  }

  // ---- The operations, on values ----

  /** Where a task due at `due` belongs: before the first later one. */
  function LaterP(s: seq<PeriodicTask>, due: nat): (k: nat)
    ensures k <= |s| && (forall i :: 0 <= i < k ==> s[i].due <= due) && (k < |s| ==> s[k].due > due)
  {
    if s == [] || s[0].due > due then 0 else 1 + LaterP(s[1..], due)
  }

  /** The first task with `id`, or the end. */
  function FirstP(s: seq<PeriodicTask>, id: nat): (k: nat)
    ensures k <= |s| && (forall i :: 0 <= i < k ==> s[i].id != id) && (k < |s| ==> s[k].id == id)
  {
    if s == [] || s[0].id == id then 0 else 1 + FirstP(s[1..], id)
  }

  ghost predicate Queued(s: seq<PeriodicTask>, id: nat) { exists i :: 0 <= i < |s| && s[i].id == id }

  function NewTask(p: Periodics, interval: nat, beats: seq<Beat>, now: nat): PeriodicTask {
    PeriodicTask(now + interval * US_PER_S, p.nextId, interval, beats)
  }

  /** AddPeriodicTask. */
  function AddedP(p: Periodics, interval: nat, beats: seq<Beat>, now: nat): Periodics {
    if interval == 0 then p
    else
      var t := NewTask(p, interval, beats, now);
      p.(tasks := InsertP(p.tasks, LaterP(p.tasks, t.due), t), nextId := p.nextId + 1,
         born := p.born[p.nextId := Birth(now, interval, beats)])
  }

  /** RemovePeriodicTask. */
  function DroppedP(p: Periodics, id: nat): Periodics {
    var k := FirstP(p.tasks, id);
    if k == |p.tasks| then p else p.(tasks := RemoveP(p.tasks, k), dropped := p.dropped[id := |p.calls|])
  }

  /** One call made by a callback. */
  function CmdP(p: Periodics, cmd: Cmd, now: nat): Periodics {
    match cmd
    case AddPeriodic(interval, beats) => AddedP(p, interval % UINT32_LIMIT, beats, now)
    case DropPeriodic(id) => DroppedP(p, id)
    case _ => p
  }

  function ScriptP(p: Periodics, cmds: seq<Cmd>, now: nat): Periodics {
    if cmds == [] then p
    else CmdP(ScriptP(p, cmds[..|cmds| - 1], now), cmds[|cmds| - 1], now)
  }

  /** What the callback does the next time it is called; a callback with nothing left answers false. */
  function FirstBeat(p: PeriodicTask): Beat { if p.beats == [] then Beat([], false) else p.beats[0] }

  function CallOf(p: PeriodicTask, now: nat): Call { Call(p.id, p.due, now, p.interval, FirstBeat(p)) }

  /** The task after a call that answered true. */
  function Again(p: PeriodicTask, now: nat): PeriodicTask {
    PeriodicTask(now + p.interval * US_PER_S, p.id, p.interval, if p.beats == [] then [] else p.beats[1..])
  }

  /** The front task goes to its next time, behind all that are not later. */
  function SplicedP(s: seq<PeriodicTask>, now: nat): seq<PeriodicTask>
    requires s != []
  {
    InsertP(s[1..], LaterP(s[1..], Again(s[0], now).due), Again(s[0], now))
  }

  /** The callback of the front task is called. */
  function CalledP(p: Periodics, now: nat): Periodics
    requires p.tasks != []
  {
    ScriptP(p.(calls := p.calls + [CallOf(p.tasks[0], now)]), FirstBeat(p.tasks[0]).cmds, now)
  }

  /** What Execute does after the callback of `f`, which was call `call`: whatever is the front by then goes
      to the next time of `f`, or out. When the callback has removed `f`, another task is discarded; and
      where the code then uses the entry of `f`, or an empty list, nothing is known: the queue is left as
      it is. */
  function AfterCall(m: Periodics, f: PeriodicTask, call: nat, now: nat): Periodics {
    var again := FirstBeat(f).again;
    if m.tasks == [] || (again && m.tasks[0].id != f.id) then m.(undefined := true)
    else if again then m.(tasks := SplicedP(m.tasks, now))
    else if m.tasks[0].id == f.id then m.(tasks := m.tasks[1..])
    else m.(tasks := m.tasks[1..], lost := m.lost[m.tasks[0].id := call])
  }

  /** One turn of Execute's loop. */
  function TurnP(p: Periodics, now: nat): Periodics
    requires p.tasks != []
  {
    AfterCall(CalledP(p, now), p.tasks[0], |p.calls|, now)
  }

  /** The callback removes the task it is called for. */
  predicate Quits(c: Call) { DropPeriodic(c.id) in c.beat.cmds }

  /** Execute's pop_front then discards the next task. */
  predicate Discards(c: Call) { Quits(c) && !c.beat.again }

  // ---- What callbacks do to the queue ----

  ghost predicate Increasing(s: seq<nat>) { forall i, j :: 0 <= i < j < |s| ==> s[i] < s[j] }

  /** What `cmds` do to the queue `s`, where the next number is `n`: exactly the tasks they name are
      missing, new ones are for later, and the due tasks left are those at the places `kept`, in order. */
  ghost predicate Thins(s: seq<PeriodicTask>, s': seq<PeriodicTask>, n: nat, kept: seq<nat>, cmds: seq<Cmd>, now: nat) {
    && |kept| <= |s'| && Increasing(kept)
    && (forall a :: 0 <= a < |kept| ==> kept[a] < |s| && s'[a] == s[kept[a]] && s'[a].due <= now)
    && (forall a :: |kept| <= a < |s'| ==> s'[a].due > now)
    && (forall i :: 0 <= i < |s| ==> s[i] in s' || DropPeriodic(s[i].id) in cmds)
    && (forall x :: x in s' ==> (x in s && DropPeriodic(x.id) !in cmds) || (x.id >= n && x.due > now))
  }

  ghost predicate Thinned(s: seq<PeriodicTask>, s': seq<PeriodicTask>, n: nat, cmds: seq<Cmd>, now: nat) {
    exists kept :: Thins(s, s', n, kept, cmds, now)
  }

  ghost function UpTo(n: nat): (s: seq<nat>)
    ensures |s| == n && Increasing(s) && forall i :: 0 <= i < n ==> s[i] == i
  {
    seq(n, i => i)
  }

  /** In a sorted queue everything from there on is later. */
  lemma LaterAll(s: seq<PeriodicTask>, due: nat)
    requires SortedP(s)
    ensures forall i :: LaterP(s, due) <= i < |s| ==> s[i].due > due
  {
  }

  lemma ThinsItself(s: seq<PeriodicTask>, n: nat, cmds: seq<Cmd>, now: nat)
    requires SortedP(s) && forall x :: x in s ==> DropPeriodic(x.id) !in cmds
    ensures Thinned(s, s, n, cmds, now)
  {
    LaterAll(s, now);
    assert Thins(s, s, n, UpTo(LaterP(s, now)), cmds, now);
  }

  lemma ThinsAdd(s: seq<PeriodicTask>, t: PeriodicTask, cmds: seq<Cmd>, now: nat)
    requires SortedP(s) && t.due > now && forall x :: x in s ==> DropPeriodic(x.id) !in cmds
    ensures Thinned(s, InsertP(s, LaterP(s, t.due), t), t.id, cmds, now)
  {
    hide SortedP;
    var m, k := LaterP(s, now), LaterP(s, t.due);
    var s' := InsertP(s, k, t);
    LaterAll(s, now);
    assert m <= k;
    forall a | 0 <= a < |s'| ensures (a < k ==> s'[a] == s[a]) && (a >= m ==> s'[a].due > now) { InsertedP(s, k, t, a); }
    forall x ensures x in s' <==> x in s || x == t { InsertMembersP(s, k, t, x); }
    assert Thins(s, s', t.id, UpTo(m), cmds, now);
  }

  lemma ThinsDrop(s: seq<PeriodicTask>, n: nat, d: nat, now: nat)
    requires SortedP(s) && NumberedP(s, n) && d < |s|
    ensures Thinned(s, RemoveP(s, d), n, [DropPeriodic(s[d].id)], now)
  {
    hide SortedP;
    var m, s' := LaterP(s, now), RemoveP(s, d);
    LaterAll(s, now);
    forall a | 0 <= a < |s'| ensures s'[a] == s[if a < d then a else a + 1] {}
    forall x ensures x in s' <==> x in s && x != s[d] { RemoveMembersP(s, d, x); }
    var kept := KeptPlaces(m, d);
    forall a | |kept| <= a < |s'| ensures s'[a].due > now { assert a < d ==> s'[a] == s[a]; }
    assert Thins(s, s', n, kept, [DropPeriodic(s[d].id)], now);
  }

  ghost function KeptPlaces(m: nat, d: nat): (kept: seq<nat>)
    ensures |kept| == if d < m then m - 1 else m
    ensures Increasing(kept) && forall a :: 0 <= a < |kept| ==> kept[a] == (if a < d then a else a + 1) < m
  {
    if d < m then seq(m - 1, a => if a < d then a else a + 1) else UpTo(m)
  }

  lemma ThinsOn(s: seq<PeriodicTask>, s': seq<PeriodicTask>, s'': seq<PeriodicTask>, n: nat, n': nat,
                a: seq<Cmd>, b: seq<Cmd>, now: nat)
    requires Thinned(s, s', n, a, now) && Thinned(s', s'', n', b, now) && n <= n'
    ensures Thinned(s, s'', n, a + b, now)
  {
    var k :| Thins(s, s', n, k, a, now);
    var l :| Thins(s', s'', n', l, b, now);
    forall x | 0 <= x < |l| ensures l[x] < |k| { assert s''[x] == s'[l[x]]; }
    var kept := seq(|l|, x requires 0 <= x < |l| && l[x] < |k| => k[l[x]]);
    forall i | 0 <= i < |s|
      ensures s[i] in s'' || DropPeriodic(s[i].id) in a + b
    {
      if s[i] in s' {
        var j :| 0 <= j < |s'| && s'[j] == s[i];
        assert s'[j] in s'' || DropPeriodic(s'[j].id) in b;
      }
    }
    assert Thins(s, s'', n, kept, a + b, now);
  }

  lemma AddKeepsP(p: Periodics, interval: nat, beats: seq<Beat>, cmds: seq<Cmd>, now: nat)
    requires PeriodicOk(p.tasks, p.nextId, now) && 0 < interval < UINT32_LIMIT
    requires forall x :: x in p.tasks ==> DropPeriodic(x.id) !in cmds
    ensures var p' := AddedP(p, interval, beats, now);
      && PeriodicOk(p'.tasks, p'.nextId, now) && p.nextId <= p'.nextId && Thinned(p.tasks, p'.tasks, p.nextId, cmds, now)
  {
    hide Thinned, InsertP, LaterP;
    var t := NewTask(p, interval, beats, now);
    InsertKeepsP(p.tasks, LaterP(p.tasks, t.due), t, p.nextId, p.nextId + 1, now);
    ThinsAdd(p.tasks, t, cmds, now);
  }

  lemma DropKeepsP(p: Periodics, id: nat, now: nat)
    requires PeriodicOk(p.tasks, p.nextId, now)
    ensures var p' := DroppedP(p, id);
      && PeriodicOk(p'.tasks, p'.nextId, now) && p.nextId == p'.nextId
      && Thinned(p.tasks, p'.tasks, p.nextId, [DropPeriodic(id)], now)
  {
    hide Thinned, RemoveP, FirstP;
    var k := FirstP(p.tasks, id);
    if k == |p.tasks| {
      ThinsItself(p.tasks, p.nextId, [DropPeriodic(id)], now);
    } else {
      RemoveKeepsP(p.tasks, k, p.nextId, now);
      ThinsDrop(p.tasks, p.nextId, k, now);
    }
  }

  /** One call keeps the queue in order. */
  lemma CmdKeeps(p: Periodics, cmd: Cmd, now: nat)
    requires PeriodicOk(p.tasks, p.nextId, now)
    ensures var p' := CmdP(p, cmd, now);
      && PeriodicOk(p'.tasks, p'.nextId, now) && p.nextId <= p'.nextId && p'.calls == p.calls
      && p'.lost == p.lost && p'.undefined == p.undefined && Thinned(p.tasks, p'.tasks, p.nextId, [cmd], now)
  {
    hide Thinned, PeriodicOk, InsertP, LaterP, RemoveP, FirstP;
    InOrder(p, now);
    match cmd
    case AddPeriodic(interval, beats) =>
      if interval % UINT32_LIMIT == 0 {
        ThinsItself(p.tasks, p.nextId, [cmd], now);
      } else {
        AddKeepsP(p, interval % UINT32_LIMIT, beats, [cmd], now);
      }
    case DropPeriodic(id) => DropKeepsP(p, id, now);
    case _ => ThinsItself(p.tasks, p.nextId, [cmd], now);
  }

  lemma {:induction false} ScriptKeeps(p: Periodics, cmds: seq<Cmd>, now: nat)
    requires PeriodicOk(p.tasks, p.nextId, now)
    ensures var p' := ScriptP(p, cmds, now);
      && PeriodicOk(p'.tasks, p'.nextId, now) && p.nextId <= p'.nextId && p'.calls == p.calls
      && p'.lost == p.lost && p'.undefined == p.undefined && Thinned(p.tasks, p'.tasks, p.nextId, cmds, now)
    decreases |cmds|
  {
    hide PeriodicOk, Thinned, CmdP;
    if cmds == [] {
      InOrder(p, now);
      ThinsItself(p.tasks, p.nextId, [], now);
    } else {
      var m := |cmds| - 1;
      ScriptKeeps(p, cmds[..m], now);
      var q := ScriptP(p, cmds[..m], now);
      CmdKeeps(q, cmds[m], now);
      ThinsOn(p.tasks, q.tasks, CmdP(q, cmds[m], now).tasks, p.nextId, q.nextId, cmds[..m], [cmds[m]], now);
      assert cmds[..m] + [cmds[m]] == cmds;
    }
  }

  lemma InOrder(p: Periodics, now: nat)
    requires PeriodicOk(p.tasks, p.nextId, now)
    ensures SortedP(p.tasks) && NumberedP(p.tasks, p.nextId) && p.nextId >= 1
  {
  }

  // ---- Execute ----

  ghost predicate FrontDue(p: Periodics, now: nat) { p.tasks != [] && p.tasks[0].due <= now }

  /** The front task is still the front after its callback exactly when the callback has not removed it. */
  lemma FrontAfter(s: seq<PeriodicTask>, mid: seq<PeriodicTask>, n: nat, n': nat, cmds: seq<Cmd>, now: nat)
    requires s != [] && s[0].due <= now && NumberedP(s, n) && NumberedP(mid, n') && Thinned(s, mid, n, cmds, now)
    ensures DropPeriodic(s[0].id) !in cmds ==> mid != [] && mid[0] == s[0]
    ensures DropPeriodic(s[0].id) in cmds ==> forall x :: x in mid ==> x.id != s[0].id
  {
    var kept :| Thins(s, mid, n, kept, cmds, now);
    assert s[0] in s;
    if DropPeriodic(s[0].id) !in cmds {
      var b :| 0 <= b < |mid| && mid[b] == s[0];
      assert kept[b] == 0;
      var first := kept[0];
      assert b == 0;
    } else {
      forall x | x in mid && x in s
        ensures x.id != s[0].id
      {
        var i :| 0 <= i < |s| && s[i] == x;
      }
    }
  }

  /** The state in the middle of a turn. */
  lemma CallKeeps(p: Periodics, now: nat)
    requires PeriodicOk(p.tasks, p.nextId, now) && FrontDue(p, now)
    ensures var m, f := CalledP(p, now), p.tasks[0];
      && PeriodicOk(m.tasks, m.nextId, now) && p.nextId <= m.nextId && m.calls == p.calls + [CallOf(f, now)]
      && m.lost == p.lost && m.undefined == p.undefined && Thinned(p.tasks, m.tasks, p.nextId, FirstBeat(f).cmds, now)
      && (!Quits(CallOf(f, now)) ==> m.tasks != [] && m.tasks[0] == f)
      && (Quits(CallOf(f, now)) ==> forall x :: x in m.tasks ==> x.id != f.id)
  {
    hide PeriodicOk, Thinned;
    var q, f := p.(calls := p.calls + [CallOf(p.tasks[0], now)]), p.tasks[0];
    ScriptKeeps(q, FirstBeat(f).cmds, now);
    var m := CalledP(p, now);
    InOrder(p, now);
    InOrder(m, now);
    FrontAfter(p.tasks, m.tasks, p.nextId, m.nextId, FirstBeat(f).cmds, now);
  }

  ghost function DueIds(s: seq<PeriodicTask>, now: nat): set<nat> {
    set x | x in s && x.due <= now :: x.id
  }

  /** The front of the queue goes, or moves to a later time. */
  lemma MoveKeeps(s: seq<PeriodicTask>, n: nat, again: bool, now: nat)
    requires PeriodicOk(s, n, now) && s != []
    ensures var s' := if again then SplicedP(s, now) else s[1..];
      && PeriodicOk(s', n, now)
      && (forall x :: x in s' <==> (x in s && x.id != s[0].id) || (again && x == Again(s[0], now)))
      && (s' != [] && (again ==> s[0].due <= now) ==> s[0].due <= s'[0].due)
  {
    hide InsertP;
    var t := s[1..];
    assert s == [s[0]] + t;
    forall i | 0 <= i < |t| ensures t[i] == s[i + 1] {}
    assert PeriodicOk(t, n, now);
    forall x ensures x in t <==> x in s && x.id != s[0].id { TailP(s, n, x); }
    if again {
      var a := Again(s[0], now);
      InsertKeepsP(t, LaterP(t, a.due), a, n, n, now);
      InsertedP(t, LaterP(t, a.due), a, 0);
      forall x ensures x in SplicedP(s, now) <==> x in t || x == a { InsertMembersP(t, LaterP(t, a.due), a, x); }
    }
  }

  lemma TailP(s: seq<PeriodicTask>, n: nat, x: PeriodicTask)
    requires NumberedP(s, n) && s != []
    ensures x in s[1..] <==> x in s && x.id != s[0].id
  {
    assert s == [s[0]] + s[1..];
    if x in s[1..] {
      var i :| 0 <= i < |s| - 1 && s[1..][i] == x;
      assert x == s[i + 1];
    }
  }

  /** A turn keeps the queue in order, and its task is not due any more. */
  lemma TurnKeeps(p: Periodics, now: nat)
    requires PeriodicOk(p.tasks, p.nextId, now) && FrontDue(p, now)
    ensures var p' := TurnP(p, now);
      && PeriodicOk(p'.tasks, p'.nextId, now) && p.nextId <= p'.nextId && p'.calls == p.calls + [CallOf(p.tasks[0], now)]
      && DueIds(p'.tasks, now) < DueIds(p.tasks, now)
  {
    hide PeriodicOk, Thinned, CalledP;
    var f, m, p' := p.tasks[0], CalledP(p, now), TurnP(p, now);
    CallKeeps(p, now);
    InOrder(m, now);
    if m.tasks != [] { MoveKeeps(m.tasks, m.nextId, FirstBeat(f).again, now); }
    assert f.id in DueIds(p.tasks, now) by { assert f in p.tasks; }
    assert f.interval > 0 by { InOrder(p, now); }
    DueOnly(p.tasks, m.tasks, p.nextId, FirstBeat(f).cmds, now);
    forall x | x in p'.tasks && x.due <= now
      ensures x.id in DueIds(p.tasks, now) && x.id != f.id
    {
      assert x in m.tasks;
    }
  }

  lemma DueOnly(s: seq<PeriodicTask>, s': seq<PeriodicTask>, n: nat, cmds: seq<Cmd>, now: nat)
    requires Thinned(s, s', n, cmds, now)
    ensures forall x :: x in s' && x.due <= now ==> x in s
  {
  }

  /** Execute: turns are taken while the front task is due. */
  ghost function ExecP(p: Periodics, now: nat): Periodics
    requires PeriodicOk(p.tasks, p.nextId, now)
    decreases DueIds(p.tasks, now)
  {
    if FrontDue(p, now) then
      TurnKeeps(p, now);
      ExecP(TurnP(p, now), now)
    else p
  }

  lemma {:induction false} ExecKeeps(p: Periodics, now: nat)
    requires PeriodicOk(p.tasks, p.nextId, now)
    ensures var e := ExecP(p, now);
      && PeriodicOk(e.tasks, e.nextId, now) && p.nextId <= e.nextId && p.calls <= e.calls && !FrontDue(e, now)
    decreases DueIds(p.tasks, now)
  {
    hide PeriodicOk, TurnP, FrontDue;
    if FrontDue(p, now) {
      TurnKeeps(p, now);
      ExecKeeps(TurnP(p, now), now);
    }
  }

  /** What the work of a delay task does to the periodic queue. */
  ghost function WorkP(p: Periodics, work: Work, now: nat): (p': Periodics)
    requires PeriodicOk(p.tasks, p.nextId, now)
    ensures PeriodicOk(p'.tasks, p'.nextId, now) && p.nextId <= p'.nextId && p.calls <= p'.calls
  {
    match work
    case RemoveSession(_) => p
    case Script(cmds) => ScriptKeeps(p, cmds, now); ScriptP(p, cmds, now)
    case RunPeriodic => ExecKeeps(p, now); ExecP(p, now)
  }

  /** What running the delay tasks `ran` one after the other does to it. */
  ghost function WorksP(p: Periodics, ran: seq<DelayTask>, now: nat): (p': Periodics)
    requires PeriodicOk(p.tasks, p.nextId, now)
    ensures PeriodicOk(p'.tasks, p'.nextId, now) && p.nextId <= p'.nextId && p.calls <= p'.calls
  {
    if ran == [] then p else WorkP(WorksP(p, ran[..|ran| - 1], now), ran[|ran| - 1].work, now)
  }

  lemma {:induction false} WorksOn(p: Periodics, a: seq<DelayTask>, b: seq<DelayTask>, now: nat)
    requires PeriodicOk(p.tasks, p.nextId, now)
    ensures WorksP(p, a + b, now) == WorksP(WorksP(p, a, now), b, now)
    decreases |b|
  {
    hide PeriodicOk, WorkP;
    if b == [] {
      assert a + b == a;
    } else {
      var m := |b| - 1;
      WorksOn(p, a, b[..m], now);
      assert (a + b)[..|a + b| - 1] == a + b[..m];
    }
  }

  // ---- What a script adds ----

  lemma DropBears(p: Periodics, id: nat)
    ensures DroppedP(p, id).born == p.born && DroppedP(p, id).nextId == p.nextId
  {
    hide RemoveP, FirstP;
  }

  /** Only adding changes what is on record of the tasks added. */
  lemma CmdBears(p: Periodics, cmd: Cmd, now: nat)
    ensures var p' := CmdP(p, cmd, now);
      if cmd.AddPeriodic? && cmd.interval % 0x1_0000_0000 != 0
      then p'.nextId == p.nextId + 1 && p'.born == p.born[p.nextId := Birth(now, cmd.interval % 0x1_0000_0000, cmd.beats)]
      else p'.nextId == p.nextId && p'.born == p.born
  {
    hide InsertP, LaterP, DroppedP;
    if cmd.DropPeriodic? { DropBears(p, cmd.id); }
  }

  /** Every task a script adds is added, under a number of its own, and nothing else is. */
  lemma {:induction false} ScriptBears(p: Periodics, cmds: seq<Cmd>, now: nat)
    ensures var p' := ScriptP(p, cmds, now);
      && p.nextId <= p'.nextId == p.nextId + AddCount(cmds)
      && (forall id :: id in p'.born <==> id in p.born || p.nextId <= id < p'.nextId)
      && (forall id :: id in p.born && id < p.nextId ==> p'.born[id] == p.born[id])
      && (forall i :: 0 <= i < |cmds| && Adds(cmds[i]) ==> Bore(p', p.nextId, now, cmds[i].interval, cmds[i].beats))
    decreases |cmds|
  {
    hide CmdP, AddCount;
    if cmds == [] {
      NoneAdded();
    } else {
      var m := |cmds| - 1;
      ScriptBears(p, cmds[..m], now);
      var q, p' := ScriptP(p, cmds[..m], now), ScriptP(p, cmds, now);
      CmdBears(q, cmds[m], now);
      OneAdded(cmds);
      forall i | 0 <= i < |cmds| && Adds(cmds[i])
        ensures Bore(p', p.nextId, now, cmds[i].interval, cmds[i].beats)
      {
        if i < m {
          assert cmds[..m][i] == cmds[i];
          var id :| BoreAs(q, p.nextId, now, cmds[i].interval, cmds[i].beats, id);
          assert BoreAs(p', p.nextId, now, cmds[i].interval, cmds[i].beats, id);
        } else {
          assert BoreAs(p', p.nextId, now, cmds[i].interval, cmds[i].beats, q.nextId);
        }
      }
    }
  }

  /** A call that adds a periodic task: its interval is not 0 as 32 bits. */
  predicate Adds(cmd: Cmd) { cmd.AddPeriodic? && cmd.interval % 0x1_0000_0000 != 0 }

  function AddCount(cmds: seq<Cmd>): nat { |set i | 0 <= i < |cmds| && Adds(cmds[i])| }

  ghost predicate BoreAs(p: Periodics, n: nat, now: nat, interval: nat, beats: seq<Beat>, id: nat) {
    n <= id < p.nextId && id in p.born && p.born[id] == Birth(now, interval % 0x1_0000_0000, beats)
  }

  ghost predicate Bore(p: Periodics, n: nat, now: nat, interval: nat, beats: seq<Beat>) {
    exists id: nat :: BoreAs(p, n, now, interval, beats, id)
  }

  lemma NoneAdded()
    ensures AddCount([]) == 0
  {
    var s: set<int> := {};
    assert forall i :: i !in s;
  }

  lemma OneAdded(cmds: seq<Cmd>)
    requires cmds != []
    ensures AddCount(cmds) == AddCount(cmds[..|cmds| - 1]) + if Adds(cmds[|cmds| - 1]) then 1 else 0
  {
    var m := |cmds| - 1;
    var a, b := set i | 0 <= i < |cmds| && Adds(cmds[i]), set i | 0 <= i < |cmds[..m]| && Adds(cmds[..m][i]);
    assert forall i :: 0 <= i < m ==> cmds[..m][i] == cmds[i];
    assert a == b + if Adds(cmds[m]) then {m} else {};
  }
}
