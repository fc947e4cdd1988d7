/** Delay tasks as data: ids, order and the facts that insertion and removal keep. */
module TimerModel {

  const TIME_LIMIT := 0x1000_0000_0000_0000     // 60 bits of execution time in an id
  const CLOCK_LIMIT := 0x800_0000_0000_0000     // times read from the clock stay below this
  const SEQUENCES := 16                         // the 4 bits above the time
  const US_PER_S := 1_000_000
  const NS_PER_US := 1_000
  const NS_PER_S := 1_000_000_000
  const UINT32_LIMIT := 0x1_0000_0000

  /** What a task does when it runs. A callback of another component is the list of calls it makes;
      a periodic callback has one such list, and its answer, for each time it is called. */
  datatype Work = RemoveSession(pid: int) | RunPeriodic | Script(cmds: seq<Cmd>)

  datatype Cmd =
    | AddDelay(delay: nat, cmds: seq<Cmd>)
    | DropDelay(id: nat)
    | AddPeriodic(interval: nat, beats: seq<Beat>)
    | DropPeriodic(id: nat)

  datatype Beat = Beat(cmds: seq<Cmd>, again: bool)

  /** A queued task. `issue` numbers the tasks in the order they were added; only specifications use it. */
  datatype DelayTask = DelayTask(id: nat, issue: nat, work: Work)

  function Due(t: DelayTask): nat { t.id % TIME_LIMIT }

  /** CalculateDelayTaskId: four bits of the sequence number above the execution time. */
  function PackId(sequence: nat, due: nat): nat { sequence % SEQUENCES * TIME_LIMIT + due }

  lemma PackedDue(sequence: nat, due: nat)
    requires due < TIME_LIMIT
    ensures PackId(sequence, due) % TIME_LIMIT == due
    ensures PackId(sequence, due) / TIME_LIMIT == sequence % SEQUENCES
    ensures PackId(sequence % 256, due) == PackId(sequence, due)
    ensures due > 0 ==> PackId(sequence, due) > 0
  {
    assert sequence % 256 % 16 == sequence % 16;
  }

  // ---- Order ----

  /** Queue order: by execution time, then by the order of adding. */
  predicate Before(a: DelayTask, b: DelayTask) {
    Due(a) < Due(b) || (Due(a) == Due(b) && a.issue < b.issue)
  }

  ghost predicate Sorted(s: seq<DelayTask>) {
    forall i, j :: 0 <= i < j < |s| ==> Before(s[i], s[j])
  }

  ghost predicate Numbered(s: seq<DelayTask>, issued: nat) {
    forall i :: 0 <= i < |s| ==> s[i].issue < issued && s[i].id == PackId(s[i].issue, Due(s[i]))
  }

  ghost predicate DistinctIds(s: seq<DelayTask>) {
    forall i, j :: 0 <= i < j < |s| ==> s[i].id != s[j].id
  }

  /** Pending tasks of one microsecond were issued within sixteen consecutive numbers. */
  ghost predicate Window(s: seq<DelayTask>, due: nat, issued: nat) {
    forall i :: 0 <= i < |s| && Due(s[i]) == due ==> issued < s[i].issue + SEQUENCES
  }

  function InsertAt(s: seq<DelayTask>, k: nat, t: DelayTask): seq<DelayTask>
    requires k <= |s|
  {
    s[..k] + [t] + s[k..]
  }

  function RemoveAt(s: seq<DelayTask>, k: nat): seq<DelayTask>
    requires k < |s|
  {
    s[..k] + s[k + 1..]
  }

  lemma InsertedAt(s: seq<DelayTask>, k: nat, t: DelayTask, i: nat)
    requires k <= |s| && i <= |s|
    ensures |InsertAt(s, k, t)| == |s| + 1
    ensures InsertAt(s, k, t)[i] == if i < k then s[i] else if i == k then t else s[i - 1]
  {
  }

  lemma InsertMembers(s: seq<DelayTask>, k: nat, t: DelayTask, x: DelayTask)
    requires k <= |s|
    ensures x in InsertAt(s, k, t) <==> x in s || x == t
  {
    assert s == s[..k] + s[k..];
  }

  lemma RemoveMembers(s: seq<DelayTask>, k: nat, x: DelayTask)
    requires k < |s| && forall i, j :: 0 <= i < j < |s| ==> s[i] != s[j]
    ensures x in RemoveAt(s, k) <==> x in s && x != s[k]
  {
    if x in s && x != s[k] {
      var i :| 0 <= i < |s| && s[i] == x;
      assert RemoveAt(s, k)[if i < k then i else i - 1] == x;
    }
    if x in RemoveAt(s, k) {
      var i :| 0 <= i < |RemoveAt(s, k)| && RemoveAt(s, k)[i] == x;
      assert s[if i < k then i else i + 1] == x;
    }
  }

  /** The place find_if yields keeps the queue sorted, with equal times in order of adding. */
  lemma InsertSorted(s: seq<DelayTask>, k: nat, t: DelayTask)
    requires Sorted(s) && k <= |s| && Numbered(s, t.issue)
    requires forall i :: 0 <= i < k ==> Due(s[i]) <= Due(t)
    requires k < |s| ==> Due(s[k]) > Due(t)
    ensures Sorted(InsertAt(s, k, t))
  {
    var r := InsertAt(s, k, t);
    forall i, j | 0 <= i < j < |r|
      ensures Before(r[i], r[j])
    {
      InsertedAt(s, k, t, i);
      InsertedAt(s, k, t, j);
      if i == k { assert k < |s|; if j - 1 > k { assert Before(s[k], s[j - 1]); } }
    }
  }

  lemma InsertNumbered(s: seq<DelayTask>, k: nat, t: DelayTask)
    requires k <= |s| && Numbered(s, t.issue) && t.id == PackId(t.issue, Due(t))
    ensures Numbered(InsertAt(s, k, t), t.issue + 1)
  {
    forall i | 0 <= i <= |s|
      ensures InsertAt(s, k, t)[i].issue < t.issue + 1
      ensures InsertAt(s, k, t)[i].id == PackId(InsertAt(s, k, t)[i].issue, Due(InsertAt(s, k, t)[i]))
    {
      InsertedAt(s, k, t, i);
    }
  }

  /** Four sequence bits tell tasks of one microsecond apart within the window. */
  lemma InsertDistinct(s: seq<DelayTask>, k: nat, t: DelayTask)
    requires k <= |s| && DistinctIds(s) && Numbered(s, t.issue) && t.id == PackId(t.issue, Due(t))
    requires Window(s, Due(t), t.issue)
    ensures DistinctIds(InsertAt(s, k, t))
  {
    var r := InsertAt(s, k, t);
    forall i, j | 0 <= i < j < |r|
      ensures r[i].id != r[j].id
    {
      InsertedAt(s, k, t, i);
      InsertedAt(s, k, t, j);
      if i == k { IdsDiffer(s[j - 1], t); }
      if j == k { IdsDiffer(s[i], t); }
    }
  }

  lemma IdsDiffer(a: DelayTask, t: DelayTask)
    requires a.id == PackId(a.issue, Due(a)) && t.id == PackId(t.issue, Due(t))
    requires a.issue < t.issue && (Due(a) == Due(t) ==> t.issue < a.issue + SEQUENCES)
    ensures a.id != t.id
  {
    hide PackId;
    PackedDue(a.issue, Due(a));
    PackedDue(t.issue, Due(t));
    if Due(a) == Due(t) { ResiduesDiffer(a.issue, t.issue); }
  }

  /** Ids tell tasks apart but for tasks of one microsecond added a multiple of 16 apart. */
  lemma IdsCollide(a: DelayTask, t: DelayTask)
    requires a.id == PackId(a.issue, Due(a)) && t.id == PackId(t.issue, Due(t))
    ensures a.id == t.id <==> Due(a) == Due(t) && a.issue % SEQUENCES == t.issue % SEQUENCES
  {
    PackedDue(a.issue, Due(a));
    PackedDue(t.issue, Due(t));
  }

  lemma ResiduesDiffer(a: nat, b: nat)
    requires a < b < a + SEQUENCES
    ensures a % SEQUENCES != b % SEQUENCES
  {
  }

  lemma RemoveKeeps(s: seq<DelayTask>, k: nat, issued: nat)
    requires k < |s| && Sorted(s) && Numbered(s, issued)
    ensures Sorted(RemoveAt(s, k)) && Numbered(RemoveAt(s, k), issued)
    ensures DistinctIds(s) ==> DistinctIds(RemoveAt(s, k))
  {
    var r := RemoveAt(s, k);
    forall i | 0 <= i < |r| ensures r[i] == s[if i < k then i else i + 1] {}
  }

  lemma SortedDistinct(s: seq<DelayTask>)
    requires Sorted(s)
    ensures forall i, j :: 0 <= i < j < |s| ==> s[i] != s[j]
  {
    forall i, j | 0 <= i < j < |s| ensures s[i] != s[j] { assert Before(s[i], s[j]); }
  }

  /** Tasks added later carry later times than anything due now. */
  ghost predicate Evolves(s: seq<DelayTask>, s': seq<DelayTask>, issued: nat, now: nat) {
    forall t :: t in s' ==> t in s || (t.issue >= issued && Due(t) > now)
  }

  lemma EvolvesOn(s: seq<DelayTask>, s': seq<DelayTask>, s'': seq<DelayTask>, issued: nat, issued': nat, now: nat)
    requires Evolves(s, s', issued, now) && Evolves(s', s'', issued', now) && issued <= issued'
    ensures Evolves(s, s'', issued, now)
  {
  }
}
