/** KernelSnapshotParser: cuts the lines of one snapshot into units, and units into cells. What the
    section parsers make of a cell is not part of the model. */
module SnapshotParser {
  import opened Common
  import opened SnapshotTrie

  const SNAPSHOT_SECTION_KEYWORDS: seq<Keyword> := [
    Keyword(TRANSACTION_START, "[transaction start] now mono_time"),
    Keyword(EXCEPTION_REGISTERS, "Exception registers:"),
    Keyword(ABORT_ADDRESS_PTE, "Abort address pte"),
    Keyword(THREAD_INFO, "Thread info:"),
    Keyword(DUMP_REGISTERS, "Dump registers:"),
    Keyword(DUMP_FPU_OR_SIMD_REGISTERS, "Dump fpu or simd registers:"),
    Keyword(STACK_BACKTRACE, "Stack backtrace"),
    Keyword(ELF_LOAD_INFO, "Elf load info"),
    Keyword(DATA_ON_TARGET_OF_LAST_BL, "Data on target of last"),
    Keyword(DATA_AROUND_REGS, "Data around regs"),
    Keyword(CONTENT_OF_USER_STACK, "Contents of user stack"),
    Keyword(BASE_ACTV_DUMPED, "[base actv dumped]"),
    Keyword(PROCESS_STATISTICS, "Process statistics:"),
    Keyword(TRANSACTION_END, "[transaction end] now mono_time")
  ]

  /** The lines from `start` to `end`, both included. */
  datatype Cell = Cell(kind: Section, start: nat, end: nat)

  // ---- Headings ----

  function Heading(line: string): Option<Section> {
    match Scan(SNAPSHOT_SECTION_KEYWORDS, line) case None => None case Some(e) => Some(e.kind)
  }

  predicate IsStart(line: string) { SNAPSHOT_SECTION_KEYWORDS[0].key <= line }

  /** Which keyword a string can be, judged by a few of its characters. */
  function Which(key: string): nat
    requires |key| > 11
  {
    match key[0]
    case '[' => if key[1] == 'b' then 11 else if |key| > 13 && key[13] == 's' then 0 else 13
    case 'E' => if key[1] == 'x' then 1 else 7
    case 'A' => 2
    case 'T' => 3
    case 'D' =>
      if key[1] == 'u' then (if key[5] == 'r' then 4 else 5)
      else if key[5] == 'o' then 8 else 9
    case 'S' => 6
    case 'C' => 10
    case _ => 12
  }

  lemma WhichIs(i: nat)
    requires i < 14
    ensures |SNAPSHOT_SECTION_KEYWORDS[i].key| > 11 && Which(SNAPSHOT_SECTION_KEYWORDS[i].key) == i
    ensures i == 0 || i == 13 ==> |SNAPSHOT_SECTION_KEYWORDS[i].key| > 13
  {
  }

  lemma WhichKept(a: string, b: string)
    requires |a| > 11 && a <= b && (Which(a) == 0 || Which(a) == 13 ==> |a| > 13)
    ensures Which(a) == Which(b)
  {
  }

  /** No keyword begins another one. */
  lemma PrefixFree(i: nat, j: nat)
    requires i < 14 && j < 14 && SNAPSHOT_SECTION_KEYWORDS[i].key <= SNAPSHOT_SECTION_KEYWORDS[j].key
    ensures i == j
  {
    WhichIs(i);
    WhichIs(j);
    WhichKept(SNAPSHOT_SECTION_KEYWORDS[i].key, SNAPSHOT_SECTION_KEYWORDS[j].key);
  }

  /** A line is a heading of a section exactly when it begins with that section's keyword. */
  lemma HeadingIs(line: string, i: nat)
    requires i < 14
    ensures Heading(line) == Some(SNAPSHOT_SECTION_KEYWORDS[i].kind) <==> SNAPSHOT_SECTION_KEYWORDS[i].key <= line
  {
    hide Scan, Which, Latest;
    ScanFinds(SNAPSHOT_SECTION_KEYWORDS, line);
    WhichIs(i);
    var r := Scan(SNAPSHOT_SECTION_KEYWORDS, line);
    if r.Some? {
      var k: nat :| k < 14 && SNAPSHOT_SECTION_KEYWORDS[k] == r.value;
      KindsDiffer(i, k);
      if SNAPSHOT_SECTION_KEYWORDS[i].key <= line { ShorterFirst(line, k, i); }
    }
  }

  lemma ShorterFirst(line: string, k: nat, i: nat)
    requires k < 14 && i < 14 && SNAPSHOT_SECTION_KEYWORDS[k].key <= line && SNAPSHOT_SECTION_KEYWORDS[i].key <= line
    requires |SNAPSHOT_SECTION_KEYWORDS[k].key| <= |SNAPSHOT_SECTION_KEYWORDS[i].key|
    ensures k == i
  {
    PrefixFree(k, i);
  }

  lemma KindsDiffer(i: nat, k: nat)
    requires i < 14 && k < 14
    ensures SNAPSHOT_SECTION_KEYWORDS[i].kind == SNAPSHOT_SECTION_KEYWORDS[k].kind <==> i == k
  {
  }

  /** The heading lines from `from` on. */
  function Heads(lines: seq<string>, from: nat): seq<nat>
    requires from <= |lines|
    decreases |lines| - from
  {
    if from == |lines| then []
    else (if Heading(lines[from]).Some? then [from] else []) + Heads(lines, from + 1)
  }

  lemma {:induction false} HeadsExact(lines: seq<string>, from: nat)
    requires from <= |lines|
    ensures forall k :: k in Heads(lines, from) <==> from <= k < |lines| && Heading(lines[k]).Some?
    ensures HeadsOk(lines, Heads(lines, from))
    ensures forall i :: 0 <= i < |Heads(lines, from)| ==> from <= Heads(lines, from)[i]
    decreases |lines| - from
  {
    if from < |lines| {
      HeadsExact(lines, from + 1);
      var rest, heads := Heads(lines, from + 1), Heads(lines, from);
      forall i, j | 0 <= i < j < |heads|
        ensures heads[i] < heads[j]
      {
        if Heading(lines[from]).Some? { assert heads[j] == rest[j - 1] && rest[j - 1] in rest; }
      }
    }
  }

  /** The first transaction end among the headings from the i-th on. */
  function FirstEnd(lines: seq<string>, heads: seq<nat>, i: nat): nat
    requires i <= |heads| && forall k :: 0 <= k < |heads| ==> heads[k] < |lines|
    decreases |heads| - i
  {
    if i == |heads| || Heading(lines[heads[i]]) == Some(TRANSACTION_END) then i else FirstEnd(lines, heads, i + 1)
  }

  lemma {:induction false} FirstEndIs(lines: seq<string>, heads: seq<nat>, i: nat)
    requires i <= |heads| && forall k :: 0 <= k < |heads| ==> heads[k] < |lines|
    ensures i <= FirstEnd(lines, heads, i) <= |heads|
    ensures forall j :: i <= j < FirstEnd(lines, heads, i) ==> Heading(lines[heads[j]]) != Some(TRANSACTION_END)
    ensures FirstEnd(lines, heads, i) < |heads| ==> Heading(lines[heads[FirstEnd(lines, heads, i)]]) == Some(TRANSACTION_END)
    decreases |heads| - i
  {
    if i < |heads| && Heading(lines[heads[i]]) != Some(TRANSACTION_END) { FirstEndIs(lines, heads, i + 1); }
  }

  /** Where the unit whose sections begin at `from` stops: a transaction end after another heading, or
      the end of the lines. */
  function UnitEnd(lines: seq<string>, from: nat): nat
    requires from <= |lines|
  {
    HeadsExact(lines, from);
    var heads := Heads(lines, from);
    if heads == [] then |lines|
    else
      var e := FirstEnd(lines, heads, 1);
      FirstEndIs(lines, heads, 1);
      if e < |heads| then heads[e] else |lines|
  }

  /** How many sections such a unit closes. */
  function Closed(lines: seq<string>, from: nat): nat
    requires from <= |lines|
  {
    HeadsExact(lines, from);
    var heads := Heads(lines, from);
    if heads == [] then 0
    else
      var e := FirstEnd(lines, heads, 1);
      FirstEndIs(lines, heads, 1);
      if e < |heads| then e else |heads| - 1
  }

  /** Its cells: from each closed heading to the line before the next one. */
  function Sections(lines: seq<string>, from: nat): seq<Cell>
    requires from <= |lines|
  {
    HeadsExact(lines, from);
    ClosedFits(lines, from);
    CellsOf(lines, Heads(lines, from), Closed(lines, from))
  }

  /** Heading lines in increasing order. */
  ghost predicate HeadsOk(lines: seq<string>, heads: seq<nat>) {
    && (forall i :: 0 <= i < |heads| ==> heads[i] < |lines| && Heading(lines[heads[i]]).Some?)
    && (forall i, j :: 0 <= i < j < |heads| ==> heads[i] < heads[j])
  }

  /** The cells of the first `n` headings, each up to the next one. */
  function CellsOf(lines: seq<string>, heads: seq<nat>, n: nat): (cells: seq<Cell>)
    requires HeadsOk(lines, heads) && (n == 0 || n < |heads|)
    ensures |cells| == n
    ensures forall i :: 0 <= i < n ==> cells[i].start == heads[i] && cells[i].end + 1 == heads[i + 1]
    ensures forall i :: 0 <= i < n ==> Heading(lines[heads[i]]) == Some(cells[i].kind)
  {
    if n == 0 then [] else CellsOf(lines, heads, n - 1) + [Between(lines, heads[n - 1], heads[n])]
  }

  function Between(lines: seq<string>, here: nat, next: nat): Cell
    requires here < next <= |lines| && Heading(lines[here]).Some?
  {
    Cell(Heading(lines[here]).value, here, next - 1)
  }

  lemma ClosedFits(lines: seq<string>, from: nat)
    requires from <= |lines|
    ensures Closed(lines, from) < |Heads(lines, from)| || Closed(lines, from) == 0
  {
    HeadsExact(lines, from);
    if Heads(lines, from) != [] { FirstEndIs(lines, Heads(lines, from), 1); }
  }

  /** Between neighbouring headings, and after the last one, there is none. */
  lemma NoneBetween(lines: seq<string>, from: nat, i: nat, k: nat)
    requires from <= |lines| && i < |Heads(lines, from)| && Heads(lines, from)[i] < k < |lines|
    requires i + 1 < |Heads(lines, from)| ==> k < Heads(lines, from)[i + 1]
    ensures Heading(lines[k]).None?
  {
    hide Heading, Heads;
    HeadsExact(lines, from);
    var heads := Heads(lines, from);
    forall j | 0 <= j < |heads|
      ensures heads[j] != k
    {
      if j > i + 1 { assert heads[i + 1] < heads[j]; }
    }
    assert k !in heads;
  }

  /** A cell of a unit in terms of its headings. */
  lemma SectionIs(lines: seq<string>, from: nat, i: nat)
    requires from <= |lines| && i < |Sections(lines, from)|
    ensures |Sections(lines, from)| == Closed(lines, from) < |Heads(lines, from)|
    ensures var heads, c := Heads(lines, from), Sections(lines, from)[i];
      && from <= heads[i] == c.start <= c.end && c.end + 1 == heads[i + 1] < |lines|
      && Heading(lines[heads[i]]) == Some(c.kind)
  {
    hide Heading, Heads, Closed;
    HeadsExact(lines, from);
    ClosedFits(lines, from);
    assert Heads(lines, from)[i] < Heads(lines, from)[i + 1] < |lines|;
  }

  lemma {:induction false} FirstEndAt(lines: seq<string>, heads: seq<nat>, i: nat, e: nat)
    requires i <= e <= |heads| && forall k :: 0 <= k < |heads| ==> heads[k] < |lines|
    requires forall k :: i <= k < e ==> Heading(lines[heads[k]]) != Some(TRANSACTION_END)
    requires e < |heads| ==> Heading(lines[heads[e]]) == Some(TRANSACTION_END)
    ensures FirstEnd(lines, heads, i) == e
    decreases e - i
  {
    if i < e { FirstEndAt(lines, heads, i + 1, e); }
  }

  // ---- One unit ----

  /** In a unit that stops at a transaction end the cells tile the lines from the first heading to that
      end; otherwise they tile the lines up to the last heading, whose section stays open. */
  lemma UnitTiles(lines: seq<string>, from: nat)
    requires from <= |lines| && Sections(lines, from) != []
    ensures var heads, cells := Heads(lines, from), Sections(lines, from);
      && heads != [] && cells[0].start == heads[0]
      && (forall i :: 0 <= i < |cells| - 1 ==> cells[i].end + 1 == cells[i + 1].start)
      && (UnitEnd(lines, from) < |lines| ==>
            cells[|cells| - 1].end + 1 == UnitEnd(lines, from) && Heading(lines[UnitEnd(lines, from)]) == Some(TRANSACTION_END))
      && (UnitEnd(lines, from) == |lines| ==> cells[|cells| - 1].end + 1 == heads[|heads| - 1])
  {
    hide Heading;
    HeadsExact(lines, from);
    ClosedFits(lines, from);
    FirstEndIs(lines, Heads(lines, from), 1);
  }

  /** A cell holds one heading, its first line, and is named after it. */
  lemma CellHoldsSection(lines: seq<string>, from: nat, i: nat)
    requires from <= |lines| && i < |Sections(lines, from)|
    ensures var c := Sections(lines, from)[i];
      && from <= c.start <= c.end < |lines| && Heading(lines[c.start]) == Some(c.kind)
      && (forall k :: c.start < k <= c.end ==> Heading(lines[k]).None?)
      && (i > 0 ==> c.kind != TRANSACTION_END)
  {
    hide Heading, Heads, Sections;
    SectionIs(lines, from, i);
    HeadsExact(lines, from);
    FirstEndIs(lines, Heads(lines, from), 1);
    var c := Sections(lines, from)[i];
    forall k | c.start < k <= c.end
      ensures Heading(lines[k]).None?
    {
      NoneBetween(lines, from, i, k);
    }
  }

  /** The first transaction end from `from` on. */
  function NextEnd(lines: seq<string>, from: nat): (e: nat)
    requires from <= |lines|
    ensures from <= e <= |lines| && (e < |lines| ==> Heading(lines[e]) == Some(TRANSACTION_END))
    ensures forall k :: from <= k < e ==> Heading(lines[k]) != Some(TRANSACTION_END)
    decreases |lines| - from
  {
    if from == |lines| || Heading(lines[from]) == Some(TRANSACTION_END) then from else NextEnd(lines, from + 1)
  }

  /** A unit stops at its first transaction end, exactly unless that is its first heading. */
  lemma StopsAtFirstEnd(lines: seq<string>, from: nat)
    requires from <= |lines|
    ensures UnitEnd(lines, from) == NextEnd(lines, from) <==>
      (NextEnd(lines, from) == |lines| || exists k :: from <= k < NextEnd(lines, from) && Heading(lines[k]).Some?)
  {
    hide Heading;
    HeadsExact(lines, from);
    var heads, e := Heads(lines, from), NextEnd(lines, from);
    if e < |lines| {
      var j :| 0 <= j < |heads| && heads[j] == e;
      FirstEndIs(lines, heads, 1);
      if j > 0 { FirstEndAt(lines, heads, 1, j); }
    } else if heads != [] {
      FirstEndAt(lines, heads, 1, |heads|);
    }
  }

  /** A transaction that ends at once: its unit runs past the end line. */
  lemma EndComesFirst()
    ensures var lines := [SNAPSHOT_SECTION_KEYWORDS[0].key, SNAPSHOT_SECTION_KEYWORDS[13].key];
      NextEnd(lines, 1) == 1 && UnitEnd(lines, 1) == 2 && Sections(lines, 1) == []
  {
    hide Heading;
    var lines := [SNAPSHOT_SECTION_KEYWORDS[0].key, SNAPSHOT_SECTION_KEYWORDS[13].key];
    HeadingIs(lines[1], 13);
    assert Heads(lines, 2) == [] && Heads(lines, 1) == [1];
  }

  lemma UnitEndAfter(lines: seq<string>, from: nat)
    requires from <= |lines|
    ensures from <= UnitEnd(lines, from) <= |lines|
    ensures forall i :: 0 <= i < |Sections(lines, from)| ==> Sections(lines, from)[i].end < UnitEnd(lines, from)
  {
    hide Heading, Heads, Sections;
    HeadsExact(lines, from);
    var heads, cells := Heads(lines, from), Sections(lines, from);
    if heads != [] { FirstEndIs(lines, heads, 1); }
    forall i | 0 <= i < |cells|
      ensures cells[i].end < UnitEnd(lines, from)
    {
      SectionIs(lines, from, i);
      if i + 1 < Closed(lines, from) { assert heads[i + 1] < heads[Closed(lines, from)]; }
    }
  }

  // ---- All units ----

  /** The first transaction start from `from` on. */
  function NextStart(lines: seq<string>, from: nat): (s: nat)
    requires from <= |lines|
    ensures from <= s <= |lines| && (s < |lines| ==> IsStart(lines[s]))
    ensures forall k :: from <= k < s ==> !IsStart(lines[k])
    decreases |lines| - from
  {
    if from == |lines| || IsStart(lines[from]) then from else NextStart(lines, from + 1)
  }

  /** The unit that begins with the transaction start in line `s`. */
  function Unit(lines: seq<string>, s: nat): seq<Cell>
    requires s < |lines|
  {
    [Cell(TRANSACTION_START, s, s)] + Sections(lines, s + 1)
  }

  lemma StartLine(line: string)
    ensures IsStart(line) <==> "[transaction start] now mono_time" <= line
  {
  }

  /** A section of a unit, as a cell of it. */
  ghost predicate SectionAt(lines: seq<string>, c: Cell, s: nat, end: nat) {
    && s < c.start <= c.end < end <= |lines| && Heading(lines[c.start]) == Some(c.kind)
    && forall k :: c.start < k <= c.end ==> Heading(lines[k]).None?
  }

  /** The cells of a unit that starts in line `s` and stops at `end`: the start line; then the sections, from
      the first heading on and without a gap, each from its heading to the line before the next; up to the
      transaction end, or up to the last heading of all, which stays open. */
  ghost predicate Tiled(lines: seq<string>, cells: seq<Cell>, s: nat, end: nat) {
    && |cells| > 0 && s < end <= |lines| && cells[0] == Cell(TRANSACTION_START, s, s)
    && (forall i :: 1 <= i < |cells| ==> SectionAt(lines, cells[i], s, end))
    && (forall i :: 1 <= i < |cells| - 1 ==> cells[i].end + 1 == cells[i + 1].start)
    && (forall i :: 2 <= i < |cells| ==> cells[i].kind != TRANSACTION_END)
    && (|cells| > 1 ==> forall k :: s < k < cells[1].start ==> Heading(lines[k]).None?)
    && (end < |lines| ==> |cells| > 1 && cells[|cells| - 1].end + 1 == end && Heading(lines[end]) == Some(TRANSACTION_END))
    && (end == |lines| && |cells| > 1 ==> OpenAt(lines, cells[|cells| - 1].end + 1))
    && (end == |lines| && |cells| == 1 ==> forall j, k :: s < j < k < |lines| ==> Heading(lines[j]).None? || Heading(lines[k]).None?)
  }

  /** Line `h` is the last heading of all, and no transaction end. */
  ghost predicate OpenAt(lines: seq<string>, h: nat) {
    && h < |lines| && Heading(lines[h]).Some? && Heading(lines[h]) != Some(TRANSACTION_END)
    && forall k :: h < k < |lines| ==> Heading(lines[k]).None?
  }

  lemma SectionsAt(lines: seq<string>, s: nat)
    requires s < |lines|
    ensures forall i :: 1 <= i < |Unit(lines, s)| ==> SectionAt(lines, Unit(lines, s)[i], s, UnitEnd(lines, s + 1))
    ensures forall i :: 2 <= i < |Unit(lines, s)| ==> Unit(lines, s)[i].kind != TRANSACTION_END
  {
    hide Heading, Heads, Sections, Closed, UnitEnd;
    var cells, unit := Sections(lines, s + 1), Unit(lines, s);
    UnitEndAfter(lines, s + 1);
    forall i | 1 <= i < |unit|
      ensures SectionAt(lines, unit[i], s, UnitEnd(lines, s + 1)) && (i > 1 ==> unit[i].kind != TRANSACTION_END)
    {
      assert unit[i] == cells[i - 1];
      CellHoldsSection(lines, s + 1, i - 1);
    }
  }

  /** The cells of a unit tile its lines. */
  lemma UnitTiled(lines: seq<string>, s: nat)
    requires s < |lines|
    ensures Tiled(lines, Unit(lines, s), s, UnitEnd(lines, s + 1))
  {
    hide Heading, Heads, Sections, Closed, UnitEnd, OpenAt;
    var cells, unit := Sections(lines, s + 1), Unit(lines, s);
    UnitEndAfter(lines, s + 1);
    SectionsAt(lines, s);
    forall i | 1 <= i < |unit| ensures unit[i] == cells[i - 1] {}
    if cells != [] {
      UnitTiles(lines, s + 1);
      SectionsFirst(lines, s + 1);
      if UnitEnd(lines, s + 1) == |lines| { LastOpen(lines, s + 1); }
    } else {
      NoSections(lines, s + 1);
    }
  }

  lemma SectionsFirst(lines: seq<string>, from: nat)
    requires from <= |lines| && Sections(lines, from) != []
    ensures forall k :: from <= k < |lines| && k < Sections(lines, from)[0].start ==> Heading(lines[k]).None?
  {
    hide Heading, Sections, Heads;
    HeadsExact(lines, from);
    SectionIs(lines, from, 0);
    var heads := Heads(lines, from);
    forall k | from <= k < |lines| && k < heads[0]
      ensures Heading(lines[k]).None?
    {
      forall j | 0 <= j < |heads| ensures heads[j] != k { if j > 0 { assert heads[0] < heads[j]; } }
      assert k !in heads;
    }
  }

  lemma LastOpen(lines: seq<string>, from: nat)
    requires from <= |lines| && Sections(lines, from) != [] && UnitEnd(lines, from) == |lines|
    ensures OpenAt(lines, Heads(lines, from)[|Heads(lines, from)| - 1])
  {
    hide Heading, Heads;
    HeadsExact(lines, from);
    var heads := Heads(lines, from);
    FirstEndIs(lines, heads, 1);
    var h := heads[|heads| - 1];
    forall k | h < k < |lines| ensures Heading(lines[k]).None? { NoneBetween(lines, from, |heads| - 1, k); }
  }

  lemma NoSections(lines: seq<string>, from: nat)
    requires from <= |lines| && Sections(lines, from) == []
    ensures UnitEnd(lines, from) == |lines|
    ensures forall j, k :: from <= j < k < |lines| ==> Heading(lines[j]).None? || Heading(lines[k]).None?
  {
    hide Heading, Heads;
    HeadsExact(lines, from);
    var heads := Heads(lines, from);
    if heads != [] { FirstEndIs(lines, heads, 1); }
    assert |heads| <= 1;
    forall j, k | from <= j < k < |lines|
      ensures Heading(lines[j]).None? || Heading(lines[k]).None?
    {
      assert j !in heads || k !in heads;
    }
  }

  function UnitsOf(lines: seq<string>, from: nat): seq<seq<Cell>>
    requires from <= |lines|
    decreases |lines| - from
  {
    var s := NextStart(lines, from);
    if s == |lines| then []
    else
      UnitEndAfter(lines, s + 1);
      [Unit(lines, s)] + UnitsOf(lines, UnitEnd(lines, s + 1))
  }

  function Flat(units: seq<seq<Cell>>): seq<Cell> {
    if units == [] then [] else units[0] + Flat(units[1..])
  }

  /** Cells in order and apart from each other, within the lines from `from` to before `end`. */
  ghost predicate Ordered(cells: seq<Cell>, from: nat, end: nat) {
    && (forall i :: 0 <= i < |cells| ==> from <= cells[i].start <= cells[i].end < end)
    && (forall i, j :: 0 <= i < j < |cells| ==> cells[i].end < cells[j].start)
  }

  lemma OrderedJoin(a: seq<Cell>, b: seq<Cell>, from: nat, mid: nat, end: nat)
    requires Ordered(a, from, mid) && Ordered(b, mid, end) && from <= mid <= end
    ensures Ordered(a + b, from, end)
  {
  }

  lemma UnitOrdered(lines: seq<string>, s: nat)
    requires s < |lines|
    ensures Ordered(Unit(lines, s), s, UnitEnd(lines, s + 1))
  {
    hide Heading, Heads, Sections, Closed, UnitEnd;
    HeadsExact(lines, s + 1);
    UnitEndAfter(lines, s + 1);
    var heads, cells := Heads(lines, s + 1), Sections(lines, s + 1);
    forall i | 0 <= i < |cells| ensures s < cells[i].start <= cells[i].end { SectionIs(lines, s + 1, i); }
    forall i, j | 0 <= i < j < |cells|
      ensures cells[i].end < cells[j].start
    {
      SectionIs(lines, s + 1, i);
      SectionIs(lines, s + 1, j);
      if j > i + 1 { assert heads[i + 1] < heads[j]; }
    }
  }

  /** Over all units the cells are in order and disjoint. */
  lemma {:induction false} UnitsOrdered(lines: seq<string>, from: nat)
    requires from <= |lines|
    ensures Ordered(Flat(UnitsOf(lines, from)), from, |lines|)
    decreases |lines| - from
  {
    hide Unit, UnitEnd;
    var s := NextStart(lines, from);
    if s < |lines| {
      UnitEndAfter(lines, s + 1);
      var next := UnitEnd(lines, s + 1);
      UnitsOrdered(lines, next);
      UnitOrdered(lines, s);
      OrderedJoin(Unit(lines, s), Flat(UnitsOf(lines, next)), s, next, |lines|);
      assert UnitsOf(lines, from)[1..] == UnitsOf(lines, next);
    }
  }

  ghost predicate Begins(cells: seq<Cell>, k: nat) {
    exists i :: 0 <= i < |cells| && cells[i].start == k && cells[i].kind == TRANSACTION_START
  }

  /** No transaction start is lost: it begins a cell, unless it is the last heading of all. */
  lemma {:induction false} StartsKept(lines: seq<string>, from: nat, k: nat)
    requires from <= k < |lines| && IsStart(lines[k])
    ensures Begins(Flat(UnitsOf(lines, from)), k) || forall j :: k < j < |lines| ==> Heading(lines[j]).None?
    decreases |lines| - from
  {
    hide Heading, Unit, UnitEnd, IsStart;
    var s := NextStart(lines, from);
    var next := UnitEnd(lines, s + 1);
    UnitEndAfter(lines, s + 1);
    var rest := Flat(UnitsOf(lines, next));
    assert UnitsOf(lines, from)[1..] == UnitsOf(lines, next);
    var all := Flat(UnitsOf(lines, from));
    assert all == Unit(lines, s) + rest;
    if k < next {
      StartInUnit(lines, s, k);
      if Begins(Unit(lines, s), k) {
        var i :| 0 <= i < |Unit(lines, s)| && Unit(lines, s)[i].start == k && Unit(lines, s)[i].kind == TRANSACTION_START;
        assert all[i] == Unit(lines, s)[i];
      }
    } else {
      StartsKept(lines, next, k);
      if Begins(rest, k) {
        var i :| 0 <= i < |rest| && rest[i].start == k && rest[i].kind == TRANSACTION_START;
        assert all[|Unit(lines, s)| + i] == rest[i];
      }
    }
  }

  /** A heading before the end of its unit opens a closed section or is the last heading. */
  lemma OpenOrClosed(lines: seq<string>, from: nat, i: nat)
    requires from <= |lines| && i < |Heads(lines, from)| && Heads(lines, from)[i] < UnitEnd(lines, from)
    ensures i < |Sections(lines, from)| || i == |Heads(lines, from)| - 1
  {
    hide Heading, Heads;
    HeadsExact(lines, from);
    FirstEndIs(lines, Heads(lines, from), 1);
  }

  lemma StartInUnit(lines: seq<string>, s: nat, k: nat)
    requires s <= k < |lines| && IsStart(lines[k]) && k < UnitEnd(lines, s + 1)
    ensures Begins(Unit(lines, s), k) || forall j :: k < j < |lines| ==> Heading(lines[j]).None?
  {
    hide Heading, Heads, Sections, Closed, UnitEnd;
    if k == s {
      assert Unit(lines, s)[0].start == k;
    } else {
      HeadingIs(lines[k], 0);
      HeadsExact(lines, s + 1);
      var heads := Heads(lines, s + 1);
      assert k in heads;
      var i :| 0 <= i < |heads| && heads[i] == k;
      OpenOrClosed(lines, s + 1, i);
      if i < |Sections(lines, s + 1)| {
        SectionIs(lines, s + 1, i);
        assert Unit(lines, s)[i + 1] == Sections(lines, s + 1)[i];
      } else {
        forall j | k < j < |lines| ensures Heading(lines[j]).None? { NoneBetween(lines, s + 1, i, j); }
      }
    }
  }

  // ---- The section loop ----

  /** The loop has passed the first `j` headings: all but the last of them are closed. */
  ghost predicate Underway(lines: seq<string>, heads: seq<nat>, j: nat, index: nat, cells: seq<Cell>, cur: nat, key: Section) {
    && HeadsOk(lines, heads) && j <= |heads| && index <= |lines| && heads[j..] == Heads(lines, index)
    && (forall i :: 0 <= i < |heads| ==> 0 < heads[i])
    && (forall i :: 1 <= i < j ==> Heading(lines[heads[i]]) != Some(TRANSACTION_END))
    && (if j == 0 then cur == 0 && cells == []
        else cur == heads[j - 1] && Heading(lines[cur]) == Some(key) && cells == CellsOf(lines, heads, j - 1))
  }

  lemma Entered(lines: seq<string>, from: nat, key: Section)
    requires 0 < from <= |lines|
    ensures Underway(lines, Heads(lines, from), 0, from, [], 0, key)
  {
    HeadsExact(lines, from);
  }

  /** A heading is passed. */
  lemma Passes(lines: seq<string>, heads: seq<nat>, j: nat, index: nat, cells: seq<Cell>, cur: nat, key: Section)
    requires Underway(lines, heads, j, index, cells, cur, key) && index < |lines| && Heading(lines[index]).Some?
    ensures (cur == 0 <==> j == 0) && j < |heads| && heads[j] == index && HeadsOk(lines, heads)
    ensures j == 0 ==> Underway(lines, heads, 1, index + 1, cells, index, Heading(lines[index]).value)
    ensures j > 0 ==> index > 0 && cells + [Cell(key, cur, index - 1)] == CellsOf(lines, heads, j)
    ensures forall i :: 1 <= i < j ==> Heading(lines[heads[i]]) != Some(TRANSACTION_END)
    ensures j > 0 && Heading(lines[index]) != Some(TRANSACTION_END) ==>
      Underway(lines, heads, j + 1, index + 1, cells + [Cell(key, cur, index - 1)], index, Heading(lines[index]).value)
  {
    hide Heading;
    assert Heads(lines, index) == [index] + Heads(lines, index + 1);
    assert heads[j] == heads[j..][0] == index;
    assert heads[j + 1..] == heads[j..][1..];
  }

  lemma Skips(lines: seq<string>, heads: seq<nat>, j: nat, index: nat, cells: seq<Cell>, cur: nat, key: Section)
    requires Underway(lines, heads, j, index, cells, cur, key) && index < |lines| && Heading(lines[index]).None?
    ensures Underway(lines, heads, j, index + 1, cells, cur, key)
  {
    hide Heading;
  }

  lemma Stopped(lines: seq<string>, from: nat, e: nat, cells: seq<Cell>)
    requires from <= |lines| && 0 < e < |Heads(lines, from)| && HeadsOk(lines, Heads(lines, from))
    requires cells == CellsOf(lines, Heads(lines, from), e)
    requires Heading(lines[Heads(lines, from)[e]]) == Some(TRANSACTION_END)
    requires forall i :: 1 <= i < e ==> Heading(lines[Heads(lines, from)[i]]) != Some(TRANSACTION_END)
    ensures cells == Sections(lines, from) && Heads(lines, from)[e] == UnitEnd(lines, from)
  {
    hide Heading, Heads;
    FirstEndAt(lines, Heads(lines, from), 1, e);
  }

  lemma RanOff(lines: seq<string>, from: nat, j: nat, cells: seq<Cell>, cur: nat, key: Section)
    requires from <= |lines| && Underway(lines, Heads(lines, from), j, |lines|, cells, cur, key)
    ensures cells == Sections(lines, from) && UnitEnd(lines, from) == |lines|
  {
    hide Heading;
    var heads := Heads(lines, from);
    assert j == |heads|;
    if heads != [] { FirstEndAt(lines, heads, 1, |heads|); }
  }

  lemma HeadingDef(line: string)
    ensures Heading(line) == match Scan(SNAPSHOT_SECTION_KEYWORDS, line) case None => None case Some(e) => Some(e.kind)
  {
  }

  lemma UnitsStep(lines: seq<string>, from: nat, units: seq<seq<Cell>>)
    requires from < |lines|
    ensures var s := NextStart(lines, from);
      if s == |lines| then UnitsOf(lines, from) == []
      else UnitEnd(lines, s + 1) <= |lines| && Unit(lines, s) != [] &&
           units + [Unit(lines, s)] + UnitsOf(lines, UnitEnd(lines, s + 1)) == units + UnitsOf(lines, from)
  {
    hide Heading, UnitEnd, NextStart, UnitsOf;
    UnitsUnfold(lines, from);
    var s := NextStart(lines, from);
    if s < |lines| {
      UnitEndAfter(lines, s + 1);
      var u, rest := Unit(lines, s), UnitsOf(lines, UnitEnd(lines, s + 1));
      assert units + [u] + rest == units + ([u] + rest);
    }
  }

  lemma UnitsUnfold(lines: seq<string>, from: nat)
    requires from < |lines|
    ensures var s := NextStart(lines, from);
      if s == |lines| then UnitsOf(lines, from) == []
      else UnitEnd(lines, s + 1) <= |lines| && UnitsOf(lines, from) == [Unit(lines, s)] + UnitsOf(lines, UnitEnd(lines, s + 1))
  {
    hide Heading, UnitEnd, NextStart, Unit;
    var s := NextStart(lines, from);
    if s < |lines| { UnitEndAfter(lines, s + 1); }
  }

  lemma NoMore(lines: seq<string>)
    ensures UnitsOf(lines, |lines|) == []
  {
  }

  // ---- The parser ----

  class KernelSnapshotParser {
    const trie: KernelSnapshotTrie

    ghost predicate Valid()
      reads this, trie
    {
      trie.Valid() && trie.entries == SNAPSHOT_SECTION_KEYWORDS
    }

    /** InitializeKeywordTrie. */
    constructor ()
      ensures Valid() && fresh(trie)
    {
      trie := new KernelSnapshotTrie();
      new;
      forall i: nat | i < 14 ensures SNAPSHOT_SECTION_KEYWORDS[i].key != "" { WhichIs(i); }
      InsertAll(SNAPSHOT_SECTION_KEYWORDS);
    }

    method InsertAll(keywords: seq<Keyword>)
      requires trie.Valid() && trie.entries == [] && forall i :: 0 <= i < |keywords| ==> keywords[i].key != ""
      modifies trie
      ensures trie.Valid() && trie.entries == keywords
    {
      for i := 0 to |keywords|
        invariant trie.Valid() && trie.entries == keywords[..i]
      {
        var ok := trie.Insert(keywords[i].key, keywords[i].kind);
      }
    }

    /** ProcessTransStart: on to the next line that starts a transaction. */
    method ProcessTransStart(lines: seq<string>, index0: nat) returns (found: bool, index: nat, cell: Cell)
      requires index0 <= |lines|
      ensures found == (NextStart(lines, index0) < |lines|)
      ensures index == if found then NextStart(lines, index0) + 1 else |lines|
      ensures found ==> cell == Cell(TRANSACTION_START, index - 1, index - 1)
    {
      index, cell := index0, Cell(INVALID_SECTION, 0, 0);
      while index < |lines| && !(SNAPSHOT_SECTION_KEYWORDS[0].key <= lines[index])
        invariant index <= |lines| && NextStart(lines, index0) == NextStart(lines, index)
      {
        index := index + 1;
      }
      found := index < |lines|;
      if found {
        cell := Cell(TRANSACTION_START, index, index);
        index := index + 1;
      }
    }

    /** ParseSnapshotUnit: the cells passed to the section parsers, and the line to go on from. */
    method ParseSnapshotUnit(lines: seq<string>, index0: nat) returns (cells: seq<Cell>, index: nat)
      requires Valid() && index0 < |lines|
      ensures index0 < index <= |lines|
      ensures var s := NextStart(lines, index0);
        if s == |lines| then cells == [] && index == |lines|
        else cells == Unit(lines, s) && index == UnitEnd(lines, s + 1) && Tiled(lines, cells, s, index)
    {
      hide Heading, Tiled, Sections, UnitEnd;
      var found, i, first := ProcessTransStart(lines, index0);
      if !found { return [], i; }
      var sections;
      sections, index := ParseSections(lines, i);
      UnitEndAfter(lines, i);
      UnitTiled(lines, i - 1);
      cells := [first] + sections;
    }

    /** The section loop of ParseSnapshotUnit; line 0 stands for "no section open". */
    method ParseSections(lines: seq<string>, index0: nat) returns (cells: seq<Cell>, index: nat)
      requires Valid() && 0 < index0 <= |lines|
      ensures cells == Sections(lines, index0) && index == UnitEnd(lines, index0)
    {
      hide Heading, Heads, HeadsOk, Sections, UnitEnd, Closed;
      Entered(lines, index0, INVALID_SECTION);
      cells, index := [], index0;
      var curSectionLineNum: nat := 0;
      var lastSectionKey := INVALID_SECTION;
      ghost var heads := Heads(lines, index0);
      ghost var j: nat := 0;                  // headings passed
      while index < |lines|
        invariant index0 <= index <= |lines|
        invariant Underway(lines, heads, j, index, cells, curSectionLineNum, lastSectionKey)
      {
        var key := trie.MatchPrefix(lines[index]);
        assert key == Heading(lines[index]) by { HeadingDef(lines[index]); }
        if key.Some? {
          Passes(lines, heads, j, index, cells, curSectionLineNum, lastSectionKey);
          j := j + 1;
          if curSectionLineNum == 0 {
            lastSectionKey, curSectionLineNum := key.value, index;
          } else {
            cells := cells + [Cell(lastSectionKey, curSectionLineNum, index - 1)];
            lastSectionKey, curSectionLineNum := key.value, index;
            if lastSectionKey == TRANSACTION_END {
              Stopped(lines, index0, j - 1, cells);
              return;
            }
          }
        } else {
          Skips(lines, heads, j, index, cells, curSectionLineNum, lastSectionKey);
        }
        index := index + 1;
      }
      RanOff(lines, index0, j, cells, curSectionLineNum, lastSectionKey);
    }

    /** ParseSameSeqSnapshot: every unit of the lines; each one advances, so the loop ends. */
    method ParseSameSeqSnapshot(lines: seq<string>) returns (units: seq<seq<Cell>>)
      requires Valid()
      ensures units == UnitsOf(lines, 0)
      ensures Ordered(Flat(units), 0, |lines|)
      ensures forall k :: 0 <= k < |lines| && IsStart(lines[k]) ==>
        Begins(Flat(units), k) || forall j :: k < j < |lines| ==> Heading(lines[j]).None?
    {
      hide Heading, Unit, UnitEnd, IsStart, Flat, Ordered, Begins, UnitsOf, NextStart;
      units := [];
      var curLineNum: nat := 0;
      while curLineNum < |lines|
        invariant curLineNum <= |lines| && units + UnitsOf(lines, curLineNum) == UnitsOf(lines, 0)
        decreases |lines| - curLineNum
      {
        var cells, next := ParseSnapshotUnit(lines, curLineNum);
        UnitsStep(lines, curLineNum, units);
        NoMore(lines);
        if cells != [] { units := units + [cells]; }
        curLineNum := next;
      }
      NoMore(lines);
      assert units == UnitsOf(lines, 0);
      UnitsOrdered(lines, 0);
      forall k | 0 <= k < |lines| && IsStart(lines[k])
        ensures Begins(Flat(units), k) || forall j :: k < j < |lines| ==> Heading(lines[j]).None?
      {
        StartsKept(lines, 0, k);
      }
    }
  }
}
