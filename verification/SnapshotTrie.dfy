/** KernelSnapshotTrie: headings found by walking a trie, agreeing with a scan of all inserted keys. */
module SnapshotTrie {
  import opened Common

  datatype Section =
    | TRANSACTION_START | EXCEPTION_REGISTERS | ABORT_ADDRESS_PTE | THREAD_INFO | DUMP_REGISTERS
    | DUMP_FPU_OR_SIMD_REGISTERS | STACK_BACKTRACE | ELF_LOAD_INFO | DATA_ON_TARGET_OF_LAST_BL | DATA_AROUND_REGS
    | CONTENT_OF_USER_STACK | BASE_ACTV_DUMPED | PROCESS_STATISTICS | TRANSACTION_END | INVALID_SECTION

  datatype Keyword = Keyword(kind: Section, key: string)

  datatype Node = Node(isEnd: bool, kind: Section, children: map<char, nat>)

  // ---- The reference: a scan of the inserted keys ----

  /** The last entry among those with the shortest key that begins `line`. */
  function Scan(entries: seq<Keyword>, line: string): Option<Keyword> {
    if entries == [] then None
    else
      var best := Scan(entries[..|entries| - 1], line);
      var e := entries[|entries| - 1];
      if e.key != "" && e.key <= line && (best.None? || |e.key| <= |best.value.key|) then Some(e) else best
  }

  /** What the scan finds, said without its order of search. */
  lemma {:induction false} ScanFinds(entries: seq<Keyword>, line: string)
    ensures Scan(entries, line).None? <==> forall i :: 0 <= i < |entries| ==> entries[i].key == "" || !(entries[i].key <= line)
    ensures Scan(entries, line).Some? ==>
      && Scan(entries, line).value in entries
      && Scan(entries, line).value.key != "" && Scan(entries, line).value.key <= line
      && forall i :: 0 <= i < |entries| && entries[i].key != "" && entries[i].key <= line ==>
           |Scan(entries, line).value.key| <= |entries[i].key|
    ensures Scan(entries, line).Some? ==> Latest(entries, Scan(entries, line).value.key) == Some(Scan(entries, line).value.kind)
  {
    if entries != [] { ScanFinds(entries[..|entries| - 1], line); }
  }

  /** The section last inserted for a key. */
  function Latest(entries: seq<Keyword>, key: string): Option<Section> {
    if entries == [] then None
    else if entries[|entries| - 1].key == key then Some(entries[|entries| - 1].kind)
    else Latest(entries[..|entries| - 1], key)
  }

  /** A key inserted again takes the later section. */
  lemma {:induction false} LatestIs(entries: seq<Keyword>, key: string, i: nat)
    requires i < |entries| && entries[i].key == key && forall j :: i < j < |entries| ==> entries[j].key != key
    ensures Latest(entries, key) == Some(entries[i].kind)
  {
    var m := |entries| - 1;
    if i < m {
      forall j | 0 <= j < m ensures entries[..m][j] == entries[j] {}
      LatestIs(entries[..m], key, i);
    }
  }

  /** The scan finds a key exactly when it is a key, begins the line and no shorter one does. */
  lemma {:induction false} ScanIs(entries: seq<Keyword>, line: string, n: nat)
    requires 0 < n <= |line| && Latest(entries, line[..n]).Some?
    requires forall m :: 0 < m < n ==> Latest(entries, line[..m]).None?
    ensures Scan(entries, line) == Some(Keyword(Latest(entries, line[..n]).value, line[..n]))
  {
    ScanFinds(entries, line);
    KeyIn(entries, line[..n]);
    var k := Scan(entries, line).value.key;
    assert k == line[..|k|];
    assert |k| <= n;
  }

  lemma {:induction false} ScanNone(entries: seq<Keyword>, line: string)
    requires forall m :: 0 < m <= |line| ==> Latest(entries, line[..m]).None?
    ensures Scan(entries, line).None?
  {
    ScanFinds(entries, line);
    forall i | 0 <= i < |entries|
      ensures entries[i].key == "" || !(entries[i].key <= line)
    {
      KeyIn(entries, entries[i].key);
      if entries[i].key <= line { assert entries[i].key == line[..|entries[i].key|]; }
    }
  }

  lemma {:induction false} KeyIn(entries: seq<Keyword>, key: string)
    ensures Latest(entries, key).Some? <==> exists i :: 0 <= i < |entries| && entries[i].key == key
  {
    if entries != [] {
      var rest := entries[..|entries| - 1];
      KeyIn(rest, key);
      if exists i :: 0 <= i < |rest| && rest[i].key == key {
        var i :| 0 <= i < |rest| && rest[i].key == key;
        assert entries[i].key == key;
      }
      if entries[|entries| - 1].key != key && exists i :: 0 <= i < |entries| && entries[i].key == key {
        var i :| 0 <= i < |entries| && entries[i].key == key;
        assert rest[i].key == key;
      }
    }
  }

  // ---- The trie ----

  ghost predicate HasPath(paths: seq<string>, p: string) { exists n :: 0 <= n < |paths| && paths[n] == p }

  /** Node `n` is owned by the node one character shorter. */
  ghost predicate Owned(nodes: seq<Node>, paths: seq<string>, n: nat)
    requires |nodes| == |paths| && n < |nodes| && paths[n] != ""
  {
    var p, c := paths[n][..|paths[n]| - 1], paths[n][|paths[n]| - 1];
    exists m :: 0 <= m < |nodes| && paths[m] == p && c in nodes[m].children && nodes[m].children[c] == n
  }

  ghost predicate ChildOk(nodes: seq<Node>, paths: seq<string>, n: nat, c: char)
    requires |nodes| == |paths| && n < |nodes|
  {
    c in nodes[n].children ==> nodes[n].children[c] < |paths| && paths[nodes[n].children[c]] == paths[n] + [c]
  }

  /** Each node stands for one string; a node ends a key exactly when its string was inserted. */
  ghost predicate NodeOk(nodes: seq<Node>, paths: seq<string>, entries: seq<Keyword>, n: nat)
    requires |nodes| == |paths| && n < |nodes|
  {
    && (forall c :: ChildOk(nodes, paths, n, c))
    && (paths[n] != "" ==> Owned(nodes, paths, n))
    && (paths[n] == "" ==> !nodes[n].isEnd && n == 0)
    && (paths[n] != "" ==>
          Latest(entries, paths[n]) == if nodes[n].isEnd then Some(nodes[n].kind) else None)
  }

  ghost predicate TrieOk(nodes: seq<Node>, paths: seq<string>, entries: seq<Keyword>) {
    && |nodes| == |paths| > 0 && paths[0] == ""
    && (forall n :: 0 <= n < |nodes| ==> NodeOk(nodes, paths, entries, n))
    && (forall i, j :: 0 <= i < j < |paths| ==> paths[i] != paths[j])
    && (forall k :: 0 <= k < |entries| ==> HasPath(paths, entries[k].key))
  }

  /** Every beginning of a stored string is stored. */
  lemma {:induction false} Beginnings(nodes: seq<Node>, paths: seq<string>, entries: seq<Keyword>, n: nat, j: nat)
    requires TrieOk(nodes, paths, entries) && n < |nodes| && j <= |paths[n]|
    ensures HasPath(paths, paths[n][..j])
    decreases |paths[n]|
  {
    if j == |paths[n]| {
      assert paths[n][..j] == paths[n];
    } else {
      assert NodeOk(nodes, paths, entries, n);
      var m :| 0 <= m < |nodes| && paths[m] == paths[n][..|paths[n]| - 1];
      Beginnings(nodes, paths, entries, m, j);
      assert paths[m][..j] == paths[n][..j];
    }
  }

  /** Where a string continues, so does the walk. */
  lemma HasChild(nodes: seq<Node>, paths: seq<string>, entries: seq<Keyword>, n: nat, c: char)
    requires TrieOk(nodes, paths, entries) && n < |nodes| && HasPath(paths, paths[n] + [c])
    ensures c in nodes[n].children
  {
    var m :| 0 <= m < |paths| && paths[m] == paths[n] + [c];
    assert NodeOk(nodes, paths, entries, m) && Owned(nodes, paths, m);
    assert paths[m][..|paths[m]| - 1] == paths[n];
    var o :| 0 <= o < |nodes| && paths[o] == paths[n] && c in nodes[o].children;
  }

  lemma KeyPath(nodes: seq<Node>, paths: seq<string>, entries: seq<Keyword>, key: string)
    requires TrieOk(nodes, paths, entries) && Latest(entries, key).Some?
    ensures HasPath(paths, key)
  {
    KeyIn(entries, key);
  }

  lemma KeyBeginnings(nodes: seq<Node>, paths: seq<string>, entries: seq<Keyword>, line: string, m: nat, j: nat)
    requires TrieOk(nodes, paths, entries) && j <= m <= |line| && Latest(entries, line[..m]).Some?
    ensures HasPath(paths, line[..j])
  {
    KeyPath(nodes, paths, entries, line[..m]);
    var n :| 0 <= n < |paths| && paths[n] == line[..m];
    Beginnings(nodes, paths, entries, n, j);
    assert line[..m][..j] == line[..j];
  }

  /** A new leaf below node `n`. */
  lemma AddLeaf(nodes: seq<Node>, paths: seq<string>, entries: seq<Keyword>, n: nat, c: char)
    requires TrieOk(nodes, paths, entries) && n < |nodes| && c !in nodes[n].children
    ensures TrieOk(nodes[n := nodes[n].(children := nodes[n].children[c := |nodes|])] + [Node(false, INVALID_SECTION, map[])],
                   paths + [paths[n] + [c]], entries)
  {
    var nodes' := nodes[n := nodes[n].(children := nodes[n].children[c := |nodes|])] + [Node(false, INVALID_SECTION, map[])];
    var paths' := paths + [paths[n] + [c]];
    if HasPath(paths, paths[n] + [c]) { HasChild(nodes, paths, entries, n, c); }
    forall m | 0 <= m < |nodes|
      ensures NodeOk(nodes', paths', entries, m)
    {
      assert NodeOk(nodes, paths, entries, m);
      forall d ensures ChildOk(nodes', paths', m, d) { assert ChildOk(nodes, paths, m, d); }
      if paths[m] != "" { OwnedStill(nodes, paths, m, nodes', paths'); }
    }
    LeafOk(nodes, paths, entries, n, c, nodes', paths');
    forall k | 0 <= k < |entries|
      ensures HasPath(paths', entries[k].key)
    {
      var m :| 0 <= m < |paths| && paths[m] == entries[k].key;
      assert paths'[m] == entries[k].key;
    }
  }

  lemma OwnedStill(nodes: seq<Node>, paths: seq<string>, m: nat, nodes': seq<Node>, paths': seq<string>)
    requires |nodes| == |paths| && m < |nodes| && paths[m] != "" && Owned(nodes, paths, m)
    requires |nodes'| == |paths'| && |nodes| <= |nodes'| && paths == paths'[..|paths|]
    requires forall o, d :: 0 <= o < |nodes| && d in nodes[o].children ==>
      d in nodes'[o].children && nodes'[o].children[d] == nodes[o].children[d]
    ensures Owned(nodes', paths', m)
  {
    var p, c := paths[m][..|paths[m]| - 1], paths[m][|paths[m]| - 1];
    var o :| 0 <= o < |nodes| && paths[o] == p && c in nodes[o].children && nodes[o].children[c] == m;
    assert paths'[o] == p && paths'[m] == paths[m];
  }

  lemma LeafOk(nodes: seq<Node>, paths: seq<string>, entries: seq<Keyword>, n: nat, c: char,
               nodes': seq<Node>, paths': seq<string>)
    requires TrieOk(nodes, paths, entries) && n < |nodes| && !HasPath(paths, paths[n] + [c])
    requires nodes' == nodes[n := nodes[n].(children := nodes[n].children[c := |nodes|])] + [Node(false, INVALID_SECTION, map[])]
    requires paths' == paths + [paths[n] + [c]]
    ensures NodeOk(nodes', paths', entries, |nodes|)
  {
    var l := |nodes|;
    assert paths'[l] == paths[n] + [c] && paths'[l][..|paths'[l]| - 1] == paths[n] && paths'[n] == paths[n];
    assert c in nodes'[n].children && nodes'[n].children[c] == l;
    if Latest(entries, paths'[l]).Some? { KeyPath(nodes, paths, entries, paths'[l]); }
  }

  /** Marking the node of a key. */
  lemma MarkEnd(nodes: seq<Node>, paths: seq<string>, entries: seq<Keyword>, n: nat, kind: Section)
    requires TrieOk(nodes, paths, entries) && n < |nodes| && paths[n] != ""
    ensures TrieOk(nodes[n := nodes[n].(isEnd := true, kind := kind)], paths, entries + [Keyword(kind, paths[n])])
  {
    var nodes' := nodes[n := nodes[n].(isEnd := true, kind := kind)];
    var entries' := entries + [Keyword(kind, paths[n])];
    assert entries'[..|entries|] == entries;
    forall m | 0 <= m < |nodes|
      ensures NodeOk(nodes', paths, entries', m)
    {
      assert NodeOk(nodes, paths, entries, m);
      forall d ensures ChildOk(nodes', paths, m, d) { assert ChildOk(nodes, paths, m, d); }
      if paths[m] != "" { OwnedStill(nodes, paths, m, nodes', paths); }
    }
  }

  class KernelSnapshotTrie {
    var nodes: seq<Node>                // the root first; `children` holds owners' links
    ghost var paths: seq<string>        // the string each node stands for
    ghost var entries: seq<Keyword>     // what was inserted so far

    ghost predicate Valid()
      reads this
    {
      TrieOk(nodes, paths, entries)
    }

    constructor ()
      ensures Valid() && entries == []
    {
      nodes, paths, entries := [Node(false, INVALID_SECTION, map[])], [""], [];
    }

    /** Insert. */
    method Insert(key: string, kind: Section) returns (ok: bool)
      requires Valid()
      modifies this
      ensures Valid() && ok == (key != "")
      ensures entries == if ok then old(entries) + [Keyword(kind, key)] else old(entries)
    {
      hide TrieOk, NodeOk;
      if key == "" { return false; }
      RootFirst(nodes, paths, entries);
      var current: nat := 0;
      for i := 0 to |key|
        invariant Valid() && entries == old(entries) && |nodes| == |paths|
        invariant current < |nodes| && paths[current] == key[..i]
      {
        var ch := key[i];
        ghost var next := key[..i + 1];
        assert key[..i] + [ch] == next;
        if ch !in nodes[current].children {
          AddLeaf(nodes, paths, entries, current, ch);
          nodes := nodes[current := nodes[current].(children := nodes[current].children[ch := |nodes|])]
            + [Node(false, INVALID_SECTION, map[])];
          paths := paths + [paths[current] + [ch]];
        }
        ChildPath(nodes, paths, entries, current, ch);
        current := nodes[current].children[ch];
      }
      assert key[..|key|] == key;
      MarkEnd(nodes, paths, entries, current, kind);
      nodes := nodes[current := nodes[current].(isEnd := true, kind := kind)];
      entries := entries + [Keyword(kind, key)];
      ok := true;
    }

    /** MatchPrefix: agrees with the scan of everything inserted so far. */
    method MatchPrefix(key: string) returns (kind: Option<Section>)
      requires Valid()
      ensures kind == match Scan(entries, key) case None => None case Some(e) => Some(e.kind)
    {
      hide TrieOk, NodeOk, Scan;
      RootFirst(nodes, paths, entries);
      var current: nat := 0;
      for i := 0 to |key|
        invariant |nodes| == |paths| && current < |nodes| && paths[current] == key[..i]
        invariant forall m :: 0 < m <= i ==> Latest(entries, key[..m]).None?
      {
        var ch := key[i];
        assert key[..i] + [ch] == key[..i + 1];
        if ch !in nodes[current].children {
          Dead(nodes, paths, entries, current, key, i);
          ScanNone(entries, key);
          return None;
        }
        ChildPath(nodes, paths, entries, current, ch);
        current := nodes[current].children[ch];
        EndsKey(nodes, paths, entries, current);
        if nodes[current].isEnd {
          ScanIs(entries, key, i + 1);
          return Some(nodes[current].kind);
        }
      }
      ScanNone(entries, key);
      return None;
    }
  }

  lemma RootFirst(nodes: seq<Node>, paths: seq<string>, entries: seq<Keyword>)
    requires TrieOk(nodes, paths, entries)
    ensures |nodes| == |paths| > 0 && paths[0] == ""
  {
  }

  lemma ChildPath(nodes: seq<Node>, paths: seq<string>, entries: seq<Keyword>, n: nat, c: char)
    requires TrieOk(nodes, paths, entries) && n < |nodes| && c in nodes[n].children
    ensures |nodes| == |paths| && nodes[n].children[c] < |nodes| && paths[nodes[n].children[c]] == paths[n] + [c]
  {
    assert NodeOk(nodes, paths, entries, n) && ChildOk(nodes, paths, n, c);
  }

  lemma EndsKey(nodes: seq<Node>, paths: seq<string>, entries: seq<Keyword>, n: nat)
    requires TrieOk(nodes, paths, entries) && n < |nodes|
    ensures |nodes| == |paths|
    ensures paths[n] != "" ==> Latest(entries, paths[n]) == if nodes[n].isEnd then Some(nodes[n].kind) else None
  {
    assert NodeOk(nodes, paths, entries, n);
  }

  /** No key begins the line where the walk cannot go on and none did so far. */
  lemma Dead(nodes: seq<Node>, paths: seq<string>, entries: seq<Keyword>, n: nat, key: string, i: nat)
    requires TrieOk(nodes, paths, entries) && n < |nodes| && i < |key| && key[i] !in nodes[n].children
    requires |nodes| == |paths| && paths[n] == key[..i] && forall m :: 0 < m <= i ==> Latest(entries, key[..m]).None?
    ensures forall m :: 0 < m <= |key| ==> Latest(entries, key[..m]).None?
  {
    assert key[..i] + [key[i]] == key[..i + 1];
    if HasPath(paths, key[..i + 1]) { HasChild(nodes, paths, entries, n, key[i]); }
    forall m | i < m <= |key|
      ensures Latest(entries, key[..m]).None?
    {
      if Latest(entries, key[..m]).Some? { KeyBeginnings(nodes, paths, entries, key, m, i + 1); }
    }
  }
}
