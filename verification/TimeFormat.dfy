/** Rewriting time formats through a trie (sqlglot/time.py, `format_time`). */
module TimeFormat {
  import opened Collections
  import opened Trie

  type Table = map<string, string>

  // ---- The reference: greedy longest match ----

  /** Length of the longest non-empty key among s[..1], ..., s[..n], or 0. */
  function Longest(keys: set<string>, s: string, n: nat): (r: nat)
    requires n <= |s|
    ensures r <= n && (r > 0 ==> s[..r] in keys)
    ensures forall m :: r < m <= n ==> s[..m] !in keys
  {
    if n == 0 then 0 else if s[..n] in keys then n else Longest(keys, s, n - 1)
  }

  /** Cut off the longest key the text starts with, or one character if there is none. */
  function Greedy(keys: set<string>, s: string): seq<string>
    decreases |s|
  {
    if s == "" then [] else
      var n := Longest(keys, s, |s|);
      var cut := if n == 0 then 1 else n;
      [s[..cut]] + Greedy(keys, s[cut..])
  }

  function Translate(table: Table, chunk: string): string {
    if chunk in table then table[chunk] else chunk
  }

  /** "".join(mapping.get(chars, chars) for chars in chunks) */
  function Render(table: Table, chunks: seq<string>): string {
    if chunks == [] then "" else Translate(table, chunks[0]) + Render(table, chunks[1..])
  }

  function Concat(chunks: seq<string>): string {
    if chunks == [] then "" else chunks[0] + Concat(chunks[1..])
  }

  // ---- The loop ----

  /** The chunks the loop still emits from the state (start, from, end, sym): the window is
      s[start..end], the trie position spells s[from..end - 1], and `sym` is the length of the
      remembered symbol, 0 for None. */
  ghost function Run(keys: set<string>, s: string, start: nat, from: nat, end: nat, sym: nat): seq<string>
    requires start <= from < end <= |s| + 1 && start + sym < end
    decreases |s| - start, |s| + 1 - end
  {
    if end > |s| then []
    else if Lookup(keys, s[from..end - 1], [s[end - 1]]) == FAILED then
      if sym > 0 then [s[start..start + sym]] + Run(keys, s, start + sym, end - 1, end, 0)
      else [s[start..start + 1]] + Run(keys, s, start + 1, start + 1, start + 2, 0)
    else if end == |s| then [s[start..end]]
    else
      var sym' := if Lookup(keys, s[from..end - 1], [s[end - 1]]) == EXISTS then end - start else sym;
      Run(keys, s, start, from, end + 1, sym')
  }

  /** What the program computes for a non-empty string; the empty one gives None. */
  ghost function Formatted(table: Table, s: string): string
    requires s != ""
  {
    Render(table, Run(table.Keys, s, 0, 0, 1, 0))
  }

  /** `trie or new_trie(mapping)` */
  method TrieOf(table: Table, given: Trie?<char>) returns (trie: Trie<char>)
    requires given != null ==> given.Valid() && given.keys == table.Keys
    ensures trie.Valid() && trie.keys == table.Keys
  {
    if given != null {
      return given;
    }
    trie := new Trie<char>();
    var todo := table.Keys;
    while todo != {}
      invariant todo <= table.Keys && trie.Valid() && trie.keys == table.Keys - todo
      invariant fresh(trie) && fresh(trie.nodes)
      decreases todo
    {
      var k :| k in todo;
      trie.Insert(k);
      todo := todo - {k};
    }
  }

  /** What has been emitted, and what is still to come, is the whole run. */
  ghost predicate Emits(keys: set<string>, s: string, chunks: seq<string>, start: nat, from: nat, end: nat, sym: nat)
    requires start <= from < end <= |s| + 1 && start + sym < end
  {
    chunks + Run(keys, s, start, from, end, sym) == Run(keys, s, 0, 0, 1, 0)
  }

  lemma {:induction false} EmitsStep(keys: set<string>, s: string, chunks: seq<string>, start: nat, from: nat, end: nat,
      sym: nat)
    requires start <= from < end <= |s| && start + sym < end && Emits(keys, s, chunks, start, from, end, sym)
    ensures var result := Lookup(keys, s[from..end - 1], [s[end - 1]]);
      var sym' := if result == EXISTS then end - start else sym;
      if result == FAILED && sym > 0 then Emits(keys, s, chunks + [s[start..start + sym]], start + sym, end - 1, end, 0)
      else if result == FAILED then Emits(keys, s, chunks + [s[start..start + 1]], start + 1, start + 1, start + 2, 0)
      else Emits(keys, s, chunks + if end == |s| then [s[start..end]] else [], start, from, end + 1, sym')
  {
    hide Run, Lookup;
    RunStep(keys, s, start, from, end, sym);
    if end == |s| {
      RunEnds(keys, s, start, from, end + 1, sym);
      RunEnds(keys, s, start, from, end + 1, end - start);
    }
  }

  lemma {:induction false} EmitsAll(keys: set<string>, s: string, chunks: seq<string>, start: nat, from: nat, end: nat,
      sym: nat)
    requires start <= from < end == |s| + 1 && start + sym < end && Emits(keys, s, chunks, start, from, end, sym)
    ensures chunks == Run(keys, s, 0, 0, 1, 0)
  {
    hide Run;
    RunEnds(keys, s, start, from, end, sym);
  }

  lemma {:induction false} RunSpells(keys: set<string>, s: string)
    ensures Concat(Run(keys, s, 0, 0, 1, 0)) == s && Emits(keys, s, [], 0, 0, 1, 0)
    ensures s == "" ==> Run(keys, s, 0, 0, 1, 0) == []
  {
    RunConcat(keys, s, 0, 0, 1, 0);
    assert s[0..] == s;
  }

  lemma {:induction false} RunFormats(table: Table, s: string)
    requires s != ""
    ensures Formatted(table, s) == Render(table, Run(table.Keys, s, 0, 0, 1, 0))
  {
  }

  method FormatTime(s: string, table: Table, given: Trie?<char>) returns (r: Option<string>, chunks: seq<string>)
    requires given != null ==> given.Valid() && given.keys == table.Keys
    ensures r == if s == "" then None else Some(Formatted(table, s))
    ensures chunks == Run(table.Keys, s, 0, 0, 1, 0) && Concat(chunks) == s
  {
    hide *;
    RunSpells(table.Keys, s);
    if s == "" {
      return None, [];
    }
    var trie := TrieOf(table, given);
    trie.RootHolds();
    var start: nat, end: nat, sym: nat := 0, 1, 0;
    var current := trie.root;
    chunks := [];
    ghost var from: nat := 0;
    while end <= |s|
      invariant start <= from < end <= |s| + 1 && start + sym < end
      invariant trie.Valid() && trie.keys == table.Keys && current in trie.nodes
      invariant end <= |s| ==> current.path == s[from..end - 1]
      invariant Emits(table.Keys, s, chunks, start, from, end, sym)
      decreases |s| - start, |s| + 1 - end
    {
      hide *;
      EmitsStep(table.Keys, s, chunks, start, from, end, sym);
      trie.RootHolds();
      var chars := s[start..end];
      var result, next := trie.InTrie(current, [s[end - 1]]);
      if result == FAILED {
        if sym > 0 {
          chars := s[start..start + sym];
          start, sym, from := start + sym, 0, end - 1;
        } else {
          chars := s[start..start + 1];
          start, end := start + 1, start + 2;
          from := start;
        }
        chunks, current := chunks + [chars], trie.root;
      } else {
        if result == EXISTS {
          sym := end - start;
        }
        assert chunks + [] == chunks;
        end, current := end + 1, next;
        if end > |s| {
          chunks := chunks + [chars];
        }
      }
    }
    EmitsAll(table.Keys, s, chunks, start, from, end, sym);
    RunFormats(table, s);
    var text := Join(chunks, table);
    r := Some(text);
  }

  method Join(chunks: seq<string>, table: Table) returns (r: string)
    ensures r == Render(table, chunks)
  {
    r := "";
    var i := |chunks|;
    while i > 0
      invariant 0 <= i <= |chunks| && r == Render(table, chunks[i..])
    {
      i := i - 1;
      r := Translate(table, chunks[i]) + r;
    }
  }

  // ---- Nothing is lost ----

  lemma {:induction false} CutOff(s: string, i: nat, j: nat)
    requires i <= j <= |s|
    ensures s[i..j] + s[j..] == s[i..]
  {
  }

  lemma {:induction false} ConcatCons(chunk: string, rest: seq<string>)
    ensures Concat([chunk] + rest) == chunk + Concat(rest)
  {
    assert ([chunk] + rest)[1..] == rest;
  }

  lemma {:induction false} RenderCons(table: Table, chunk: string, rest: seq<string>)
    ensures Render(table, [chunk] + rest) == Translate(table, chunk) + Render(table, rest)
  {
    assert ([chunk] + rest)[1..] == rest;
  }

  /** One turn of the loop. */
  lemma {:induction false} RunStep(keys: set<string>, s: string, start: nat, from: nat, end: nat, sym: nat)
    requires start <= from < end <= |s| && start + sym < end
    ensures var found := Lookup(keys, s[from..end - 1], [s[end - 1]]);
      Run(keys, s, start, from, end, sym) ==
      if found == FAILED && sym > 0 then [s[start..start + sym]] + Run(keys, s, start + sym, end - 1, end, 0)
      else if found == FAILED then [s[start..start + 1]] + Run(keys, s, start + 1, start + 1, start + 2, 0)
      else if end == |s| then [s[start..end]]
      else Run(keys, s, start, from, end + 1, if found == EXISTS then end - start else sym)
  {
    hide Lookup;
  }

  lemma {:induction false} RunEnds(keys: set<string>, s: string, start: nat, from: nat, end: nat, sym: nat)
    requires start <= from < end <= |s| + 1 && start + sym < end
    ensures end > |s| ==> Run(keys, s, start, from, end, sym) == []
    ensures Concat([]) == ""
  {
  }

  /** Whatever the table, the chunks spell the input. */
  lemma {:induction false} RunConcat(keys: set<string>, s: string, start: nat, from: nat, end: nat, sym: nat)
    requires start <= from < end <= |s| + 1 && start + sym < end
    requires end == |s| + 1 ==> start == |s|
    ensures Concat(Run(keys, s, start, from, end, sym)) == s[start..]
    decreases |s| - start, |s| + 1 - end
  {
    hide Run, Lookup, Concat;
    RunEnds(keys, s, start, from, end, sym);
    if end > |s| {
      return;
    }
    RunStep(keys, s, start, from, end, sym);
    var found := Lookup(keys, s[from..end - 1], [s[end - 1]]);
    if found == FAILED {
      var next, from', end' := start + 1, start + 1, start + 2;
      if sym > 0 {
        next, from', end' := start + sym, end - 1, end;
      }
      RunConcat(keys, s, next, from', end', 0);
      ConcatCons(s[start..next], Run(keys, s, next, from', end', 0));
      CutOff(s, start, next);
    } else if end == |s| {
      ConcatCons(s[start..end], []);
      assert [s[start..end]] + [] == [s[start..end]];
    } else {
      RunConcat(keys, s, start, from, end + 1, if found == EXISTS then end - start else sym);
    }
  }

  // ---- When the loop is a greedy longest match ----

  /** Between a key and a longer key that extends it there are only keys. */
  ghost predicate NoGaps(keys: set<string>) {
    forall k {:trigger GapFree(keys, k)} :: k in keys ==> GapFree(keys, k)
  }

  ghost predicate GapFree(keys: set<string>, k: string) {
    forall i, j :: 1 <= i < j < |k| && k[..i] in keys ==> k[..j] in keys
  }

  ghost predicate NoKeyPrefix(keys: set<string>, r: string) {
    forall i :: 1 <= i <= |r| ==> r[..i] !in keys
  }

  ghost predicate Occurs(keys: set<string>, t: string) {
    exists i, j :: 0 <= i < j <= |t| && t[i..j] in keys
  }

  /** A start of a key on which no key is found yet hides no key further in. */
  ghost predicate NoHiddenKeys(keys: set<string>) {
    forall k, n {:trigger NoKeyPrefix(keys, k[..n])} ::
      k in keys && 1 <= n < |k| && NoKeyPrefix(keys, k[..n]) ==> !Occurs(keys, k[1..n])
  }

  ghost predicate Agree(keys: set<string>) {
    forall table: Table, s: string :: table.Keys == keys && s != "" ==>
      Formatted(table, s) == Render(table, Greedy(keys, s))
  }

  /** Once the trie has failed, no key is longer than the window before the failing character. */
  lemma {:induction false} WindowFails(keys: set<string>, s: string, start: nat, end: nat)
    requires start < end <= |s|
    requires Lookup(keys, s[start..end - 1], [s[end - 1]]) == FAILED
    ensures Longest(keys, s[start..], |s| - start) == Longest(keys, s[start..], end - 1 - start)
  {
    var t := s[start..];
    assert s[start..end - 1] + [s[end - 1]] == t[..end - start];
    forall m | end - start <= m <= |t| ensures t[..m] !in keys {
      assert t[..end - start] <= t[..m];
    }
    LongestIs(keys, t, end - 1 - start, |t|);
  }

  lemma {:induction false} LongestIs(keys: set<string>, t: string, n: nat, m: nat)
    requires n <= m <= |t| && forall l :: n < l <= m ==> t[..l] !in keys
    ensures Longest(keys, t, m) == Longest(keys, t, n)
  {
    if n < m { LongestIs(keys, t, n, m - 1); }
  }

  /** Without gaps, a window that starts with a key and leads to a key is itself a key. */
  lemma {:induction false} WindowIsKey(keys: set<string>, w: string, sym: nat)
    requires NoGaps(keys) && Extends(keys, w) && 0 < sym <= |w| && w[..sym] in keys
    ensures w in keys
  {
    var k :| k in keys && w <= k;
    assert GapFree(keys, k);
    assert k[..sym] == w[..sym] && k[..|w|] == w;
    if sym == |w| {
      assert w[..sym] == w;
    } else if |w| == |k| {
      assert w == k;
    }
  }

  /** Text in which no key occurs is copied character by character. */
  lemma {:induction false} NothingToRewrite(keys: set<string>, table: Table, t: string)
    requires table.Keys == keys && !Occurs(keys, t)
    ensures Render(table, Greedy(keys, t)) == t
    decreases |t|
  {
    if t != "" {
      assert forall m :: 1 <= m <= |t| ==> t[..m] == t[0..m];
      assert Longest(keys, t, |t|) == 0;
      forall i, j | 0 <= i < j <= |t[1..]| ensures t[1..][i..j] !in keys {
        assert t[1..][i..j] == t[i + 1..j + 1];
      }
      NothingToRewrite(keys, table, t[1..]);
      RenderCons(table, t[..1], Greedy(keys, t[1..]));
      assert t[..1] == t[0..1];
    }
  }

  lemma {:induction false} FromSecond(w: string, i: nat, j: nat)
    requires 1 <= i <= j <= |w|
    ensures w[1..][i - 1..j - 1] == w[i..j]
  {
  }

  /** The input ran out inside the window s[start..]: the loop emits all of it as one chunk. */
  lemma {:induction false} LastWindow(keys: set<string>, table: Table, w: string)
    requires NoGaps(keys) && NoHiddenKeys(keys) && table.Keys == keys && w != "" && Extends(keys, w)
    ensures Render(table, [w]) == Render(table, Greedy(keys, w))
  {
    var n := Longest(keys, w, |w|);
    if n > 0 {
      WindowIsKey(keys, w, n);
      assert w[..|w|] == w && w[|w|..] == "";
    } else {
      var k :| k in keys && w <= k;
      assert k[..|w|] == w;
      assert w[..|w|] == w;
      assert k[..|k|] == k;
      assert |w| == |k| ==> w == k;
      assert NoKeyPrefix(keys, k[..|w|]);
      var m := |w|;
      assert !Occurs(keys, k[1..m]);
      assert k[1..m] == w[1..];
      forall i, j | 0 <= i < j <= |w| ensures w[i..j] !in keys {
        if i == 0 {
          assert w[0..j] == w[..j];
        } else {
          FromSecond(w, i, j);
        }
      }
      NothingToRewrite(keys, table, w);
    }
  }

  /** Where the next chunk ends once the trie has failed. */
  function NextStart(start: nat, sym: nat): nat {
    if sym > 0 then start + sym else start + 1
  }

  lemma {:induction false} GreedyCut(keys: set<string>, t: string)
    requires t != ""
    ensures var n := Longest(keys, t, |t|);
      Greedy(keys, t) == [t[..NextStart(0, n)]] + Greedy(keys, t[NextStart(0, n)..])
  {
  }

  lemma {:induction false} LongestOfNone(keys: set<string>, s: string)
    ensures Longest(keys, s, 0) == 0
  {
  }

  /** The trie failed: the reference cuts off the remembered symbol, or one character. */
  lemma {:induction false} FailedGreedy(keys: set<string>, s: string, start: nat, end: nat, sym: nat)
    requires NoGaps(keys) && start < end <= |s|
    requires end - 1 > start ==> Extends(keys, s[start..end - 1])
    requires sym == Longest(keys, s[start..], end - 1 - start)
    requires Lookup(keys, s[start..end - 1], [s[end - 1]]) == FAILED
    ensures sym > 0 ==> sym == end - 1 - start
    ensures start < NextStart(start, sym) <= |s|
    ensures Longest(keys, s[NextStart(start, sym)..], 0) == 0
    ensures Greedy(keys, s[start..]) == [s[start..NextStart(start, sym)]] + Greedy(keys, s[NextStart(start, sym)..])
  {
    hide NoGaps, Longest, Lookup, Extends, Greedy;
    var t := s[start..];
    GreedyCut(keys, t);
    var seen := end - 1 - start;
    assert t[..seen] == s[start..end - 1];
    WindowFails(keys, s, start, end);
    if sym > 0 {
      assert t[..seen][..sym] == t[..sym];
      WindowIsKey(keys, t[..seen], sym);
    }
    var next := NextStart(start, sym);
    LongestOfNone(keys, s[next..]);
    assert t[..next - start] == s[start..next] && t[next - start..] == s[next..];
  }

  /** From this state on, the loop renders what the reference does. */
  ghost predicate Matches(keys: set<string>, table: Table, s: string, start: nat, end: nat, sym: nat)
    requires start < end <= |s| + 1 && start + sym < end && start <= |s|
  {
    Render(table, Run(keys, s, start, start, end, sym)) == Render(table, Greedy(keys, s[start..]))
  }

  lemma {:induction false} FailedRun(keys: set<string>, s: string, start: nat, end: nat, sym: nat, next: nat)
    requires start < end <= |s| && start + sym < end && (sym > 0 ==> start + sym == end - 1)
    requires next == NextStart(start, sym) && Lookup(keys, s[start..end - 1], [s[end - 1]]) == FAILED
    ensures Run(keys, s, start, start, end, sym) == [s[start..next]] + Run(keys, s, next, next, next + 1, 0)
  {
    hide Lookup;
  }

  lemma {:induction false} MatchesFailed(keys: set<string>, table: Table, s: string, start: nat, end: nat, sym: nat,
      next: nat)
    requires start < end <= |s| && start + sym < end && (sym > 0 ==> start + sym == end - 1)
    requires next == NextStart(start, sym)
    requires Lookup(keys, s[start..end - 1], [s[end - 1]]) == FAILED
    requires Greedy(keys, s[start..]) == [s[start..next]] + Greedy(keys, s[next..])
    requires Matches(keys, table, s, next, next + 1, 0)
    ensures Matches(keys, table, s, start, end, sym)
  {
    hide Render, Greedy, Lookup;
    FailedRun(keys, s, start, end, sym, next);
    RenderCons(table, s[start..next], Run(keys, s, next, next, next + 1, 0));
    RenderCons(table, s[start..next], Greedy(keys, s[next..]));
  }

  lemma {:induction false} MatchesGrown(keys: set<string>, table: Table, s: string, start: nat, end: nat, sym: nat,
      sym': nat)
    requires start < end < |s| && start + sym < end
    requires Lookup(keys, s[start..end - 1], [s[end - 1]]) != FAILED
    requires sym' == if Lookup(keys, s[start..end - 1], [s[end - 1]]) == EXISTS then end - start else sym
    requires Matches(keys, table, s, start, end + 1, sym')
    ensures Matches(keys, table, s, start, end, sym)
  {
  }

  /** The input has run out, with or without a window that is still open. */
  lemma {:induction false} MatchesEnd(keys: set<string>, table: Table, s: string, start: nat, end: nat, sym: nat)
    requires NoGaps(keys) && NoHiddenKeys(keys) && table.Keys == keys
    requires start < end && start + sym < end && start <= |s| <= end <= |s| + 1
    requires end == |s| + 1 ==> start == |s|
    requires end == |s| ==> Extends(keys, s[start..end]) && Lookup(keys, s[start..end - 1], [s[end - 1]]) != FAILED
    ensures Matches(keys, table, s, start, end, sym)
  {
    hide NoGaps, NoHiddenKeys, Extends, Lookup, Render;
    if end > |s| {
      assert s[start..] == "";
    } else {
      assert s[start..end] == s[start..];
      LastWindow(keys, table, s[start..]);
    }
  }

  lemma {:induction false} RunIsGreedy(keys: set<string>, table: Table, s: string, start: nat, end: nat, sym: nat)
    requires NoGaps(keys) && NoHiddenKeys(keys) && table.Keys == keys
    requires start < end <= |s| + 1 && (end == |s| + 1 ==> start == |s|)
    requires end - 1 > start ==> Extends(keys, s[start..end - 1])
    requires sym == Longest(keys, s[start..], end - 1 - start)
    ensures Matches(keys, table, s, start, end, sym)
    decreases |s| - start, |s| + 1 - end
  {
    hide *;
    if end > |s| {
      MatchesEnd(keys, table, s, start, end, sym);
      return;
    }
    var found := Lookup(keys, s[start..end - 1], [s[end - 1]]);
    if found == FAILED {
      FailedGreedy(keys, s, start, end, sym);
      var next := NextStart(start, sym);
      RunIsGreedy(keys, table, s, next, next + 1, 0);
      MatchesFailed(keys, table, s, start, end, sym, next);
    } else {
      WindowGrows(keys, s, start, end);
      var sym' := if found == EXISTS then end - start else sym;
      if end == |s| {
        MatchesEnd(keys, table, s, start, end, sym);
      } else {
        RunIsGreedy(keys, table, s, start, end + 1, sym');
        MatchesGrown(keys, table, s, start, end, sym, sym');
      }
    }
  }

  lemma {:induction false} WindowGrows(keys: set<string>, s: string, start: nat, end: nat)
    requires start < end <= |s|
    requires Lookup(keys, s[start..end - 1], [s[end - 1]]) != FAILED
    ensures Extends(keys, s[start..end])
    ensures Longest(keys, s[start..], end - start) ==
            if Lookup(keys, s[start..end - 1], [s[end - 1]]) == EXISTS then end - start
            else Longest(keys, s[start..], end - 1 - start)
  {
    assert s[start..end - 1] + [s[end - 1]] == s[start..end] == s[start..][..end - start];
    assert s[start..end] <= s[start..end];
  }

  lemma {:induction false} SafeAgrees(keys: set<string>)
    requires NoGaps(keys) && NoHiddenKeys(keys)
    ensures Agree(keys)
  {
    forall table: Table, s: string | table.Keys == keys && s != ""
      ensures Formatted(table, s) == Render(table, Greedy(keys, s))
    {
      assert s[0..] == s;
      RunIsGreedy(keys, table, s, 0, 1, 0);
    }
  }

  // ---- And when it is not ----

  /** The start of a key is swallowed whole when the input ends there. */
  lemma {:induction false} PrefixRun(keys: set<string>, u: string, end: nat, sym: nat)
    requires Extends(keys, u) && 1 <= end <= |u| && sym < end
    ensures Run(keys, u, 0, 0, end, sym) == [u]
    decreases |u| - end
  {
    assert u[0..end - 1] + [u[end - 1]] == u[..end];
    var k :| k in keys && u <= k;
    assert u[..end] <= u <= k;
    assert Extends(keys, u[..end]);
    var found := Lookup(keys, u[0..end - 1], [u[end - 1]]);
    assert found != FAILED;
    if end < |u| {
      PrefixRun(keys, u, end + 1, if found == EXISTS then end else sym);
    } else {
      assert u[0..end] == u;
    }
  }

  function Marked(keys: set<string>, marker: string): Table {
    map k | k in keys :: marker
  }

  /** The reference does rewrite something wherever a key occurs. */
  lemma {:induction false} GreedyFindsKey(keys: set<string>, marker: string, t: string)
    requires Occurs(keys, t)
    ensures |Render(Marked(keys, marker), Greedy(keys, t))| >= |marker|
    decreases |t|
  {
    var i, j :| 0 <= i < j <= |t| && t[i..j] in keys;
    var n := Longest(keys, t, |t|);
    var cut := if n == 0 then 1 else n;
    RenderCons(Marked(keys, marker), t[..cut], Greedy(keys, t[cut..]));
    assert t[0..j] == t[..j];
    if n == 0 {
      assert t[1..][i - 1..j - 1] == t[i..j];
      GreedyFindsKey(keys, marker, t[1..]);
    }
  }

  /** A non-key start of a key in which a key occurs is rewritten by the reference but not by the loop. */
  lemma {:induction false} Disagree(keys: set<string>, k: string, u: string)
    requires k in keys && u <= k && u != "" && u !in keys && Occurs(keys, u)
    ensures !Agree(keys)
  {
    var marker := u + ['x'];
    var table := Marked(keys, marker);
    assert table.Keys == keys;
    PrefixRun(keys, u, 1, 0);
    RenderCons(table, u, []);
    GreedyFindsKey(keys, marker, u);
    assert [u] + [] == [u] && u + "" == u;
    assert Formatted(table, u) == u;
  }

  /** `format_time` is a greedy longest match for every replacement table over `keys`, on every
      string, exactly when the keys have no gaps and no hidden keys. */
  lemma {:induction false} LongestMatchIff(keys: set<string>)
    ensures Agree(keys) <==> NoGaps(keys) && NoHiddenKeys(keys)
  {
    if !NoGaps(keys) {
      var k :| k in keys && !GapFree(keys, k);
      var i, j :| 1 <= i < j < |k| && k[..i] in keys && k[..j] !in keys;
      assert k[..j][0..i] == k[..i];
      Disagree(keys, k, k[..j]);
    } else if !NoHiddenKeys(keys) {
      var k, n :| k in keys && 1 <= n < |k| && NoKeyPrefix(keys, k[..n]) && Occurs(keys, k[1..n]);
      var i, j :| 0 <= i < j <= n - 1 && k[1..n][i..j] in keys;
      assert k[..n][i + 1..j + 1] == k[1..n][i..j];
      assert k[..n][..n] == k[..n];
      Disagree(keys, k, k[..n]);
    } else {
      SafeAgrees(keys);
    }
  }

  // ---- What the table does ----

  /** A table that leaves its keys as they are leaves every text as it is. */
  lemma {:induction false} IdentityTable(table: Table, s: string)
    requires s != "" && forall k :: k in table ==> table[k] == k
    ensures Formatted(table, s) == s
  {
    hide Run;
    RunConcat(table.Keys, s, 0, 0, 1, 0);
    RenderIdentity(table, Run(table.Keys, s, 0, 0, 1, 0));
    assert s[0..] == s;
  }

  lemma {:induction false} RenderIdentity(table: Table, chunks: seq<string>)
    requires forall k :: k in table ==> table[k] == k
    ensures Render(table, chunks) == Concat(chunks)
    decreases |chunks|
  {
    if chunks != [] { RenderIdentity(table, chunks[1..]); }
  }

  /** A text that is a key becomes its entry, if the condition for a longest match holds. */
  lemma {:induction false} WholeKey(table: Table, k: string)
    requires NoGaps(table.Keys) && NoHiddenKeys(table.Keys) && k in table && k != ""
    ensures Formatted(table, k) == table[k]
  {
    SafeAgrees(table.Keys);
    hide Run, NoGaps, NoHiddenKeys;
    LongestIs(table.Keys, k, |k|, |k|);
    assert k[..|k|] == k && k[|k|..] == "";
    assert Longest(table.Keys, k, |k|) == |k|;
    assert Greedy(table.Keys, k) == [k] + Greedy(table.Keys, "");
    assert Greedy(table.Keys, "") == [] && [k] + [] == [k];
    assert Render(table, [k]) == table[k] + Render(table, []);
  }
}
