/** Topological sorting of a dependency graph (sqlglot/helper.py, `tsort`).
    A graph maps each node to the set of nodes it depends on. */
module Tsort {
  import opened Collections

  type Graph<T(==)> = map<T, set<T>>

  datatype SortResult<T> = Sorted(order: seq<T>) | CycleError

  /** A key, or a dependency that some key mentions. */
  ghost predicate IsNode<T(!new)>(g: Graph<T>, x: T) {
    x in g || exists n :: n in g && x in g[n]
  }

  ghost function Deps<T>(g: Graph<T>, n: T): set<T> {
    if n in g then g[n] else {}
  }

  /** A walk along dependencies; every step goes from a node to one it depends on. */
  ghost predicate IsWalk<T>(g: Graph<T>, p: seq<T>) {
    forall i, j :: 0 <= i < j == i + 1 < |p| ==> p[j] in Deps(g, p[i])
  }

  ghost predicate IsCycle<T>(g: Graph<T>, p: seq<T>) {
    |p| >= 2 && p[0] == p[|p| - 1] && IsWalk(g, p)
  }

  ghost predicate HasCycle<T(!new)>(g: Graph<T>) {
    exists p: seq<T> :: IsCycle(g, p)
  }

  ghost predicate TotalOrder<T(!new)>(leq: (T, T) -> bool) {
    && (forall x, y :: leq(x, y) || leq(y, x))
    && (forall x, y :: leq(x, y) && leq(y, x) ==> x == y)
    && (forall x, y, z :: leq(x, y) && leq(y, z) ==> leq(x, z))
  }

  /** Each node once, after everything it depends on. */
  ghost predicate IsTopological<T(!new)>(g: Graph<T>, order: seq<T>) {
    && Distinct(order)
    && (forall n {:trigger IsNode(g, n)} :: n in order <==> IsNode(g, n))
    && DepsFirst(g, {}, order)
  }

  /** Every dependency of a listed node is in `done` or listed before it. */
  ghost predicate DepsFirst<T>(g: Graph<T>, done: set<T>, order: seq<T>) {
    forall i, d {:trigger d in Deps(g, order[i])} ::
      0 <= i < |order| && d in Deps(g, order[i]) ==> d in done || d in order[..i]
  }

  // ---- Python's sorted() on a set ----

  ghost function SortedList<T(!new)>(s: set<T>, leq: (T, T) -> bool): (r: seq<T>)
    requires TotalOrder(leq)
    ensures Elems(r) == s && Distinct(r)
    decreases s
  {
    if s == {} then [] else
      var m := LeastOf(s, leq);
      var rest := SortedList(s - {m}, leq);
      assert Elems([m] + rest) == {m} + Elems(rest);
      assert m !in Elems(rest);
      [m] + rest
  }

  ghost predicate IsLeast<T(!new)>(m: T, s: set<T>, leq: (T, T) -> bool) {
    m in s && forall x :: x in s ==> leq(m, x)
  }

  ghost function LeastOf<T(!new)>(s: set<T>, leq: (T, T) -> bool): (m: T)
    requires TotalOrder(leq) && s != {}
    ensures IsLeast(m, s, leq)
    decreases s
  {
    var c :| c in s;
    if s == {c} then c else
      var m := LeastOf(s - {c}, leq);
      var least := if leq(c, m) then c else m;
      assert forall x :: x in s ==> x == c || x in s - {c};
      least
  }

  ghost predicate Ascending<T(!new)>(r: seq<T>, leq: (T, T) -> bool) {
    forall i, j :: 0 <= i < j < |r| ==> leq(r[i], r[j])
  }

  lemma {:induction false} SortedListAscends<T(!new)>(s: set<T>, leq: (T, T) -> bool)
    requires TotalOrder(leq)
    ensures Ascending(SortedList(s, leq), leq)
    decreases s
  {
    if s != {} {
      var m := LeastOf(s, leq);
      var rest := SortedList(s - {m}, leq);
      SortedListAscends(s - {m}, leq);
      assert forall k :: 0 <= k < |rest| ==> rest[k] in Elems(rest);
    }
  }

  method MinOf<T(==, !new)>(s: set<T>, leq: (T, T) -> bool) returns (m: T)
    requires TotalOrder(leq) && s != {}
    ensures m == LeastOf(s, leq)
  {
    m :| m in s;
    var rest := s - {m};
    while rest != {}
      invariant rest <= s && m in s
      invariant forall x :: x in s - rest ==> leq(m, x)
      decreases rest
    {
      var c :| c in rest;
      if leq(c, m) { m := c; }
      rest := rest - {c};
    }
    assert IsLeast(LeastOf(s, leq), s, leq);
  }

  method SortedSeq<T(==, !new)>(s: set<T>, leq: (T, T) -> bool) returns (r: seq<T>)
    requires TotalOrder(leq)
    ensures r == SortedList(s, leq) && Elems(r) == s && Distinct(r) && Ascending(r, leq)
  {
    r := [];
    var rest := s;
    while rest != {}
      invariant r + SortedList(rest, leq) == SortedList(s, leq)
      decreases rest
    {
      var m := MinOf(rest, leq);
      r, rest := r + [m], rest - {m};
    }
    SortedListAscends(s, leq);
  }

  // ---- The layered order ----

  /** Every dependency is itself a key. */
  ghost predicate Closed<T>(g: Graph<T>) {
    forall n, d :: n in g && d in g[n] ==> d in g
  }

  ghost function Ready<T>(g: Graph<T>, done: set<T>): (r: set<T>)
    ensures r <= g.Keys - done
  {
    set n | n in g.Keys - done && g[n] <= done
  }

  /** Without mutation: list, sorted, all nodes whose dependencies are done, and repeat. */
  ghost function Layers<T(!new)>(g: Graph<T>, done: set<T>, leq: (T, T) -> bool): seq<T>
    requires TotalOrder(leq)
    decreases g.Keys - done
  {
    var ready := Ready(g, done);
    if ready == {} then [] else SortedList(ready, leq) + Layers(g, done + ready, leq)
  }

  lemma {:induction false} LayersAreTopological<T(!new)>(g: Graph<T>, done: set<T>, leq: (T, T) -> bool)
    requires TotalOrder(leq) && Closed(g)
    ensures Distinct(Layers(g, done, leq)) && Elems(Layers(g, done, leq)) <= g.Keys - done
    ensures DepsFirst(g, done, Layers(g, done, leq))
    ensures Ready(g, done + Elems(Layers(g, done, leq))) == {}
    decreases g.Keys - done
  {
    var ready := Ready(g, done);
    if ready == {} {
      assert done + Elems([]) == done;
    } else {
      var batch, rest := SortedList(ready, leq), Layers(g, done + ready, leq);
      LayersAreTopological(g, done + ready, leq);
      assert Elems(batch + rest) == ready + Elems(rest);
      assert done + (ready + Elems(rest)) == done + ready + Elems(rest);
      JoinBatches(g, done, ready, batch, rest);
    }
  }

  lemma {:induction false} JoinBatches<T>(g: Graph<T>, done: set<T>, ready: set<T>, batch: seq<T>, rest: seq<T>)
    requires Distinct(batch) && Distinct(rest) && Elems(batch) == ready && Elems(rest) !! ready
    requires forall n :: n in ready ==> n in g && g[n] <= done
    requires DepsFirst(g, done + ready, rest)
    ensures Distinct(batch + rest) && DepsFirst(g, done, batch + rest)
  {
    var all := batch + rest;
    forall i | 0 <= i < |batch| ensures all[i] == batch[i] && all[i] in ready {
      assert batch[i] in Elems(batch);
    }
    forall i | |batch| <= i < |all| ensures all[i] == rest[i - |batch|] && all[i] !in ready {
      assert rest[i - |batch|] in Elems(rest);
    }
    forall i, d | 0 <= i < |all| && d in Deps(g, all[i]) ensures d in done || d in all[..i] {
      if i >= |batch| {
        var k := i - |batch|;
        assert all[..i] == batch + rest[..k];
        assert d in done + ready || d in rest[..k];
        assert d in ready ==> d in Elems(batch);
      }
    }
  }

  // ---- Cycles ----

  lemma {:induction false} EarlierDep<T(!new)>(g: Graph<T>, order: seq<T>, at: nat, d: T)
    requires DepsFirst(g, {}, order) && at < |order| && d in Deps(g, order[at])
    ensures d in order[..at]
  {
  }

  /** In a topological list, a walk only moves towards the front. */
  lemma {:induction false} WalkMovesForward<T(!new)>(g: Graph<T>, order: seq<T>, p: seq<T>, at: nat) returns (to: nat)
    requires IsTopological(g, order) && |p| >= 1 && IsWalk(g, p) && at < |order| && order[at] == p[0]
    ensures to < |order| && order[to] == p[|p| - 1] && to <= at && (|p| >= 2 ==> to < at)
    decreases |p|
  {
    if |p| == 1 {
      to := at;
    } else {
      var q := p[1..];
      assert p[1] in Deps(g, order[at]);
      EarlierDep(g, order, at, p[1]);
      var next :| 0 <= next < at && order[next] == p[1];
      forall i, j | 0 <= i < j == i + 1 < |q| ensures q[j] in Deps(g, q[i]) {
        assert q[i] == p[i + 1] && q[j] == p[j + 1];
      }
      to := WalkMovesForward(g, order, q, next);
    }
  }

  lemma {:induction false} TopologicalMeansAcyclic<T(!new)>(g: Graph<T>, order: seq<T>)
    requires IsTopological(g, order)
    ensures !HasCycle(g)
  {
    if HasCycle(g) {
      var p :| IsCycle(g, p);
      assert p[1] in Deps(g, p[0]);
      assert IsNode(g, p[0]);
      var at :| 0 <= at < |order| && order[at] == p[0];
      var to := WalkMovesForward(g, order, p, at);
    }
  }

  /** Every node of `s` still waits for a node of `s`. */
  ghost predicate Stuck<T>(g: Graph<T>, s: set<T>) {
    forall n {:trigger Deps(g, n)} :: n in s ==> Deps(g, n) * s != {}
  }

  /** In a stuck set one can walk on for ever. */
  lemma {:induction false} LongWalk<T>(g: Graph<T>, stuck: set<T>, start: T, len: nat) returns (p: seq<T>)
    requires start in stuck && Stuck(g, stuck)
    ensures |p| == len + 1 && p[0] == start && IsWalk(g, p) && Elems(p) <= stuck
    decreases len
  {
    if len == 0 {
      p := [start];
    } else {
      assert Deps(g, start) * stuck != {};
      var d :| d in Deps(g, start) * stuck;
      var q := LongWalk(g, stuck, d, len - 1);
      p := [start] + q;
      forall i, j | 0 <= i < j == i + 1 < |p| ensures p[j] in Deps(g, p[i]) {
        assert p[j] == q[i];
        if i > 0 { assert p[i] == q[i - 1]; }
      }
    }
  }

  lemma {:induction false} Pigeonhole<T>(p: seq<T>, s: set<T>) returns (i: nat, j: nat)
    requires Elems(p) <= s && |p| > |s|
    ensures i < j < |p| && p[i] == p[j]
    decreases |p|
  {
    var last := |p| - 1;
    if k :| 0 <= k < last && p[k] == p[last] {
      return k, last;
    }
    assert p[last] in Elems(p);
    forall x | x in Elems(p[..last]) ensures x in s - {p[last]} {
      assert x in Elems(p);
    }
    i, j := Pigeonhole(p[..last], s - {p[last]});
  }

  lemma {:induction false} StuckMeansCycle<T(!new)>(g: Graph<T>, stuck: set<T>)
    requires stuck != {} && Stuck(g, stuck)
    ensures HasCycle(g)
  {
    var start :| start in stuck;
    var p := LongWalk(g, stuck, start, |stuck|);
    var i, j := Pigeonhole(p, stuck);
    var c := p[i..j + 1];
    forall k, l | 0 <= k < l == k + 1 < |c| ensures c[l] in Deps(g, c[k]) {
      assert c[k] == p[i + k] && c[l] == p[i + l];
    }
    assert IsCycle(g, c);
  }

  // ---- tsort ----

  /** `full` is `g` with an empty entry for every dependency that had none. */
  ghost predicate Fills<T(!new)>(full: Graph<T>, g: Graph<T>) {
    && Closed(full)
    && (forall n :: n in g ==> n in full && full[n] == g[n])
    && (forall n :: n in full && n !in g ==> full[n] == {} && IsNode(g, n))
  }

  /** The layered order either lists everything or leaves a set that contains a cycle. */
  lemma {:induction false} LayersOrCycle<T(!new)>(g: Graph<T>, full: Graph<T>, leq: (T, T) -> bool)
    requires TotalOrder(leq) && Fills(full, g)
    ensures Elems(Layers(full, {}, leq)) == full.Keys ==> IsTopological(g, Layers(full, {}, leq))
    ensures Elems(Layers(full, {}, leq)) <= full.Keys
    ensures HasCycle(g) <==> Elems(Layers(full, {}, leq)) != full.Keys
  {
    var order := Layers(full, {}, leq);
    LayersAreTopological(full, {}, leq);
    var rest := full.Keys - Elems(order);
    assert forall n :: Deps(full, n) == Deps(g, n);
    if rest == {} {
      forall n | IsNode(g, n) ensures n in full {
        if n !in g { var m :| m in g && n in g[m]; }
      }
      assert forall n :: n in order <==> n in Elems(order);
      TopologicalMeansAcyclic(g, order);
    } else {
      forall n | n in rest ensures Deps(g, n) * rest != {} {
        assert n !in Ready(full, {} + Elems(order));
      }
      StuckMeansCycle(g, rest);
    }
  }

  /** The first loop of `tsort`. */
  method AddMissing<T(==, !new)>(g: Graph<T>) returns (dag: Graph<T>)
    ensures Fills(dag, g)
  {
    dag := g;
    var nodes := g.Keys;
    while nodes != {}
      invariant nodes <= g.Keys
      invariant forall n :: n in g ==> n in dag && dag[n] == g[n]
      invariant forall n :: n in dag && n !in g ==> dag[n] == {} && IsNode(g, n)
      invariant forall n, d :: n in g.Keys - nodes && d in g[n] ==> d in dag
      decreases nodes
    {
      var node :| node in nodes;
      var deps := g[node];
      while deps != {}
        invariant deps <= g[node]
        invariant forall n :: n in g ==> n in dag && dag[n] == g[n]
        invariant forall n :: n in dag && n !in g ==> dag[n] == {} && IsNode(g, n)
        invariant forall n, d :: n in g.Keys - nodes && d in g[n] ==> d in dag
        invariant forall d :: d in g[node] - deps ==> d in dag
        decreases deps
      {
        var dep :| dep in deps;
        if dep !in dag {
          assert IsNode(g, dep);
          dag := dag[dep := {}];
        }
        deps := deps - {dep};
      }
      nodes := nodes - {node};
    }
  }

  function WithoutDeps<T>(dag: Graph<T>): (r: set<T>)
    ensures r <= dag.Keys
  {
    set n | n in dag && dag[n] == {}
  }

  /** What the shrinking dictionary holds once the nodes in `gone` have left it. */
  function Remaining<T>(dag: Graph<T>, gone: set<T>): (r: Graph<T>)
    ensures r.Keys == dag.Keys - gone
  {
    map n | n in dag && n !in gone :: dag[n] - gone
  }

  lemma {:induction false} StartRemaining<T>(full: Graph<T>)
    ensures Remaining(full, {}) == full
  {
    assert forall n :: n in full ==> full[n] - {} == full[n];
  }

  lemma {:induction false} ReadyRemaining<T>(full: Graph<T>, done: set<T>)
    ensures WithoutDeps(Remaining(full, done)) == Ready(full, done)
  {
    forall n | n in full && full[n] - done == {} ensures full[n] <= done {
      assert forall x :: x in full[n] ==> x !in full[n] - done;
    }
  }

  lemma {:induction false} ShrinkRemaining<T>(full: Graph<T>, done: set<T>, gone: set<T>)
    ensures Remaining(Remaining(full, done), gone) == Remaining(full, done + gone)
  {
    assert forall n :: n in full ==> full[n] - done - gone == full[n] - (done + gone);
  }

  lemma {:induction false} NextLayer<T(!new)>(full: Graph<T>, order: seq<T>, batch: seq<T>, leq: (T, T) -> bool)
    requires TotalOrder(leq) && Ready(full, Elems(order)) != {}
    requires batch == SortedList(Ready(full, Elems(order)), leq)
    ensures Elems(order + batch) == Elems(order) + Ready(full, Elems(order))
    ensures order + Layers(full, Elems(order), leq) == order + batch + Layers(full, Elems(order + batch), leq)
  {
    assert Elems(order + batch) == Elems(order) + Elems(batch);
  }

  /** The second loop of `tsort`: the dictionary shrinks in step with the layers. */
  method Peel<T(==, !new)>(full: Graph<T>, leq: (T, T) -> bool) returns (order: seq<T>, dag: Graph<T>)
    requires TotalOrder(leq)
    ensures order == Layers(full, {}, leq) && dag == Remaining(full, Elems(order))
  {
    dag := full;
    StartRemaining(full);
    order := [];
    assert Elems<T>([]) == {};
    assert [] + Layers(full, {}, leq) == Layers(full, {}, leq);
    while dag != map[]
      invariant dag == Remaining(full, Elems(order))
      invariant order + Layers(full, Elems(order), leq) == Layers(full, {}, leq)
      decreases dag.Keys
    {
      var current := WithoutDeps(dag);
      ReadyRemaining(full, Elems(order));
      if current == {} {
        return;
      }
      var batch := SortedSeq(current, leq);
      NextLayer(full, order, batch, leq);
      ShrinkRemaining(full, Elems(order), current);
      dag := Remaining(dag, current);
      order := order + batch;
    }
    assert dag.Keys == {};
  }

  /** `rest` is the caller's dictionary afterwards: `tsort` consumes its argument. */
  method Tsort<T(==, !new)>(input: Graph<T>, leq: (T, T) -> bool)
    returns (r: SortResult<T>, rest: Graph<T>, ghost full: Graph<T>)
    requires TotalOrder(leq)
    ensures r.CycleError? <==> HasCycle(input)
    ensures Fills(full, input)
    ensures r.Sorted? ==> IsTopological(input, r.order) && r.order == Layers(full, {}, leq) && rest == map[]
    ensures r.CycleError? ==> rest != map[] && rest == Remaining(full, Elems(Layers(full, {}, leq)))
  {
    var dag := AddMissing(input);
    full := dag;
    var order;
    order, rest := Peel(dag, leq);
    LayersOrCycle(input, full, leq);
    assert rest.Keys == full.Keys - Elems(order);
    r := if rest == map[] then Sorted(order) else CycleError;
  }
}
