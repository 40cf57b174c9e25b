/** The breadth-first walk over nodes (sqlglot/expressions.py, `Expression.bfs`). */
module AstBfs {
  import opened Collections
  import opened Ast
  import opened AstTree
  import opened AstWalk

  // ---- The queue gets smaller ----

  ghost function TotalSize(q: seq<Node>, tr: map<Node, Tree>): nat {
    if q == [] then 0 else (if q[0] in tr then Size(tr[q[0]]) else 0) + TotalSize(q[1..], tr)
  }

  lemma {:induction false} TotalSizeConcat(p: seq<Node>, q: seq<Node>, tr: map<Node, Tree>)
    ensures TotalSize(p + q, tr) == TotalSize(p, tr) + TotalSize(q, tr)
    decreases |p|
  {
    if p == [] {
      assert p + q == q;
    } else {
      assert (p + q)[1..] == p[1..] + q;
      TotalSizeConcat(p[1..], q, tr);
    }
  }

  lemma {:induction false} ItemKidsSize(xs: seq<Item>, tr: map<Node, Tree>)
    ensures TotalSize(ItemKids(xs), tr) <= SizeItems(ItemsTree(xs, tr))
    ensures |xs| == 1 ==> TotalSize(ItemKids(xs), tr) <= SizeItem(ItemTree(xs[0], tr))
    decreases |xs|
  {
    if xs != [] {
      ItemKidsSize(xs[1..], tr);
      var first := if xs[0].Sub? then [xs[0].node] else [];
      TotalSizeConcat(first, ItemKids(xs[1..]), tr);
      assert first != [] ==> first[1..] == [];
      assert ItemsTree(xs, tr)[1..] == ItemsTree(xs[1..], tr);
    }
  }

  lemma {:induction false} KidsSize(keys: seq<Key>, args: map<Key, Arg>, tr: map<Node, Tree>)
    ensures TotalSize(Kids(keys, args), tr) <= SizeArgs(ArgsTree(keys, args, tr))
    decreases |keys|
  {
    if keys != [] {
      KidsSize(keys[1..], args, tr);
      if keys[0] in args {
        var a, es := args[keys[0]], ArgsTree(keys, args, tr);
        ItemKidsSize(if a.One? then [a.item] else a.items, tr);
        TotalSizeConcat(ArgKids(a), Kids(keys[1..], args), tr);
        assert es[0] == Entry(keys[0], ArgTree(a, tr)) && es[1..] == ArgsTree(keys[1..], args, tr);
      } else {
        assert [] + Kids(keys[1..], args) == Kids(keys[1..], args);
        assert [] + ArgsTree(keys[1..], args, tr) == ArgsTree(keys[1..], args, tr);
      }
    }
  }

  lemma {:induction false} KidHasKey(keys: seq<Key>, args: map<Key, Arg>, c: Node) returns (k: Key)
    requires c in Kids(keys, args)
    ensures k in keys && k in args && c in ArgNodes(args[k])
    decreases |keys|
  {
    k := keys[0];
    if k in args && c in ArgKids(args[k]) {
      ArgKidsNodes(args[k]);
      assert c in Elems(ArgKids(args[k]));
    } else {
      k := KidHasKey(keys[1..], args, c);
    }
  }

  lemma {:induction false} KeyHasKid(keys: seq<Key>, args: map<Key, Arg>, k: Key, c: Node)
    requires k in keys && k in args && c in ArgNodes(args[k])
    ensures c in Kids(keys, args)
    decreases |keys|
  {
    if k == keys[0] {
      ArgKidsNodes(args[k]);
      assert c in Elems(ArgKids(args[k]));
    } else {
      KeyHasKid(keys[1..], args, k, c);
    }
  }

  lemma {:induction false} KidsIn(keys: seq<Key>, args: map<Key, Arg>)
    requires forall k :: k in keys <==> k in args
    ensures Elems(Kids(keys, args)) == ArgsNodes(args)
  {
    hide Kids, ArgNodes;
    forall c | c in ArgsNodes(args) ensures c in Kids(keys, args) {
      var k :| k in args && c in ArgNodes(args[k]);
      KeyHasKid(keys, args, k, c);
    }
    forall c | c in Elems(Kids(keys, args)) ensures c in ArgsNodes(args) {
      var k := KidHasKey(keys, args, c);
    }
  }

  lemma {:induction false} ElemsConcat(p: seq<Node>, q: seq<Node>)
    ensures Elems(p + q) == Elems(p) + Elems(q)
  {
  }

  /** What one step makes of the queue. */
  lemma {:induction false} QueueStep(q: seq<Node>, all: set<Node>, tr: map<Node, Tree>)
    requires Labelled(all, tr) && Elems(q) <= all && q != []
    ensures q[0] in all && Elems(q) == {q[0]} + Elems(q[1..]) && Elems(Next(q)) == Elems(q[1..]) + ArgsNodes(q[0].args)
    ensures Elems(Next(q)) <= all && TotalSize(Next(q), tr) < TotalSize(q, tr)
  {
    var n, rest := q[0], q[1..];
    assert q == [n] + rest;
    ElemsConcat([n], rest);
    assert Elems([n]) == {n};
    assert tr[n] == Tree(n.kind, ArgsTree(n.keys, n.args, tr));
    KidsSize(n.keys, n.args, tr);
    KidsIn(n.keys, n.args);
    ElemsConcat(rest, Kids(n.keys, n.args));
    TotalSizeConcat(rest, Kids(n.keys, n.args), tr);
  }

  ghost function Next(q: seq<Node>): seq<Node>
    requires q != []
    reads q[0]
  {
    q[1..] + Kids(q[0].keys, q[0].args)
  }

  // ---- The walk ----

  /** The nodes in breadth-first order, from a queue. */
  ghost function Walk(q: seq<Node>, all: set<Node>, tr: map<Node, Tree>): seq<Node>
    requires Labelled(all, tr) && Elems(q) <= all
    reads all
    decreases TotalSize(q, tr)
  {
    if q == [] then [] else QueueStep(q, all, tr); [q[0]] + Walk(Next(q), all, tr)
  }

  /** Nodes that are at most `i` steps below the root. */
  ghost function Within(root: Node, i: nat, all: set<Node>): set<Node>
    reads all
  {
    if i == 0 then {root} else
      Within(root, i - 1, all) + set n, c | n in Within(root, i - 1, all) && n in all && c in ArgsNodes(n.args) :: c
  }

  ghost predicate Below(root: Node, c: Node, all: set<Node>)
    reads all
  {
    exists i: nat :: c in Within(root, i, all)
  }

  /** These are the nodes below the root. */
  ghost predicate Reaches(root: Node, all: set<Node>, nodes: set<Node>)
    reads all
  {
    nodes == set c | c in all && Below(root, c, all)
  }

  lemma {:induction false} ChildBelow(root: Node, n: Node, c: Node, all: set<Node>)
    requires Below(root, n, all) && n in all && c in ArgsNodes(n.args)
    ensures Below(root, c, all)
  {
    var i: nat :| n in Within(root, i, all);
    assert c in Within(root, i + 1, all);
  }

  lemma {:induction false} ClosedHasWithin(root: Node, i: nat, all: set<Node>, s: set<Node>)
    requires root in s && forall n, c :: n in s && n in all && c in ArgsNodes(n.args) ==> c in s
    ensures Within(root, i, all) <= s
    decreases i
  {
    if i > 0 { ClosedHasWithin(root, i - 1, all, s); }
  }

  /** Where the walk stands: everything seen is below the root, and the children of visited nodes are seen. */
  ghost predicate Frontier(visited: set<Node>, waiting: set<Node>, root: Node, all: set<Node>)
    reads all
  {
    && visited <= all && waiting <= all && root in visited + waiting
    && (forall c :: c in visited + waiting ==> Below(root, c, all))
    && (forall n :: n in visited ==> ArgsNodes(n.args) <= visited + waiting)
  }

  lemma {:induction false} FrontierStep(visited: set<Node>, rest: set<Node>, n: Node, root: Node, all: set<Node>)
    requires Frontier(visited, {n} + rest, root, all) && ArgsNodes(n.args) <= all
    ensures Frontier(visited + {n}, rest + ArgsNodes(n.args), root, all)
  {
    hide Within, Below, ArgsNodes;
    assert n in {n} + rest;
    forall c | c in ArgsNodes(n.args) ensures Below(root, c, all) { ChildBelow(root, n, c, all); }
  }

  lemma {:induction false} WalkMeets(order: seq<Node>, q: seq<Node>, root: Node, all: set<Node>, tr: map<Node, Tree>)
    requires Labelled(all, tr) && Elems(q) <= all && Frontier(Elems(order), Elems(q), root, all)
    ensures Reaches(root, all, Elems(order + Walk(q, all, tr)))
    decreases TotalSize(q, tr)
  {
    hide Below, Labelled, ArgsNodes, Elems, Frontier, Next, Reaches;
    if q == [] {
      VisitedAll(order, root, all);
      assert order + Walk(q, all, tr) == order;
    } else {
      QueueStep(q, all, tr);
      FrontierStep(Elems(order), Elems(q[1..]), q[0], root, all);
      ElemsConcat(order, [q[0]]);
      OneElem(q[0]);
      WalkMeets(order + [q[0]], Next(q), root, all, tr);
      assert order + Walk(q, all, tr) == order + [q[0]] + Walk(Next(q), all, tr);
    }
  }

  lemma {:induction false} OneElem(n: Node)
    ensures Elems([n]) == {n}
  {
  }

  lemma {:induction false} VisitedAll(order: seq<Node>, root: Node, all: set<Node>)
    requires Frontier(Elems(order), Elems([]), root, all)
    ensures Reaches(root, all, Elems(order))
  {
    forall c | Below(root, c, all) ensures c in Elems(order) {
      var i: nat :| c in Within(root, i, all);
      ClosedHasWithin(root, i, all, Elems(order));
    }
  }

  // ---- Each node once ----

  /** Where the walk stands in a linked tree: only the root has no visited holder, and no node is as large. */
  ghost predicate Held(visited: set<Node>, waiting: set<Node>, root: Node, all: set<Node>, tr: map<Node, Tree>)
    reads all
  {
    && visited <= all && waiting <= all && root in tr
    && forall c :: c in visited + waiting && c != root ==>
         c in tr && Size(tr[c]) < Size(tr[root]) && c.parent != null && c.parent in visited
  }

  lemma {:induction false} KidsOnce(n: Node, all: set<Node>)
    requires Linked(all) && n in all && KeysMatch(n.args, n.keys)
    ensures Distinct(Kids(n.keys, n.args)) && forall c :: c in Kids(n.keys, n.args) ==> c.parent == n
  {
    LinkedArgs(all, n);
    NodeKids(n.keys, n.args);
    forall c | c in Kids(n.keys, n.args) ensures c.parent == n {
      assert c in Elems(Kids(n.keys, n.args));
      var k :| k in n.args && c in ArgNodes(n.args[k]);
      LinkedNodes(n.args[k], n, k);
    }
  }

  lemma {:induction false} ChildSmaller(n: Node, c: Node, all: set<Node>, tr: map<Node, Tree>)
    requires Labelled(all, tr) && n in all && c in ArgsNodes(n.args)
    ensures c in tr && n in tr && Size(tr[c]) < Size(tr[n])
  {
    KidsIn(n.keys, n.args);
    KidsSize(n.keys, n.args, tr);
    assert c in Elems(Kids(n.keys, n.args));
    InTotal(Kids(n.keys, n.args), c, tr);
    assert tr[n] == Tree(n.kind, ArgsTree(n.keys, n.args, tr));
  }

  lemma {:induction false} InTotal(q: seq<Node>, c: Node, tr: map<Node, Tree>)
    requires c in q && c in tr
    ensures Size(tr[c]) <= TotalSize(q, tr)
    decreases |q|
  {
    if c != q[0] { InTotal(q[1..], c, tr); }
  }

  lemma {:induction false} HeldStep(visited: set<Node>, rest: set<Node>, n: Node, root: Node, all: set<Node>,
      tr: map<Node, Tree>)
    requires Labelled(all, tr) && Linked(all) && n in all && n !in visited && Held(visited, {n} + rest, root, all, tr)
    ensures Held(visited + {n}, rest + ArgsNodes(n.args), root, all, tr)
    ensures ArgsNodes(n.args) !! visited + {n} + rest
  {
    assert n in visited + ({n} + rest);
    forall c | c in ArgsNodes(n.args)
      ensures c in all && c in tr && Size(tr[c]) < Size(tr[root]) && c.parent == n && c !in visited + {n} + rest
    {
      ChildSmaller(n, c, all, tr);
      var k :| k in n.args && c in ArgNodes(n.args[k]);
      LinkedNodes(n.args[k], n, k);
      assert c != root;
    }
  }

  lemma {:induction false} WalkOnce(order: seq<Node>, q: seq<Node>, root: Node, all: set<Node>, tr: map<Node, Tree>)
    requires Labelled(all, tr) && Linked(all) && Elems(q) <= all
    requires Distinct(order + q) && Held(Elems(order), Elems(q), root, all, tr)
    ensures Distinct(order + Walk(q, all, tr))
    decreases TotalSize(q, tr)
  {
    hide Labelled, Linked, Kids, Size, Distinct, Elems, Held, ArgsNodes;
    if q == [] {
      assert order + [] == order;
    } else {
      var n, rest, kids := q[0], q[1..], Kids(q[0].keys, q[0].args);
      QueueStep(q, all, tr);
      FirstIsNew(order, q);
      HeldStep(Elems(order), Elems(rest), n, root, all, tr);
      ElemsConcat(order, [n]);
      OneElem(n);
      NodeKeys(n, all, tr);
      KidsOnce(n, all);
      KidsAre(n);
      ElemsConcat(order + [n], rest);
      assert order + q == order + [n] + rest;
      DistinctConcat(order + [n] + rest, kids);
      assert order + [n] + Next(q) == order + [n] + rest + kids;
      WalkOnce(order + [n], Next(q), root, all, tr);
      assert order + Walk(q, all, tr) == order + [n] + Walk(Next(q), all, tr);
    }
  }

  lemma {:induction false} FirstIsNew(order: seq<Node>, q: seq<Node>)
    requires q != [] && Distinct(order + q)
    ensures q[0] !in Elems(order)
  {
    assert (order + q)[|order|] == q[0];
    assert forall i :: 0 <= i < |order| ==> (order + q)[i] == order[i];
  }

  lemma {:induction false} NodeKeys(n: Node, all: set<Node>, tr: map<Node, Tree>)
    requires Labelled(all, tr) && n in all
    ensures KeysMatch(n.args, n.keys)
  {
  }

  lemma {:induction false} KidsAre(n: Node)
    requires KeysMatch(n.args, n.keys)
    ensures Elems(Kids(n.keys, n.args)) == ArgsNodes(n.args)
  {
    KidsIn(n.keys, n.args);
  }

  /** `bfs`. It meets exactly the nodes below the root, and in a linked tree each of them once. */
  method Bfs(root: Node, ghost all: set<Node>, ghost tr: map<Node, Tree>) returns (order: seq<Node>)
    requires Labelled(all, tr) && root in all
    ensures Elems([root]) <= all && order == Walk([root], all, tr) && order != [] && order[0] == root
    ensures Reaches(root, all, Elems(order))
    ensures Linked(all) ==> Distinct(order)
  {
    OneElem(root);
    hide *;
    order := [];
    var queue := [root];
    assert order + Walk(queue, all, tr) == Walk(queue, all, tr);
    while queue != []
      invariant Elems(queue) <= all && (if order == [] then queue == [root] else order[0] == root)
      invariant order + Walk(queue, all, tr) == Walk([root], all, tr)
      decreases TotalSize(queue, tr)
    {
      hide *;
      var n := queue[0];
      QueueStep(queue, all, tr);
      WalkStep(order, queue, all, tr);
      var kids := IterExpressions(n);
      NextIs(queue, kids);
      order, queue := order + [n], queue[1..] + kids;
    }
    WalkEnds(order, all, tr);
    WalkFromRoot(root, all, tr);
  }

  lemma {:induction false} WalkStep(order: seq<Node>, q: seq<Node>, all: set<Node>, tr: map<Node, Tree>)
    requires Labelled(all, tr) && Elems(q) <= all && q != [] && Elems(Next(q)) <= all
    ensures order + Walk(q, all, tr) == order + [q[0]] + Walk(Next(q), all, tr)
  {
    hide Labelled, Elems, Next;
    assert Walk(q, all, tr) == [q[0]] + Walk(Next(q), all, tr);
  }

  lemma {:induction false} WalkEnds(order: seq<Node>, all: set<Node>, tr: map<Node, Tree>)
    requires Labelled(all, tr)
    ensures Elems<Node>([]) <= all && order + Walk([], all, tr) == order
  {
  }

  lemma {:induction false} NextIs(q: seq<Node>, kids: seq<Node>)
    requires q != [] && kids == Kids(q[0].keys, q[0].args)
    ensures Next(q) == q[1..] + kids
  {
  }

  lemma {:induction false} WalkFromRoot(root: Node, all: set<Node>, tr: map<Node, Tree>)
    requires Labelled(all, tr) && root in all && Elems([root]) <= all
    ensures Reaches(root, all, Elems(Walk([root], all, tr)))
    ensures Linked(all) ==> Distinct(Walk([root], all, tr))
  {
    assert root in tr;
    hide Labelled;
    assert [] + [root] == [root] && [] + Walk([root], all, tr) == Walk([root], all, tr);
    assert root in Within(root, 0, all);
    WalkMeets([], [root], root, all, tr);
    WalkIn([root], all, tr);
    if Linked(all) { WalkOnce([], [root], root, all, tr); }
  }

  lemma {:induction false} WalkIn(q: seq<Node>, all: set<Node>, tr: map<Node, Tree>)
    requires Labelled(all, tr) && Elems(q) <= all
    ensures Elems(Walk(q, all, tr)) <= all
    decreases TotalSize(q, tr)
  {
    if q != [] {
      hide Labelled, Next, TotalSize;
      QueueStep(q, all, tr);
      WalkIn(Next(q), all, tr);
    }
  }

  // ---- Level by level ----

  ghost function AllKids(q: seq<Node>): seq<Node>
    reads q
  {
    if q == [] then [] else Kids(q[0].keys, q[0].args) + AllKids(q[1..])
  }

  /** The walk meets the nodes of the queue, then their children, and so on, level by level. */
  lemma {:induction false} WalkByLevels(q: seq<Node>, all: set<Node>, tr: map<Node, Tree>)
    requires Labelled(all, tr) && Elems(q) <= all
    ensures Elems(AllKids(q)) <= all && Walk(q, all, tr) == q + Walk(AllKids(q), all, tr)
  {
    hide Labelled, Elems;
    assert q + [] == q && [] + AllKids(q) == AllKids(q);
    WalkPast(q, [], all, tr);
  }

  lemma {:induction false} WalkPast(p: seq<Node>, r: seq<Node>, all: set<Node>, tr: map<Node, Tree>)
    requires Labelled(all, tr) && Elems(p + r) <= all
    ensures Elems(r + AllKids(p)) <= all && Walk(p + r, all, tr) == p + Walk(r + AllKids(p), all, tr)
    decreases |p|
  {
    hide Labelled, Elems, Kids;
    if p == [] {
      assert p + r == r && r + [] == r;
    } else {
      var q, kids := p + r, Kids(p[0].keys, p[0].args);
      QueueStep(q, all, tr);
      assert q[0] == p[0] && q[1..] == p[1..] + r;
      assert Next(q) == p[1..] + (r + kids);
      WalkPast(p[1..], r + kids, all, tr);
      assert r + kids + AllKids(p[1..]) == r + AllKids(p);
      assert p == [p[0]] + p[1..];
    }
  }
}
