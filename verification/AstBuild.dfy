/** Building the nodes of a tree that a transformation returns, bottom up, perhaps around an
    existing node (sqlglot/expressions.py, `Expression.__init__`). */
module AstBuild {
  import opened Collections
  import opened Ast
  import opened AstTree

  /** Freshly made nodes and the trees they stand for. */
  datatype Made = Made(nodes: set<Node>, tr: map<Node, Tree>)

  const NOTHING_MADE: Made := Made({}, map[])

  ghost function Join(b: Made, c: Made): Made {
    Made(b.nodes + c.nodes, b.tr + c.tr)
  }

  /** A made node is linked to its children, which are made nodes or the hole, and has the right label. */
  ghost predicate GoodNode(m: Node, b: Made, hole: Node, t: Tree)
    requires m in b.tr
    reads m`args, m`keys, ArgsNodes(m.args)
  {
    && KeysMatch(m.args, m.keys) && ArgsNodes(m.args) <= b.nodes + {hole}
    && b.tr[m] == Tree(m.kind, ArgsTree(m.keys, m.args, b.tr[hole := t]))
    && forall k :: k in m.args ==> ArgLinked(m.args[k], m, k)
  }

  /** No made node holds the hole. */
  ghost predicate HoleFree(b: Made, hole: Node)
    reads b.nodes
  {
    forall m :: m in b.nodes ==> hole !in ArgsNodes(m.args)
  }

  ghost predicate Good(b: Made, hole: Node, t: Tree)
    reads b.nodes, if HoleFree(b, hole) then {} else {hole}
  {
    && b.tr.Keys == b.nodes && hole !in b.nodes
    && forall m :: m in b.nodes ==> ArgsNodes(m.args) <= b.nodes + {hole} && GoodNode(m, b, hole, t)
  }

  lemma {:induction false} ItemsTreeSame(xs: seq<Item>, tr: map<Node, Tree>, tr': map<Node, Tree>)
    requires forall c :: c in ItemNodes(xs) ==> c in tr && c in tr' && tr[c] == tr'[c]
    ensures ItemsTree(xs, tr) == ItemsTree(xs, tr')
    decreases |xs|
  {
    if xs != [] {
      assert xs[0].Sub? ==> xs[0].node in ItemNodes(xs);
      forall c | c in ItemNodes(xs[1..]) ensures c in ItemNodes(xs) {
        var i :| 0 <= i < |xs[1..]| && xs[1..][i] == Sub(c);
        assert xs[i + 1] == Sub(c);
      }
      ItemsTreeSame(xs[1..], tr, tr');
    }
  }

  lemma {:induction false} ArgTreeSame(a: Arg, tr: map<Node, Tree>, tr': map<Node, Tree>)
    requires forall c :: c in ArgNodes(a) ==> c in tr && c in tr' && tr[c] == tr'[c]
    ensures ArgTree(a, tr) == ArgTree(a, tr')
  {
    match a {
      case One(x) => assert x.Sub? ==> x.node in ArgNodes(a);
      case Many(xs) => ItemsTreeSame(xs, tr, tr');
    }
  }

  /** A node's tree depends on the labels of its children only. */
  lemma {:induction false} ArgsTreeSame(keys: seq<Key>, args: map<Key, Arg>, tr: map<Node, Tree>, tr': map<Node, Tree>)
    requires forall c :: c in ArgsNodes(args) ==> c in tr && c in tr' && tr[c] == tr'[c]
    ensures ArgsTree(keys, args, tr) == ArgsTree(keys, args, tr')
    decreases |keys|
  {
    if keys != [] {
      ArgsTreeSame(keys[1..], args, tr, tr');
      if keys[0] in args {
        assert ArgNodes(args[keys[0]]) <= ArgsNodes(args);
        ArgTreeSame(args[keys[0]], tr, tr');
      }
    }
  }

  lemma {:induction false} GoodJoin(b: Made, c: Made, hole: Node, t: Tree)
    requires Good(b, hole, t) && Good(c, hole, t) && b.nodes !! c.nodes
    ensures Good(Join(b, c), hole, t)
    ensures HoleFree(b, hole) && HoleFree(c, hole) ==> HoleFree(Join(b, c), hole)
  {
    var j := Join(b, c);
    forall m | m in j.nodes ensures ArgsNodes(m.args) <= j.nodes + {hole} && GoodNode(m, j, hole, t) {
      if m in b.nodes {
        ArgsTreeSame(m.keys, m.args, b.tr[hole := t], j.tr[hole := t]);
      } else {
        ArgsTreeSame(m.keys, m.args, c.tr[hole := t], j.tr[hole := t]);
      }
    }
  }

  // ---- What a transformation may return ----

  function KeysOf(es: seq<Entry>): seq<Key> {
    if es == [] then [] else [es[0].key] + KeysOf(es[1..])
  }

  /** Every node of the tree has distinct argument names. */
  ghost predicate WellKeyed(u: Tree)
    decreases u, 1
  {
    Distinct(KeysOf(u.args)) && WellKeyedArgs(u.args)
  }

  ghost predicate WellKeyedArgs(es: seq<Entry>)
    decreases es, 0
  {
    es != [] ==> WellKeyedArg(es[0].arg) && WellKeyedArgs(es[1..])
  }

  ghost predicate WellKeyedArg(a: TArg)
    decreases a, 0
  {
    match a
    case TOne(x) => WellKeyedItem(x)
    case TMany(xs) => WellKeyedItems(xs)
  }

  ghost predicate WellKeyedItem(x: TItem)
    decreases x, 0
  {
    x.TSub? ==> WellKeyed(x.tree)
  }

  ghost predicate WellKeyedItems(xs: seq<TItem>)
    decreases xs, 0
  {
    xs != [] ==> WellKeyedItem(xs[0]) && WellKeyedItems(xs[1..])
  }

  // ---- Building ----

  /** Nodes that still wait for a holder: made nodes without a parent, or the hole. */
  ghost predicate Pending(ns: set<Node>, b: Made, hole: Node)
    reads ns
  {
    forall c :: c in ns ==> c == hole || (c in b.nodes && c.parent == null)
  }

  /** The hole is used by at most one of its appearances: in a made node, or waiting in `ns`. */
  ghost predicate HoleUse(holes: nat, ns: set<Node>, b: Made, hole: Node)
    reads b.nodes
  {
    && (hole in ns ==> HoleFree(b, hole))
    && (holes == 0 ==> hole !in ns && HoleFree(b, hole))
  }

  /** What building an argument value promises: its nodes, its tree, and its use of the hole. */
  ghost predicate BuiltArg(a: Arg, ta: TArg, holes: nat, b: Made, hole: Node, t: Tree)
    reads b.nodes, if HoleFree(b, hole) then {} else {hole}, ArgNodes(a)
  {
    && Good(b, hole, t) && Pending(ArgNodes(a), b, hole) && (a.Many? ==> DistinctNodes(a.items))
    && ArgTree(a, b.tr[hole := t]) == ta
    && HoleUse(holes, ArgNodes(a), b, hole)
  }

  /** The same for all arguments of a node to be. */
  ghost predicate BuiltArgs(args: map<Key, Arg>, keys: seq<Key>, es: seq<Entry>, holes: nat, b: Made, hole: Node,
      t: Tree)
    reads b.nodes, if HoleFree(b, hole) then {} else {hole}, ArgsNodes(args)
  {
    && Good(b, hole, t) && Pending(ArgsNodes(args), b, hole) && LinkableArgs(args)
    && (forall k :: k in keys <==> k in args) && ArgsTree(keys, args, b.tr[hole := t]) == es
    && HoleUse(holes, ArgsNodes(args), b, hole)
  }

  lemma {:induction false} ConsNodes(y: Item, rest: seq<Item>)
    ensures ItemNodes([y] + rest) == ArgNodes(One(y)) + ItemNodes(rest)
  {
    var ys := [y] + rest;
    assert y == ys[0];
    forall c | c in ItemNodes(rest) ensures c in ItemNodes(ys) {
      var i :| 0 <= i < |rest| && rest[i] == Sub(c);
      assert ys[i + 1] == Sub(c);
    }
  }

  lemma {:induction false} PendingJoin(ns: set<Node>, b: Made, ms: set<Node>, c: Made, hole: Node, h: nat, g: nat)
    requires Pending(ns, b, hole) && Pending(ms, c, hole) && b.nodes !! c.nodes && h + g <= 1
    requires HoleUse(h, ns, b, hole) && HoleUse(g, ms, c, hole) && hole !in b.nodes + c.nodes
    ensures Pending(ns + ms, Join(b, c), hole) && HoleUse(h + g, ns + ms, Join(b, c), hole) && ns !! ms
  {
  }

  lemma {:induction false} ConsItem(y: Item, x: TItem, b: Made, h: nat, rest: seq<Item>, xs: seq<TItem>, c: Made,
      g: nat, hole: Node, t: Tree)
    requires BuiltArg(One(y), TOne(x), h, b, hole, t) && BuiltArg(Many(rest), TMany(xs), g, c, hole, t)
    requires b.nodes !! c.nodes && h + g <= 1
    ensures BuiltArg(Many([y] + rest), TMany([x] + xs), h + g, Join(b, c), hole, t)
  {
    GoodJoin(b, c, hole, t);
    ConsNodes(y, rest);
    PendingJoin(ArgNodes(One(y)), b, ItemNodes(rest), c, hole, h, g);
    ArgTreeSame(One(y), b.tr[hole := t], Join(b, c).tr[hole := t]);
    ArgTreeSame(Many(rest), c.tr[hole := t], Join(b, c).tr[hole := t]);
    ConsDistinct(y, rest);
  }

  lemma {:induction false} ConsDistinct(y: Item, rest: seq<Item>)
    requires DistinctNodes(rest) && ArgNodes(One(y)) !! ItemNodes(rest)
    ensures DistinctNodes([y] + rest)
  {
    if y.Sub? { assert y.node in ArgNodes(One(y)); }
  }

  lemma {:induction false} ConsArg(k: Key, a: Arg, ta: TArg, b: Made, h: nat,
                args: map<Key, Arg>, keys: seq<Key>, es: seq<Entry>, c: Made, g: nat, hole: Node, t: Tree)
    requires BuiltArg(a, ta, h, b, hole, t) && BuiltArgs(args, keys, es, g, c, hole, t)
    requires b.nodes !! c.nodes && h + g <= 1 && k !in args
    ensures BuiltArgs(args[k := a], [k] + keys, [Entry(k, ta)] + es, h + g, Join(b, c), hole, t)
  {
    hide Good, HoleUse, HoleFree, LinkableArgs, ArgTree;
    assert Good(b, hole, t) && Good(c, hole, t);
    GoodFacts(b, hole, t);
    GoodFacts(c, hole, t);
    var args', tr' := args[k := a], Join(b, c).tr[hole := t];
    GoodJoin(b, c, hole, t);
    PendingJoin(ArgNodes(a), b, ArgsNodes(args), c, hole, h, g);
    ArgsNodesWith(args, k, a);
    ArgTreeSame(a, b.tr[hole := t], tr');
    ArgsTreeSame(keys, args, c.tr[hole := t], tr');
    ArgsTreeWith(keys, args, k, a, tr');
    assert ([k] + keys)[1..] == keys;
  }

  lemma {:induction false} GoodFacts(b: Made, hole: Node, t: Tree)
    requires Good(b, hole, t)
    ensures b.tr.Keys == b.nodes && hole !in b.nodes
  {
  }

  lemma {:induction false} ArgsNodesWith(args: map<Key, Arg>, k: Key, a: Arg)
    requires k !in args
    ensures ArgsNodes(args[k := a]) == ArgNodes(a) + ArgsNodes(args)
    ensures LinkableArgs(args) && (a.Many? ==> DistinctNodes(a.items)) && ArgNodes(a) !! ArgsNodes(args) ==>
              LinkableArgs(args[k := a])
  {
    forall c | c in ArgNodes(a) + ArgsNodes(args) ensures c in ArgsNodes(args[k := a]) {
      if c in ArgNodes(a) {
        assert args[k := a][k] == a;
      } else {
        var l :| l in args && c in ArgNodes(args[l]);
        assert args[k := a][l] == args[l];
      }
    }
    forall l | l in args ensures ArgNodes(args[l]) <= ArgsNodes(args) {}
  }

  lemma {:induction false} ArgsTreeWith(keys: seq<Key>, args: map<Key, Arg>, k: Key, a: Arg, tr: map<Node, Tree>)
    requires k !in keys
    ensures ArgsTree(keys, args[k := a], tr) == ArgsTree(keys, args, tr)
    decreases |keys|
  {
    if keys != [] { ArgsTreeWith(keys[1..], args, k, a, tr); }
  }

  method BuildTree(u: Tree, hole: Node, ghost t: Tree) returns (r: Node, ghost b: Made)
    requires WellKeyed(u) && Holes(u) <= 1
    modifies hole`parent, hole`argKey, hole`index
    ensures Good(b, hole, t) && fresh(b.nodes) && r in b.nodes && r.parent == null && b.tr[r] == Fill(u, t)
    ensures Holes(u) == 0 ==> HoleFree(b, hole) && unchanged(hole)
    decreases u, 1
  {
    hide FillArgs, WellKeyedArgs, KeysOf, ArgsTree, LinkableArgs, Distinct;
    var args, keys;
    args, keys, b := BuildArgs(u.args, hole, t);
    ghost var es, inner := FillArgs(u.args, t), b;
    PendingNotHeld(ArgsNodes(args), Holes(u), inner, hole, t);
    r := new Node(u.kind, args, keys);
    assert forall m :: m in inner.nodes ==> GoodNode(m, inner, hole, t);
    b := Made(inner.nodes + {r}, inner.tr[r := Fill(u, t)]);
    GoodWith(inner, r, b, hole, t);
  }

  lemma {:induction false} PendingNotHeld(ns: set<Node>, h: nat, b: Made, hole: Node, t: Tree)
    requires Good(b, hole, t) && Pending(ns, b, hole) && HoleUse(h, ns, b, hole)
    ensures forall m :: m in b.nodes ==> ArgsNodes(m.args) !! ns
  {
    forall m | m in b.nodes ensures ArgsNodes(m.args) !! ns {
      forall c | c in ArgsNodes(m.args) ensures c !in ns {
        var k :| k in m.args && c in ArgNodes(m.args[k]);
        assert ArgLinked(m.args[k], m, k);
      }
    }
  }

  lemma {:induction false} GoodWith(b: Made, r: Node, b': Made, hole: Node, t: Tree)
    requires b.tr.Keys == b.nodes && hole !in b.nodes && r != hole && r !in b.nodes
    requires forall m :: m in b.nodes ==> ArgsNodes(m.args) <= b.nodes + {hole} && GoodNode(m, b, hole, t)
    requires KeysMatch(r.args, r.keys) && ArgsNodes(r.args) <= b.nodes + {hole}
    requires forall k :: k in r.args ==> ArgLinked(r.args[k], r, k)
    requires b' == Made(b.nodes + {r}, b.tr[r := Tree(r.kind, ArgsTree(r.keys, r.args, b.tr[hole := t]))])
    ensures Good(b', hole, t)
  {
    forall m | m in b'.nodes ensures ArgsNodes(m.args) <= b'.nodes + {hole} && GoodNode(m, b', hole, t) {
      ArgsTreeSame(m.keys, m.args, b.tr[hole := t], b'.tr[hole := t]);
    }
  }

  method BuildItem(x: TItem, hole: Node, ghost t: Tree) returns (y: Item, ghost b: Made)
    requires WellKeyedItem(x) && HolesItem(x) <= 1
    modifies hole`parent, hole`argKey, hole`index
    ensures BuiltArg(One(y), TOne(FillItem(x, t)), HolesItem(x), b, hole, t) && fresh(b.nodes)
    ensures HolesItem(x) == 0 ==> unchanged(hole)
    decreases x, 0
  {
    match x {
      case TAtom(a) =>
        y, b := Atom(a), NOTHING_MADE;
      case THole =>
        y, b := Sub(hole), NOTHING_MADE;
      case TSub(u) =>
        var n;
        n, b := BuildTree(u, hole, t);
        y := Sub(n);
    }
  }

  method BuildItems(xs: seq<TItem>, hole: Node, ghost t: Tree) returns (ys: seq<Item>, ghost b: Made)
    requires WellKeyedItems(xs) && HolesItems(xs) <= 1
    modifies hole`parent, hole`argKey, hole`index
    ensures BuiltArg(Many(ys), TMany(FillItems(xs, t)), HolesItems(xs), b, hole, t) && fresh(b.nodes)
    ensures HolesItems(xs) == 0 ==> unchanged(hole)
    decreases xs, 0
  {
    hide Good, Pending, HoleFree, ArgTree, FillItem, DistinctNodes;
    if xs == [] {
      NoItems(hole, t);
      return [], NOTHING_MADE;
    }
    var y, rest;
    ghost var c;
    y, b := BuildItem(xs[0], hole, t);
    rest, c := BuildItems(xs[1..], hole, t);
    assert BuiltArg(One(y), TOne(FillItem(xs[0], t)), HolesItem(xs[0]), b, hole, t);
    ConsItem(y, FillItem(xs[0], t), b, HolesItem(xs[0]), rest, FillItems(xs[1..], t), c, HolesItems(xs[1..]), hole, t);
    ys, b := [y] + rest, Join(b, c);
  }

  method BuildArg(a: TArg, hole: Node, ghost t: Tree) returns (r: Arg, ghost b: Made)
    requires WellKeyedArg(a) && HolesArg(a) <= 1
    modifies hole`parent, hole`argKey, hole`index
    ensures BuiltArg(r, FillArg(a, t), HolesArg(a), b, hole, t) && fresh(b.nodes)
    ensures HolesArg(a) == 0 ==> unchanged(hole)
    decreases a, 0
  {
    match a {
      case TOne(x) =>
        var y;
        y, b := BuildItem(x, hole, t);
        r := One(y);
      case TMany(xs) =>
        var ys;
        ys, b := BuildItems(xs, hole, t);
        r := Many(ys);
    }
  }

  method BuildArgs(es: seq<Entry>, hole: Node, ghost t: Tree)
    returns (args: map<Key, Arg>, keys: seq<Key>, ghost b: Made)
    requires Distinct(KeysOf(es)) && WellKeyedArgs(es) && HolesArgs(es) <= 1
    modifies hole`parent, hole`argKey, hole`index
    ensures BuiltArgs(args, keys, FillArgs(es, t), HolesArgs(es), b, hole, t) && fresh(b.nodes) && keys == KeysOf(es)
    ensures HolesArgs(es) == 0 ==> unchanged(hole)
    decreases es, 0
  {
    hide Good, Pending, HoleFree, LinkableArgs, ArgTree, ArgsTree, FillArg, DistinctNodes;
    if es == [] {
      NoArgs(hole, t);
      return map[], [], NOTHING_MADE;
    }
    var a;
    ghost var c;
    TailDistinct(es);
    a, b := BuildArg(es[0].arg, hole, t);
    args, keys, c := BuildArgs(es[1..], hole, t);
    assert BuiltArg(a, FillArg(es[0].arg, t), HolesArg(es[0].arg), b, hole, t);
    ConsArg(es[0].key, a, FillArg(es[0].arg, t), b, HolesArg(es[0].arg),
            args, keys, FillArgs(es[1..], t), c, HolesArgs(es[1..]), hole, t);
    args, keys, b := args[es[0].key := a], [es[0].key] + keys, Join(b, c);
  }

  lemma {:induction false} NoItems(hole: Node, t: Tree)
    ensures BuiltArg(Many([]), TMany([]), 0, NOTHING_MADE, hole, t)
  {
  }

  lemma {:induction false} NoArgs(hole: Node, t: Tree)
    ensures BuiltArgs(map[], [], [], 0, NOTHING_MADE, hole, t)
  {
  }

  lemma {:induction false} TailDistinct(es: seq<Entry>)
    requires es != [] && Distinct(KeysOf(es))
    ensures Distinct(KeysOf(es[1..])) && es[0].key !in KeysOf(es[1..])
  {
    var ks := KeysOf(es);
    assert ks[1..] == KeysOf(es[1..]);
    forall i | 0 <= i < |ks[1..]| ensures ks[1..][i] != ks[0] {
      assert ks[1..][i] == ks[i + 1];
    }
  }
}
