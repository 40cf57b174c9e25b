/** Any sequence of `set`, `append`, `replace` and `pop` (sqlglot/expressions.py, `Expression`). */
module AstRun {
  import opened Collections
  import opened Ast

  datatype Command =
    | SetTo(node: Node, key: Key, value: Value, index: Option<int>, overwrite: bool)
    | AppendTo(node: Node, key: Key, item: Item)
    | ReplaceBy(node: Node, value: Value)
    | PopOff(node: Node)

  function ValueOf(c: Command): Value {
    match c
    case SetTo(_, _, v, _, _) => v
    case AppendTo(_, _, x) => Single(x)
    case ReplaceBy(_, v) => v
    case PopOff(_) => Nothing
  }

  /** Following the links to the parent comes to an end. */
  ghost predicate Rising(all: set<Node>, rank: map<Node, nat>, bound: nat)
    reads all
  {
    all <= rank.Keys && forall n :: n in all ==>
      rank[n] <= bound && (n.parent != null ==> n.parent in all && n.argKey.Some? && rank[n] < rank[n.parent])
  }

  /** All links of held nodes are right. Displaced nodes may keep links to holders that do not hold them. */
  ghost predicate Tidy(all: set<Node>, rank: map<Node, nat>, bound: nat)
    reads all
  {
    Linked(all) && Rising(all, rank, bound) && forall n :: n in all ==> KeysMatch(n.args, n.keys)
  }

  /** `root` */
  function RootOf(n: Node, ghost all: set<Node>, ghost rank: map<Node, nat>, ghost bound: nat): Node
    requires n in all && Rising(all, rank, bound)
    reads all
    decreases bound - rank[n]
  {
    if n.parent == null then n else RootOf(n.parent, all, rank, bound)
  }

  /** Not a node, or the root of another tree than that of `n`. */
  predicate Loose(x: Item, n: Node, ghost all: set<Node>, ghost rank: map<Node, nat>, ghost bound: nat)
    requires n in all && Rising(all, rank, bound) && (x.Sub? ==> x.node in all)
    reads all
  {
    x.Sub? ==> x.node.parent == null && x.node != RootOf(n, all, rank, bound)
  }

  /** The nodes of the value are the roots of other trees, each once. */
  predicate Detached(v: Value, n: Node, ghost all: set<Node>, ghost rank: map<Node, nat>, ghost bound: nat)
    requires n in all && Rising(all, rank, bound) && ValueNodes(v) <= all
    reads all
  {
    match v
    case Nothing => true
    case Single(x) => Loose(x, n, all, rank, bound)
    case List(xs) =>
      && (forall i :: 0 <= i < |xs| ==> Loose(xs[i], n, all, rank, bound))
      && (forall i, j :: 0 <= i < j < |xs| && xs[i].Sub? && xs[j].Sub? ==> xs[i].node != xs[j].node)
  }

  lemma {:induction false} DetachedNodes(v: Value, n: Node, all: set<Node>, rank: map<Node, nat>, bound: nat)
    requires n in all && Rising(all, rank, bound) && ValueNodes(v) <= all && Detached(v, n, all, rank, bound)
    ensures forall x :: x in ValueNodes(v) ==> x.parent == null && x != RootOf(n, all, rank, bound)
    ensures v.List? ==> DistinctNodes(v.items)
  {
    if v.List? {
      forall x | x in ValueNodes(v) ensures x.parent == null && x != RootOf(n, all, rank, bound) {
        var i :| 0 <= i < |v.items| && v.items[i] == Sub(x);
        assert Loose(v.items[i], n, all, rank, bound);
      }
    }
  }

  // ---- What detached values allow ----

  /** No argument holds a node without a parent. */
  lemma {:induction false} OrphanUnheld(x: Node, all: set<Node>)
    requires Linked(all) && x.parent == null
    ensures Unheld(x, all)
  {
    forall n, l | n in all && l in n.args ensures x !in ArgNodes(n.args[l]) {
      LinkedNodes(n.args[l], n, l);
    }
  }

  lemma {:induction false} Unused(v: Value, all: set<Node>)
    requires Linked(all) && forall x :: x in ValueNodes(v) ==> x.parent == null
    ensures forall n, l :: n in all && l in n.args ==> ArgNodes(n.args[l]) !! ValueNodes(v)
  {
    forall x | x in ValueNodes(v) ensures Unheld(x, all) { OrphanUnheld(x, all); }
  }

  lemma {:induction false} DetachedSettable(p: Node, k: Key, v: Value, idx: Option<int>, overwrite: bool,
      all: set<Node>)
    requires Linked(all) && p in all && KeysMatch(p.args, p.keys)
    requires ValueNodes(v) <= all && (forall x :: x in ValueNodes(v) ==> x.parent == null)
    requires (v.List? ==> DistinctNodes(v.items))
    ensures p.Settable(k, v, idx, overwrite, all)
  {
    Unused(v, all);
    if idx.Some? {
      var xs, i := ListAt(p.args, k), idx.value;
      if k in p.args && p.args[k].Many? { LinkedListIsDistinct(xs, p, k); }
      if Position(|xs|, i).Some? { NewIsDistinct(xs, v, i, overwrite); }
    }
  }

  lemma {:induction false} NewIsDistinct(xs: seq<Item>, v: Value, i: int, overwrite: bool)
    requires DistinctNodes(xs) && Position(|xs|, i).Some? && ItemNodes(xs) !! ValueNodes(v)
    requires (v.List? ==> DistinctNodes(v.items))
    ensures DistinctNodes(NewList(xs, v, i, overwrite))
  {
    assert forall j :: 0 <= j < |xs| && xs[j].Sub? ==> xs[j].node in ItemNodes(xs);
    match v {
      case Nothing => RemovedIsDistinct(xs, i);
      case Single(x) =>
      case List(ys) =>
        RemovedIsDistinct(xs, i);
        var rest := AfterPop(xs, i);
        SplicedIsDistinct(rest, ys, SliceStart(|rest|, i));
    }
  }

  lemma {:induction false} RemovedIsDistinct(xs: seq<Item>, i: int)
    requires DistinctNodes(xs) && Position(|xs|, i).Some?
    ensures DistinctNodes(AfterPop(xs, i)) && ItemNodes(AfterPop(xs, i)) <= ItemNodes(xs)
  {
    var rest, pos := AfterPop(xs, i), Position(|xs|, i).value;
    forall j | 0 <= j < |rest| ensures rest[j] == xs[IndexBefore(pos, j)] {}
  }

  lemma {:induction false} SplicedIsDistinct(rest: seq<Item>, ys: seq<Item>, s: nat)
    requires DistinctNodes(rest) && DistinctNodes(ys) && ItemNodes(rest) !! ItemNodes(ys) && s <= |rest|
    ensures DistinctNodes(rest[..s] + ys + rest[s..])
  {
    var zs := rest[..s] + ys + rest[s..];
    forall i, j | 0 <= i < j < |zs| && zs[i].Sub? && zs[j].Sub? ensures zs[i].node != zs[j].node {
      if s <= i < s + |ys| {
        assert ys[i - s] == zs[i] && zs[i].node in ItemNodes(ys);
      } else {
        InRest(rest, ys, s, i);
      }
      if s <= j < s + |ys| {
        assert ys[j - s] == zs[j] && zs[j].node in ItemNodes(ys);
      } else {
        InRest(rest, ys, s, j);
      }
    }
  }

  lemma {:induction false} InRest(rest: seq<Item>, ys: seq<Item>, s: nat, i: nat)
    requires s <= |rest| && i < |rest| + |ys| && !(s <= i < s + |ys|) && (rest[..s] + ys + rest[s..])[i].Sub?
    ensures (rest[..s] + ys + rest[s..])[i] == rest[if i < s then i else i - |ys|]
    ensures (rest[..s] + ys + rest[s..])[i].node in ItemNodes(rest)
  {
  }

  lemma {:induction false} DetachedReplaces(c: Node, v: Value, all: set<Node>, rank: map<Node, nat>, bound: nat)
    requires Tidy(all, rank, bound) && c in all
    requires ValueNodes(v) <= all && (forall x :: x in ValueNodes(v) ==> x.parent == null)
    requires (v.List? ==> DistinctNodes(v.items))
    ensures c.CanReplace(v, all, rank, bound)
    decreases bound - rank[c]
  {
    if !c.Ignores(v) {
      if c.Climbs(v) {
        DetachedReplaces(c.parent, v, all, rank, bound);
      } else {
        DetachedSettable(c.parent, c.argKey.value, v, c.index, true, all);
      }
    }
  }

  lemma {:induction false} TargetInTree(c: Node, v: Value, all: set<Node>, rank: map<Node, nat>, bound: nat)
    requires Tidy(all, rank, bound) && c in all && c.CanReplace(v, all, rank, bound)
    requires c.Target(v, all, rank, bound).Some?
    ensures RootOf(c.Target(v, all, rank, bound).value.parent, all, rank, bound) == RootOf(c, all, rank, bound)
    decreases bound - rank[c]
  {
    if c.Climbs(v) { TargetInTree(c.parent, v, all, rank, bound); }
  }

  lemma {:induction false} ReplacesItself(c: Node, all: set<Node>, rank: map<Node, nat>, bound: nat)
    requires Tidy(all, rank, bound) && c in all
    ensures c.CanReplace(Single(Sub(c)), all, rank, bound)
  {
    var v := Single(Sub(c));
    if !c.Ignores(v) {
      OnlyPlace(c, all);
      var p, k := c.parent, c.argKey.value;
      if k in p.args { OwnSlot(p.args[k], p, k, c); }
    }
  }

  lemma {:induction false} OwnSlot(a: Arg, p: Node, k: Key, c: Node)
    requires ArgLinked(a, p, k)
    ensures a.Many? && c.index.Some? ==> SettableAt(a.items, Single(Sub(c)), c.index.value, true, p, k)
  {
    if a.Many? { LinkedListIsDistinct(a.items, p, k); }
  }

  // ---- Heights after a step ----

  /** All nodes at some time, with the heights that show that the links to parents end. */
  datatype State = State(args: map<Node, map<Key, Arg>>, parent: map<Node, Node?>, argKey: map<Node, Option<Key>>,
                         index: map<Node, Option<int>>, rank: map<Node, nat>, bound: nat)

  ghost function StateOf(all: set<Node>, rank: map<Node, nat>, bound: nat): State
    reads all
  {
    State(map n | n in all :: n.args, map n | n in all :: n.parent, map n | n in all :: n.argKey,
          map n | n in all :: n.index, rank, bound)
  }

  ghost predicate IsState(h: State, all: set<Node>) {
    && h.args.Keys == all && h.parent.Keys == all && h.argKey.Keys == all && h.index.Keys == all && all <= h.rank.Keys
    && forall n :: n in all ==>
         h.rank[n] <= h.bound &&
         (h.parent[n] != null ==> h.parent[n] in all && h.argKey[n].Some? && h.rank[n] < h.rank[h.parent[n]])
  }

  /** The root of each node's tree. */
  ghost function Roots(all: set<Node>, rank: map<Node, nat>, bound: nat): map<Node, Node>
    requires Rising(all, rank, bound)
    reads all
  {
    map n | n in all :: RootOf(n, all, rank, bound)
  }

  /** Everything outside of the trees `xs` moves up, above them. */
  ghost function Raised(h: State, roots: map<Node, Node>, xs: set<Node>): map<Node, nat>
    requires h.args.Keys <= h.rank.Keys && h.args.Keys <= roots.Keys
  {
    map n | n in h.args.Keys :: if roots[n] in xs then h.rank[n] else h.rank[n] + h.bound + 1
  }

  ghost predicate AreRoots(h: State, roots: map<Node, Node>, all: set<Node>)
    requires IsState(h, all)
  {
    roots.Keys == all && forall n :: n in all ==>
      (h.parent[n] == null ==> roots[n] == n) && (h.parent[n] != null ==> roots[n] == roots[h.parent[n]])
  }

  lemma {:induction false} HasRoots(all: set<Node>, rank: map<Node, nat>, bound: nat)
    requires Rising(all, rank, bound)
    ensures IsState(StateOf(all, rank, bound), all) && AreRoots(StateOf(all, rank, bound), Roots(all, rank, bound), all)
  {
  }

  /** Nodes keep their links, lose them, or are roots in `xs` that have been put in below `p`. */
  ghost predicate Moved(h: State, xs: set<Node>, p: Node, all: set<Node>)
    requires h.parent.Keys == all
    reads all
  {
    forall n :: n in all ==>
      n.parent == null || (n.argKey.Some? && (n.parent == h.parent[n] || (n in xs && n.parent == p)))
  }

  lemma {:induction false} StillRising(h: State, roots: map<Node, Node>, xs: set<Node>, p: Node, all: set<Node>)
    requires IsState(h, all) && AreRoots(h, roots, all) && Moved(h, xs, p, all)
    requires xs != {} ==> p in all && roots[p] !in xs
    requires forall x :: x in xs ==> x in all && h.parent[x] == null
    ensures Rising(all, Raised(h, roots, xs), 2 * h.bound + 1)
  {
  }

  // ---- Steps ----

  predicate Legal(c: Command, ghost all: set<Node>, ghost rank: map<Node, nat>, ghost bound: nat)
    requires c.node in all && Rising(all, rank, bound) && ValueNodes(ValueOf(c)) <= all
    reads all
  {
    Detached(ValueOf(c), c.node, all, rank, bound) || (c.ReplaceBy? && c.value == Single(Sub(c.node)))
  }

  lemma {:induction false} LegalReplaces(c: Command, all: set<Node>, rank: map<Node, nat>, bound: nat)
    requires c.node in all && Tidy(all, rank, bound) && ValueNodes(ValueOf(c)) <= all && Legal(c, all, rank, bound)
    ensures c.ReplaceBy? || c.PopOff? ==> c.node.CanReplace(ValueOf(c), all, rank, bound)
  {
    if Detached(ValueOf(c), c.node, all, rank, bound) {
      DetachedNodes(ValueOf(c), c.node, all, rank, bound);
      DetachedReplaces(c.node, ValueOf(c), all, rank, bound);
    } else {
      ReplacesItself(c.node, all, rank, bound);
    }
  }

  /** The links survive this step. */
  predicate Keeps(c: Command, ghost all: set<Node>, ghost rank: map<Node, nat>, ghost bound: nat)
    requires c.node in all && Tidy(all, rank, bound) && ValueNodes(ValueOf(c)) <= all && Legal(c, all, rank, bound)
    reads all
  {
    LegalReplaces(c, all, rank, bound);
    match c
    case SetTo(n, k, v, idx, _) => SetKeepsLinks(n.args, k, v, idx)
    case AppendTo(_, _, _) => true
    case ReplaceBy(n, v) => n.ReplaceKeepsLinks(v, all, rank, bound)
    case PopOff(n) => n.parent != null ==> SetKeepsLinks(n.parent.args, n.argKey.value, Nothing, n.index)
  }

  /** The holder that gets the nodes of the value. */
  ghost function NewHolder(c: Command, all: set<Node>, rank: map<Node, nat>, bound: nat): Node
    requires c.node in all && Tidy(all, rank, bound) && ValueNodes(ValueOf(c)) <= all && Legal(c, all, rank, bound)
    reads all
  {
    LegalReplaces(c, all, rank, bound);
    if c.ReplaceBy? && c.node.Target(c.value, all, rank, bound).Some? then
      c.node.Target(c.value, all, rank, bound).value.parent
    else c.node
  }

  /** The nodes that get a holder. */
  ghost function Newcomers(c: Command): set<Node> {
    if c.ReplaceBy? && c.value == Single(Sub(c.node)) then {} else ValueNodes(ValueOf(c))
  }

  lemma {:induction false} NewcomersFit(c: Command, all: set<Node>, rank: map<Node, nat>, bound: nat)
    requires c.node in all && Tidy(all, rank, bound) && ValueNodes(ValueOf(c)) <= all && Legal(c, all, rank, bound)
    ensures forall x :: x in Newcomers(c) ==> x in all && x.parent == null && x != RootOf(c.node, all, rank, bound)
    ensures NewHolder(c, all, rank, bound) in all
    ensures RootOf(NewHolder(c, all, rank, bound), all, rank, bound) == RootOf(c.node, all, rank, bound)
  {
    LegalReplaces(c, all, rank, bound);
    if c.ReplaceBy? && c.node.Target(c.value, all, rank, bound).Some? {
      TargetInTree(c.node, c.value, all, rank, bound);
    }
    if Newcomers(c) != {} { DetachedNodes(ValueOf(c), c.node, all, rank, bound); }
  }

  // ---- What a step does ----

  /** The node whose slot a value replaces: `n` itself, or, where a list meets a single node, the one for its holder. */
  ghost function TargetIn(h: State, all: set<Node>, n: Node, v: Value): (r: Option<Node>)
    requires IsState(h, all) && n in all
    ensures r.Some? ==> r.value in all && h.parent[r.value] != null
    decreases h.bound - h.rank[n]
  {
    var p := h.parent[n];
    if p == null || v == Single(Sub(p)) then None
    else if v.List? && h.argKey[n].value in h.args[p] && h.args[p][h.argKey[n].value].One?
            && h.args[p][h.argKey[n].value].item.Sub? then TargetIn(h, all, p, v)
    else Some(n)
  }

  /** `v` in the slot of `n`, if there is any; `n` is detached unless it is the value or an exception comes first. */
  ghost predicate Replaced(n: Node, v: Value, h: State, h': State, all: set<Node>)
    requires IsState(h, all) && h'.args.Keys == all && h'.parent.Keys == all && n in all
  {
    match TargetIn(h, all, n, v)
    case None =>
      && h'.args == h.args
      && h'.parent[n] == if h.parent[n] == null || v == Single(Sub(h.parent[n])) then h.parent[n] else null
    case Some(t) =>
      var p, k, i := h.parent[t], h.argKey[t].value, h.index[t];
      && h'.args == h.args[p := ArgsAfterSet(h.args[p], k, v, i, true)]
      && (SetRaises(h.args[p], k, v, i) || v == Single(Sub(n)) || h'.parent[n] == null)
  }

  ghost predicate StepOf(c: Command, h: State, h': State, all: set<Node>)
    requires IsState(h, all) && h'.args.Keys == all && h'.parent.Keys == all && c.node in all
  {
    match c
    case SetTo(n, k, v, i, overwrite) => h'.args == h.args[n := ArgsAfterSet(h.args[n], k, v, i, overwrite)]
    case AppendTo(n, k, x) => h'.args == h.args[n := h.args[n][k := Many(ListAt(h.args[n], k) + [x])]]
    case ReplaceBy(n, v) => Replaced(n, v, h, h', all)
    case PopOff(n) => Replaced(n, Nothing, h, h', all)
  }

  /** The node that gets a value, and the slot and place it goes to; None if nothing is to be done. */
  ghost function SlotOf(c: Command, h: State, all: set<Node>): Option<(Node, Key, Option<int>)>
    requires IsState(h, all) && c.node in all && !c.AppendTo?
  {
    if c.SetTo? then Some((c.node, c.key, c.index))
    else
      match TargetIn(h, all, c.node, ValueOf(c))
      case None => None
      case Some(t) => Some((h.parent[t], h.argKey[t].value, h.index[t]))
  }

  /** An operation puts its value in its slot: in front of or in place of the element at the index, or in place of the
      whole argument; and changes no other argument of any node. */
  lemma {:induction false} StepIsSet(c: Command, h: State, h': State, all: set<Node>)
    requires IsState(h, all) && h'.args.Keys == all && h'.parent.Keys == all && c.node in all && StepOf(c, h, h', all)
    requires !c.AppendTo?
    ensures match SlotOf(c, h, all)
      case None => h'.args == h.args
      case Some((n, k, i)) =>
        && n in all && IsSet(h.args[n], h'.args[n], k, ValueOf(c), i, c.SetTo? ==> c.overwrite)
        && forall m :: m in all && m != n ==> h'.args[m] == h.args[m]
  {
    hide ArgsAfterSet, IsSet, SetRaises;
    match SlotOf(c, h, all) {
      case None =>
      case Some(slot) => AfterSetIsSet(h.args[slot.0], slot.1, ValueOf(c), slot.2, c.SetTo? ==> c.overwrite);
    }
  }

  lemma {:induction false} SameTarget(n: Node, v: Value, all: set<Node>, rank: map<Node, nat>, bound: nat)
    requires Tidy(all, rank, bound) && n in all && n.CanReplace(v, all, rank, bound)
    requires IsState(StateOf(all, rank, bound), all)
    ensures n.Target(v, all, rank, bound) == TargetIn(StateOf(all, rank, bound), all, n, v)
    decreases bound - rank[n]
  {
    if n.Climbs(v) && !n.Ignores(v) { SameTarget(n.parent, v, all, rank, bound); }
  }

  ghost predicate KeysInOrder(all: set<Node>)
    reads all
  {
    forall n :: n in all ==> KeysMatch(n.args, n.keys)
  }

  /** One node has new arguments. */
  lemma {:induction false} Written(all: set<Node>, h: State, p: Node, args: map<Key, Arg>, rank: map<Node, nat>,
      bound: nat)
    requires h.args.Keys == all && p in all && p.args == args && forall n :: n in all && n != p ==> n.args == h.args[n]
    ensures StateOf(all, rank, bound).args == h.args[p := args]
  {
  }

  lemma {:induction false} Unwritten(all: set<Node>, h: State, rank: map<Node, nat>, bound: nat)
    requires h.args.Keys == all && forall n :: n in all ==> n.args == h.args[n]
    ensures StateOf(all, rank, bound).args == h.args
  {
  }

  lemma {:induction false} ParentNow(all: set<Node>, rank: map<Node, nat>, bound: nat)
    ensures StateOf(all, rank, bound).parent.Keys == all
    ensures forall n :: n in all ==> StateOf(all, rank, bound).parent[n] == n.parent
  {
  }

  lemma {:induction false} ListInside(p: Node, k: Key, all: set<Node>)
    requires Linked(all) && p in all
    ensures ItemNodes(ListAt(p.args, k)) <= all
  {
    if k in p.args { assert ArgNodes(p.args[k]) <= all; }
  }

  lemma {:induction false} Appendable(p: Node, k: Key, x: Item, all: set<Node>)
    requires Linked(all) && p in all && ArgNodes(One(x)) <= all
    requires forall n, l :: n in all && l in n.args ==> ArgNodes(n.args[l]) !! ValueNodes(Single(x))
    ensures OthersLinked(all, p, k) && Apart(all, p, k, ArgNodes(One(x)))
    ensures k in p.args && p.args[k].Many? ==> ArgNodes(p.args[k]) <= all && ArgLinked(p.args[k], p, k)
    ensures x.Sub? ==> x !in ListAt(p.args, k)
  {
    if x.Sub? && k in p.args && p.args[k].Many? { HoldsNode(p.args[k], x.node); }
  }

  lemma {:induction false} TidyLinks(all: set<Node>, rank: map<Node, nat>, bound: nat)
    requires Tidy(all, rank, bound)
    ensures Linked(all) && Rising(all, rank, bound)
  {
  }

  lemma {:induction false} OnlyDetached(c: Command, all: set<Node>, rank: map<Node, nat>, bound: nat)
    requires c.node in all && Rising(all, rank, bound) && ValueNodes(ValueOf(c)) <= all && Legal(c, all, rank, bound)
    requires !c.ReplaceBy?
    ensures Detached(ValueOf(c), c.node, all, rank, bound)
  {
  }

  lemma {:induction false} StateAt(all: set<Node>, rank: map<Node, nat>, bound: nat)
    requires Tidy(all, rank, bound)
    ensures var h := StateOf(all, rank, bound);
      && h.args.Keys == all && h.parent.Keys == all && h.argKey.Keys == all && h.index.Keys == all
      && forall n :: n in all ==>
           h.args[n] == n.args && h.parent[n] == n.parent && h.argKey[n] == n.argKey && h.index[n] == n.index
    ensures KeysInOrder(all) && forall n :: n in all && n.parent != null ==> n.parent in all && n.argKey.Some?
  {
  }

  /** What `Keeps` and the newcomers are for `set` and `append`. */
  lemma {:induction false} KeepsOf(c: Command, all: set<Node>, rank: map<Node, nat>, bound: nat)
    requires c.node in all && Tidy(all, rank, bound) && ValueNodes(ValueOf(c)) <= all && Legal(c, all, rank, bound)
    ensures !c.ReplaceBy? ==> NewHolder(c, all, rank, bound) == c.node && Newcomers(c) == ValueNodes(ValueOf(c))
    ensures c.SetTo? ==> Keeps(c, all, rank, bound) == SetKeepsLinks(c.node.args, c.key, c.value, c.index)
    ensures c.SetTo? ==> ValueOf(c) == c.value
    ensures c.AppendTo? ==> Keeps(c, all, rank, bound) && ValueNodes(ValueOf(c)) == ArgNodes(One(c.item))
  {
    hide Tidy, Legal, SetKeepsLinks, Node.ReplaceKeepsLinks;
  }

  lemma {:induction false} SetReady(c: Command, all: set<Node>, rank: map<Node, nat>, bound: nat)
    requires c.node in all && Tidy(all, rank, bound) && ValueNodes(ValueOf(c)) <= all && Legal(c, all, rank, bound)
    requires c.SetTo?
    ensures c.node.Settable(c.key, c.value, c.index, c.overwrite, all)
    ensures ItemNodes(ListAt(c.node.args, c.key)) <= all && ValueNodes(c.value) <= all
    ensures forall n :: n in all ==> KeysMatch(n.args, n.keys)
  {
    hide Linked, Detached, Node.Settable, KeysMatch;
    OnlyDetached(c, all, rank, bound);
    DetachedNodes(c.value, c.node, all, rank, bound);
    DetachedSettable(c.node, c.key, c.value, c.index, c.overwrite, all);
    ListInside(c.node, c.key, all);
  }

  lemma {:induction false} SetDone(c: Command, h: State, all: set<Node>, rank: map<Node, nat>, bound: nat)
    requires c.SetTo? && c.node in all && IsState(h, all) && forall n :: n in all ==> KeysMatch(n.args, n.keys)
    requires c.node.args == ArgsAfterSet(h.args[c.node], c.key, c.value, c.index, c.overwrite)
    requires forall n :: n in all && n != c.node ==> n.args == h.args[n]
    requires forall n :: n in all ==>
               SameHolder(n, h.parent[n], h.argKey[n]) ||
                 (n in ValueNodes(c.value) && SameHolder(n, c.node, Some(c.key)))
    ensures KeysInOrder(all) && Moved(h, ValueNodes(c.value), c.node, all)
    ensures StepOf(c, h, StateOf(all, rank, bound), all)
  {
    hide ArgsAfterSet, ValueNodes, KeysMatch;
    Written(all, h, c.node, c.node.args, rank, bound);
  }

  method ExecuteSet(c: Command, ghost all: set<Node>, ghost rank: map<Node, nat>, ghost bound: nat, ghost h: State)
    requires c.node in all && Tidy(all, rank, bound) && ValueNodes(ValueOf(c)) <= all && Legal(c, all, rank, bound)
    requires c.SetTo? && h == StateOf(all, rank, bound) && IsState(h, all)
    modifies all
    ensures Linked(all) <==> old(Keeps(c, all, rank, bound))
    ensures KeysInOrder(all) && Moved(h, Newcomers(c), old(NewHolder(c, all, rank, bound)), all)
    ensures StepOf(c, h, StateOf(all, rank, bound), all)
  {
    hide *;
    SetReady(c, all, rank, bound);
    KeepsOf(c, all, rank, bound);
    StateAt(all, rank, bound);
    var _ := c.node.Set(c.key, c.value, c.index, c.overwrite, all);
    forall n | n in all ensures KeysMatch(n.args, n.keys) {
      if n != c.node { assert old(KeysMatch(n.args, n.keys)); }
    }
    SetDone(c, h, all, rank, bound);
  }

  lemma {:induction false} AppendReady(c: Command, all: set<Node>, rank: map<Node, nat>, bound: nat)
    requires c.node in all && Tidy(all, rank, bound) && ValueNodes(ValueOf(c)) <= all && Legal(c, all, rank, bound)
    requires c.AppendTo?
    ensures var p, k, x := c.node, c.key, c.item;
      && OthersLinked(all, p, k) && Apart(all, p, k, ArgNodes(One(x))) && ArgNodes(One(x)) <= all
      && (k in p.args && p.args[k].Many? ==> ArgNodes(p.args[k]) <= all && ArgLinked(p.args[k], p, k))
      && (x.Sub? ==> x !in ListAt(p.args, k))
      && (x.Sub? <==> ArgNodes(One(x)) != {}) && (x.Sub? ==> ArgNodes(One(x)) == {x.node})
    ensures forall n :: n in all ==> KeysMatch(n.args, n.keys)
  {
    hide Linked, Detached, KeysMatch, Apart, OthersLinked, ArgLinked;
    OnlyDetached(c, all, rank, bound);
    DetachedNodes(Single(c.item), c.node, all, rank, bound);
    Unused(Single(c.item), all);
    Appendable(c.node, c.key, c.item, all);
  }

  lemma {:induction false} AppendDone(c: Command, h: State, all: set<Node>, rank: map<Node, nat>, bound: nat)
    requires c.AppendTo? && c.node in all && IsState(h, all) && forall n :: n in all ==> KeysMatch(n.args, n.keys)
    requires c.node.args == h.args[c.node][c.key := Many(ListAt(h.args[c.node], c.key) + [c.item])]
    requires forall n :: n in all && n != c.node ==> n.args == h.args[n]
    requires c.item.Sub? ==> SameHolder(c.item.node, c.node, Some(c.key))
    requires forall n :: n in all && Sub(n) != c.item ==> n.parent == h.parent[n] && n.argKey == h.argKey[n]
    ensures KeysInOrder(all) && Moved(h, ArgNodes(One(c.item)), c.node, all)
    ensures StepOf(c, h, StateOf(all, rank, bound), all)
  {
    hide ListAt, KeysMatch;
    Written(all, h, c.node, c.node.args, rank, bound);
  }

  method ExecuteAppend(c: Command, ghost all: set<Node>, ghost rank: map<Node, nat>, ghost bound: nat, ghost h: State)
    requires c.node in all && Tidy(all, rank, bound) && ValueNodes(ValueOf(c)) <= all && Legal(c, all, rank, bound)
    requires c.AppendTo? && h == StateOf(all, rank, bound) && IsState(h, all)
    modifies all
    ensures Linked(all) <==> old(Keeps(c, all, rank, bound))
    ensures KeysInOrder(all) && Moved(h, Newcomers(c), old(NewHolder(c, all, rank, bound)), all)
    ensures StepOf(c, h, StateOf(all, rank, bound), all)
  {
    hide *;
    AppendReady(c, all, rank, bound);
    KeepsOf(c, all, rank, bound);
    StateAt(all, rank, bound);
    c.node.Append(c.key, c.item, all);
    forall n | n in all ensures KeysMatch(n.args, n.keys) {
      if n != c.node { assert old(KeysMatch(n.args, n.keys)); }
    }
    AppendDone(c, h, all, rank, bound);
  }

  lemma {:induction false} ReplaceReady(c: Command, all: set<Node>, rank: map<Node, nat>, bound: nat)
    requires c.node in all && Tidy(all, rank, bound) && ValueNodes(ValueOf(c)) <= all && Legal(c, all, rank, bound)
    requires c.ReplaceBy?
    requires IsState(StateOf(all, rank, bound), all)
    ensures Linked(all) && all <= rank.Keys && rank[c.node] <= bound && c.node.CanReplace(c.value, all, rank, bound)
    ensures c.node.Target(c.value, all, rank, bound) == TargetIn(StateOf(all, rank, bound), all, c.node, c.value)
    ensures c.node.ReplaceKeepsLinks(c.value, all, rank, bound) == Keeps(c, all, rank, bound)
    ensures c.node.Ignores(c.value) <==> c.node.parent == null || c.value == Single(Sub(c.node.parent))
    ensures match c.node.Target(c.value, all, rank, bound)
      case None => !c.node.ReplaceRaises(c.value, all, rank, bound) && NewHolder(c, all, rank, bound) == c.node
      case Some(t) =>
        && NewHolder(c, all, rank, bound) == t.parent
        && c.node.ReplaceRaises(c.value, all, rank, bound) == SetRaises(t.parent.args, t.argKey.value, c.value, t.index)
    ensures c.value != Single(Sub(c.node)) ==> Newcomers(c) == ValueNodes(c.value)
    ensures c.value == Single(Sub(c.node)) ==> ValueNodes(c.value) == {c.node}
    ensures forall n :: n in all ==> KeysMatch(n.args, n.keys)
  {
    LegalReplaces(c, all, rank, bound);
    SameTarget(c.node, c.value, all, rank, bound);
    hide Linked, Detached, Legal, KeysMatch, Node.CanReplace, Node.ReplaceKeepsLinks, StateOf, IsState;
  }

  /** What `replace` has done to arguments and links. */
  ghost predicate AfterReplace(c: Command, h: State, all: set<Node>, ok: bool)
    requires c.ReplaceBy? && c.node in all && IsState(h, all)
    reads all
  {
    var t := TargetIn(h, all, c.node, c.value);
    && (match t
        case None => ok && forall n :: n in all ==> n.args == h.args[n]
        case Some(t) =>
          && (ok <==> !SetRaises(h.args[h.parent[t]], h.argKey[t].value, c.value, h.index[t]))
          && (h.parent[t] as Node).args ==
               ArgsAfterSet(h.args[h.parent[t]], h.argKey[t].value, c.value, h.index[t], true)
          && forall n :: n in all && n != h.parent[t] ==> n.args == h.args[n])
    && (var ignored := h.parent[c.node] == null || c.value == Single(Sub(h.parent[c.node]));
        && (ok && !ignored && c.value != Single(Sub(c.node)) ==> c.node.parent == null)
        && (ignored ==> c.node.parent == h.parent[c.node]))
    && forall n :: n in all ==>
         SameHolder(n, h.parent[n], h.argKey[n]) || n.parent == null ||
         (n in ValueNodes(c.value) && n.argKey.Some? && t.Some? && n.parent == h.parent[t.value])
  }

  lemma {:induction false} ReplaceDone(c: Command, h: State, all: set<Node>, rank: map<Node, nat>, bound: nat, ok: bool)
    requires c.ReplaceBy? && c.node in all && IsState(h, all) && AfterReplace(c, h, all, ok)
    ensures StepOf(c, h, StateOf(all, rank, bound), all)
  {
    hide ArgsAfterSet, SetRaises, ValueNodes;
    ParentNow(all, rank, bound);
    match TargetIn(h, all, c.node, c.value) {
      case None => Unwritten(all, h, rank, bound);
      case Some(t) => Written(all, h, h.parent[t], (h.parent[t] as Node).args, rank, bound);
    }
  }

  lemma {:induction false} ReplaceMoved(c: Command, h: State, all: set<Node>, ok: bool)
    requires c.ReplaceBy? && c.node in all && IsState(h, all) && AfterReplace(c, h, all, ok)
    ensures match TargetIn(h, all, c.node, c.value)
      case None => Moved(h, Newcomers(c), c.node, all)
      case Some(t) => Moved(h, Newcomers(c), h.parent[t], all)
  {
    hide ArgsAfterSet, SetRaises;
  }

  method ExecuteReplace(c: Command, ghost all: set<Node>, ghost rank: map<Node, nat>, ghost bound: nat, ghost h: State)
    requires c.node in all && Tidy(all, rank, bound) && ValueNodes(ValueOf(c)) <= all && Legal(c, all, rank, bound)
    requires c.ReplaceBy? && h == StateOf(all, rank, bound) && IsState(h, all)
    modifies all
    ensures Linked(all) <==> old(Keeps(c, all, rank, bound))
    ensures KeysInOrder(all) && Moved(h, Newcomers(c), old(NewHolder(c, all, rank, bound)), all)
    ensures StepOf(c, h, StateOf(all, rank, bound), all)
  {
    hide Legal, Detached, Tidy, KeysMatch, Node.CanReplace, Node.Target, Node.ReplaceKeepsLinks, Node.ReplaceRaises,
      Node.Ignores,
      StateOf, IsState, TargetIn, SetRaises, ArgsAfterSet, RootOf, Linked, Keeps, NewHolder, Moved, StepOf, ValueNodes,
        Newcomers;
    StateAt(all, rank, bound);
    ReplaceReady(c, all, rank, bound);
    ghost var t := TargetIn(h, all, c.node, c.value);
    var ok := c.node.Replace(c.value, all, rank, bound);
    forall n | n in all ensures KeysMatch(n.args, n.keys) {
      if t == None || n != h.parent[t.value] { assert old(KeysMatch(n.args, n.keys)); }
    }
    ReplaceDone(c, h, all, rank, bound, ok);
    ReplaceMoved(c, h, all, ok);
  }

  method ExecutePop(c: Command, ghost all: set<Node>, ghost rank: map<Node, nat>, ghost bound: nat, ghost h: State)
    requires c.node in all && Tidy(all, rank, bound) && ValueNodes(ValueOf(c)) <= all && Legal(c, all, rank, bound)
    requires c.PopOff? && h == StateOf(all, rank, bound) && IsState(h, all)
    modifies all
    ensures Linked(all) <==> old(Keeps(c, all, rank, bound))
    ensures KeysInOrder(all) && Moved(h, Newcomers(c), old(NewHolder(c, all, rank, bound)), all)
    ensures StepOf(c, h, StateOf(all, rank, bound), all)
  {
    hide Linked, Detached, Legal, Node.Settable, Node.CanReplace, KeysMatch, RootOf, Tidy, StateOf, IsState,
      ArgsAfterSet, KeysAfterSet, SetRaises, SetKeepsLinks;
    StateAt(all, rank, bound);
    TidyLinks(all, rank, bound);
    LegalReplaces(c, all, rank, bound);
    var _ := c.node.Pop(all, rank, bound);
    ParentNow(all, rank, bound);
    if h.parent[c.node] != null {
      Written(all, h, h.parent[c.node], h.parent[c.node].args, rank, bound);
    } else {
      Unwritten(all, h, rank, bound);
    }
  }

  method Execute(c: Command, ghost all: set<Node>, ghost rank: map<Node, nat>, ghost bound: nat, ghost h: State)
    requires c.node in all && Tidy(all, rank, bound) && ValueNodes(ValueOf(c)) <= all && Legal(c, all, rank, bound)
    requires h == StateOf(all, rank, bound) && IsState(h, all)
    modifies all
    ensures Linked(all) <==> old(Keeps(c, all, rank, bound))
    ensures KeysInOrder(all) && Moved(h, Newcomers(c), old(NewHolder(c, all, rank, bound)), all)
    ensures StepOf(c, h, StateOf(all, rank, bound), all)
  {
    hide *;
    match c {
      case SetTo(_, _, _, _, _) => ExecuteSet(c, all, rank, bound, h);
      case AppendTo(_, _, _) => ExecuteAppend(c, all, rank, bound, h);
      case ReplaceBy(_, _) => ExecuteReplace(c, all, rank, bound, h);
      case PopOff(_) => ExecutePop(c, all, rank, bound, h);
    }
  }

  /** One step, and the heights afterwards. */
  method Step(c: Command, ghost all: set<Node>, ghost rank: map<Node, nat>, ghost bound: nat)
    returns (ghost rank': map<Node, nat>, ghost bound': nat)
    requires c.node in all && Tidy(all, rank, bound) && ValueNodes(ValueOf(c)) <= all && Legal(c, all, rank, bound)
    modifies all
    ensures Linked(all) <==> old(Keeps(c, all, rank, bound))
    ensures Linked(all) ==> Tidy(all, rank', bound')
    ensures IsState(old(StateOf(all, rank, bound)), all)
    ensures StepOf(c, old(StateOf(all, rank, bound)), StateOf(all, rank', bound'), all)
  {
    ghost var h, roots, xs, p :=
      StateOf(all, rank, bound), Roots(all, rank, bound), Newcomers(c), NewHolder(c, all, rank, bound);
    HasRoots(all, rank, bound);
    NewcomersFit(c, all, rank, bound);
    rank', bound' := Raised(h, roots, xs), 2 * bound + 1;
    Execute(c, all, rank, bound, h);
    StillRising(h, roots, xs, p, all);
  }

  /** The states between the commands: each command does what it is meant to do. */
  ghost predicate IsRun(cs: seq<Command>, states: seq<State>, all: set<Node>)
    decreases |cs|
  {
    && |states| == |cs| + 1 && IsState(states[|cs|], all)
    && (cs != [] ==>
          var n := |cs| - 1;
          && IsRun(cs[..n], states[..n + 1], all) && IsState(states[n], all)
          && cs[n].node in all && StepOf(cs[n], states[n], states[n + 1], all))
  }

  lemma {:induction false} RunGoesOn(cs: seq<Command>, states: seq<State>, c: Command, h: State, all: set<Node>)
    requires IsRun(cs, states, all) && |states| == |cs| + 1 && IsState(states[|cs|], all) && IsState(h, all)
    requires c.node in all && StepOf(c, states[|cs|], h, all)
    ensures IsRun(cs + [c], states + [h], all)
  {
    hide IsState, StepOf;
    assert (cs + [c])[..|cs|] == cs && (states + [h])[..|cs| + 1] == states;
  }

  /** After the first `n` commands. */
  ghost predicate Reached(cs: seq<Command>, n: nat, states: seq<State>, all: set<Node>, rank: map<Node, nat>,
      bound: nat)
    reads all
  {
    && n <= |cs| && |states| == n + 1 && Tidy(all, rank, bound) && IsRun(cs[..n], states, all)
    && states[n] == StateOf(all, rank, bound)
  }

  lemma {:induction false} Ready(cs: seq<Command>, n: nat, states: seq<State>, all: set<Node>, rank: map<Node, nat>,
      bound: nat)
    requires Reached(cs, n, states, all, rank, bound)
    ensures |states| == n + 1 && states[n] == StateOf(all, rank, bound) && IsRun(cs[..n], states, all)
    ensures Tidy(all, rank, bound) && Rising(all, rank, bound) && IsState(states[n], all)
  {
    TidyState(all, rank, bound);
  }

  lemma {:induction false} NextReached(cs: seq<Command>, n: nat, states: seq<State>, all: set<Node>,
      rank: map<Node, nat>, bound: nat)
    requires n < |cs| && |states| == n + 1 && IsRun(cs[..n], states, all) && IsState(states[n], all)
    requires Tidy(all, rank, bound) && IsState(StateOf(all, rank, bound), all)
    requires cs[n].node in all && StepOf(cs[n], states[n], StateOf(all, rank, bound), all)
    ensures Reached(cs, n + 1, states + [StateOf(all, rank, bound)], all, rank, bound)
  {
    hide Tidy, IsState, StepOf, IsRun, StateOf;
    assert cs[..n + 1] == cs[..n] + [cs[n]];
    RunGoesOn(cs[..n], states, cs[n], StateOf(all, rank, bound), all);
  }

  lemma {:induction false} StartReached(cs: seq<Command>, all: set<Node>, rank: map<Node, nat>, bound: nat)
    requires Tidy(all, rank, bound)
    ensures Reached(cs, 0, [StateOf(all, rank, bound)], all, rank, bound)
  {
    TidyState(all, rank, bound);
    assert cs[..0] == [];
  }

  /** Any sequence of operations on nodes of `all`, also on nodes that others have displaced. It ends early at
      an operation whose value is not detached, or which breaks links; until then all links hold. */
  method Run(cs: seq<Command>, ghost all: set<Node>, ghost rank: map<Node, nat>, ghost bound: nat)
    returns (n: nat, ghost states: seq<State>, ghost rank': map<Node, nat>, ghost bound': nat)
    requires Tidy(all, rank, bound) && forall c :: c in cs ==> c.node in all && ValueNodes(ValueOf(c)) <= all
    modifies all
    ensures n <= |cs| && |states| == n + 1 && Tidy(all, rank', bound') && IsRun(cs[..n], states, all)
    ensures states[0] == old(StateOf(all, rank, bound)) && states[n] == StateOf(all, rank', bound')
    ensures n < |cs| ==> cs[n] in cs && !(Legal(cs[n], all, rank', bound') && Keeps(cs[n], all, rank', bound'))
  {
    hide *;
    n, rank', bound', states := 0, rank, bound, [StateOf(all, rank, bound)];
    StartReached(cs, all, rank, bound);
    while n < |cs|
      invariant n <= |cs| && |states| == n + 1 && Reached(cs, n, states, all, rank', bound')
      invariant states[0] == old(StateOf(all, rank, bound))
    {
      hide *;
      Ready(cs, n, states, all, rank', bound');
      assert cs[n] in cs;
      if !Legal(cs[n], all, rank', bound') || !Keeps(cs[n], all, rank', bound') {
        return;
      }
      rank', bound' := Step(cs[n], all, rank', bound');
      TidyState(all, rank', bound');
      NextReached(cs, n, states, all, rank', bound');
      n, states := n + 1, states + [StateOf(all, rank', bound')];
    }
    Ready(cs, n, states, all, rank', bound');
  }

  lemma {:induction false} TidyState(all: set<Node>, rank: map<Node, nat>, bound: nat)
    requires Tidy(all, rank, bound)
    ensures Rising(all, rank, bound) && IsState(StateOf(all, rank, bound), all)
  {
  }
}
