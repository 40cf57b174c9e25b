/** Copying a tree with an explicit stack, and the walk that pairs a tree with its copy
    (sqlglot/expressions.py, `Expression.__deepcopy__` and `bfs`; sqlglot/diff.py, `compute_node_mappings`). */
module AstCopy {
  import opened Collections
  import opened Ast
  import opened AstTree
  import opened AstBuild
  import opened AstWalk
  import opened AstBfs

  /** A node whose arguments are still to be copied, and its copy. */
  datatype Job = Job(node: Node, copy: Node)

  /** `of` names the original of each copy. Copies hold copies only, and link back to their holders. */
  ghost predicate Copying(of: map<Node, Node>, all: set<Node>, tr: map<Node, Tree>)
    reads all, of.Keys
  {
    && Labelled(all, tr) && of.Keys !! all && Linked(of.Keys)
    && forall m :: m in of ==> of[m] in all && m.kind == of[m].kind && KeysMatch(m.args, m.keys)
  }

  /** The tree that a copy will stand for. */
  ghost function Labels(of: map<Node, Node>, tr: map<Node, Tree>): map<Node, Tree> {
    map m | m in of && of[m] in tr :: tr[of[m]]
  }

  ghost predicate Blank(m: Node)
    reads m`args, m`keys
  {
    m.args == map[] && m.keys == []
  }

  /** The new copies are those of `jobs`, and are blank. */
  ghost predicate Pushed(of: map<Node, Node>, of': map<Node, Node>, jobs: seq<Job>)
    reads (set m | m in of' && m !in of)
  {
    && (forall m :: m in of ==> m in of' && of'[m] == of[m])
    && (forall j :: j in jobs ==> j.copy in of' && j.copy !in of && of'[j.copy] == j.node)
    && (forall m :: m in of' && m !in of ==> Blank(m) && Job(of'[m], m) in jobs)
    && DistinctCopies(jobs)
  }

  ghost predicate DistinctCopies(jobs: seq<Job>) {
    forall i, j :: 0 <= i < j < |jobs| ==> jobs[i].copy != jobs[j].copy
  }

  ghost function Weight(jobs: seq<Job>, tr: map<Node, Tree>): nat {
    if jobs == [] then 0
    else Weight(jobs[..|jobs| - 1], tr) + (if jobs[|jobs| - 1].node in tr then Size(tr[jobs[|jobs| - 1].node]) else 0)
  }

  lemma {:induction false} WeightConcat(xs: seq<Job>, ys: seq<Job>, tr: map<Node, Tree>)
    ensures Weight(xs + ys, tr) == Weight(xs, tr) + Weight(ys, tr)
    decreases |ys|
  {
    if ys == [] {
      assert xs + ys == xs;
    } else {
      assert (xs + ys)[..|xs + ys| - 1] == xs + ys[..|ys| - 1];
      WeightConcat(xs, ys[..|ys| - 1], tr);
    }
  }

  lemma {:induction false} ItemsTreeSnoc(xs: seq<Item>, x: Item, tr: map<Node, Tree>)
    ensures ItemsTree(xs + [x], tr) == ItemsTree(xs, tr) + [ItemTree(x, tr)]
  {
    ItemsTreeConcat(xs, [x], tr);
    assert [x][1..] == [];
  }

  // ---- The originals of what copies hold ----

  ghost function OriginalItem(x: Item, of: map<Node, Node>): Item {
    if x.Sub? && x.node in of then Sub(of[x.node]) else x
  }

  ghost function OriginalItems(xs: seq<Item>, of: map<Node, Node>): seq<Item> {
    if xs == [] then [] else [OriginalItem(xs[0], of)] + OriginalItems(xs[1..], of)
  }

  ghost function OriginalArg(a: Arg, of: map<Node, Node>): Arg {
    match a
    case One(x) => One(OriginalItem(x, of))
    case Many(xs) => Many(OriginalItems(xs, of))
  }

  lemma {:induction false} OriginalItemsSnoc(xs: seq<Item>, x: Item, of: map<Node, Node>)
    ensures OriginalItems(xs + [x], of) == OriginalItems(xs, of) + [OriginalItem(x, of)]
    decreases |xs|
  {
    if xs == [] {
      assert xs + [x] == [x] && [x][1..] == [];
    } else {
      assert (xs + [x])[1..] == xs[1..] + [x];
      OriginalItemsSnoc(xs[1..], x, of);
    }
  }

  lemma {:induction false} SameOriginals(xs: seq<Item>, of: map<Node, Node>, of': map<Node, Node>)
    requires ItemNodes(xs) <= of.Keys && forall m :: m in of ==> m in of' && of'[m] == of[m]
    ensures OriginalItems(xs, of) == OriginalItems(xs, of')
    decreases |xs|
  {
    if xs != [] {
      assert xs[0].Sub? ==> xs[0].node in ItemNodes(xs);
      forall c | c in ItemNodes(xs[1..]) ensures c in ItemNodes(xs) {
        var i :| 0 <= i < |xs[1..]| && xs[1..][i] == Sub(c);
        assert xs[i + 1] == Sub(c);
      }
      SameOriginals(xs[1..], of, of');
    }
  }

  lemma {:induction false} SameOriginal(a: Arg, of: map<Node, Node>, of': map<Node, Node>)
    requires ArgNodes(a) <= of.Keys && forall m :: m in of ==> m in of' && of'[m] == of[m]
    ensures OriginalArg(a, of) == OriginalArg(a, of')
  {
    match a {
      case One(x) => assert x.Sub? ==> x.node in ArgNodes(a);
      case Many(xs) => SameOriginals(xs, of, of');
    }
  }

  method NewCopy(n: Node, ghost of: map<Node, Node>, ghost all: set<Node>, ghost tr: map<Node, Tree>)
    returns (c: Node, ghost of': map<Node, Node>)
    requires Copying(of, all, tr) && n in all
    ensures fresh(c) && of' == of[c := n] && Copying(of', all, tr) && Blank(c) && c.parent == null
    ensures Pushed(of, of', [Job(n, c)]) && Unheld(c, of'.Keys)
  {
    c := new Node.Empty(n.kind);
    of' := of[c := n];
    assert [Job(n, c)][0] == Job(n, c);
  }

  /** What `c` holds at `k` has the original `a`. */
  ghost predicate Placed(c: Node, k: Key, a: Arg, of: map<Node, Node>)
    reads c`args
  {
    k in c.args && ArgNodes(c.args[k]) <= of.Keys && OriginalArg(c.args[k], of) == a
  }

  lemma {:induction false} NewIsSettable(c: Node, k: Key, m: Node, of: map<Node, Node>, all: set<Node>,
      tr: map<Node, Tree>)
    requires Copying(of, all, tr) && c in of && m in of && Unheld(m, of.Keys)
    ensures c.Settable(k, Single(Sub(m)), None, true, of.Keys) && KeysMatch(c.args, c.keys)
  {
  }

  /** `copy.set(k, m)` for a new copy `m` */
  method PutCopy(c: Node, k: Key, m: Node, ghost of: map<Node, Node>, ghost all: set<Node>, ghost tr: map<Node, Tree>)
    requires Copying(of, all, tr) && c in of && m in of && m != c && k !in c.args && Unheld(m, of.Keys)
    modifies c`args, c`keys, m`parent, m`argKey, m`index
    ensures Copying(of, all, tr) && c.args == old(c.args)[k := One(Sub(m))] && c.keys == old(c.keys) + [k]
  {
    hide Linked, Node.Settable, Unheld, KeysMatch, ArgsTree;
    NewIsSettable(c, k, m, of, all, tr);
    NewKey(c.args, c.keys, k);
    assert forall n :: n in all ==> n != c && n != m;
    var _ := c.Set(k, Single(Sub(m)), None, true, of.Keys);
  }

  lemma {:induction false} NewKey(args: map<Key, Arg>, keys: seq<Key>, k: Key)
    requires KeysMatch(args, keys) && k !in args
    ensures k !in keys
  {
  }

  predicate Plain(a: Arg) {
    if a.One? then a.item.Atom? else a.items == []
  }

  /** `copy.args[k] = vs` for an argument without nodes */
  method PutPlain(c: Node, k: Key, a: Arg, ghost of: map<Node, Node>, ghost all: set<Node>, ghost tr: map<Node, Tree>)
    requires Copying(of, all, tr) && c in of && k !in c.args && Plain(a)
    modifies c`args, c`keys
    ensures Copying(of, all, tr) && c.args == old(c.args)[k := a] && c.keys == old(c.keys) + [k]
  {
    hide KeysMatch, WithKey;
    WithKeyMatches(c.args, c.keys, k);
    AppendedKey(c.args, c.keys, k);
    c.args, c.keys := c.args[k := a], WithKey(c.keys, k);
    forall n, l | n in of.Keys && l in n.args ensures ArgNodes(n.args[l]) <= of.Keys && ArgLinked(n.args[l], n, l) {
      if n == c && l == k {
        PlainLinked(a, c, k);
      } else {
        assert old(l in n.args && ArgNodes(n.args[l]) <= of.Keys && ArgLinked(n.args[l], n, l));
      }
    }
  }

  lemma {:induction false} PlainLinked(a: Arg, p: Node, k: Key)
    requires Plain(a)
    ensures ArgNodes(a) == {} && ArgLinked(a, p, k)
  {
  }

  lemma {:induction false} AppendedKey(args: map<Key, Arg>, keys: seq<Key>, k: Key)
    requires KeysMatch(args, keys) && k !in args
    ensures WithKey(keys, k) == keys + [k]
  {
  }

  lemma {:induction false} Labelling(of: map<Node, Node>, all: set<Node>, tr: map<Node, Tree>, n: Node)
    requires Copying(of, all, tr) && n in all
    ensures n in tr && n !in of
  {
  }

  method CopyOne(c: Node, k: Key, x: Item, ghost of: map<Node, Node>, ghost all: set<Node>, ghost tr: map<Node, Tree>)
    returns (jobs: seq<Job>, ghost of': map<Node, Node>)
    requires Copying(of, all, tr) && c in of && k !in c.args && ArgNodes(One(x)) <= all
    modifies c`args, c`keys
    ensures Copying(of', all, tr) && Pushed(of, of', jobs) && fresh(of'.Keys - of.Keys)
    ensures Placed(c, k, One(x), of') && c.args == old(c.args)[k := c.args[k]] && c.keys == old(c.keys) + [k]
    ensures Weight(jobs, tr) <= SizeItem(ItemTree(x, tr))
  {
    hide Copying;
    match x {
      case Atom(_) =>
        PutPlain(c, k, One(x), of, all, tr);
        jobs, of' := [], of;
      case Sub(n) =>
        Labelling(of, all, tr, n);
        var m;
        m, of' := NewCopy(n, of, all, tr);
        PutCopy(c, k, m, of', all, tr);
        jobs := [Job(n, m)];
        assert Weight(jobs, tr) <= Size(tr[n]) by { WeightOne(n, m, tr); }
    }
  }

  lemma {:induction false} WeightOne(n: Node, m: Node, tr: map<Node, Tree>)
    requires n in tr
    ensures Weight([Job(n, m)], tr) == Size(tr[n])
  {
    assert [Job(n, m)][..0] == [];
  }

  /** `copy.append(k, v)`, with a copy of `v` if it is a node */
  method AppendCopy(c: Node, k: Key, x: Item, ghost of: map<Node, Node>, ghost all: set<Node>,
      ghost tr: map<Node, Tree>)
    returns (y: Item, jobs: seq<Job>, ghost of': map<Node, Node>)
    requires Copying(of, all, tr) && c in of && k in c.args && c.args[k].Many? && ArgNodes(One(x)) <= all
    modifies c`args, c`keys
    ensures Copying(of', all, tr) && Pushed(of, of', jobs) && fresh(of'.Keys - of.Keys)
    ensures c.args == old(c.args)[k := Many(old(c.args)[k].items + [y])] && c.keys == old(c.keys)
    ensures ArgNodes(One(y)) <= of'.Keys && OriginalItem(y, of') == x
    ensures Weight(jobs, tr) <= SizeItem(ItemTree(x, tr))
  {
    hide Copying;
    match x {
      case Atom(_) =>
        y, jobs, of' := x, [], of;
        AppendItem(c, k, y, of, all, tr);
      case Sub(n) =>
        Labelling(of, all, tr, n);
        var m;
        m, of' := NewCopy(n, of, all, tr);
        y, jobs := Sub(m), [Job(n, m)];
        AppendItem(c, k, y, of', all, tr);
        WeightOne(n, m, tr);
    }
  }

  method AppendItem(c: Node, k: Key, y: Item, ghost of: map<Node, Node>, ghost all: set<Node>,
      ghost tr: map<Node, Tree>)
    requires Copying(of, all, tr) && c in of && k in c.args && c.args[k].Many?
    requires ArgNodes(One(y)) <= of.Keys && (y.Sub? ==> y.node != c && Unheld(y.node, of.Keys))
    modifies c`args, c`keys, ArgNodes(One(y))`parent, ArgNodes(One(y))`argKey, ArgNodes(One(y))`index
    ensures Copying(of, all, tr) && c.args == old(c.args)[k := Many(old(c.args)[k].items + [y])]
    ensures c.keys == old(c.keys)
  {
    hide Linked;
    ItemIsSettable(c, k, y, of, all, tr);
    c.Append(k, y, of.Keys);
  }

  lemma {:induction false} NotInItems(xs: seq<Item>, n: Node)
    requires n !in ItemNodes(xs)
    ensures Sub(n) !in xs
  {
  }

  lemma {:induction false} ItemIsSettable(c: Node, k: Key, y: Item, of: map<Node, Node>, all: set<Node>,
      tr: map<Node, Tree>)
    requires Copying(of, all, tr) && c in of && k in c.args && c.args[k].Many?
    requires ArgNodes(One(y)) <= of.Keys && (y.Sub? ==> Unheld(y.node, of.Keys))
    ensures OthersLinked(of.Keys, c, k) && Apart(of.Keys, c, k, ArgNodes(One(y))) && KeysMatch(c.args, c.keys)
    ensures ArgNodes(c.args[k]) <= of.Keys && ArgLinked(c.args[k], c, k) && (y.Sub? ==> y !in c.args[k].items)
  {
    if y.Sub? { NotInItems(c.args[k].items, y.node); }
  }

  lemma {:induction false} PushedConcat(of: map<Node, Node>, of1: map<Node, Node>, of2: map<Node, Node>, xs: seq<Job>,
      ys: seq<Job>)
    requires Pushed(of, of1, xs) && Pushed(of1, of2, ys)
    ensures Pushed(of, of2, xs + ys)
  {
    assert forall j :: j in xs + ys <==> j in xs || j in ys;
    forall i, j | 0 <= i < |xs| && 0 <= j < |ys| ensures xs[i].copy != ys[j].copy {
      assert xs[i] in xs && ys[j] in ys;
    }
  }

  lemma {:induction false} SizeItemsSnoc(xs: seq<TItem>, x: TItem)
    ensures SizeItems(xs + [x]) == SizeItems(xs) + 1 + SizeItem(x)
    decreases |xs|
  {
    if xs == [] {
      assert xs + [x] == [x] && [x][1..] == [];
    } else {
      assert (xs + [x])[1..] == xs[1..] + [x];
      SizeItemsSnoc(xs[1..], x);
    }
  }

  /** One more element of a list. */
  lemma {:induction false} ListGrows(ys: seq<Item>, y: Item, xs: seq<Item>, x: Item, of: map<Node, Node>,
      of': map<Node, Node>,
                                     jobs: seq<Job>, js: seq<Job>, tr: map<Node, Tree>)
    requires forall m :: m in of ==> m in of' && of'[m] == of[m]
    requires ListSoFar(ys, xs, jobs, of, tr) && ArgNodes(One(y)) <= of'.Keys && OriginalItem(y, of') == x
    requires Weight(js, tr) <= SizeItem(ItemTree(x, tr))
    ensures ListSoFar(ys + [y], xs + [x], jobs + js, of', tr)
  {
    forall c | c in ItemNodes(ys + [y]) ensures c in of' {
      var i :| 0 <= i < |ys + [y]| && (ys + [y])[i] == Sub(c);
      assert i < |ys| ==> ys[i] == Sub(c);
      assert i == |ys| ==> c in ArgNodes(One(y));
    }
    SameOriginals(ys, of, of');
    OriginalItemsSnoc(ys, y, of');
    ItemsTreeSnoc(xs, x, tr);
    SizeItemsSnoc(ItemsTree(xs, tr), ItemTree(x, tr));
    WeightConcat(jobs, js, tr);
  }

  /** The list under construction, after the elements `xs`. */
  ghost predicate ListSoFar(ys: seq<Item>, xs: seq<Item>, jobs: seq<Job>, of': map<Node, Node>, tr: map<Node, Tree>) {
    ItemNodes(ys) <= of'.Keys && OriginalItems(ys, of') == xs && Weight(jobs, tr) <= SizeItems(ItemsTree(xs, tr))
  }

  method CopyNext(c: Node, k: Key, ghost xs: seq<Item>, x: Item, jobs: seq<Job>, ghost ys: seq<Item>,
                  ghost of: map<Node, Node>, ghost of1: map<Node, Node>, ghost all: set<Node>,
                    ghost tr: map<Node, Tree>)
    returns (jobs': seq<Job>, ghost ys': seq<Item>, ghost of': map<Node, Node>)
    requires Copying(of1, all, tr) && Pushed(of, of1, jobs) && c in of && k in c.args && c.args[k] == Many(ys)
    requires ListSoFar(ys, xs, jobs, of1, tr) && ArgNodes(One(x)) <= all
    modifies c`args, c`keys
    ensures Copying(of', all, tr) && Pushed(of, of', jobs') && fresh(of'.Keys - of1.Keys) && of1.Keys <= of'.Keys
    ensures c.args == old(c.args)[k := Many(ys')] && c.keys == old(c.keys)
    ensures ListSoFar(ys', xs + [x], jobs', of', tr)
  {
    hide Copying, ItemsTree, Weight, SizeItems, DistinctCopies;
    var y, js;
    y, js, of' := AppendCopy(c, k, x, of1, all, tr);
    PushedConcat(of, of1, of', jobs, js);
    ListGrows(ys, y, xs, x, of1, of', jobs, js, tr);
    jobs', ys' := jobs + js, ys + [y];
  }

  method CopyList(c: Node, k: Key, xs: seq<Item>, ghost of: map<Node, Node>, ghost all: set<Node>,
      ghost tr: map<Node, Tree>)
    returns (jobs: seq<Job>, ghost of': map<Node, Node>)
    requires Copying(of, all, tr) && c in of && k !in c.args && ItemNodes(xs) <= all
    modifies c`args, c`keys
    ensures Copying(of', all, tr) && Pushed(of, of', jobs) && fresh(of'.Keys - of.Keys)
    ensures Placed(c, k, Many(xs), of') && c.args == old(c.args)[k := c.args[k]] && c.keys == old(c.keys) + [k]
    ensures Weight(jobs, tr) <= SizeItems(ItemsTree(xs, tr))
  {
    hide Copying, Pushed, ListSoFar, Placed, Weight, ItemsTree, SizeItems;
    PutPlain(c, k, Many([]), of, all, tr);
    jobs, of' := [], of;
    ghost var ys: seq<Item> := [];
    NothingCopied(of, tr);
    assert xs[..0] == [];
    for i := 0 to |xs|
      invariant Copying(of', all, tr) && Pushed(of, of', jobs) && fresh(of'.Keys - of.Keys) && of.Keys <= of'.Keys
      invariant c.args == old(c.args)[k := Many(ys)] && c.keys == old(c.keys) + [k]
      invariant ListSoFar(ys, xs[..i], jobs, of', tr)
    {
      hide Copying, Pushed, ListSoFar, Placed, Weight, ItemsTree, SizeItems;
      assert xs[..i + 1] == xs[..i] + [xs[i]] && (xs[i].Sub? ==> xs[i].node in ItemNodes(xs));
      jobs, ys, of' := CopyNext(c, k, xs[..i], xs[i], jobs, ys, of, of', all, tr);
    }
    assert xs[..|xs|] == xs;
    ListIsPlaced(c, k, ys, xs, jobs, of', tr);
  }

  lemma {:induction false} NothingCopied(of: map<Node, Node>, tr: map<Node, Tree>)
    ensures Pushed(of, of, []) && ListSoFar([], [], [], of, tr)
  {
  }

  lemma {:induction false} ListIsPlaced(c: Node, k: Key, ys: seq<Item>, xs: seq<Item>, jobs: seq<Job>,
      of: map<Node, Node>, tr: map<Node, Tree>)
    requires ListSoFar(ys, xs, jobs, of, tr) && k in c.args && c.args[k] == Many(ys)
    ensures Placed(c, k, Many(xs), of) && Weight(jobs, tr) <= SizeItems(ItemsTree(xs, tr))
  {
  }

  lemma {:induction false} PushedGrows(of: map<Node, Node>, of': map<Node, Node>, jobs: seq<Job>)
    requires Pushed(of, of', jobs)
    ensures forall m :: m in of ==> m in of' && of'[m] == of[m]
  {
  }

  // ---- All arguments of a node ----

  method CopyArg(c: Node, k: Key, a: Arg, ghost of: map<Node, Node>, ghost all: set<Node>, ghost tr: map<Node, Tree>)
    returns (jobs: seq<Job>, ghost of': map<Node, Node>)
    requires Copying(of, all, tr) && c in of && k !in c.args && ArgNodes(a) <= all
    modifies c`args, c`keys
    ensures Copying(of', all, tr) && Pushed(of, of', jobs) && fresh(of'.Keys - of.Keys)
    ensures Placed(c, k, a, of') && c.args == old(c.args)[k := c.args[k]] && c.keys == old(c.keys) + [k]
    ensures Weight(jobs, tr) <= SizeArg(ArgTree(a, tr))
  {
    match a {
      case One(x) => jobs, of' := CopyOne(c, k, x, of, all, tr);
      case Many(xs) => jobs, of' := CopyList(c, k, xs, of, all, tr);
    }
  }

  /** The copy `c` of a node with arguments `args`, after the keys `ks`. */
  ghost predicate ArgsSoFar(c: Node, ks: seq<Key>, args: map<Key, Arg>, jobs: seq<Job>, of: map<Node, Node>,
      tr: map<Node, Tree>)
    reads c`args, c`keys
  {
    && c.keys == ks && CopiedArgs(c.args, ks, args, of) && Weight(jobs, tr) <= SizeArgs(ArgsTree(ks, args, tr))
  }

  /** `cargs` holds exactly the keys `ks`, with copies of what `args` holds there. */
  ghost predicate CopiedArgs(cargs: map<Key, Arg>, ks: seq<Key>, args: map<Key, Arg>, of: map<Node, Node>) {
    && (forall k :: k in cargs <==> k in ks) && ArgsNodes(cargs) <= of.Keys
    && forall k :: k in ks ==> k in args && OriginalArg(cargs[k], of) == args[k]
  }

  lemma {:induction false} ArgsTreeStep(ks: seq<Key>, args: map<Key, Arg>, tr: map<Node, Tree>)
    ensures ArgsTree([], args, tr) == []
    ensures ks != [] && ks[0] in args ==>
              ArgsTree(ks, args, tr) == [Entry(ks[0], ArgTree(args[ks[0]], tr))] + ArgsTree(ks[1..], args, tr)
    ensures ks != [] && ks[0] !in args ==> ArgsTree(ks, args, tr) == ArgsTree(ks[1..], args, tr)
  {
    hide ArgTree;
  }

  lemma {:induction false} ArgsTreeSnoc(ks: seq<Key>, k: Key, args: map<Key, Arg>, tr: map<Node, Tree>)
    requires k in args
    ensures ArgsTree(ks + [k], args, tr) == ArgsTree(ks, args, tr) + [Entry(k, ArgTree(args[k], tr))]
    decreases |ks|
  {
    hide *;
    ArgsTreeStep(ks, args, tr);
    ArgsTreeStep(ks + [k], args, tr);
    if ks == [] {
      assert ks + [k] == [k] && [k][1..] == [];
    } else {
      assert (ks + [k])[0] == ks[0] && (ks + [k])[1..] == ks[1..] + [k];
      ArgsTreeSnoc(ks[1..], k, args, tr);
    }
  }

  lemma {:induction false} SizeArgsSnoc(es: seq<Entry>, e: Entry)
    ensures SizeArgs(es + [e]) == SizeArgs(es) + 1 + SizeArg(e.arg)
    decreases |es|
  {
    if es == [] {
      assert es + [e] == [e] && [e][1..] == [];
    } else {
      assert (es + [e])[1..] == es[1..] + [e];
      SizeArgsSnoc(es[1..], e);
    }
  }

  lemma {:induction false} ArgsGrow(cargs: map<Key, Arg>, b: Arg, ks: seq<Key>, k: Key, args: map<Key, Arg>,
                                    of: map<Node, Node>, of': map<Node, Node>)
    requires forall m :: m in of ==> m in of' && of'[m] == of[m]
    requires k !in ks && k in args && CopiedArgs(cargs, ks, args, of)
    requires ArgNodes(b) <= of'.Keys && OriginalArg(b, of') == args[k]
    ensures CopiedArgs(cargs[k := b], ks + [k], args, of')
  {
    hide OriginalArg;
    ArgsNodesWith(cargs, k, b);
    forall l | l in ks ensures OriginalArg(cargs[l], of') == args[l] {
      assert ArgNodes(cargs[l]) <= ArgsNodes(cargs);
      SameOriginal(cargs[l], of, of');
    }
  }

  lemma {:induction false} WeightGrows(ks: seq<Key>, k: Key, args: map<Key, Arg>, jobs: seq<Job>, js: seq<Job>,
      tr: map<Node, Tree>)
    requires k in args && Weight(jobs, tr) <= SizeArgs(ArgsTree(ks, args, tr))
    requires Weight(js, tr) <= SizeArg(ArgTree(args[k], tr))
    ensures Weight(jobs + js, tr) <= SizeArgs(ArgsTree(ks + [k], args, tr))
  {
    ArgsTreeSnoc(ks, k, args, tr);
    SizeArgsSnoc(ArgsTree(ks, args, tr), Entry(k, ArgTree(args[k], tr)));
    WeightConcat(jobs, js, tr);
  }

  method CopyNextArg(c: Node, k: Key, a: Arg, ghost ks: seq<Key>, ghost args: map<Key, Arg>, jobs: seq<Job>,
                     ghost of: map<Node, Node>, ghost of1: map<Node, Node>, ghost all: set<Node>,
                       ghost tr: map<Node, Tree>)
    returns (jobs': seq<Job>, ghost of': map<Node, Node>)
    requires Copying(of1, all, tr) && Pushed(of, of1, jobs) && c in of && ArgsSoFar(c, ks, args, jobs, of1, tr)
    requires k !in ks && k in args && args[k] == a && ArgNodes(a) <= all
    modifies c`args, c`keys
    ensures Copying(of', all, tr) && Pushed(of, of', jobs') && fresh(of'.Keys - of1.Keys) && of1.Keys <= of'.Keys
    ensures ArgsSoFar(c, ks + [k], args, jobs', of', tr)
  {
    hide Copying, CopiedArgs, OriginalArg, ArgsTree, Weight, SizeArgs, DistinctCopies;
    ghost var cargs := c.args;
    NotYet(cargs, ks, args, of1, k);
    var js;
    js, of' := CopyArg(c, k, a, of1, all, tr);
    PushedConcat(of, of1, of', jobs, js);
    ArgsGrow(cargs, c.args[k], ks, k, args, of1, of');
    WeightGrows(ks, k, args, jobs, js, tr);
    jobs' := jobs + js;
  }

  lemma {:induction false} NotYet(cargs: map<Key, Arg>, ks: seq<Key>, args: map<Key, Arg>, of: map<Node, Node>, k: Key)
    requires CopiedArgs(cargs, ks, args, of) && k !in ks
    ensures k !in cargs
  {
  }

  // ---- The stack ----

  /** The copy holds the copies of what its original holds, place by place, under the same keys in the same order. */
  ghost predicate Finished(m: Node, n: Node, of: map<Node, Node>)
    reads m`args, m`keys, n`args, n`keys
  {
    m.keys == n.keys && CopiedArgs(m.args, m.keys, n.args, of)
  }

  /** Waiting copies are blank, all others finished. */
  ghost predicate Waiting(of: map<Node, Node>, stack: seq<Job>, tr: map<Node, Tree>)
    reads of.Keys, of.Values
  {
    && DistinctCopies(stack)
    && (forall j :: j in stack ==> j.copy in of && of[j.copy] == j.node && Blank(j.copy))
    && (forall m :: m in of && Job(of[m], m) !in stack ==> Finished(m, of[m], of))
  }

  /** The body of the outer loop: the arguments of one node. */
  method CopyJob(n: Node, c: Node, ghost of: map<Node, Node>, ghost all: set<Node>, ghost tr: map<Node, Tree>)
    returns (jobs: seq<Job>, ghost of': map<Node, Node>)
    requires Copying(of, all, tr) && c in of && of[c] == n && Blank(c)
    modifies c`args, c`keys
    ensures Copying(of', all, tr) && Pushed(of, of', jobs) && fresh(of'.Keys - of.Keys)
    ensures c in of' && Finished(c, n, of') && n in tr && Weight(jobs, tr) < Size(tr[n])
  {
    hide Copying, Pushed, Labels, ArgsTree, Weight, SizeArgs, ArgsSoFar;
    JobFacts(n, c, of, all, tr);
    jobs, of' := [], of;
    NoArgsYet(c, of, n.args, tr);
    NothingCopied(of, tr);
    assert n.keys[..0] == [];
    for i := 0 to |n.keys|
      invariant Copying(of', all, tr) && Pushed(of, of', jobs) && fresh(of'.Keys - of.Keys) && of.Keys <= of'.Keys
      invariant ArgsSoFar(c, n.keys[..i], n.args, jobs, of', tr)
    {
      hide Copying, Pushed, Labels, ArgsTree, Weight, SizeArgs, ArgsSoFar;
      assert n.keys[..i + 1] == n.keys[..i] + [n.keys[i]];
      jobs, of' := CopyNextArg(c, n.keys[i], n.args[n.keys[i]], n.keys[..i], n.args, jobs, of, of', all, tr);
    }
    assert n.keys[..|n.keys|] == n.keys;
    JobDone(n, c, of, of', jobs, all, tr);
  }

  lemma {:induction false} JobFacts(n: Node, c: Node, of: map<Node, Node>, all: set<Node>, tr: map<Node, Tree>)
    requires Copying(of, all, tr) && c in of && of[c] == n
    ensures n != c && n !in of && n in tr && KeysMatch(n.args, n.keys)
    ensures forall k :: k in n.keys ==> k in n.args && ArgNodes(n.args[k]) <= all
  {
  }

  lemma {:induction false} NoArgsYet(c: Node, of: map<Node, Node>, args: map<Key, Arg>, tr: map<Node, Tree>)
    requires Blank(c)
    ensures ArgsSoFar(c, [], args, [], of, tr)
  {
  }

  lemma {:induction false} JobDone(n: Node, c: Node, of: map<Node, Node>, of': map<Node, Node>, jobs: seq<Job>,
      all: set<Node>, tr: map<Node, Tree>)
    requires Copying(of', all, tr) && c in of && of[c] == n && Pushed(of, of', jobs)
    requires ArgsSoFar(c, n.keys, n.args, jobs, of', tr)
    ensures c in of' && Finished(c, n, of') && n in tr && Weight(jobs, tr) < Size(tr[n])
  {
    assert of'[c] == n;
    assert tr[n] == Tree(n.kind, ArgsTree(n.keys, n.args, tr));
  }

  lemma {:induction false} MoreWaiting(of: map<Node, Node>, of': map<Node, Node>, rest: seq<Job>, n: Node, c: Node,
      jobs: seq<Job>, tr: map<Node, Tree>)
    requires DistinctCopies(rest + [Job(n, c)]) && Pushed(of, of', jobs) && c in of && of[c] == n
    requires forall j :: j in rest ==> j.copy in of && of[j.copy] == j.node && Blank(j.copy)
    requires forall m :: m in of && Job(of[m], m) !in rest ==> Finished(m, of[m], of')
    ensures Waiting(of', rest + jobs, tr)
  {
    assert forall j :: j in rest + jobs <==> j in rest || j in jobs;
    var both := rest + jobs;
    forall i, j | 0 <= i < j < |both| ensures both[i].copy != both[j].copy {
      if j < |rest| {
        assert (rest + [Job(n, c)])[i] == rest[i] && (rest + [Job(n, c)])[j] == rest[j];
      } else {
        assert both[j] in jobs;
        assert i < |rest| ==> both[i] in rest;
      }
    }
  }

  ghost predicate CopyState(of: map<Node, Node>, stack: seq<Job>, all: set<Node>, tr: map<Node, Tree>)
    reads all, of.Keys, of.Values
  {
    Copying(of, all, tr) && Waiting(of, stack, tr)
  }

  lemma {:induction false} TopJob(of: map<Node, Node>, rest: seq<Job>, n: Node, c: Node, all: set<Node>,
      tr: map<Node, Tree>)
    requires CopyState(of, rest + [Job(n, c)], all, tr)
    ensures c in of && of[c] == n && Blank(c) && n in all && n in tr && DistinctCopies(rest + [Job(n, c)])
    ensures forall j :: j in rest ==> j.copy != c && j.copy in of && of[j.copy] == j.node && Blank(j.copy)
    ensures forall m :: m in of && m != c && Job(of[m], m) !in rest ==> Finished(m, of[m], of)
  {
    var stack := rest + [Job(n, c)];
    assert stack[|rest|] == Job(n, c);
    assert forall j :: j in stack <==> j in rest || j == Job(n, c);
    forall i | 0 <= i < |rest| ensures rest[i].copy != c {
      assert stack[i] == rest[i];
    }
  }

  lemma {:induction false} FinishedGrows(m: Node, n: Node, of: map<Node, Node>, of': map<Node, Node>)
    requires Finished(m, n, of) && forall m :: m in of ==> m in of' && of'[m] == of[m]
    ensures Finished(m, n, of')
  {
    hide OriginalArg;
    forall l | l in m.keys ensures OriginalArg(m.args[l], of') == n.args[l] {
      assert ArgNodes(m.args[l]) <= ArgsNodes(m.args);
      SameOriginal(m.args[l], of, of');
    }
  }

  method CopyStep(n: Node, c: Node, ghost rest: seq<Job>, ghost of: map<Node, Node>, ghost all: set<Node>,
      ghost tr: map<Node, Tree>)
    returns (jobs: seq<Job>, ghost of': map<Node, Node>)
    requires CopyState(of, rest + [Job(n, c)], all, tr)
    modifies c`args, c`keys
    ensures CopyState(of', rest + jobs, all, tr) && fresh(of'.Keys - of.Keys)
    ensures (forall m :: m in of ==> m in of' && of'[m] == of[m])
    ensures Weight(rest + jobs, tr) < Weight(rest + [Job(n, c)], tr)
  {
    hide Copying, Labels, ArgsTree, Weight, Size, Waiting, Pushed;
    TopJob(of, rest, n, c, all, tr);
    JobFacts(n, c, of, all, tr);
    OriginalsApart(of, all, tr);
    ghost var before := of;
    jobs, of' := CopyJob(n, c, of, all, tr);
    PushedGrows(of, of', jobs);
    forall m | m in of && Job(of[m], m) !in rest ensures Finished(m, of[m], of') {
      if m != c {
        assert old(Finished(m, of[m], of));
        FinishedGrows(m, of[m], of, of');
      }
    }
    MoreWaiting(of, of', rest, n, c, jobs, tr);
    WeightConcat(rest, jobs, tr);
    WeightConcat(rest, [Job(n, c)], tr);
    WeightOne(n, c, tr);
  }

  lemma {:induction false} OriginalsApart(of: map<Node, Node>, all: set<Node>, tr: map<Node, Tree>)
    requires Copying(of, all, tr)
    ensures forall m :: m in of ==> of[m] in all && of[m] !in of
  {
  }

  /** Copies of nodes of `all`, which hold the copies of what their originals hold. */
  ghost predicate CopyOf(of: map<Node, Node>, all: set<Node>)
    reads of.Keys, all
  {
    forall m :: m in of ==> of[m] in all && m.kind == of[m].kind && Finished(m, of[m], of)
  }

  /** `__deepcopy__`. Only new nodes are written: the original stays as it is. `of` leads from the copies
      back to the originals. */
  method DeepCopy(root: Node, ghost all: set<Node>, ghost tr: map<Node, Tree>)
    returns (r: Node, ghost of: map<Node, Node>)
    requires Labelled(all, tr) && root in all
    ensures fresh(of.Keys) && r in of && of[r] == root && r.parent == null
    ensures CopyOf(of, all) && Linked(of.Keys) && Labelled(of.Keys, Labels(of, tr))
    ensures forall m :: m in of ==> Labels(of, tr)[m] == tr[of[m]]
  {
    hide Copying, Waiting, Weight, Labels, Labelled, Linked, CopyOf;
    of := map[];
    NoCopies(all, tr);
    r, of := NewCopy(root, of, all, tr);
    var stack := [Job(root, r)];
    FirstWaiting(root, r, of, tr);
    while stack != []
      invariant CopyState(of, stack, all, tr) && fresh(of.Keys) && r in of && of[r] == root && r.parent == null
      decreases Weight(stack, tr)
    {
      hide Copying, Waiting, Weight, Labels, Labelled, Linked, CopyOf;
      var job, rest := stack[|stack| - 1], stack[..|stack| - 1];
      assert stack == rest + [Job(job.node, job.copy)];
      TopJob(of, rest, job.node, job.copy, all, tr);
      var jobs;
      jobs, of := CopyStep(job.node, job.copy, rest, of, all, tr);
      stack := rest + jobs;
    }
    CopyIsDone(of, all, tr);
  }

  lemma {:induction false} NoCopies(all: set<Node>, tr: map<Node, Tree>)
    requires Labelled(all, tr)
    ensures Copying(map[], all, tr)
  {
  }

  lemma {:induction false} FirstWaiting(n: Node, c: Node, of: map<Node, Node>, tr: map<Node, Tree>)
    requires of == map[c := n] && Blank(c)
    ensures Waiting(of, [Job(n, c)], tr)
  {
    assert [Job(n, c)][0] == Job(n, c);
  }

  lemma {:induction false} CopyIsDone(of: map<Node, Node>, all: set<Node>, tr: map<Node, Tree>)
    requires CopyState(of, [], all, tr)
    ensures CopyOf(of, all) && Linked(of.Keys) && Labelled(of.Keys, Labels(of, tr))
    ensures forall m :: m in of ==> Labels(of, tr)[m] == tr[of[m]]
  {
    assert forall m :: m in of ==> Job(of[m], m) !in [];
    CopyIsLabelled(of, all, tr);
  }

  /** A copy stands for the trees of its originals. */
  lemma {:induction false} CopyIsLabelled(of: map<Node, Node>, all: set<Node>, tr: map<Node, Tree>)
    requires CopyOf(of, all) && Labelled(all, tr)
    ensures Labelled(of.Keys, Labels(of, tr)) && forall m :: m in of ==> Labels(of, tr)[m] == tr[of[m]]
  {
    forall m | m in of
      ensures m in Labels(of, tr) && KeysMatch(m.args, m.keys)
      ensures Labels(of, tr)[m] == Tree(m.kind, ArgsTree(m.keys, m.args, Labels(of, tr)))
      ensures forall k :: k in m.args ==> ArgNodes(m.args[k]) <= of.Keys
    {
      assert tr[of[m]] == Tree(of[m].kind, ArgsTree(of[m].keys, of[m].args, tr));
      OriginalArgs(m.keys, m.args, of[m].args, of, tr);
      forall k | k in m.args ensures ArgNodes(m.args[k]) <= of.Keys {
        assert ArgNodes(m.args[k]) <= ArgsNodes(m.args);
      }
    }
  }

  lemma {:induction false} OriginalTrees(xs: seq<Item>, of: map<Node, Node>, tr: map<Node, Tree>)
    requires ItemNodes(xs) <= of.Keys && forall m :: m in of ==> of[m] in tr
    ensures ItemsTree(xs, Labels(of, tr)) == ItemsTree(OriginalItems(xs, of), tr)
    decreases |xs|
  {
    if xs != [] {
      assert xs[0].Sub? ==> xs[0].node in ItemNodes(xs);
      forall c | c in ItemNodes(xs[1..]) ensures c in ItemNodes(xs) {
        var i :| 0 <= i < |xs[1..]| && xs[1..][i] == Sub(c);
        assert xs[i + 1] == Sub(c);
      }
      OriginalTrees(xs[1..], of, tr);
      assert OriginalItems(xs, of)[1..] == OriginalItems(xs[1..], of);
    }
  }

  lemma {:induction false} OriginalTree(a: Arg, of: map<Node, Node>, tr: map<Node, Tree>)
    requires ArgNodes(a) <= of.Keys && forall m :: m in of ==> of[m] in tr
    ensures ArgTree(a, Labels(of, tr)) == ArgTree(OriginalArg(a, of), tr)
  {
    match a {
      case One(x) => assert x.Sub? ==> x.node in ArgNodes(a);
      case Many(xs) => OriginalTrees(xs, of, tr);
    }
  }

  lemma {:induction false} OriginalArgs(keys: seq<Key>, cargs: map<Key, Arg>, args: map<Key, Arg>, of: map<Node, Node>,
      tr: map<Node, Tree>)
    requires ArgsNodes(cargs) <= of.Keys && (forall m :: m in of ==> of[m] in tr)
    requires forall k :: k in keys ==> k in cargs && k in args && OriginalArg(cargs[k], of) == args[k]
    ensures ArgsTree(keys, cargs, Labels(of, tr)) == ArgsTree(keys, args, tr)
    decreases |keys|
  {
    if keys != [] {
      hide Labels, ArgTree, OriginalArg;
      assert ArgNodes(cargs[keys[0]]) <= ArgsNodes(cargs);
      OriginalTree(cargs[keys[0]], of, tr);
      OriginalArgs(keys[1..], cargs, args, of, tr);
    }
  }
  // ---- The walks of a tree and its copy ----

  ghost function OriginalNodes(ns: seq<Node>, of: map<Node, Node>): seq<Node> {
    if ns == [] then [] else [if ns[0] in of then of[ns[0]] else ns[0]] + OriginalNodes(ns[1..], of)
  }

  lemma {:induction false} OriginalNodesConcat(ms: seq<Node>, ns: seq<Node>, of: map<Node, Node>)
    ensures OriginalNodes(ms + ns, of) == OriginalNodes(ms, of) + OriginalNodes(ns, of)
    decreases |ms|
  {
    if ms == [] {
      assert ms + ns == ns;
    } else {
      assert (ms + ns)[1..] == ms[1..] + ns;
      OriginalNodesConcat(ms[1..], ns, of);
    }
  }

  lemma {:induction false} OriginalNodesAt(ns: seq<Node>, of: map<Node, Node>)
    requires Elems(ns) <= of.Keys
    ensures |OriginalNodes(ns, of)| == |ns| && forall i :: 0 <= i < |ns| ==> OriginalNodes(ns, of)[i] == of[ns[i]]
    decreases |ns|
  {
    if ns != [] {
      assert ns[0] in Elems(ns) && Elems(ns[1..]) <= Elems(ns);
      OriginalNodesAt(ns[1..], of);
    }
  }

  lemma {:induction false} OriginalItemKids(xs: seq<Item>, of: map<Node, Node>)
    ensures ItemKids(OriginalItems(xs, of)) == OriginalNodes(ItemKids(xs), of)
    decreases |xs|
  {
    if xs != [] {
      OriginalItemKids(xs[1..], of);
      var first := if xs[0].Sub? then [xs[0].node] else [];
      OriginalNodesConcat(first, ItemKids(xs[1..]), of);
      assert first != [] ==> first[1..] == [];
      assert OriginalItems(xs, of)[1..] == OriginalItems(xs[1..], of);
    }
  }

  lemma {:induction false} OriginalArgKids(a: Arg, of: map<Node, Node>)
    ensures ArgKids(OriginalArg(a, of)) == OriginalNodes(ArgKids(a), of)
  {
    match a {
      case One(x) =>
        OriginalItemKids([x], of);
        assert OriginalItems([x], of) == [OriginalItem(x, of)] by { assert [x][1..] == []; }
      case Many(xs) => OriginalItemKids(xs, of);
    }
  }

  lemma {:induction false} OriginalKids(keys: seq<Key>, cargs: map<Key, Arg>, args: map<Key, Arg>, of: map<Node, Node>)
    requires forall k :: k in keys ==> k in cargs && k in args && OriginalArg(cargs[k], of) == args[k]
    ensures Kids(keys, args) == OriginalNodes(Kids(keys, cargs), of)
    decreases |keys|
  {
    if keys != [] {
      OriginalArgKids(cargs[keys[0]], of);
      OriginalKids(keys[1..], cargs, args, of);
      OriginalNodesConcat(ArgKids(cargs[keys[0]]), Kids(keys[1..], cargs), of);
    }
  }

  lemma {:induction false} OriginalNext(q: seq<Node>, of: map<Node, Node>, all: set<Node>)
    requires CopyOf(of, all) && q != [] && q[0] in of && OriginalNodes(q, of) != []
    requires OriginalNodes(q, of)[0] == of[q[0]]
    ensures OriginalNodes(Next(q), of) == Next(OriginalNodes(q, of))
  {
    var m := q[0];
    assert Finished(m, of[m], of);
    OriginalKids(m.keys, m.args, of[m].args, of);
    OriginalNodesConcat(q[1..], Kids(m.keys, m.args), of);
    assert OriginalNodes(q, of)[1..] == OriginalNodes(q[1..], of);
  }

  lemma {:induction false} OriginalsIn(q: seq<Node>, of: map<Node, Node>, all: set<Node>)
    requires CopyOf(of, all) && Elems(q) <= of.Keys
    ensures Elems(OriginalNodes(q, of)) <= all
    ensures q != [] ==> q[0] in of && OriginalNodes(q, of) != [] && OriginalNodes(q, of)[0] == of[q[0]]
  {
    OriginalNodesAt(q, of);
    assert q != [] ==> q[0] in Elems(q);
    forall n | n in Elems(OriginalNodes(q, of)) ensures n in all {
      var i :| 0 <= i < |q| && OriginalNodes(q, of)[i] == n;
      assert q[i] in Elems(q);
    }
  }

  /** The walk of a copy, read back through `of`, is the walk of the original. */
  lemma {:induction false} OriginalWalk(q: seq<Node>, of: map<Node, Node>, all: set<Node>, tr: map<Node, Tree>)
    requires CopyOf(of, all) && Labelled(all, tr) && Labelled(of.Keys, Labels(of, tr)) && Elems(q) <= of.Keys
    ensures Elems(OriginalNodes(q, of)) <= all
    ensures OriginalNodes(Walk(q, of.Keys, Labels(of, tr)), of) == Walk(OriginalNodes(q, of), all, tr)
    decreases TotalSize(q, Labels(of, tr))
  {
    hide CopyOf, Labelled, Labels, Next, TotalSize, Elems;
    OriginalsIn(q, of, all);
    if q != [] {
      QueueStep(q, of.Keys, Labels(of, tr));
      OriginalNext(q, of, all);
      OriginalWalk(Next(q), of, all, tr);
      QueueStep(OriginalNodes(q, of), all, tr);
      var rest := Walk(Next(q), of.Keys, Labels(of, tr));
      OriginalNodesConcat([q[0]], rest, of);
      assert [q[0]][1..] == [];
    }
  }

  /** The partner of a node is a copy of it. */
  ghost predicate LeadsToCopies(mapping: map<Node, Node>, of: map<Node, Node>) {
    forall n :: n in mapping ==> mapping[n] in of && of[mapping[n]] == n
  }

  /** Each of these copies is the partner of its original. */
  ghost predicate LeadsToAll(mapping: map<Node, Node>, of: map<Node, Node>, copies: set<Node>) {
    forall m :: m in copies ==> m in of && of[m] in mapping && mapping[of[m]] == m
  }

  /** `compute_node_mappings` of a tree and its copy. Exactly the nodes of the tree have partners, and the
      partner of a node is a copy of it; in a linked tree, every node of the copy is the partner of its original. */
  method NodeMappings(source: Node, copy: Node, ghost all: set<Node>, ghost tr: map<Node, Tree>,
      ghost of: map<Node, Node>)
    returns (mapping: map<Node, Node>, oldNodes: seq<Node>, newNodes: seq<Node>)
    requires Labelled(all, tr) && source in all && CopyOf(of, all) && copy in of && of[copy] == source
    ensures Reaches(source, all, mapping.Keys)
    ensures LeadsToCopies(mapping, of) && source in mapping && mapping[source] == copy
    ensures oldNodes == OriginalNodes(newNodes, of) && Reaches(copy, of.Keys, Elems(newNodes))
    ensures Linked(all) ==> LeadsToAll(mapping, of, Elems(newNodes))
  {
    hide *;
    assert Labelled(of.Keys, Labels(of, tr)) by { CopyIsLabelled(of, all, tr); }
    oldNodes := Bfs(source, all, tr);
    newNodes := Bfs(copy, of.Keys, Labels(of, tr));
    WalksMatch(source, copy, all, tr, of);
    mapping := PairUp(oldNodes, newNodes);
    Partners(oldNodes, newNodes, of, mapping);
    PartnersOf(oldNodes, newNodes, of, mapping);
    assert mapping.Keys == Elems(oldNodes);
  }

  lemma {:induction false} WalksMatch(source: Node, copy: Node, all: set<Node>, tr: map<Node, Tree>,
      of: map<Node, Node>)
    requires Labelled(all, tr) && Labelled(of.Keys, Labels(of, tr)) && source in all && CopyOf(of, all) && copy in of
    requires of[copy] == source
    requires Elems([source]) <= all && Elems([copy]) <= of.Keys
    ensures var news := Walk([copy], of.Keys, Labels(of, tr));
      && Elems(news) <= of.Keys && Walk([source], all, tr) == OriginalNodes(news, of)
      && |OriginalNodes(news, of)| == |news|
  {
    hide Labelled, Walk, CopyOf, Elems, Labels;
    OriginalWalk([copy], of, all, tr);
    assert OriginalNodes([copy], of) == [source] by { assert [copy][1..] == []; }
    WalkIn([copy], of.Keys, Labels(of, tr));
    OriginalNodesAt(Walk([copy], of.Keys, Labels(of, tr)), of);
  }

  /** The mapping leads from originals to copies of them. */
  lemma {:induction false} Partners(olds: seq<Node>, news: seq<Node>, of: map<Node, Node>, mapping: map<Node, Node>)
    requires Elems(news) <= of.Keys && olds == OriginalNodes(news, of) && mapping.Keys == Elems(olds)
    requires PairedUp(olds, news, mapping)
    ensures LeadsToCopies(mapping, of)
    ensures olds != [] ==> olds[0] in mapping
  {
    OriginalNodesAt(news, of);
    forall n | n in mapping ensures mapping[n] in of && of[mapping[n]] == n {
      var i :| 0 <= i < |olds| && i < |news| && olds[i] == n && news[i] == mapping[n];
      assert news[i] in Elems(news);
    }
    assert olds != [] ==> olds[0] in Elems(olds);
  }

  lemma {:induction false} PartnersOf(olds: seq<Node>, news: seq<Node>, of: map<Node, Node>, mapping: map<Node, Node>)
    requires Elems(news) <= of.Keys && olds == OriginalNodes(news, of) && |olds| == |news|
    requires mapping.Keys == Elems(olds)
    requires PairedUp(olds, news, mapping)
    ensures Distinct(olds) ==> LeadsToAll(mapping, of, Elems(news))
  {
    OriginalNodesAt(news, of);
    if Distinct(olds) {
      forall m | m in Elems(news) ensures m in of && of[m] in mapping && mapping[of[m]] == m {
        var i :| 0 <= i < |news| && news[i] == m;
        assert olds[i] in Elems(olds);
      }
    }
  }

  /** Everything is mapped to one of its partners, and, where nothing occurs twice, to its only one. */
  ghost predicate PairedUp<T>(olds: seq<T>, news: seq<T>, mapping: map<T, T>) {
    && (forall x :: x in mapping ==> exists i :: 0 <= i < |olds| && i < |news| && olds[i] == x && news[i] == mapping[x])
    && (Distinct(olds) ==> forall i :: 0 <= i < |olds| && i < |news| ==>
         olds[i] in mapping && mapping[olds[i]] == news[i])
  }

  /** `for old, new in zip(reversed(olds), reversed(news)): mapping[old] = new` */
  method PairUp<T(==)>(olds: seq<T>, news: seq<T>) returns (mapping: map<T, T>)
    requires |olds| == |news|
    ensures mapping.Keys == Elems(olds) && (olds != [] ==> olds[0] in mapping && mapping[olds[0]] == news[0])
    ensures PairedUp(olds, news, mapping)
  {
    mapping := map[];
    var i := |olds|;
    while i > 0
      invariant 0 <= i <= |olds|
      invariant forall j :: i <= j < |olds| ==> olds[j] in mapping
      invariant i < |olds| ==> mapping[olds[i]] == news[i]
      invariant forall x :: x in mapping ==> exists j :: i <= j < |olds| && olds[j] == x && news[j] == mapping[x]
      invariant Distinct(olds) ==> forall j :: i <= j < |olds| ==> mapping[olds[j]] == news[j]
    {
      i := i - 1;
      ghost var before := mapping;
      mapping := mapping[olds[i] := news[i]];
      forall x | x in mapping ensures exists j :: i <= j < |olds| && olds[j] == x && news[j] == mapping[x] {
        if x == olds[i] {
          assert i <= i && olds[i] == x && news[i] == mapping[x];
        } else {
          var j :| i + 1 <= j < |olds| && olds[j] == x && news[j] == before[x];
        }
      }
    }
  }
}
