/** Expression trees as values, and `transform` as a recursive function on them
    (sqlglot/expressions.py, `Expression.transform`). */
module AstTree {
  import opened Collections
  import opened Ast

  datatype Tree = Tree(kind: string, args: seq<Entry>)

  datatype Entry = Entry(key: Key, arg: TArg)

  datatype TArg = TOne(item: TItem) | TMany(items: seq<TItem>)

  /** `THole` occurs only in what a transformation returns; it stands for the visited node itself. */
  datatype TItem = TSub(tree: Tree) | TAtom(value: Scalar) | THole

  /** What a transformation answers: the node itself, None, or a new tree, perhaps around the node. */
  datatype Verdict = Keep | Drop | Put(tree: Tree)

  // ---- The recursive specification ----

  /** Apply `f`; where it returns the node itself, go on with the children, otherwise stop. */
  function TransformTree(f: Tree -> Verdict, t: Tree): Option<Tree>
    decreases t, 1
  {
    match f(t)
    case Keep => Some(Tree(t.kind, TransformArgs(f, t.args)))
    case Drop => None
    case Put(u) => Some(Fill(u, t))
  }

  function TransformArgs(f: Tree -> Verdict, es: seq<Entry>): seq<Entry>
    decreases es, 0
  {
    if es == [] then [] else TransformEntry(f, es[0]) + TransformArgs(f, es[1..])
  }

  /** A single value that is dropped takes its key along. */
  function TransformEntry(f: Tree -> Verdict, e: Entry): seq<Entry>
    decreases e, 0
  {
    match e.arg
    case TOne(x) =>
      var ys := TransformItem(f, x);
      if ys == [] then [] else [Entry(e.key, TOne(ys[0]))]
    case TMany(xs) => [Entry(e.key, TMany(TransformItems(f, xs)))]
  }

  /** At most one item; none where the node is dropped. */
  function TransformItem(f: Tree -> Verdict, x: TItem): seq<TItem>
    decreases x, 0
  {
    if x.TSub? then
      match TransformTree(f, x.tree)
      case Some(u) => [TSub(u)]
      case None => []
    else [x]
  }

  function TransformItems(f: Tree -> Verdict, xs: seq<TItem>): seq<TItem>
    decreases xs, 0
  {
    if xs == [] then [] else TransformItem(f, xs[0]) + TransformItems(f, xs[1..])
  }

  /** `set` ends with an exception somewhere: `f` drops an element of a list in front of something that is not a
      node. */
  predicate TransformRaises(f: Tree -> Verdict, t: Tree)
    decreases t, 1
  {
    f(t) == Keep && exists i :: 0 <= i < |t.args| && TransformArgRaises(f, t.args[i].arg)
  }

  predicate TransformArgRaises(f: Tree -> Verdict, a: TArg)
    decreases a, 0
  {
    match a
    case TOne(x) => x.TSub? && TransformRaises(f, x.tree)
    case TMany(xs) =>
      exists j :: 0 <= j < |xs| && xs[j].TSub? &&
        (TransformRaises(f, xs[j].tree) || (f(xs[j].tree) == Drop && exists i :: j < i < |xs| && !xs[i].TSub?))
  }

  /** A function that keeps every node leaves the tree as it is. */
  lemma {:induction false} KeepingAll(f: Tree -> Verdict, t: Tree)
    requires forall u :: f(u) == Keep
    ensures TransformTree(f, t) == Some(t) && !TransformRaises(f, t)
    decreases t, 1
  {
    KeepingArgs(f, t.args);
    forall i | 0 <= i < |t.args| ensures !TransformArgRaises(f, t.args[i].arg) {
      KeepingArg(f, t.args[i].arg);
    }
  }

  lemma {:induction false} KeepingArgs(f: Tree -> Verdict, es: seq<Entry>)
    requires forall u :: f(u) == Keep
    ensures TransformArgs(f, es) == es
    decreases es, 0
  {
    if es != [] {
      hide TransformEntry;
      KeepingEntry(f, es[0]);
      KeepingArgs(f, es[1..]);
    }
  }

  lemma {:induction false} KeepingEntry(f: Tree -> Verdict, e: Entry)
    requires forall u :: f(u) == Keep
    ensures TransformEntry(f, e) == [e]
    decreases e, 0
  {
    match e.arg {
      case TOne(x) => KeepingItem(f, x);
      case TMany(xs) => KeepingItems(f, xs);
    }
  }

  lemma {:induction false} KeepingItem(f: Tree -> Verdict, x: TItem)
    requires forall u :: f(u) == Keep
    ensures TransformItem(f, x) == [x]
    decreases x, 0
  {
    if x.TSub? { KeepingAll(f, x.tree); }
  }

  lemma {:induction false} KeepingItems(f: Tree -> Verdict, xs: seq<TItem>)
    requires forall u :: f(u) == Keep
    ensures TransformItems(f, xs) == xs
    decreases xs, 0
  {
    if xs != [] {
      hide TransformItem;
      KeepingItem(f, xs[0]);
      KeepingItems(f, xs[1..]);
    }
  }

  lemma {:induction false} KeepingArg(f: Tree -> Verdict, a: TArg)
    requires forall u :: f(u) == Keep
    ensures !TransformArgRaises(f, a)
    decreases a, 0
  {
    match a {
      case TOne(x) => if x.TSub? { KeepingAll(f, x.tree); }
      case TMany(xs) =>
        forall j | 0 <= j < |xs| && xs[j].TSub? ensures !TransformRaises(f, xs[j].tree) { KeepingAll(f, xs[j].tree); }
    }
  }

  /** The list `[c, 1]`, and a function that drops `c`. */
  lemma {:induction false} RaisesAtNumber(f: Tree -> Verdict, c: Tree, t: Tree, key: Key)
    requires t == Tree("Tuple", [Entry(key, TMany([TSub(c), TAtom(Number(1))]))]) && f(t) == Keep && f(c) == Drop
    ensures TransformRaises(f, t)
  {
    var xs := [TSub(c), TAtom(Number(1))];
    assert xs[0].TSub? && f(xs[0].tree) == Drop && !xs[1].TSub?;
    assert TransformArgRaises(f, t.args[0].arg);
  }

  // ---- Putting the visited node into a new tree ----

  function Fill(u: Tree, t: Tree): Tree
    decreases u, 1
  {
    Tree(u.kind, FillArgs(u.args, t))
  }

  function FillArgs(es: seq<Entry>, t: Tree): seq<Entry>
    decreases es, 0
  {
    if es == [] then [] else [Entry(es[0].key, FillArg(es[0].arg, t))] + FillArgs(es[1..], t)
  }

  function FillArg(a: TArg, t: Tree): TArg
    decreases a, 0
  {
    match a
    case TOne(x) => TOne(FillItem(x, t))
    case TMany(xs) => TMany(FillItems(xs, t))
  }

  function FillItem(x: TItem, t: Tree): TItem
    decreases x, 0
  {
    match x
    case TSub(c) => TSub(Fill(c, t))
    case TAtom(_) => x
    case THole => TSub(t)
  }

  function FillItems(xs: seq<TItem>, t: Tree): seq<TItem>
    decreases xs, 0
  {
    if xs == [] then [] else [FillItem(xs[0], t)] + FillItems(xs[1..], t)
  }

  function Holes(u: Tree): nat
    decreases u, 1
  {
    HolesArgs(u.args)
  }

  function HolesArgs(es: seq<Entry>): nat
    decreases es, 0
  {
    if es == [] then 0 else HolesArg(es[0].arg) + HolesArgs(es[1..])
  }

  function HolesArg(a: TArg): nat
    decreases a, 0
  {
    match a
    case TOne(x) => HolesItem(x)
    case TMany(xs) => HolesItems(xs)
  }

  function HolesItem(x: TItem): nat
    decreases x, 0
  {
    match x
    case TSub(c) => Holes(c)
    case TAtom(_) => 0
    case THole => 1
  }

  function HolesItems(xs: seq<TItem>): nat
    decreases xs, 0
  {
    if xs == [] then 0 else HolesItem(xs[0]) + HolesItems(xs[1..])
  }

  // ---- The tree that a node stands for ----

  ghost function ItemTree(x: Item, tr: map<Node, Tree>): TItem {
    match x
    case Atom(a) => TAtom(a)
    case Sub(n) => if n in tr then TSub(tr[n]) else THole
  }

  ghost function ItemsTree(xs: seq<Item>, tr: map<Node, Tree>): seq<TItem> {
    if xs == [] then [] else [ItemTree(xs[0], tr)] + ItemsTree(xs[1..], tr)
  }

  ghost function ArgTree(a: Arg, tr: map<Node, Tree>): TArg {
    match a
    case One(x) => TOne(ItemTree(x, tr))
    case Many(xs) => TMany(ItemsTree(xs, tr))
  }

  ghost function ArgsTree(keys: seq<Key>, args: map<Key, Arg>, tr: map<Node, Tree>): seq<Entry> {
    if keys == [] then []
    else (if keys[0] in args then [Entry(keys[0], ArgTree(args[keys[0]], tr))] else []) + ArgsTree(keys[1..], args, tr)
  }

  /** `tr` gives each node of `all` the tree it stands for; because trees are finite, there is no cycle. */
  ghost predicate Labelled(all: set<Node>, tr: map<Node, Tree>)
    reads all
  {
    && all <= tr.Keys
    && forall n :: n in all ==>
         && KeysMatch(n.args, n.keys)
         && tr[n] == Tree(n.kind, ArgsTree(n.keys, n.args, tr))
         && forall k :: k in n.args ==> ArgNodes(n.args[k]) <= all
  }

  // ---- Where the images of visited nodes go ----

  /** The image of a visited node: Some node that takes its place, or None. */
  type Images = map<Node, Option<Node>>

  ghost function MapItem(x: Item, img: Images): seq<Item> {
    if x.Sub? && x.node in img then
      match img[x.node]
      case Some(r) => [Sub(r)]
      case None => []
    else [x]
  }

  ghost function MapItems(xs: seq<Item>, img: Images): seq<Item> {
    if xs == [] then [] else MapItem(xs[0], img) + MapItems(xs[1..], img)
  }

  /** A single value that has been dropped takes its key along; a list only gets shorter. */
  ghost predicate Stays(a: Arg, img: Images) {
    a.One? ==> MapItem(a.item, img) != []
  }

  ghost function MapArg(a: Arg, img: Images): Arg
    requires Stays(a, img)
  {
    match a
    case One(x) => One(MapItem(x, img)[0])
    case Many(xs) => Many(MapItems(xs, img))
  }

  ghost function MapArgs(args: map<Key, Arg>, img: Images): map<Key, Arg> {
    map k | k in args && Stays(args[k], img) :: MapArg(args[k], img)
  }

  ghost function MapKeys(keys: seq<Key>, args: map<Key, Arg>, img: Images): seq<Key> {
    if keys == [] then []
    else (if keys[0] in args && Stays(args[keys[0]], img) then [keys[0]] else []) + MapKeys(keys[1..], args, img)
  }

  // ---- Mapping images and transforming trees are the same thing ----

  /** `img` answers for every node in `ns` what `f` says about its tree, in terms of the labels `nt`. */
  ghost predicate Answers(f: Tree -> Verdict, ns: set<Node>, tr: map<Node, Tree>, img: Images, nt: map<Node, Tree>) {
    forall c :: c in ns ==>
      && c in img && c in tr
      && (match img[c]
          case None => TransformTree(f, tr[c]) == None
          case Some(r) => r in nt && TransformTree(f, tr[c]) == Some(nt[r]))
  }

  lemma {:induction false} ItemTransforms(f: Tree -> Verdict, x: Item, tr: map<Node, Tree>, img: Images,
      nt: map<Node, Tree>)
    requires Answers(f, ArgNodes(One(x)), tr, img, nt)
    ensures ItemsTree(MapItem(x, img), nt) == TransformItem(f, ItemTree(x, tr))
    ensures MapItem(x, img) != [] ==> TransformItem(f, ItemTree(x, tr)) == [ItemTree(MapItem(x, img)[0], nt)]
  {
    if x.Sub? && img[x.node].Some? {
      assert MapItem(x, img) == [Sub(img[x.node].value)];
      assert MapItem(x, img)[1..] == [];
    }
  }

  lemma {:induction false} ItemsTreeConcat(xs: seq<Item>, ys: seq<Item>, nt: map<Node, Tree>)
    ensures ItemsTree(xs + ys, nt) == ItemsTree(xs, nt) + ItemsTree(ys, nt)
    decreases |xs|
  {
    if xs == [] {
      assert xs + ys == ys;
    } else {
      assert (xs + ys)[1..] == xs[1..] + ys;
      ItemsTreeConcat(xs[1..], ys, nt);
    }
  }

  lemma {:induction false} ItemsTransform(f: Tree -> Verdict, xs: seq<Item>, tr: map<Node, Tree>, img: Images,
      nt: map<Node, Tree>)
    requires Answers(f, ItemNodes(xs), tr, img, nt)
    ensures ItemsTree(MapItems(xs, img), nt) == TransformItems(f, ItemsTree(xs, tr))
    decreases |xs|
  {
    if xs != [] {
      assert xs[0].Sub? ==> xs[0].node in ItemNodes(xs);
      forall c | c in ItemNodes(xs[1..]) ensures c in ItemNodes(xs) {
        var i :| 0 <= i < |xs[1..]| && xs[1..][i] == Sub(c);
        assert xs[i + 1] == Sub(c);
      }
      ItemTransforms(f, xs[0], tr, img, nt);
      ItemsTransform(f, xs[1..], tr, img, nt);
      ItemsTreeConcat(MapItem(xs[0], img), MapItems(xs[1..], img), nt);
    }
  }

  lemma {:induction false} ArgTransforms(f: Tree -> Verdict, k: Key, a: Arg, tr: map<Node, Tree>, img: Images,
      nt: map<Node, Tree>)
    requires Answers(f, ArgNodes(a), tr, img, nt)
    ensures TransformEntry(f, Entry(k, ArgTree(a, tr))) ==
            if Stays(a, img) then [Entry(k, ArgTree(MapArg(a, img), nt))] else []
  {
    match a {
      case One(x) => ItemTransforms(f, x, tr, img, nt);
      case Many(xs) => ItemsTransform(f, xs, tr, img, nt);
    }
  }

  lemma {:induction false} ArgsTransform(f: Tree -> Verdict, keys: seq<Key>, args: map<Key, Arg>, ns: set<Node>,
                                         tr: map<Node, Tree>, img: Images, nt: map<Node, Tree>)
    requires Answers(f, ns, tr, img, nt) && forall k :: k in keys ==> k in args && ArgNodes(args[k]) <= ns
    ensures ArgsTree(MapKeys(keys, args, img), MapArgs(args, img), nt) == TransformArgs(f, ArgsTree(keys, args, tr))
    decreases |keys|
  {
    if keys != [] {
      hide ArgTree, MapArg, TransformEntry, Stays;
      var k := keys[0];
      ArgTransforms(f, k, args[k], tr, img, nt);
      ArgsTransform(f, keys[1..], args, ns, tr, img, nt);
      var es := ArgsTree(keys, args, tr);
      assert es[0] == Entry(k, ArgTree(args[k], tr)) && es[1..] == ArgsTree(keys[1..], args, tr);
      if Stays(args[k], img) {
        assert MapKeys(keys, args, img)[1..] == MapKeys(keys[1..], args, img);
      } else {
        assert MapKeys(keys, args, img) == MapKeys(keys[1..], args, img);
      }
    }
  }
}
