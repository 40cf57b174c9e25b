/** Reading a tree off its nodes, and the order in which children are visited
    (sqlglot/expressions.py, `iter_expressions`). */
module AstWalk {
  import opened Collections
  import opened Ast
  import opened AstTree

  // ---- Children in order ----

  function ItemKids(xs: seq<Item>): seq<Node> {
    if xs == [] then [] else (if xs[0].Sub? then [xs[0].node] else []) + ItemKids(xs[1..])
  }

  function ArgKids(a: Arg): seq<Node> {
    match a
    case One(x) => ItemKids([x])
    case Many(xs) => ItemKids(xs)
  }

  /** `iter_expressions` of a node with these arguments. */
  function Kids(keys: seq<Key>, args: map<Key, Arg>): seq<Node> {
    if keys == [] then [] else (if keys[0] in args then ArgKids(args[keys[0]]) else []) + Kids(keys[1..], args)
  }

  /** The children of earlier elements come first. */
  lemma {:induction false} ItemKidsConcat(xs: seq<Item>, ys: seq<Item>)
    ensures ItemKids(xs + ys) == ItemKids(xs) + ItemKids(ys)
    decreases |xs|
  {
    hide *;
    ItemKidsStep(xs);
    ItemKidsStep(xs + ys);
    if xs == [] {
      assert xs + ys == ys && [] + ItemKids(ys) == ItemKids(ys);
    } else {
      assert (xs + ys)[1..] == xs[1..] + ys && (xs + ys)[0] == xs[0];
      ItemKidsConcat(xs[1..], ys);
      var first := if xs[0].Sub? then [xs[0].node] else [];
      assert first + (ItemKids(xs[1..]) + ItemKids(ys)) == first + ItemKids(xs[1..]) + ItemKids(ys);
    }
  }

  lemma {:induction false} ItemKidsStep(xs: seq<Item>)
    ensures xs == [] ==> ItemKids(xs) == []
    ensures xs != [] ==> ItemKids(xs) == (if xs[0].Sub? then [xs[0].node] else []) + ItemKids(xs[1..])
  {
  }

  /** The children in earlier arguments come first; those in one argument are its nodes, each in its place. */
  lemma {:induction false} KidsInOrder(before: seq<Key>, k: Key, after: seq<Key>, args: map<Key, Arg>)
    requires k in args
    ensures Kids(before + [k] + after, args) == Kids(before, args) + Kids([k], args) + Kids(after, args)
    ensures match args[k]
      case One(Sub(n)) => Kids([k], args) == [n]
      case One(Atom(_)) => Kids([k], args) == []
      case Many(xs) =>
        forall i :: 0 <= i < |xs| && xs[i].Sub? ==>
          Kids([k], args) == ItemKids(xs[..i]) + [xs[i].node] + ItemKids(xs[i + 1..])
  {
    hide Kids, ItemKids;
    KidsConcat(before + [k], after, args);
    KidsConcat(before, [k], args);
    KidsOfOne(k, args);
    if args[k].Many? {
      var xs := args[k].items;
      forall i | 0 <= i < |xs| && xs[i].Sub?
        ensures ItemKids(xs) == ItemKids(xs[..i]) + [xs[i].node] + ItemKids(xs[i + 1..])
      {
        OneItem(xs[i]);
        ItemKidsConcat(xs[..i], [xs[i]]);
        ItemKidsConcat(xs[..i] + [xs[i]], xs[i + 1..]);
        assert xs == xs[..i] + [xs[i]] + xs[i + 1..];
      }
    } else {
      OneItem(args[k].item);
    }
  }

  lemma {:induction false} OneItem(x: Item)
    ensures ItemKids([x]) == if x.Sub? then [x.node] else []
  {
    assert [x][1..] == [] && ItemKids([]) == [];
  }

  lemma {:induction false} KidsOfOne(k: Key, args: map<Key, Arg>)
    requires k in args
    ensures Kids([k], args) == ArgKids(args[k])
  {
    assert [k][1..] == [] && Kids([], args) == [];
  }

  lemma {:induction false} KidsConcat(before: seq<Key>, after: seq<Key>, args: map<Key, Arg>)
    ensures Kids(before + after, args) == Kids(before, args) + Kids(after, args)
    decreases |before|
  {
    if before == [] {
      assert before + after == after;
    } else {
      hide ArgKids;
      assert (before + after)[1..] == before[1..] + after;
      KidsConcat(before[1..], after, args);
    }
  }

  lemma {:induction false} ItemKidsNodes(xs: seq<Item>)
    ensures Elems(ItemKids(xs)) == ItemNodes(xs)
    ensures DistinctNodes(xs) ==> Distinct(ItemKids(xs))
    decreases |xs|
  {
    if xs != [] {
      var rest := xs[1..];
      ItemKidsNodes(rest);
      assert forall i :: 0 <= i < |rest| ==> rest[i] == xs[i + 1];
      assert ItemNodes(xs) == ItemNodes(rest) + (if xs[0].Sub? then {xs[0].node} else {}) by {
        forall c | c in ItemNodes(rest) ensures c in ItemNodes(xs) {
          var i :| 0 <= i < |rest| && rest[i] == Sub(c);
          assert xs[i + 1] == Sub(c);
        }
      }
      if xs[0].Sub? {
        assert Elems([xs[0].node]) == {xs[0].node};
        assert Elems([xs[0].node] + ItemKids(rest)) == {xs[0].node} + Elems(ItemKids(rest));
        if DistinctNodes(xs) {
          assert DistinctNodes(rest);
          assert xs[0].node !in ItemNodes(rest);
          DistinctConcat([xs[0].node], ItemKids(rest));
        }
      } else {
        assert [] + ItemKids(rest) == ItemKids(rest);
      }
    }
  }

  lemma {:induction false} ArgKidsNodes(a: Arg)
    ensures Elems(ArgKids(a)) == ArgNodes(a)
    ensures (a.Many? ==> DistinctNodes(a.items)) ==> Distinct(ArgKids(a))
  {
    match a {
      case One(x) => ItemKidsNodes([x]); assert ItemNodes([x]) == ArgNodes(a) by { assert [x][0] == x; }
      case Many(xs) => ItemKidsNodes(xs);
    }
  }

  lemma {:induction false} KidsNodes(keys: seq<Key>, args: map<Key, Arg>)
    requires LinkableArgs(args) && Distinct(keys) && forall k :: k in keys ==> k in args
    ensures Distinct(Kids(keys, args))
    ensures forall c :: c in Elems(Kids(keys, args)) <==> exists k :: k in keys && c in ArgNodes(args[k])
    decreases |keys|
  {
    if keys != [] {
      var k, rest := keys[0], keys[1..];
      assert forall i :: 0 <= i < |rest| ==> rest[i] == keys[i + 1];
      KidsNodes(rest, args);
      ArgKidsNodes(args[k]);
      assert k !in rest;
      assert Elems(ArgKids(args[k])) !! Elems(Kids(rest, args));
      DistinctConcat(ArgKids(args[k]), Kids(rest, args));
      assert forall l :: l in keys <==> l == k || l in rest;
    }
  }

  lemma {:induction false} NodeKids(keys: seq<Key>, args: map<Key, Arg>)
    requires LinkableArgs(args) && KeysMatch(args, keys)
    ensures Distinct(Kids(keys, args)) && Elems(Kids(keys, args)) == ArgsNodes(args)
  {
    hide LinkableArgs, Distinct, Kids;
    KidsNodes(keys, args);
    forall c | c in ArgsNodes(args) ensures c in Elems(Kids(keys, args)) {
      var k :| k in args && c in ArgNodes(args[k]);
      assert k in keys;
    }
    forall c | c in Elems(Kids(keys, args)) ensures c in ArgsNodes(args) {
      var k :| k in keys && c in ArgNodes(args[k]);
      assert k in args;
    }
  }

  lemma {:induction false} LinkedArgs(all: set<Node>, n: Node)
    requires Linked(all) && n in all
    ensures LinkableArgs(n.args)
  {
    forall k | k in n.args && n.args[k].Many? ensures DistinctNodes(n.args[k].items) {
      LinkedListIsDistinct(n.args[k].items, n, k);
    }
    forall k, l | k in n.args && l in n.args && k != l ensures ArgNodes(n.args[k]) !! ArgNodes(n.args[l]) {
      ApartByLinks(n.args[k], n, k, n.args[l], n, l);
    }
  }

  method IterExpressions(n: Node) returns (kids: seq<Node>)
    ensures kids == Kids(n.keys, n.args)
  {
    kids := [];
    var i := |n.keys|;
    while i > 0
      invariant 0 <= i <= |n.keys| && kids == Kids(n.keys[i..], n.args)
    {
      i := i - 1;
      assert n.keys[i..][0] == n.keys[i] && n.keys[i..][1..] == n.keys[i + 1..];
      if n.keys[i] in n.args {
        kids := ArgKids(n.args[n.keys[i]]) + kids;
      }
    }
  }

  // ---- Reading ----

  ghost function Size(t: Tree): nat
    decreases t, 1
  {
    1 + SizeArgs(t.args)
  }

  ghost function SizeArgs(es: seq<Entry>): nat
    decreases es, 0
  {
    if es == [] then 0 else 1 + SizeArg(es[0].arg) + SizeArgs(es[1..])
  }

  ghost function SizeArg(a: TArg): nat
    decreases a, 0
  {
    match a
    case TOne(x) => SizeItem(x)
    case TMany(xs) => SizeItems(xs)
  }

  ghost function SizeItem(x: TItem): nat
    decreases x, 0
  {
    if x.TSub? then Size(x.tree) else 0
  }

  ghost function SizeItems(xs: seq<TItem>): nat
    decreases xs, 0
  {
    if xs == [] then 0 else 1 + SizeItem(xs[0]) + SizeItems(xs[1..])
  }

  /** The tree a node stands for, as a transformation sees it. */
  method ReadTree(n: Node, ghost all: set<Node>, ghost tr: map<Node, Tree>) returns (t: Tree)
    requires Labelled(all, tr) && n in all
    ensures t == tr[n]
    decreases Size(tr[n]), 1
  {
    var es := ReadArgs(n.keys, n.args, all, tr);
    t := Tree(n.kind, es);
  }

  method ReadArgs(keys: seq<Key>, args: map<Key, Arg>, ghost all: set<Node>, ghost tr: map<Node, Tree>)
    returns (es: seq<Entry>)
    requires Labelled(all, tr) && forall k :: k in args ==> ArgNodes(args[k]) <= all
    ensures es == ArgsTree(keys, args, tr)
    decreases SizeArgs(ArgsTree(keys, args, tr)), |keys|
  {
    if keys == [] {
      return [];
    }
    ghost var whole := ArgsTree(keys, args, tr);
    if keys[0] in args {
      assert whole[0] == Entry(keys[0], ArgTree(args[keys[0]], tr)) && whole[1..] == ArgsTree(keys[1..], args, tr);
      assert SizeArgs(whole) == 1 + SizeArg(whole[0].arg) + SizeArgs(whole[1..]);
      var a;
      match args[keys[0]] {
        case One(x) =>
          var y := ReadItem(x, all, tr);
          a := TOne(y);
        case Many(xs) =>
          var ys := ReadItems(xs, all, tr);
          a := TMany(ys);
      }
      var rest := ReadArgs(keys[1..], args, all, tr);
      es := [Entry(keys[0], a)] + rest;
    } else {
      assert whole == ArgsTree(keys[1..], args, tr);
      es := ReadArgs(keys[1..], args, all, tr);
    }
  }

  method ReadItem(x: Item, ghost all: set<Node>, ghost tr: map<Node, Tree>) returns (y: TItem)
    requires Labelled(all, tr) && ArgNodes(One(x)) <= all
    ensures y == ItemTree(x, tr)
    decreases SizeItem(ItemTree(x, tr)), 2
  {
    match x {
      case Atom(a) => y := TAtom(a);
      case Sub(n) =>
        assert n in ArgNodes(One(x));
        var t := ReadTree(n, all, tr);
        y := TSub(t);
    }
  }

  method ReadItems(xs: seq<Item>, ghost all: set<Node>, ghost tr: map<Node, Tree>) returns (ys: seq<TItem>)
    requires Labelled(all, tr) && ItemNodes(xs) <= all
    ensures ys == ItemsTree(xs, tr)
    decreases SizeItems(ItemsTree(xs, tr)), 0
  {
    if xs == [] {
      return [];
    }
    ghost var whole := ItemsTree(xs, tr);
    assert whole[0] == ItemTree(xs[0], tr) && whole[1..] == ItemsTree(xs[1..], tr);
    assert xs[0].Sub? ==> xs[0].node in ItemNodes(xs);
    forall c | c in ItemNodes(xs[1..]) ensures c in ItemNodes(xs) {
      var i :| 0 <= i < |xs[1..]| && xs[1..][i] == Sub(c);
      assert xs[i + 1] == Sub(c);
    }
    var y := ReadItem(xs[0], all, tr);
    var rest := ReadItems(xs[1..], all, tr);
    ys := [y] + rest;
  }
}
