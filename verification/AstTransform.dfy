/** `transform`, which changes the tree that its own depth-first walk is still visiting
    (sqlglot/expressions.py, `Expression.transform` and `dfs`). */
module AstTransform {
  import opened Collections
  import opened Ast
  import opened AstTree
  import opened AstImages
  import opened AstBuild
  import opened AstWalk
  import AstCopy

  /** The tree before the walk: arguments of every node, and the tree it stands for. */
  datatype Orig = Orig(nodes: set<Node>, root: Node, args: map<Node, map<Key, Arg>>, keys: map<Node, seq<Key>>,
                       tr: map<Node, Tree>)

  /** A tree: each node has at most one place, and the root has none. */
  ghost predicate IsTree(o: Orig) {
    && o.root in o.nodes && o.args.Keys == o.nodes && o.keys.Keys == o.nodes && o.nodes <= o.tr.Keys
    && (forall n :: n in o.nodes ==> NodeOk(o, n))
    && (forall n, m :: n in o.nodes && m in o.nodes && n != m ==> ArgsNodes(o.args[n]) !! ArgsNodes(o.args[m]))
  }

  ghost predicate NodeOk(o: Orig, n: Node)
    requires n in o.args && n in o.keys && n in o.tr
  {
    && KeysMatch(o.args[n], o.keys[n]) && LinkableArgs(o.args[n])
    && ArgsNodes(o.args[n]) <= o.nodes && o.root !in ArgsNodes(o.args[n]) && "" !in o.args[n]
    && o.tr[n] == Tree(n.kind, ArgsTree(o.keys[n], o.args[n], o.tr))
  }

  /** In these arguments, something that is not a node stands behind the list element `c`. */
  ghost predicate AtomBehind(args: map<Key, Arg>, c: Node) {
    exists k, j :: k in args && args[k].Many? && 0 <= j < |args[k].items| && args[k].items[j] == Sub(c) &&
      HasAtom(args[k].items[j + 1..])
  }

  ghost predicate HasAtom(xs: seq<Item>) {
    exists x :: x in xs && x.Atom?
  }

  /** Dropping `c` ends with an exception. */
  ghost predicate Undroppable(o: Orig, c: Node) {
    exists p :: p in o.args && AtomBehind(o.args[p], c)
  }

  /** The walk will end with an exception at `c` or below. */
  ghost predicate Troubled(f: Tree -> Verdict, o: Orig, c: Node) {
    c in o.tr && (TransformRaises(f, o.tr[c]) || (f(o.tr[c]) == Drop && Undroppable(o, c)))
  }

  ghost predicate TroubleAhead(f: Tree -> Verdict, o: Orig, stack: seq<Node>) {
    exists c :: c in stack && Troubled(f, o, c)
  }

  /** Visited nodes that the transformation returned unchanged. */
  ghost function Kept(img: Images): set<Node> {
    set n | n in img && img[n] == Some(n)
  }

  /** Where the walk stands: every visited or waiting node but the root has a kept holder,
      and every child of a kept node is visited or waiting. */
  ghost predicate Frontier(o: Orig, img: Images, stack: seq<Node>)
    requires IsTree(o)
  {
    && img.Keys <= o.nodes && Elems(stack) <= o.nodes && Elems(stack) !! img.Keys && Distinct(stack)
    && (o.root in img || o.root in stack)
    && (forall c :: c in img.Keys + Elems(stack) && c != o.root ==> HasKeptHolder(o, img, c))
    && (forall p, c :: p in Kept(img) && c in ArgsNodes(o.args[p]) ==> c in img || c in Elems(stack))
  }

  ghost predicate HasKeptHolder(o: Orig, img: Images, c: Node)
    requires IsTree(o)
  {
    exists p :: p in o.nodes && p in Kept(img) && c in ArgsNodes(o.args[p])
  }

  /** What the images of visited nodes are. */
  ghost predicate Imaged(f: Tree -> Verdict, o: Orig, img: Images, b: Made) {
    forall c :: c in img ==>
      && c in o.tr
      && (match f(o.tr[c])
       case Keep => img[c] == Some(c)
       case Drop => img[c] == None
       case Put(u) => img[c].Some? && img[c].value != c && img[c].value in b.nodes && img[c].value in b.tr
                      && b.tr[img[c].value] == Fill(u, o.tr[c]))
  }

  // ---- The frontier moves ----

  lemma {:induction false} KeptMore(img: Images, c: Node, v: Option<Node>)
    requires c !in img
    ensures Kept(img[c := v]) == Kept(img) + if v == Some(c) then {c} else {}
  {
  }

  lemma {:induction false} HolderStays(o: Orig, img: Images, img': Images, c: Node)
    requires IsTree(o) && HasKeptHolder(o, img, c) && Kept(img) <= Kept(img')
    ensures HasKeptHolder(o, img', c)
  {
    var p :| p in o.nodes && p in Kept(img) && c in ArgsNodes(o.args[p]);
  }

  /** A node that is not kept has no kept child. */
  lemma {:induction false} KeptChildren(o: Orig, img: Images, stack: seq<Node>, n: Node, c: Node)
    requires IsTree(o) && Frontier(o, img, stack) && n in o.nodes && c in ArgsNodes(o.args[n])
    requires c in img || c in Elems(stack)
    ensures n in Kept(img)
  {
    assert NodeOk(o, n);
    assert HasKeptHolder(o, img, c);
    var p :| p in o.nodes && p in Kept(img) && c in ArgsNodes(o.args[p]);
  }

  lemma {:induction false} StopHere(o: Orig, img: Images, stack: seq<Node>, c: Node, v: Option<Node>)
    requires IsTree(o) && Frontier(o, img, stack + [c]) && v != Some(c)
    ensures c in o.nodes && c !in img && Frontier(o, img[c := v], stack)
  {
    hide *;
    FrontierParts(o, img, stack + [c]);
    PopTop(stack, c);
    KeptMore(img, c, v);
    KeptAreNodes(o, img, stack + [c]);
    var img' := img[c := v];
    forall d | d in img'.Keys + Elems(stack) && d != o.root ensures HasKeptHolder(o, img', d) {
      HolderStays(o, img, img', d);
    }
    forall p, d | p in Kept(img') && d in ArgsNodes(o.args[p]) ensures d in img'.Keys + Elems(stack) {
      ChildSeen(o, img, stack + [c], p, d);
      assert d in Elems(stack + [c]) || d in img';
    }
    MakesFrontier(o, img', stack);
  }

  lemma {:induction false} FrontierParts(o: Orig, img: Images, stack: seq<Node>)
    requires IsTree(o) && Frontier(o, img, stack)
    ensures img.Keys <= o.nodes && Elems(stack) <= o.nodes && Elems(stack) !! img.Keys && Distinct(stack)
    ensures o.root in img.Keys + Elems(stack)
    ensures forall c :: c in img.Keys + Elems(stack) && c != o.root ==> HasKeptHolder(o, img, c)
  {
    hide IsTree, HasKeptHolder, Distinct;
  }

  lemma {:induction false} MakesFrontier(o: Orig, img: Images, stack: seq<Node>)
    requires IsTree(o) && Kept(img) <= o.nodes == o.args.Keys
    requires img.Keys <= o.nodes && Elems(stack) <= o.nodes && Elems(stack) !! img.Keys && Distinct(stack)
    requires o.root in img.Keys + Elems(stack)
    requires forall c :: c in img.Keys + Elems(stack) && c != o.root ==> HasKeptHolder(o, img, c)
    requires forall p, c :: p in Kept(img) && c in ArgsNodes(o.args[p]) ==> c in img.Keys + Elems(stack)
    ensures Frontier(o, img, stack)
  {
    hide IsTree, HasKeptHolder, Distinct;
  }

  lemma {:induction false} GoOn(o: Orig, img: Images, stack: seq<Node>, c: Node, kids: seq<Node>)
    requires IsTree(o) && Frontier(o, img, stack + [c]) && Distinct(kids) && c in o.nodes
    requires Elems(kids) == ArgsNodes(o.args[c])
    ensures c !in img && Frontier(o, img[c := Some(c)], stack + kids)
  {
    PopTop(stack, c);
    KeptMore(img, c, Some(c));
    NewKids(o, img, stack, c, kids);
    DistinctConcat(stack, kids);
    ChildrenSeen(o, img, stack, c, kids);
    hide Distinct, IsTree, NodeOk;
    var img' := img[c := Some(c)];
    assert Elems(stack + kids) == Elems(stack) + Elems(kids);
    forall d | d in img'.Keys + Elems(stack + kids) && d != o.root ensures HasKeptHolder(o, img', d) {
      if d in Elems(kids) {
        assert c in Kept(img') && d in ArgsNodes(o.args[c]);
      } else {
        assert d in img.Keys + Elems(stack + [c]);
        HolderStays(o, img, img', d);
      }
    }
  }

  lemma {:induction false} ChildrenSeen(o: Orig, img: Images, stack: seq<Node>, c: Node, kids: seq<Node>)
    requires IsTree(o) && Frontier(o, img, stack + [c]) && c in o.nodes && c !in img
    requires Elems(kids) == ArgsNodes(o.args[c])
    requires Elems(stack + [c]) == Elems(stack) + {c} && Elems(stack + kids) == Elems(stack) + Elems(kids)
    ensures forall p, d :: p in Kept(img[c := Some(c)]) && d in ArgsNodes(o.args[p]) ==>
              d in img[c := Some(c)] || d in Elems(stack + kids)
  {
    hide IsTree, NodeOk, Distinct, Elems, Frontier, HasKeptHolder;
    KeptMore(img, c, Some(c));
    KeptAreNodes(o, img, stack + [c]);
    forall p, d | p in Kept(img[c := Some(c)]) && d in ArgsNodes(o.args[p])
      ensures d in img[c := Some(c)] || d in Elems(stack + kids)
    {
      if p != c { ChildSeen(o, img, stack + [c], p, d); }
    }
  }

  lemma {:induction false} KeptAreNodes(o: Orig, img: Images, stack: seq<Node>)
    requires IsTree(o) && Frontier(o, img, stack)
    ensures o.args.Keys == o.nodes && Kept(img) <= o.nodes
  {
  }

  lemma {:induction false} ChildSeen(o: Orig, img: Images, stack: seq<Node>, p: Node, d: Node)
    requires IsTree(o) && Frontier(o, img, stack) && p in Kept(img) && p in o.args && d in ArgsNodes(o.args[p])
    ensures d in img || d in Elems(stack)
  {
  }

  /** The children of a node on the stack are neither visited nor waiting. */
  lemma {:induction false} NewKids(o: Orig, img: Images, stack: seq<Node>, c: Node, kids: seq<Node>)
    requires IsTree(o) && Frontier(o, img, stack + [c]) && c in o.nodes && c !in img
    requires Elems(kids) == ArgsNodes(o.args[c])
    requires Elems(stack + [c]) == Elems(stack) + {c}
    ensures Elems(kids) !! img.Keys + Elems(stack + [c]) && Elems(kids) <= o.nodes
  {
    assert NodeOk(o, c);
    forall d | d in Elems(kids) ensures d !in img.Keys + Elems(stack + [c]) {
      if d in img.Keys + Elems(stack + [c]) {
        KeptChildren(o, img, stack + [c], c, d);
      }
    }
  }

  lemma {:induction false} PopTop(stack: seq<Node>, c: Node)
    requires Distinct(stack + [c])
    ensures Distinct(stack) && Elems(stack + [c]) == Elems(stack) + {c} && c !in Elems(stack)
  {
    assert forall i :: 0 <= i < |stack| ==> (stack + [c])[i] == stack[i];
    assert (stack + [c])[|stack|] == c;
  }

  // ---- The heap follows ----

  /** Kept nodes hold the images of their original children, other nodes are as they were. */
  ghost predicate ArgsFollow(o: Orig, img: Images, n: Node)
    requires n in o.args && n in o.keys
    reads n`args, n`keys
  {
    && n.args == (if n in Kept(img) then MapArgs(o.args[n], img) else o.args[n])
    && n.keys == (if n in Kept(img) then MapKeys(o.keys[n], o.args[n], img) else o.keys[n])
    && KeysMatch(n.args, n.keys)
  }

  /** A made node holds made nodes, and visited ones that have been put into something new. */
  ghost predicate MadeFollows(o: Orig, img: Images, b: Made, m: Node)
    requires m in b.tr
    reads m`args, m`keys
  {
    && KeysMatch(m.args, m.keys) && ArgsNodes(m.args) <= b.nodes + (img.Keys - Kept(img))
    && b.tr[m] == Tree(m.kind, ArgsTree(m.keys, m.args, o.tr + b.tr))
  }

  ghost predicate Follows(o: Orig, img: Images, b: Made)
    requires IsTree(o)
    reads o.nodes`args, o.nodes`keys, b.nodes`args, b.nodes`keys
  {
    && b.tr.Keys == b.nodes && b.nodes !! o.nodes
    && (forall n :: n in o.nodes ==> ArgsFollow(o, img, n))
    && (forall m :: m in b.nodes ==> MadeFollows(o, img, b, m))
  }

  /** A node on the frontier stands where its links say, in a kept node. */
  lemma {:induction false} Locate(o: Orig, img: Images, b: Made, stack: seq<Node>, c: Node)
    requires IsTree(o) && Frontier(o, img, stack) && c in Elems(stack) && c != o.root
    requires Follows(o, img, b) && Linked(o.nodes + b.nodes)
    ensures c.parent != null && c.parent in o.nodes && c.parent in Kept(img) && c.argKey.Some? && c.argKey.value != ""
    ensures StandsAt(o.args[c.parent], img, c, c.argKey.value, c.index)
    ensures c.argKey.value in c.parent.args && c in ArgNodes(c.parent.args[c.argKey.value])
  {
    var p := KeptHolder(o, img, stack, c);
    var k :| k in o.args[p] && c in ArgNodes(o.args[p][k]);
    assert NodeOk(o, p) && ArgsFollow(o, img, p);
    LocateIn(o.args[p], img, p, k, c) by {
      hide IsTree, Frontier, Follows;
      assert k in p.args ==> ArgLinked(p.args[k], p, k);
    }
  }

  lemma {:induction false} KeptHolder(o: Orig, img: Images, stack: seq<Node>, c: Node) returns (p: Node)
    requires IsTree(o) && Frontier(o, img, stack) && c in Elems(stack) && c != o.root
    ensures p in o.nodes && p in Kept(img) && c in ArgsNodes(o.args[p]) && c !in img
  {
    assert HasKeptHolder(o, img, c);
    p :| p in o.nodes && p in Kept(img) && c in ArgsNodes(o.args[p]);
  }

  lemma {:induction false} LocateIn(args: map<Key, Arg>, img: Images, p: Node, k: Key, c: Node)
    requires LinkableArgs(args) && k in args && c in ArgNodes(args[k]) && c !in img
    requires p.args == MapArgs(args, img) && (k in p.args ==> ArgLinked(p.args[k], p, k))
    ensures k in p.args && c.parent == p && c.argKey == Some(k) && StandsAt(args, img, c, k, c.index)
    ensures c in ArgNodes(p.args[k])
  {
    UnvisitedStays(args[k], img, c);
    assert p.args[k] == MapArg(args[k], img);
    if args[k].Many? { LinkedListIsDistinct(p.args[k].items, p, k); }
  }

  lemma {:induction false} UnvisitedStays(a: Arg, img: Images, c: Node)
    requires c in ArgNodes(a) && c !in img
    ensures Stays(a, img) && c in ArgNodes(MapArg(a, img))
  {
    if a.Many? {
      var j :| 0 <= j < |a.items| && a.items[j] == Sub(c);
      MapItemsAround(a.items, j, img);
      var before := MapItems(a.items[..j], img);
      assert MapItems(a.items, img)[|before|] == Sub(c);
    }
  }

  // ---- When the walk is over ----

  ghost function FinalLabel(f: Tree -> Verdict, o: Orig, img: Images, n: Node): Tree
    requires n in o.tr
  {
    if n in Kept(img) && TransformTree(f, o.tr[n]).Some? then TransformTree(f, o.tr[n]).value else o.tr[n]
  }

  ghost function FinalLabels(f: Tree -> Verdict, o: Orig, img: Images, b: Made): map<Node, Tree>
    requires IsTree(o)
  {
    (map n | n in o.nodes :: FinalLabel(f, o, img, n)) + b.tr
  }

  lemma {:induction false} ChildrenAnswered(f: Tree -> Verdict, o: Orig, img: Images, b: Made, n: Node)
    requires IsTree(o) && Frontier(o, img, []) && Imaged(f, o, img, b) && b.tr.Keys == b.nodes && b.nodes !! o.nodes
    requires n in Kept(img)
    ensures n in o.nodes && Answers(f, ArgsNodes(o.args[n]), o.tr, img, FinalLabels(f, o, img, b))
  {
    ChildrenVisited(o, img, n);
    hide IsTree, Frontier, Imaged, Kept, FinalLabels, TransformTree;
    forall c | c in ArgsNodes(o.args[n]) ensures Answers(f, {c}, o.tr, img, FinalLabels(f, o, img, b)) {
      ChildAnswered(f, o, img, b, c);
    }
    assert forall c :: c in ArgsNodes(o.args[n]) ==> c in {c};
  }

  lemma {:induction false} ChildrenVisited(o: Orig, img: Images, n: Node)
    requires IsTree(o) && Frontier(o, img, []) && n in Kept(img)
    ensures n in o.nodes && n in o.args && ArgsNodes(o.args[n]) <= img.Keys && img.Keys <= o.nodes
  {
  }

  lemma {:induction false} ChildAnswered(f: Tree -> Verdict, o: Orig, img: Images, b: Made, c: Node)
    requires IsTree(o) && c in o.nodes && c in img && Imaged(f, o, img, b) && b.tr.Keys == b.nodes && b.nodes !! o.nodes
    ensures Answers(f, {c}, o.tr, img, FinalLabels(f, o, img, b))
  {
    hide NodeOk, TransformArgs, Fill;
    if f(o.tr[c]) == Keep { assert c in Kept(img); }
  }

  /** What is known of a kept node, before its children come in. */
  lemma {:induction false} KeptParts(f: Tree -> Verdict, o: Orig, img: Images, b: Made, n: Node)
    requires IsTree(o) && Frontier(o, img, []) && Imaged(f, o, img, b) && Follows(o, img, b) && n in Kept(img)
    ensures n in o.nodes && n in o.tr && n in o.args && n in o.keys
    ensures b.tr.Keys == b.nodes && b.nodes !! o.nodes
    ensures n.args == MapArgs(o.args[n], img) && n.keys == MapKeys(o.keys[n], o.args[n], img)
    ensures o.tr[n] == Tree(n.kind, ArgsTree(o.keys[n], o.args[n], o.tr)) && f(o.tr[n]) == Keep
    ensures forall k :: k in o.keys[n] ==> k in o.args[n] && ArgNodes(o.args[n][k]) <= ArgsNodes(o.args[n])
  {
    ChildrenVisited(o, img, n);
    hide ArgsTree, MapArgs, MapKeys, LinkableArgs, Frontier;
    assert NodeOk(o, n) && ArgsFollow(o, img, n);
  }

  lemma {:induction false} KeptTree(f: Tree -> Verdict, o: Orig, img: Images, b: Made, n: Node)
    requires IsTree(o) && n in Kept(img) && n in o.nodes && n !in b.tr && f(o.tr[n]) == Keep
    ensures TransformTree(f, o.tr[n]) == Some(Tree(o.tr[n].kind, TransformArgs(f, o.tr[n].args)))
    ensures FinalLabels(f, o, img, b)[n] == Tree(o.tr[n].kind, TransformArgs(f, o.tr[n].args))
  {
    hide NodeOk, TransformArgs, Kept;
  }

  lemma {:induction false} KeptLabel(f: Tree -> Verdict, o: Orig, img: Images, b: Made, n: Node)
    requires IsTree(o) && Frontier(o, img, []) && Imaged(f, o, img, b) && Follows(o, img, b)
    requires n in Kept(img)
    ensures n in o.nodes
    ensures FinalLabels(f, o, img, b)[n] == Tree(n.kind, ArgsTree(n.keys, n.args, FinalLabels(f, o, img, b)))
    ensures TransformTree(f, o.tr[n]) == Some(FinalLabels(f, o, img, b)[n])
  {
    hide *;
    KeptParts(f, o, img, b, n);
    KeptTree(f, o, img, b, n);
    ChildrenAnswered(f, o, img, b, n);
    ArgsTransform(f, o.keys[n], o.args[n], ArgsNodes(o.args[n]), o.tr, img, FinalLabels(f, o, img, b));
  }

  lemma {:induction false} OtherLabel(f: Tree -> Verdict, o: Orig, img: Images, b: Made, n: Node)
    requires IsTree(o) && Frontier(o, img, []) && Imaged(f, o, img, b) && Follows(o, img, b)
    requires n in o.nodes && n !in Kept(img)
    ensures FinalLabels(f, o, img, b)[n] == Tree(n.kind, ArgsTree(n.keys, n.args, FinalLabels(f, o, img, b)))
  {
    hide Frontier, Imaged, MadeFollows, TransformTree, ArgsTree;
    assert NodeOk(o, n) && ArgsFollow(o, img, n);
    forall c | c in ArgsNodes(n.args) ensures c !in Kept(img) {
      if c in Kept(img) { KeptChildren(o, img, [], n, c); }
    }
    ArgsTreeSame(n.keys, n.args, o.tr, FinalLabels(f, o, img, b));
  }

  lemma {:induction false} ImagesAreNodes(o: Orig, img: Images)
    requires IsTree(o) && Frontier(o, img, [])
    ensures img.Keys <= o.nodes && o.nodes <= o.tr.Keys && Kept(img) <= img.Keys
  {
    hide NodeOk, HasKeptHolder;
  }

  lemma {:induction false} MadeLabel(f: Tree -> Verdict, o: Orig, img: Images, b: Made, m: Node)
    requires IsTree(o) && Frontier(o, img, []) && Imaged(f, o, img, b) && Follows(o, img, b)
    requires m in b.nodes
    ensures FinalLabels(f, o, img, b)[m] == Tree(m.kind, ArgsTree(m.keys, m.args, FinalLabels(f, o, img, b)))
  {
    hide IsTree, Frontier, Imaged, TransformTree, ArgsTree, NodeOk, ArgsFollow, KeysMatch, Kept;
    ImagesAreNodes(o, img);
    assert MadeFollows(o, img, b, m);
    ArgsTreeSame(m.keys, m.args, o.tr + b.tr, FinalLabels(f, o, img, b));
  }

  /** The changed tree is labelled with transformed trees. */
  lemma {:induction false} WalkIsOver(f: Tree -> Verdict, o: Orig, img: Images, b: Made)
    requires IsTree(o) && Frontier(o, img, []) && Imaged(f, o, img, b) && Follows(o, img, b)
    requires Linked(o.nodes + b.nodes)
    ensures Labelled(o.nodes + b.nodes, FinalLabels(f, o, img, b))
    ensures o.root in img && o.root in o.tr
    ensures match img[o.root]
      case None => TransformTree(f, o.tr[o.root]) == None
      case Some(r) => r in o.nodes + b.nodes && TransformTree(f, o.tr[o.root]) == Some(FinalLabels(f, o, img, b)[r])
  {
    hide Frontier, Imaged, TransformTree, ArgsTree, Follows, IsTree, KeysMatch;
    forall n | n in o.nodes + b.nodes
      ensures KeysMatch(n.args, n.keys) && n in FinalLabels(f, o, img, b)
      ensures FinalLabels(f, o, img, b)[n] == Tree(n.kind, ArgsTree(n.keys, n.args, FinalLabels(f, o, img, b)))
    {
      NodeLabel(f, o, img, b, n);
    }
    RootAnswer(f, o, img, b);
  }

  lemma {:induction false} NodeLabel(f: Tree -> Verdict, o: Orig, img: Images, b: Made, n: Node)
    requires IsTree(o) && Frontier(o, img, []) && Imaged(f, o, img, b) && Follows(o, img, b) && n in o.nodes + b.nodes
    ensures KeysMatch(n.args, n.keys) && n in FinalLabels(f, o, img, b)
    ensures FinalLabels(f, o, img, b)[n] == Tree(n.kind, ArgsTree(n.keys, n.args, FinalLabels(f, o, img, b)))
  {
    hide Frontier, Imaged, TransformTree, ArgsTree, MapArgs, NodeOk, KeysMatch, FinalLabel;
    if n in b.nodes {
      assert MadeFollows(o, img, b, n);
      MadeLabel(f, o, img, b, n);
    } else {
      assert ArgsFollow(o, img, n);
      if n in Kept(img) { KeptLabel(f, o, img, b, n); } else { OtherLabel(f, o, img, b, n); }
    }
  }

  lemma {:induction false} RootAnswer(f: Tree -> Verdict, o: Orig, img: Images, b: Made)
    requires IsTree(o) && Frontier(o, img, []) && Imaged(f, o, img, b) && Follows(o, img, b)
    ensures o.root in img && o.root in o.tr
    ensures match img[o.root]
      case None => TransformTree(f, o.tr[o.root]) == None
      case Some(r) => r in o.nodes + b.nodes && TransformTree(f, o.tr[o.root]) == Some(FinalLabels(f, o, img, b)[r])
  {
    assert o.root in img && o.root in o.nodes;
    hide Follows, NodeOk, Frontier, IsTree;
    HasArgs(o, o.root);
    NotMade(o, img, b, o.root);
    MadeApart(o, img, b);
    ChildAnswered(f, o, img, b, o.root);
    assert o.root in {o.root};
  }

  lemma {:induction false} MadeApart(o: Orig, img: Images, b: Made)
    requires IsTree(o) && Follows(o, img, b)
    ensures b.tr.Keys == b.nodes && b.nodes !! o.nodes
  {
  }

  // ---- One step of the walk ----

  ghost function All(o: Orig, b: Made): set<Node> { o.nodes + b.nodes }

  lemma {:induction false} AtomImages(xs: seq<Item>, img: Images)
    ensures HasAtom(MapItems(xs, img)) <==> HasAtom(xs)
    decreases |xs|
  {
    if xs != [] {
      AtomImages(xs[1..], img);
      assert xs == [xs[0]] + xs[1..];
      var ys, zs := MapItem(xs[0], img), MapItems(xs[1..], img);
      assert forall x :: x in ys + zs <==> x in ys || x in zs;
      assert forall x :: x in xs <==> x == xs[0] || x in xs[1..];
    }
  }

  lemma {:induction false} DropSettable(o: Orig, img: Images, b: Made, p: Node, k: Key, c: Node)
    requires IsTree(o) && Follows(o, img, b) && Linked(All(o, b)) && p in o.nodes && p in Kept(img)
    requires StandsAt(o.args[p], img, c, k, c.index)
    ensures p.Settable(k, Nothing, c.index, true, All(o, b))
  {
    assert NodeOk(o, p) && ArgsFollow(o, img, p);
    var all := All(o, b);
    hide IsTree, Follows, Frontier, Kept, All;
    SlotImage(o.args[p], img, c, k, c.index, None);
    DropArg(all, o.args[p], img, p, k, c);
  }

  lemma {:induction false} DropArg(all: set<Node>, args: map<Key, Arg>, img: Images, p: Node, k: Key, c: Node)
    requires Linked(all) && p in all && p.args == MapArgs(args, img) && k in p.args && KeysMatch(p.args, p.keys)
    requires StandsAt(args, img, c, k, c.index)
    ensures p.Settable(k, Nothing, c.index, true, all)
  {
    hide KeysMatch, SettableAt;
    LinkedKeepsApart(all, p, k);
    assert ArgLinked(p.args[k], p, k) && ArgNodes(p.args[k]) <= all;
    if args[k].Many? {
      DropFromList(p.args[k].items, p, k, c.index.value);
    }
  }

  lemma {:induction false} DropFromList(xs: seq<Item>, p: Node, k: Key, i: int)
    requires 0 <= i < |xs| && ArgLinked(Many(xs), p, k)
    ensures SettableAt(xs, Nothing, i, true, p, k)
  {
    LinkedListIsDistinct(xs, p, k);
    var rest := AfterPop(xs, i);
    assert forall j :: 0 <= j < |rest| ==> rest[j] == xs[IndexBefore(i, j)];
  }

  lemma {:induction false} PopRaisesIf(xs: seq<Item>, i: nat)
    requires i < |xs|
    ensures PopRaises(xs, i) <==> HasAtom(xs[i + 1..])
    ensures !PopRaises(xs, i) ==> PopKeepsLinks(xs, i)
  {
    var rest, behind := AfterPop(xs, i), xs[i + 1..];
    assert forall j :: i <= j < |rest| ==> rest[j] == behind[j - i];
    assert SliceStart(|rest|, i) == i;
    if PopRaises(xs, i) { assert behind[FirstAtom(rest, i) - i] in behind; }
    if HasAtom(behind) {
      var j :| 0 <= j < |behind| && behind[j].Atom?;
      assert rest[i + j].Atom?;
    }
  }

  /** Dropping `c` ends with an exception exactly if something that is not a node stands behind it. */
  lemma {:induction false} DropRaisesIf(o: Orig, img: Images, p: Node, k: Key, c: Node, idx: Option<int>)
    requires IsTree(o) && p in o.nodes && StandsAt(o.args[p], img, c, k, idx)
    ensures var raises := SetRaises(MapArgs(o.args[p], img), k, Nothing, idx);
      && (raises <==> Undroppable(o, c))
      && (!raises ==> SetKeepsLinks(MapArgs(o.args[p], img), k, Nothing, idx))
  {
    var args := o.args[p];
    assert NodeOk(o, p);
    SlotImage(args, img, c, k, idx, None);
    forall q | q in o.args && AtomBehind(o.args[q], c) ensures q == p {
      BehindIn(o.args[q], c);
    }
    hide IsTree, SetRaises, SetKeepsLinks, NodeOk;
    RaisesInArgs(args, img, k, c, idx);
  }

  lemma {:induction false} BehindIn(args: map<Key, Arg>, c: Node)
    requires AtomBehind(args, c)
    ensures c in ArgsNodes(args)
  {
    var k, j :| k in args && args[k].Many? && 0 <= j < |args[k].items| && args[k].items[j] == Sub(c) &&
      HasAtom(args[k].items[j + 1..]);
    assert c in ArgNodes(args[k]);
  }

  lemma {:induction false} RaisesInArgs(args: map<Key, Arg>, img: Images, k: Key, c: Node, idx: Option<int>)
    requires StandsAt(args, img, c, k, idx) && k in MapArgs(args, img)
    ensures var raises := SetRaises(MapArgs(args, img), k, Nothing, idx);
      && (raises <==> AtomBehind(args, c))
      && (!raises ==> SetKeepsLinks(MapArgs(args, img), k, Nothing, idx))
  {
    if args[k].Many? {
      var xs, ys := args[k].items, MapItems(args[k].items, img);
      var j :| 0 <= j < |xs| && xs[j] == Sub(c);
      MapItemsAround(xs, j, img);
      PlaceOfImage(xs, j, img, c, idx.value);
      AtomImages(xs[j + 1..], img);
      PopRaisesIf(ys, idx.value);
    }
  }

  lemma {:induction false} PlaceOfImage(xs: seq<Item>, j: nat, img: Images, c: Node, i: nat)
    requires j < |xs| && xs[j] == Sub(c) && c !in img
    requires DistinctNodes(MapItems(xs, img)) && i < |MapItems(xs, img)| && MapItems(xs, img)[i] == Sub(c)
    ensures MapItems(xs, img)[i + 1..] == MapItems(xs[j + 1..], img)
  {
    MapItemsAround(xs, j, img);
    var before, ys := MapItems(xs[..j], img), MapItems(xs, img);
    assert ys[|before|] == Sub(c) && i == |before|;
  }

  /** A node just made for `c`. */
  ghost predicate NewMade(o: Orig, more: Made, c: Node, m: Node)
    requires m in more.tr && c in o.tr
    reads m`args, m`keys
  {
    && KeysMatch(m.args, m.keys) && ArgsNodes(m.args) <= more.nodes + {c}
    && more.tr[m] == Tree(m.kind, ArgsTree(m.keys, m.args, more.tr[c := o.tr[c]]))
  }

  lemma {:induction false} StandsIn(args: map<Key, Arg>, img: Images, c: Node, k: Key, idx: Option<int>)
    requires StandsAt(args, img, c, k, idx)
    ensures c in ArgsNodes(args) && c !in img
  {
  }

  lemma {:induction false} StepFollows(o: Orig, img: Images, b: Made, p: Node, k: Key, c: Node, idx: Option<int>,
      v: Option<Node>, more: Made)
    requires IsTree(o) && p in o.nodes && p in Kept(img) && c in o.nodes && v != Some(c)
    requires StandsAt(o.args[p], img, c, k, idx)
    requires p.args == ArgsAfterSet(MapArgs(o.args[p], img), k, ImageValue(v), idx, true)
    requires p.keys == KeysAfterSet(MapKeys(o.keys[p], o.args[p], img), k, ImageValue(v), idx)
    requires KeysMatch(p.args, p.keys)
    requires forall n :: n in o.nodes && n != p ==> ArgsFollow(o, img, n)
    requires b.tr.Keys == b.nodes && b.nodes !! o.nodes && forall m :: m in b.nodes ==> MadeFollows(o, img, b, m)
    requires img.Keys <= o.nodes && more.tr.Keys == more.nodes && more.nodes !! o.nodes + b.nodes
    requires forall m :: m in more.nodes ==> NewMade(o, more, c, m)
    ensures Follows(o, img[c := v], Join(b, more))
  {
    hide MapArgs, MapKeys, NewMade, MadeFollows, StandsAt, ArgsTree, ArgsFollow, Kept, NodeOk, KeysMatch;
    var img', b' := img[c := v], Join(b, more);
    StandsIn(o.args[p], img, c, k, idx);
    SetFollows(o, img, p, k, c, idx, v);
    forall n | n in o.nodes ensures ArgsFollow(o, img', n) {
      if n != p { ArgsFollowMore(o, img, n, p, c, v); }
    }
    forall m | m in b'.nodes ensures MadeFollows(o, img', b', m) {
      if m in b.nodes {
        OldMadeFollows(o, img, b, m, c, v, more);
      } else {
        NewMadeFollows(o, img, b, m, c, v, more);
      }
    }
  }

  lemma {:induction false} SetFollows(o: Orig, img: Images, p: Node, k: Key, c: Node, idx: Option<int>, v: Option<Node>)
    requires IsTree(o) && p in o.nodes && p in Kept(img) && c !in img && v != Some(c)
    requires StandsAt(o.args[p], img, c, k, idx)
    requires p.args == ArgsAfterSet(MapArgs(o.args[p], img), k, ImageValue(v), idx, true)
    requires p.keys == KeysAfterSet(MapKeys(o.keys[p], o.args[p], img), k, ImageValue(v), idx)
    requires KeysMatch(p.args, p.keys)
    ensures ArgsFollow(o, img[c := v], p)
  {
    hide MapArgs, MapKeys, StandsAt, ArgsTree, ArgsAfterSet, KeysAfterSet;
    KeptMore(img, c, v);
    assert NodeOk(o, p);
    SlotImage(o.args[p], img, c, k, idx, v);
    SlotKeys(o.args[p], o.keys[p], img, c, k, idx, v);
  }

  lemma {:induction false} OldMadeFollows(o: Orig, img: Images, b: Made, m: Node, c: Node, v: Option<Node>, more: Made)
    requires o.nodes <= o.tr.Keys && img.Keys <= o.nodes && c !in img && v != Some(c)
    requires b.tr.Keys == b.nodes && more.tr.Keys == more.nodes && b.nodes !! o.nodes && more.nodes !! o.nodes + b.nodes
    requires m in b.nodes && MadeFollows(o, img, b, m)
    ensures MadeFollows(o, img[c := v], Join(b, more), m)
  {
    KeptMore(img, c, v);
    ArgsTreeSame(m.keys, m.args, o.tr + b.tr, o.tr + Join(b, more).tr);
  }

  lemma {:induction false} NewMadeFollows(o: Orig, img: Images, b: Made, m: Node, c: Node, v: Option<Node>, more: Made)
    requires o.nodes <= o.tr.Keys && c in o.nodes && c !in img && v != Some(c)
    requires b.tr.Keys == b.nodes && more.tr.Keys == more.nodes && b.nodes !! o.nodes && more.nodes !! o.nodes + b.nodes
    requires m in more.nodes && NewMade(o, more, c, m)
    ensures MadeFollows(o, img[c := v], Join(b, more), m)
  {
    KeptMore(img, c, v);
    ArgsTreeSame(m.keys, m.args, more.tr[c := o.tr[c]], o.tr + Join(b, more).tr);
  }

  lemma {:induction false} ArgsFollowMore(o: Orig, img: Images, n: Node, p: Node, c: Node, v: Option<Node>)
    requires IsTree(o) && n in o.nodes && p in o.nodes && n != p && c in ArgsNodes(o.args[p]) && c !in img
    requires v != Some(c)
    requires ArgsFollow(o, img, n)
    ensures ArgsFollow(o, img[c := v], n)
  {
    hide IsTree, NodeOk, MapArgs, MapKeys, KeysMatch, ArgsNodes;
    NotShared(o, n, p, c);
    KeptMore(img, c, v);
    if n in Kept(img) {
      ElsewhereSame(o.args[n], img, c, v);
      SameArgs(o.args[n], o.keys[n], img, img[c := v]);
    }
  }

  lemma {:induction false} NotShared(o: Orig, n: Node, p: Node, c: Node)
    requires IsTree(o) && n in o.nodes && p in o.nodes && n != p && c in ArgsNodes(o.args[p])
    ensures n in o.args && n in o.keys && c !in ArgsNodes(o.args[n])
  {
    hide NodeOk, ArgsNodes;
  }

  lemma {:induction false} ElsewhereSame(args: map<Key, Arg>, img: Images, c: Node, v: Option<Node>)
    requires c !in ArgsNodes(args)
    ensures forall l :: l in args ==> SameOn(ArgNodes(args[l]), img, img[c := v])
  {
    hide ArgNodes;
    forall l, d | l in args && d in ArgNodes(args[l]) ensures d != c {
      assert d in ArgsNodes(args);
    }
  }

  /** Everything but the links of the heap, when the slot of `c` is about to be set. */
  ghost predicate ReadyToSet(o: Orig, img: Images, b: Made, more: Made, p: Node, k: Key, c: Node, idx: Option<int>)
    reads o.nodes`args, o.nodes`keys, b.nodes`args, b.nodes`keys, more.nodes`args, more.nodes`keys
  {
    && IsTree(o) && p in o.nodes && p in o.args && p in o.keys && p in Kept(img) && c in o.nodes && img.Keys <= o.nodes
    && StandsAt(o.args[p], img, c, k, idx) && (idx.Some? ==> idx.value >= 0)
    && b.tr.Keys == b.nodes && b.nodes !! o.nodes && more.tr.Keys == more.nodes && more.nodes !! o.nodes + b.nodes
    && (forall n :: n in o.nodes ==> ArgsFollow(o, img, n))
    && (forall m :: m in b.nodes ==> MadeFollows(o, img, b, m))
    && (forall m :: m in more.nodes ==> NewMade(o, more, c, m))
  }

  /** A new value in the slot neither ends with an exception nor harms links. */
  lemma {:induction false} PutKeepsLinks(args: map<Key, Arg>, img: Images, c: Node, k: Key, idx: Option<int>, r: Node)
    requires StandsAt(args, img, c, k, idx)
    ensures var m :=
              MapArgs(args, img); !SetRaises(m, k, Single(Sub(r)), idx) && SetKeepsLinks(m, k, Single(Sub(r)), idx)
  {
  }

  /** `parent.set(arg_key, new_node, index)` */
  method SetImage(c: Node, p: Node, k: Key, idx: Option<int>, v: Option<Node>,
                  ghost o: Orig, ghost img: Images, ghost b: Made, ghost more: Made)
    returns (ok: bool)
    requires ReadyToSet(o, img, b, more, p, k, c, idx) && v != Some(c)
    requires p.Settable(k, ImageValue(v), idx, true, All(o, Join(b, more)))
    requires SetRaises(p.args, k, ImageValue(v), idx) || SetKeepsLinks(p.args, k, ImageValue(v), idx)
    modifies All(o, Join(b, more))
    ensures ok == !SetRaises(old(p.args), k, ImageValue(v), idx)
    ensures ok ==> Follows(o, img[c := v], Join(b, more)) && Linked(All(o, Join(b, more)))
  {
    hide IsTree, StandsAt, MapArgs, MapKeys, ArgsTree, Linked, OthersLinked, Apart, SettableAt, ArgsAfterSet,
      KeysAfterSet,
      SetRaises, SetKeepsLinks, NodeOk, KeysMatch;
    assert ArgsFollow(o, img, p);
    ok := p.Set(k, ImageValue(v), idx, true, All(o, Join(b, more)));
    if ok {
      StepFollows(o, img, b, p, k, c, idx, v, more);
    }
  }

  lemma {:induction false} Visiting(o: Orig, img: Images, stack: seq<Node>, c: Node)
    requires IsTree(o) && Frontier(o, img, stack) && c in Elems(stack)
    ensures c in o.nodes && c !in img && img.Keys <= o.nodes
  {
  }

  lemma {:induction false} HasArgs(o: Orig, n: Node)
    requires IsTree(o) && n in o.nodes
    ensures n in o.args && n in o.keys && n in o.tr
  {
  }

  lemma {:induction false} JoinNothing(b: Made)
    ensures Join(b, NOTHING_MADE) == b
  {
  }

  lemma {:induction false} SlotReady(o: Orig, img: Images, b: Made, more: Made, p: Node, k: Key, c: Node,
      idx: Option<int>)
    requires IsTree(o) && p in o.nodes && p in Kept(img) && c in o.nodes && img.Keys <= o.nodes
    requires StandsAt(o.args[p], img, c, k, idx) && Follows(o, img, b)
    requires more.tr.Keys == more.nodes && more.nodes !! o.nodes + b.nodes
    requires forall m :: m in more.nodes ==> NewMade(o, more, c, m)
    ensures ReadyToSet(o, img, b, more, p, k, c, idx)
  {
    hide ArgsFollow, MadeFollows, NewMade, Kept, IsTree, MapItems, DistinctNodes;
    HasArgs(o, p);
    HasArgs(o, c);
  }

  lemma {:induction false} KeptArgs(o: Orig, img: Images, b: Made, p: Node)
    requires IsTree(o) && Follows(o, img, b) && p in o.nodes && p in Kept(img)
    ensures p in o.args && p.args == MapArgs(o.args[p], img)
  {
    assert ArgsFollow(o, img, p);
  }

  lemma {:induction false} DropReady(o: Orig, img: Images, b: Made, stack: seq<Node>, p: Node, k: Key, c: Node)
    requires IsTree(o) && Frontier(o, img, stack) && c in Elems(stack) && c != o.root
    requires Follows(o, img, b) && Linked(All(o, b)) && p == c.parent && Some(k) == c.argKey
    ensures Join(b, NOTHING_MADE) == b && ReadyToSet(o, img, b, NOTHING_MADE, p, k, c, c.index)
    ensures p.Settable(k, Nothing, c.index, true, All(o, Join(b, NOTHING_MADE)))
    ensures SetRaises(p.args, k, Nothing, c.index) <==> Undroppable(o, c)
    ensures SetRaises(p.args, k, Nothing, c.index) || SetKeepsLinks(p.args, k, Nothing, c.index)
  {
    hide IsTree, Frontier, Node.Settable, Follows, Linked, StandsAt, ReadyToSet, Kept, Elems, NewMade, Join, SetRaises,
      SetKeepsLinks, Undroppable;
    Locate(o, img, b, stack, c);
    Visiting(o, img, stack, c);
    HasArgs(o, p);
    JoinNothing(b);
    DropSettable(o, img, b, p, k, c);
    KeptArgs(o, img, b, p);
    DropRaisesIf(o, img, p, k, c, c.index);
    SlotReady(o, img, b, NOTHING_MADE, p, k, c, c.index);
  }

  /** `parent.set(arg_key, None, index)` */
  method DropNode(c: Node, p: Node, k: Key, idx: Option<int>, ghost o: Orig, ghost img: Images, ghost b: Made,
      ghost stack: seq<Node>)
    returns (ok: bool)
    requires IsTree(o) && Frontier(o, img, stack) && c in Elems(stack) && c != o.root
    requires Follows(o, img, b) && Linked(All(o, b))
    requires p == c.parent && Some(k) == c.argKey && idx == c.index
    modifies All(o, b)
    ensures ok == !Undroppable(o, c)
    ensures ok ==> Follows(o, img[c := None], b) && Linked(All(o, b))
  {
    DropReady(o, img, b, stack, p, k, c);
    hide ReadyToSet, Follows, Linked, IsTree, Frontier, StandsAt, SetRaises, SetKeepsLinks, Undroppable;
    ok := SetImage(c, p, k, idx, None, o, img, b, NOTHING_MADE);
  }

  // ---- A new tree takes the place of the node ----

  /** Around the slot of `c` the links are complete, and no other place holds `c`. */
  ghost predicate SlotFree(all: set<Node>, p: Node, k: Key, c: Node, idx: Option<int>)
    reads all
  {
    && p in all && OthersLinked(all, p, k) && Apart(all, p, k, {c})
    && (idx.Some? ==>
         k in p.args && p.args[k].Many? && ArgNodes(p.args[k]) <= all && ListReady(p.args[k].items, idx.value, p, k, c))
  }

  ghost predicate ListReady(xs: seq<Item>, i: int, p: Node, k: Key, c: Node)
    reads ItemNodes(xs)
  {
    && 0 <= i < |xs| && xs[i] == Sub(c) && DistinctNodes(xs)
    && forall j :: 0 <= j < |xs| && j != i && xs[j].Sub? ==> xs[j].node.LinkedTo(p, k, Some(j))
  }

  lemma {:induction false} SlotIsFree(o: Orig, img: Images, b: Made, stack: seq<Node>, p: Node, k: Key, c: Node)
    requires IsTree(o) && Frontier(o, img, stack) && c in Elems(stack) && c != o.root
    requires Follows(o, img, b) && Linked(All(o, b)) && p == c.parent && Some(k) == c.argKey
    ensures p in o.nodes && p in Kept(img) && SlotFree(All(o, b), p, k, c, c.index)
  {
    Locate(o, img, b, stack, c);
    assert ArgsFollow(o, img, p);
    FreeSlot(All(o, b), o.args[p], img, p, k, c) by { hide IsTree, Frontier, Linked, StandsAt; }
  }

  lemma {:induction false} FreeSlot(all: set<Node>, args: map<Key, Arg>, img: Images, p: Node, k: Key, c: Node)
    requires Linked(all) && p in all && k in p.args && c in ArgNodes(p.args[k])
    requires StandsAt(args, img, c, k, c.index) && p.args == MapArgs(args, img)
    ensures SlotFree(all, p, k, c, c.index)
  {
    LinkedKeepsApart(all, p, k);
    assert ArgLinked(p.args[k], p, k) && ArgNodes(p.args[k]) <= all;
  }

  lemma {:induction false} GoodIsNew(o: Orig, more: Made, c: Node)
    requires c in o.tr && Good(more, c, o.tr[c])
    ensures more.tr.Keys == more.nodes && forall m :: m in more.nodes ==> NewMade(o, more, c, m)
  {
  }

  lemma {:induction false} PutSettable(all: set<Node>, more: Made, p: Node, k: Key, c: Node, idx: Option<int>, r: Node,
      t: Tree)
    requires SlotFree(all, p, k, c, idx) && c in all && KeysMatch(p.args, p.keys)
    requires Good(more, c, t) && more.nodes !! all && r in more.nodes && r.parent == null
    ensures p.Settable(k, Single(Sub(r)), idx, true, all + more.nodes)
  {
    forall n, l | n in all + more.nodes && l in n.args && (n != p || l != k)
      ensures ArgNodes(n.args[l]) <= all + more.nodes && ArgLinked(n.args[l], n, l) && r !in ArgNodes(n.args[l])
    {
      if n in more.nodes {
        MadeArg(more, c, t, n, l);
        if r in ArgNodes(n.args[l]) { NullNotLinked(n.args[l], r, n, l); }
      }
    }
    if idx.Some? {
      PutInList(p.args[k].items, idx.value, p, k, c, r);
    }
  }

  lemma {:induction false} MadeArg(more: Made, c: Node, t: Tree, n: Node, l: Key)
    requires Good(more, c, t) && n in more.nodes && l in n.args
    ensures ArgNodes(n.args[l]) <= more.nodes + {c} && ArgLinked(n.args[l], n, l)
  {
    assert GoodNode(n, more, c, t);
    assert ArgNodes(n.args[l]) <= ArgsNodes(n.args);
  }

  lemma {:induction false} PutInList(xs: seq<Item>, i: int, p: Node, k: Key, c: Node, r: Node)
    requires ListReady(xs, i, p, k, c) && r !in ItemNodes(xs)
    ensures SettableAt(xs, Single(Sub(r)), i, true, p, k)
  {
    assert NewList(xs, Single(Sub(r)), i, true) == xs[i := Sub(r)];
    assert forall j :: 0 <= j < |xs| && xs[j].Sub? ==> xs[j].node in ItemNodes(xs);
  }

  /** The new tree is built; the links of `c`, if the tree holds it, are all that changes elsewhere. */
  method BuildBeside(c: Node, p: Node, k: Key, idx: Option<int>, u: Tree, ghost all: set<Node>, ghost t: Tree)
    returns (r: Node, ghost more: Made)
    requires SlotFree(all, p, k, c, idx) && c in all && KeysMatch(p.args, p.keys) && WellKeyed(u) && Holes(u) <= 1
    modifies c`parent, c`argKey, c`index
    ensures fresh(more.nodes) && more.nodes !! all && r in more.nodes && Good(more, c, t) && r in more.tr
    ensures more.tr[r] == Fill(u, t)
    ensures p.Settable(k, Single(Sub(r)), idx, true, all + more.nodes)
  {
    r, more := BuildTree(u, c, t);
    forall n, l | n in all && l in n.args && (n != p || l != k)
      ensures ArgNodes(n.args[l]) <= all && ArgLinked(n.args[l], n, l) && c !in ArgNodes(n.args[l])
    {
      assert old(ArgNodes(n.args[l]) <= all && ArgLinked(n.args[l], n, l) && ArgNodes(n.args[l]) !! {c});
    }
    PutSettable(all, more, p, k, c, idx, r, t);
  }

  /** `parent.set(arg_key, new_node, index)`, with a tree that may hold the node itself */
  method PutNode(c: Node, p: Node, k: Key, idx: Option<int>, u: Tree, ghost o: Orig, ghost img: Images, ghost b: Made,
      ghost stack: seq<Node>)
    returns (r: Node, ghost more: Made)
    requires IsTree(o) && Frontier(o, img, stack) && c in Elems(stack) && c != o.root && c in o.tr
    requires Follows(o, img, b) && Linked(All(o, b)) && WellKeyed(u) && Holes(u) <= 1
    requires p == c.parent && Some(k) == c.argKey && idx == c.index
    modifies All(o, b)
    ensures fresh(more.nodes) && r in more.nodes && more.tr.Keys == more.nodes && more.tr[r] == Fill(u, o.tr[c])
    ensures Follows(o, img[c := Some(r)], Join(b, more)) && Linked(All(o, Join(b, more)))
  {
    hide IsTree, Frontier, SlotFree, ArgsFollow, MadeFollows, Linked, StandsAt, Kept, Elems, Node.Settable, Good, Fill,
      KeysMatch, SetRaises, SetKeepsLinks;
    Visiting(o, img, stack, c);
    SlotIsFree(o, img, b, stack, p, k, c);
    Locate(o, img, b, stack, c);
    HasArgs(o, p);
    KeysFollow(o, img, b, p);
    r, more := BuildBeside(c, p, k, idx, u, All(o, b), o.tr[c]);
    JoinAll(o, b, more);
    GoodIsNew(o, more, c);
    SlotReady(o, img, b, more, p, k, c, idx);
    KeptSlot(o, img, b, p, k, c, idx, r);
    var _ := SetImage(c, p, k, idx, Some(r), o, img, b, more);
  }

  lemma {:induction false} KeptSlot(o: Orig, img: Images, b: Made, p: Node, k: Key, c: Node, idx: Option<int>, r: Node)
    requires IsTree(o) && Follows(o, img, b) && p in o.nodes && p in Kept(img) && StandsAt(o.args[p], img, c, k, idx)
    ensures !SetRaises(p.args, k, Single(Sub(r)), idx) && SetKeepsLinks(p.args, k, Single(Sub(r)), idx)
  {
    KeptArgs(o, img, b, p);
    PutKeepsLinks(o.args[p], img, c, k, idx, r);
  }

  lemma {:induction false} KeysFollow(o: Orig, img: Images, b: Made, p: Node)
    requires IsTree(o) && Follows(o, img, b) && p in o.nodes
    ensures KeysMatch(p.args, p.keys)
  {
    assert ArgsFollow(o, img, p);
  }

  lemma {:induction false} JoinAll(o: Orig, b: Made, more: Made)
    ensures All(o, Join(b, more)) == All(o, b) + more.nodes
  {
  }

  // ---- One visited node ----

  ghost predicate Walking(f: Tree -> Verdict, o: Orig, img: Images, stack: seq<Node>, b: Made)
    reads o.nodes, b.nodes
  {
    IsTree(o) && Frontier(o, img, stack) && Imaged(f, o, img, b) && Follows(o, img, b) && Linked(All(o, b))
  }

  /** What has not been visited still stands for the original trees. */
  lemma {:induction false} StillLabelled(o: Orig, img: Images, stack: seq<Node>, b: Made, c: Node)
    requires IsTree(o) && Frontier(o, img, stack) && Follows(o, img, b) && c in Elems(stack)
    ensures Labelled(o.nodes - img.Keys, o.tr) && c in o.nodes - img.Keys && c in o.args && c in o.keys && c in o.tr
    ensures c.args == o.args[c] && c.keys == o.keys[c]
  {
    forall n | n in o.nodes - img.Keys
      ensures KeysMatch(n.args, n.keys) && n.args == o.args[n] && n.keys == o.keys[n]
      ensures o.tr[n] == Tree(n.kind, ArgsTree(n.keys, n.args, o.tr)) && ArgsNodes(n.args) <= o.nodes - img.Keys
    {
      assert NodeOk(o, n) && ArgsFollow(o, img, n);
      forall d | d in ArgsNodes(n.args) ensures d !in img {
        if d in img { KeptChildren(o, img, stack, n, d); }
      }
    }
    forall n, k | n in o.nodes - img.Keys && k in n.args ensures ArgNodes(n.args[k]) <= ArgsNodes(n.args) {}
  }

  lemma {:induction false} ImagedMore(f: Tree -> Verdict, o: Orig, img: Images, b: Made, c: Node, v: Option<Node>,
      more: Made)
    requires Imaged(f, o, img, b) && c in o.tr && b.tr.Keys == b.nodes && more.tr.Keys == more.nodes
    requires b.nodes !! more.nodes
    requires c !in b.nodes + more.nodes
    requires match f(o.tr[c])
      case Keep => v == Some(c)
      case Drop => v == None
      case Put(u) => v.Some? && v.value in more.nodes && more.tr[v.value] == Fill(u, o.tr[c])
    ensures Imaged(f, o, img[c := v], Join(b, more))
  {
  }

  /** Keeping a node whose children are all unvisited changes nothing. */
  lemma {:induction false} KeptNodeFollows(o: Orig, img: Images, stack: seq<Node>, c: Node)
    requires IsTree(o) && Frontier(o, img, stack) && c in Elems(stack) && c in o.nodes && ArgsFollow(o, img, c)
    ensures ArgsFollow(o, img[c := Some(c)], c)
  {
    var img' := img[c := Some(c)];
    assert NodeOk(o, c);
    forall d | d in ArgsNodes(o.args[c]) ensures d !in img' {
      if d in img' { KeptChildren(o, img, stack, c, d); }
    }
    forall k | k in o.args[c] ensures ArgNodes(o.args[c][k]) !! img'.Keys {
      assert ArgNodes(o.args[c][k]) <= ArgsNodes(o.args[c]);
    }
    UntouchedArgs(o.args[c], o.keys[c], img');
  }

  lemma {:induction false} OthersFollow(o: Orig, img: Images, n: Node, c: Node)
    requires n in o.args && n in o.keys && n != c && c !in img && ArgsFollow(o, img, n)
    ensures ArgsFollow(o, img[c := Some(c)], n)
  {
    var img' := img[c := Some(c)];
    KeptMore(img, c, Some(c));
    forall k | k in o.args[n] ensures SameOn(ArgNodes(o.args[n][k]), img, img') {
      forall d | d in ArgNodes(o.args[n][k]) ensures MapItem(Sub(d), img) == MapItem(Sub(d), img') {}
    }
    SameArgs(o.args[n], o.keys[n], img, img');
  }

  lemma {:induction false} KeepFollows(o: Orig, img: Images, stack: seq<Node>, b: Made, c: Node)
    requires IsTree(o) && Frontier(o, img, stack) && Follows(o, img, b) && c in Elems(stack)
    ensures Follows(o, img[c := Some(c)], b)
  {
    hide NodeOk, ArgsFollow, MadeFollows, Frontier, Kept, Elems;
    Visiting(o, img, stack, c);
    forall n | n in o.nodes ensures ArgsFollow(o, img[c := Some(c)], n) {
      if n == c { KeptNodeFollows(o, img, stack, c); } else { OthersFollow(o, img, n, c); }
    }
    forall m | m in b.nodes ensures MadeFollows(o, img[c := Some(c)], b, m) {
      MadeStays(o, img, b, m, c);
    }
  }

  lemma {:induction false} MadeStays(o: Orig, img: Images, b: Made, m: Node, c: Node)
    requires m in b.tr && MadeFollows(o, img, b, m) && c !in img
    ensures MadeFollows(o, img[c := Some(c)], b, m)
  {
    KeptMore(img, c, Some(c));
    assert img[c := Some(c)].Keys - Kept(img[c := Some(c)]) == img.Keys - Kept(img);
  }

  lemma {:induction false} ReversedDistinct<T>(s: seq<T>)
    requires Distinct(s)
    ensures Distinct(Reversed(s)) && Elems(Reversed(s)) == Elems(s)
    decreases |s|
  {
    if s != [] {
      var rest := s[1..];
      assert forall i :: 0 <= i < |rest| ==> rest[i] == s[i + 1];
      ReversedDistinct(rest);
      assert s[0] !in rest;
      assert s == [s[0]] + rest;
      assert Elems(s) == {s[0]} + Elems(rest) && Elems([s[0]]) == {s[0]};
      DistinctConcat(Reversed(rest), [s[0]]);
    }
  }

  /** The node stays, and the walk goes on with its children. */
  lemma {:induction false} KeepStep(f: Tree -> Verdict, o: Orig, img: Images, rest: seq<Node>, b: Made, c: Node)
    requires Walking(f, o, img, rest + [c], b) && c in o.tr && f(o.tr[c]) == Keep
    ensures Walking(f, o, img[c := Some(c)], rest + Reversed(Kids(c.keys, c.args)), b)
  {
    assert c in Elems(rest + [c]) by { assert (rest + [c])[|rest|] == c; }
    StillLabelled(o, img, rest + [c], b, c);
    assert NodeOk(o, c);
    NodeKids(c.keys, c.args);
    ReversedDistinct(Kids(c.keys, c.args));
    hide NodeOk, Follows, Frontier, Linked, Kids, Reversed, Labelled, Elems;
    GoOn(o, img, rest, c, Reversed(Kids(c.keys, c.args)));
    KeepFollows(o, img, rest + [c], b, c);
    NotMade(o, img, b, c);
    ImagedMore(f, o, img, b, c, Some(c), NOTHING_MADE);
    JoinNothing(b);
  }

  lemma {:induction false} NotMade(o: Orig, img: Images, b: Made, c: Node)
    requires IsTree(o) && Follows(o, img, b) && c in o.nodes
    ensures c !in b.nodes && b.tr.Keys == b.nodes
  {
  }

  /** New trees have distinct argument names and hold the visited node at most once. */
  ghost predicate BuildableAnswers(f: Tree -> Verdict) {
    forall t :: f(t).Put? ==> WellKeyed(f(t).tree) && Holes(f(t).tree) <= 1
  }

  /** At the root nothing has to be set: no node of the tree holds it. */
  lemma {:induction false} RootFollows(o: Orig, v: Option<Node>, more: Made)
    requires IsTree(o) && Follows(o, map[], NOTHING_MADE) && v != Some(o.root)
    requires more.tr.Keys == more.nodes && more.nodes !! o.nodes
    requires forall m :: m in more.nodes ==> NewMade(o, more, o.root, m)
    ensures Follows(o, map[o.root := v], more)
  {
    var img: Images := map[];
    KeptMore(img, o.root, v);
    assert Join(NOTHING_MADE, more) == more;
    hide NodeOk, NewMade, MadeFollows, MapArgs, MapKeys, ArgsTree, KeysMatch, Join;
    forall n | n in o.nodes ensures ArgsFollow(o, img[o.root := v], n) {
      assert ArgsFollow(o, img, n);
    }
    forall m | m in more.nodes ensures MadeFollows(o, img[o.root := v], more, m) {
      NewMadeFollows(o, img, NOTHING_MADE, m, o.root, v, more);
    }
  }

  lemma {:induction false} RootNotHeld(o: Orig, n: Node)
    requires IsTree(o) && Follows(o, map[], NOTHING_MADE) && n in o.nodes
    ensures o.root !in ArgsNodes(n.args)
  {
    assert NodeOk(o, n) && ArgsFollow(o, map[], n);
  }

  method PutRoot(c: Node, u: Tree, ghost o: Orig) returns (r: Node, ghost more: Made)
    requires IsTree(o) && Follows(o, map[], NOTHING_MADE) && Linked(All(o, NOTHING_MADE)) && c == o.root
    requires WellKeyed(u) && Holes(u) <= 1
    modifies c`parent, c`argKey, c`index
    ensures fresh(more.nodes) && r in more.nodes && more.tr.Keys == more.nodes && more.tr[r] == Fill(u, o.tr[c])
    ensures Follows(o, map[c := Some(r)], more) && Linked(All(o, more))
  {
    hide NodeOk, ArgsFollow, KeysMatch, LinkableArgs, Fill, NewMade, MadeFollows, Good;
    r, more := BuildTree(u, c, o.tr[c]);
    forall n, l | n in All(o, more) && l in n.args
      ensures ArgNodes(n.args[l]) <= All(o, more) && ArgLinked(n.args[l], n, l)
    {
      if n in more.nodes {
        MadeArg(more, c, o.tr[c], n, l);
      } else {
        RootNotHeld(o, n);
        assert old(n in All(o, NOTHING_MADE) && ArgNodes(n.args[l]) <= o.nodes && ArgLinked(n.args[l], n, l));
        assert ArgNodes(n.args[l]) <= ArgsNodes(n.args);
      }
    }
    GoodIsNew(o, more, c);
    RootFollows(o, Some(r), more);
  }

  /** A visit to `c`, the last node of the stack, at its start. */
  ghost predicate Visits(f: Tree -> Verdict, o: Orig, img: Images, rest: seq<Node>, b: Made, c: Node)
    reads o.nodes, b.nodes
  {
    && Walking(f, o, img, rest + [c], b) && c in o.nodes && c !in img && c in o.tr
    && (c == o.root ==> img == map[] && b == NOTHING_MADE)
  }

  lemma {:induction false} StopStep(f: Tree -> Verdict, o: Orig, img: Images, rest: seq<Node>, b: Made, c: Node,
      v: Option<Node>, more: Made)
    requires IsTree(o) && Frontier(o, img, rest + [c]) && Imaged(f, o, img, b) && c in o.tr && c in o.nodes
    requires v != Some(c)
    requires b.tr.Keys == b.nodes && more.tr.Keys == more.nodes && b.nodes !! o.nodes && more.nodes !! o.nodes + b.nodes
    requires match f(o.tr[c])
      case Keep => false
      case Drop => v == None
      case Put(u) => v.Some? && v.value in more.nodes && more.tr[v.value] == Fill(u, o.tr[c])
    ensures Frontier(o, img[c := v], rest) && Imaged(f, o, img[c := v], Join(b, more))
  {
    hide Frontier, Imaged, IsTree, Fill;
    StopHere(o, img, rest, c, v);
    ImagedMore(f, o, img, b, c, v, more);
  }

  lemma {:induction false} TopIsIn(rest: seq<Node>, c: Node)
    ensures c in Elems(rest + [c])
  {
    assert (rest + [c])[|rest|] == c;
  }

  lemma {:induction false} RootDroppable(o: Orig)
    requires IsTree(o)
    ensures !Undroppable(o, o.root)
  {
    forall p | p in o.args ensures !AtomBehind(o.args[p], o.root) {
      assert NodeOk(o, p);
      if AtomBehind(o.args[p], o.root) { BehindIn(o.args[p], o.root); }
    }
  }

  method VisitDropped(c: Node, isRoot: bool, f: Tree -> Verdict, ghost rest: seq<Node>, ghost o: Orig,
      ghost img: Images, ghost b: Made)
    returns (ok: bool)
    requires Visits(f, o, img, rest, b, c) && (isRoot <==> c == o.root) && f(o.tr[c]) == Drop
    modifies All(o, b)
    ensures ok == !Undroppable(o, c)
    ensures ok ==> Walking(f, o, img[c := None], rest, b)
  {
    hide IsTree, Frontier, Imaged, Linked, ArgsFollow, MadeFollows, Join, Elems, StandsAt, Kept, Undroppable;
    TopIsIn(rest, c);
    NotMade(o, img, b, c);
    JoinNothing(b);
    if isRoot {
      RootFollows(o, None, NOTHING_MADE);
      RootDroppable(o);
      ok := true;
    } else {
      Locate(o, img, b, rest + [c], c);
      ok := DropNode(c, c.parent, c.argKey.value, c.index, o, img, b, rest + [c]);
    }
    StopStep(f, o, img, rest, b, c, None, NOTHING_MADE);
  }

  method VisitReplaced(c: Node, isRoot: bool, u: Tree, f: Tree -> Verdict, ghost rest: seq<Node>, ghost o: Orig,
      ghost img: Images, ghost b: Made)
    returns (r: Node, ghost more: Made)
    requires Visits(f, o, img, rest, b, c) && (isRoot <==> c == o.root) && f(o.tr[c]) == Put(u) && WellKeyed(u)
    requires Holes(u) <= 1
    modifies All(o, b)
    ensures fresh(more.nodes) && r in more.nodes && Walking(f, o, img[c := Some(r)], rest, Join(b, more))
  {
    hide IsTree, Frontier, Imaged, Linked, ArgsFollow, MadeFollows, Elems, StandsAt, Kept, Fill;
    TopIsIn(rest, c);
    NotMade(o, img, b, c);
    if isRoot {
      r, more := PutRoot(c, u, o);
      assert Join(b, more) == more;
    } else {
      Locate(o, img, b, rest + [c], c);
      r, more := PutNode(c, c.parent, c.argKey.value, c.index, u, o, img, b, rest + [c]);
    }
    StopStep(f, o, img, rest, b, c, Some(r), more);
  }

  lemma {:induction false} KidsOf(o: Orig, c: Node)
    requires IsTree(o) && c in o.nodes && c.args == o.args[c] && c.keys == o.keys[c]
    ensures Elems(Reversed(Kids(c.keys, c.args))) == ArgsNodes(o.args[c])
  {
    assert NodeOk(o, c);
    NodeKids(c.keys, c.args);
    ReversedDistinct(Kids(c.keys, c.args));
  }

  /** Does the walk end with an exception at the child `d` of a node with these arguments, or below? */
  ghost predicate ChildTroubled(f: Tree -> Verdict, args: map<Key, Arg>, tr: map<Node, Tree>, d: Node) {
    d in tr && (TransformRaises(f, tr[d]) || (f(tr[d]) == Drop && AtomBehind(args, d)))
  }

  lemma {:induction false} BehindInList(args: map<Key, Arg>, k: Key, j: nat, d: Node)
    requires LinkableArgs(args) && k in args && args[k].Many? && j < |args[k].items| && args[k].items[j] == Sub(d)
    ensures AtomBehind(args, d) <==> HasAtom(args[k].items[j + 1..])
  {
    assert d in ArgNodes(args[k]);
    if AtomBehind(args, d) {
      var l, i :| l in args && args[l].Many? && 0 <= i < |args[l].items| && args[l].items[i] == Sub(d) &&
        HasAtom(args[l].items[i + 1..]);
      assert d in ArgNodes(args[l]);
      assert l == k;
      assert i == j;
    }
  }

  lemma {:induction false} NotBehindOne(args: map<Key, Arg>, k: Key, d: Node)
    requires LinkableArgs(args) && k in args && args[k] == One(Sub(d))
    ensures !AtomBehind(args, d)
  {
    assert d in ArgNodes(args[k]);
  }

  lemma {:induction false} AtomsByLabels(xs: seq<Item>, tr: map<Node, Tree>, j: nat)
    requires ItemNodes(xs) <= tr.Keys && j < |xs|
    ensures var ts := ItemsTree(xs, tr);
      |ts| == |xs| && (HasAtom(xs[j + 1..]) <==> exists i :: j < i < |ts| && !ts[i].TSub?)
  {
    var ts := ItemsTree(xs, tr);
    ItemsTreeAt(xs, tr);
    forall i | 0 <= i < |xs| ensures xs[i].Sub? <==> ts[i].TSub? {
      assert xs[i].Sub? ==> xs[i].node in ItemNodes(xs);
    }
    if HasAtom(xs[j + 1..]) {
      var i :| 0 <= i < |xs[j + 1..]| && xs[j + 1..][i].Atom?;
      assert !ts[i + j + 1].TSub?;
    }
    if exists i :: j < i < |ts| && !ts[i].TSub? {
      var i :| j < i < |ts| && !ts[i].TSub?;
      assert xs[j + 1..][i - j - 1] == xs[i];
    }
  }

  lemma {:induction false} ArgTrouble(f: Tree -> Verdict, args: map<Key, Arg>, k: Key, tr: map<Node, Tree>)
    requires LinkableArgs(args) && k in args && ArgNodes(args[k]) <= tr.Keys
    ensures TransformArgRaises(f, ArgTree(args[k], tr)) <==>
              exists d :: d in ArgNodes(args[k]) && ChildTroubled(f, args, tr, d)
  {
    hide TransformRaises;
    match args[k] {
      case One(x) =>
        if x.Sub? {
          NotBehindOne(args, k, x.node);
          assert ChildTroubled(f, args, tr, x.node) <==> TransformRaises(f, tr[x.node]);
        }
      case Many(xs) => ListTrouble(f, args, k, xs, tr);
    }
  }

  lemma {:induction false} ListTrouble(f: Tree -> Verdict, args: map<Key, Arg>, k: Key, xs: seq<Item>,
      tr: map<Node, Tree>)
    requires LinkableArgs(args) && k in args && args[k] == Many(xs) && ItemNodes(xs) <= tr.Keys
    ensures TransformArgRaises(f, TMany(ItemsTree(xs, tr))) <==>
              exists d :: d in ItemNodes(xs) && ChildTroubled(f, args, tr, d)
  {
    hide TransformRaises, LinkableArgs, ChildTroubled, AtomBehind, HasAtom;
    var ts := ItemsTree(xs, tr);
    ItemsTreeAt(xs, tr);
    forall j | 0 <= j < |xs|
      ensures xs[j].Sub? <==> ts[j].TSub?
      ensures xs[j].Sub? ==> (ChildTroubled(f, args, tr, xs[j].node) <==> ItemTroubled(f, ts, j))
    {
      if xs[j].Sub? {
        assert xs[j].node in ItemNodes(xs);
        ItemTrouble(f, args, k, xs, j, tr);
      }
    }
    if TransformArgRaises(f, TMany(ts)) {
      var j :| 0 <= j < |ts| && ts[j].TSub? && ItemTroubled(f, ts, j);
      assert xs[j].node in ItemNodes(xs);
    }
    if exists d :: d in ItemNodes(xs) && ChildTroubled(f, args, tr, d) {
      var d :| d in ItemNodes(xs) && ChildTroubled(f, args, tr, d);
      var j :| 0 <= j < |xs| && xs[j] == Sub(d);
      assert ItemTroubled(f, ts, j);
    }
  }

  ghost predicate ItemTroubled(f: Tree -> Verdict, ts: seq<TItem>, j: nat)
    requires j < |ts|
  {
    && ts[j].TSub?
    && (TransformRaises(f, ts[j].tree) || (f(ts[j].tree) == Drop && exists i :: j < i < |ts| && !ts[i].TSub?))
  }

  lemma {:induction false} ItemTrouble(f: Tree -> Verdict, args: map<Key, Arg>, k: Key, xs: seq<Item>, j: nat,
      tr: map<Node, Tree>)
    requires LinkableArgs(args) && k in args && args[k] == Many(xs) && ItemNodes(xs) <= tr.Keys
    requires j < |xs| && xs[j].Sub? && xs[j].node in tr
    ensures |ItemsTree(xs, tr)| == |xs|
    ensures ChildTroubled(f, args, tr, xs[j].node) <==> ItemTroubled(f, ItemsTree(xs, tr), j)
  {
    hide TransformRaises, LinkableArgs, AtomBehind, HasAtom;
    ItemsTreeAt(xs, tr);
    BehindInList(args, k, j, xs[j].node);
    AtomsByLabels(xs, tr, j);
  }

  lemma {:induction false} ArgsTrouble(f: Tree -> Verdict, keys: seq<Key>, args: map<Key, Arg>, tr: map<Node, Tree>,
      t: Tree)
    requires KeysMatch(args, keys) && LinkableArgs(args) && ArgsNodes(args) <= tr.Keys
    requires f(t) == Keep && t.args == ArgsTree(keys, args, tr)
    ensures TransformRaises(f, t) <==> exists d :: d in ArgsNodes(args) && ChildTroubled(f, args, tr, d)
  {
    hide TransformArgRaises, LinkableArgs, ChildTroubled, KeysMatch;
    var es := ArgsTree(keys, args, tr);
    KeysAreIn(args, keys);
    ArgsTreeIn(keys, args, tr);
    forall k | k in args
      ensures TransformArgRaises(f, ArgTree(args[k], tr)) <==>
                exists d :: d in ArgNodes(args[k]) && ChildTroubled(f, args, tr, d)
    {
      assert ArgNodes(args[k]) <= ArgsNodes(args);
      ArgTrouble(f, args, k, tr);
    }
    if TransformRaises(f, t) {
      var i :| 0 <= i < |es| && TransformArgRaises(f, es[i].arg);
      assert es[i] in es;
      var d :| d in ArgNodes(args[es[i].key]) && ChildTroubled(f, args, tr, d);
      assert d in ArgsNodes(args);
    }
    if exists d :: d in ArgsNodes(args) && ChildTroubled(f, args, tr, d) {
      var d :| d in ArgsNodes(args) && ChildTroubled(f, args, tr, d);
      var k :| k in args && d in ArgNodes(args[k]);
      assert Entry(k, ArgTree(args[k], tr)) in es;
      var i :| 0 <= i < |es| && es[i] == Entry(k, ArgTree(args[k], tr));
    }
  }

  lemma {:induction false} KeysAreIn(args: map<Key, Arg>, keys: seq<Key>)
    requires KeysMatch(args, keys)
    ensures forall k :: k in keys <==> k in args
  {
  }

  /** A kept node is troubled exactly if one of its children is. */
  lemma {:induction false} KeepTrouble(f: Tree -> Verdict, o: Orig, c: Node, kids: seq<Node>)
    requires IsTree(o) && c in o.nodes && c in o.tr && f(o.tr[c]) == Keep && Elems(kids) == ArgsNodes(o.args[c])
    ensures Troubled(f, o, c) <==> TroubleAhead(f, o, kids)
  {
    hide TransformRaises, AtomBehind, KeysMatch, LinkableArgs;
    assert NodeOk(o, c);
    ArgsTrouble(f, o.keys[c], o.args[c], o.tr, o.tr[c]);
    forall d | d in ArgsNodes(o.args[c]) ensures ChildTroubled(f, o.args[c], o.tr, d) <==> Troubled(f, o, d) {
      OnlyHolder(o, c, d);
    }
    assert forall d :: d in kids <==> d in Elems(kids);
  }

  lemma {:induction false} OnlyHolder(o: Orig, c: Node, d: Node)
    requires IsTree(o) && c in o.nodes && d in ArgsNodes(o.args[c])
    ensures Undroppable(o, d) <==> AtomBehind(o.args[c], d)
  {
    hide AtomBehind;
    forall p | p in o.args && AtomBehind(o.args[p], d) ensures p == c {
      BehindIn(o.args[p], d);
    }
  }

  lemma {:induction false} TroubleIn(f: Tree -> Verdict, o: Orig, rest: seq<Node>, more: seq<Node>)
    ensures TroubleAhead(f, o, rest + more) <==> TroubleAhead(f, o, rest) || TroubleAhead(f, o, more)
  {
    assert forall c :: c in rest + more <==> c in rest || c in more;
  }

  lemma {:induction false} TroubleAt(f: Tree -> Verdict, o: Orig, c: Node)
    ensures TroubleAhead(f, o, [c]) <==> Troubled(f, o, c)
  {
    assert [c][0] == c;
  }

  lemma {:induction false} StopTrouble(f: Tree -> Verdict, o: Orig, c: Node)
    requires c in o.tr
    ensures !TroubleAhead(f, o, []) && (f(o.tr[c]).Put? ==> !Troubled(f, o, c))
    ensures f(o.tr[c]) == Drop ==> (Troubled(f, o, c) <==> Undroppable(o, c))
  {
  }

  /** One turn of the loop: the node is popped, `fun` answers, and the node's slot is set. */
  method Visit(c: Node, isRoot: bool, f: Tree -> Verdict, ghost rest: seq<Node>, ghost o: Orig, ghost img: Images,
      ghost b: Made)
    returns (ok: bool, v: Option<Node>, ghost more: Made, stack: seq<Node>)
    requires Visits(f, o, img, rest, b, c) && (isRoot <==> c == o.root) && BuildableAnswers(f)
    modifies All(o, b)
    ensures fresh(more.nodes) && (v.Some? ==> v.value in o.nodes + more.nodes)
    ensures ok ==> Walking(f, o, img[c := v], rest + stack, Join(b, more)) && (v != Some(c) ==> stack == [])
    ensures if ok then Troubled(f, o, c) <==> TroubleAhead(f, o, stack) else Troubled(f, o, c)
  {
    hide Troubled, TroubleAhead, Undroppable, TransformRaises, IsTree, Frontier, Imaged, Linked, Labelled, Fill, Kids,
      Reversed, TransformTree, ArgsFollow, MadeFollows, Join, Follows, WellKeyed, Holes;
    TopIsIn(rest, c);
    StillLabelled(o, img, rest + [c], b, c);
    var t := ReadTree(c, o.nodes - img.Keys, o.tr);
    ok, more, stack := true, NOTHING_MADE, [];
    assert rest + [] == rest;
    JoinNothing(b);
    StopTrouble(f, o, c);
    match f(t) {
      case Keep =>
        var kids := IterExpressions(c);
        KidsOf(o, c);
        KeepTrouble(f, o, c, Reversed(kids));
        KeepStep(f, o, img, rest, b, c);
        v, stack := Some(c), Reversed(kids);
      case Drop =>
        ok := VisitDropped(c, isRoot, f, rest, o, img, b);
        v := None;
      case Put(u) =>
        var r;
        r, more := VisitReplaced(c, isRoot, u, f, rest, o, img, b);
        v := Some(r);
    }
  }

  /** The nodes of `all` make up one tree under `root`, and `tr` says which. */
  ghost predicate TreeUnder(root: Node, all: set<Node>, tr: map<Node, Tree>)
    reads all
  {
    && root in all && Linked(all) && Labelled(all, tr)
    && forall n :: n in all ==> LinkableArgs(n.args) && root !in ArgsNodes(n.args) && "" !in n.args
  }

  ghost function Snapshot(root: Node, all: set<Node>, tr: map<Node, Tree>): Orig
    reads all
  {
    Orig(all, root, map n | n in all :: n.args, map n | n in all :: n.keys, tr)
  }

  lemma {:induction false} LinkedNodesApart(all: set<Node>, n: Node, m: Node)
    requires Linked(all) && n in all && m in all && n != m
    ensures ArgsNodes(n.args) !! ArgsNodes(m.args)
  {
    forall c | c in ArgsNodes(n.args) ensures c !in ArgsNodes(m.args) {
      if c in ArgsNodes(m.args) {
        var k :| k in n.args && c in ArgNodes(n.args[k]);
        var l :| l in m.args && c in ArgNodes(m.args[l]);
        ApartByLinks(n.args[k], n, k, m.args[l], m, l);
        assert false;
      }
    }
  }

  lemma {:induction false} SnapshotIsTree(root: Node, all: set<Node>, tr: map<Node, Tree>)
    requires TreeUnder(root, all, tr)
    ensures IsTree(Snapshot(root, all, tr))
  {
    var o := Snapshot(root, all, tr);
    forall n | n in all ensures NodeOk(o, n) {
      forall c | c in ArgsNodes(n.args) ensures c in all {
        var k :| k in n.args && c in ArgNodes(n.args[k]);
      }
    }
    forall n, m | n in all && m in all && n != m ensures ArgsNodes(o.args[n]) !! ArgsNodes(o.args[m]) {
      LinkedNodesApart(all, n, m);
    }
  }

  lemma {:induction false} WalkStarts(f: Tree -> Verdict, root: Node, all: set<Node>, tr: map<Node, Tree>)
    requires TreeUnder(root, all, tr)
    ensures var o := Snapshot(root, all, tr); Visits(f, o, map[], [], NOTHING_MADE, root)
  {
    var o, img: Images := Snapshot(root, all, tr), map[];
    SnapshotIsTree(root, all, tr);
    assert [] + [root] == [root] && Elems([root]) == {root};
    assert All(o, NOTHING_MADE) == all;
    forall n | n in all ensures ArgsFollow(o, img, n) {}
  }

  lemma {:induction false} TroubleStarts(f: Tree -> Verdict, root: Node, all: set<Node>, tr: map<Node, Tree>)
    requires TreeUnder(root, all, tr)
    ensures var o := Snapshot(root, all, tr); TransformRaises(f, tr[root]) <==> TroubleAhead(f, o, [root])
  {
    var o := Snapshot(root, all, tr);
    SnapshotIsTree(root, all, tr);
    RootDroppable(o);
    TroubleAt(f, o, root);
  }

  /** `transform` without copying. The walk's stack and the tree it changes are never out of step: the
      result is what the recursive specification makes of the tree. Without `ok` it has ended with an
      exception of `set`; None stands for the failed assertion when `fun` answers None for the root. */
  method Transform(root: Node, f: Tree -> Verdict, ghost all: set<Node>, ghost tr: map<Node, Tree>)
    returns (ok: bool, r: Option<Node>, ghost all': set<Node>, ghost tr': map<Node, Tree>)
    requires TreeUnder(root, all, tr) && BuildableAnswers(f)
    modifies all
    ensures ok == !TransformRaises(f, tr[root])
    ensures all <= all' && fresh(all' - all)
    ensures ok ==> Linked(all') && Labelled(all', tr')
    ensures ok ==>
              match r
              case None => TransformTree(f, tr[root]) == None
              case Some(n) => n in all' && TransformTree(f, tr[root]) == Some(tr'[n])
  {
    hide IsTree, Frontier, Imaged, Linked, Follows, TransformTree, BuildableAnswers, FinalLabels, Labelled,
      TransformRaises, Troubled, TroubleAhead;
    ghost var o := Snapshot(root, all, tr);
    ghost var img: Images, b := map[], NOTHING_MADE;
    WalkStarts(f, root, all, tr);
    TroubleStarts(f, root, all, tr);
    r := None;
    var stack := [root];
    assert [] + [root] == [root];
    while stack != []
      invariant Walking(f, o, img, stack, b) && fresh(b.nodes)
      invariant TransformRaises(f, tr[root]) <==> TroubleAhead(f, o, stack)
      invariant if root in img then r == img[root] && (r == None ==> stack == [])
                else r == None && img == map[] && b == NOTHING_MADE && stack == [root]
      decreases o.nodes - img.Keys
    {
      var node, rest := stack[|stack| - 1], stack[..|stack| - 1];
      assert stack == rest + [node];
      VisitStarts(f, o, img, rest, b, node, r == None);
      TroubleIn(f, o, rest, [node]);
      TroubleAt(f, o, node);
      ghost var left := o.nodes - img.Keys;
      var v, pushed;
      ghost var more;
      ok, v, more, pushed := Visit(node, r == None, f, rest, o, img, b);
      if !ok {
        return false, None, all, tr;
      }
      TroubleIn(f, o, rest, pushed);
      if r == None {
        r := v;
      }
      img, b, stack := img[node := v], Join(b, more), rest + pushed;
      assert node in left && o.nodes - img.Keys == left - {node};
    }
    NoTrouble(f, o);
    WalkIsOver(f, o, img, b);
    ok, all', tr' := true, All(o, b), FinalLabels(f, o, img, b);
  }

  lemma {:induction false} NoTrouble(f: Tree -> Verdict, o: Orig)
    ensures !TroubleAhead(f, o, [])
  {
  }

  lemma {:induction false} VisitStarts(f: Tree -> Verdict, o: Orig, img: Images, rest: seq<Node>, b: Made, c: Node,
      isRoot: bool)
    requires Walking(f, o, img, rest + [c], b)
    requires if isRoot then rest + [c] == [o.root] && img == map[] && b == NOTHING_MADE else o.root in img
    ensures Visits(f, o, img, rest, b, c) && (isRoot <==> c == o.root)
  {
    TopIsIn(rest, c);
    if isRoot { assert (rest + [c])[|rest|] == c; }
  }

  // ---- Transforming a copy ----

  lemma {:induction false} ItemsTreeAt(xs: seq<Item>, tr: map<Node, Tree>)
    ensures |ItemsTree(xs, tr)| == |xs| && forall i :: 0 <= i < |xs| ==> ItemsTree(xs, tr)[i] == ItemTree(xs[i], tr)
    decreases |xs|
  {
    if xs != [] { ItemsTreeAt(xs[1..], tr); }
  }

  lemma {:induction false} ArgsTreeIn(keys: seq<Key>, args: map<Key, Arg>, tr: map<Node, Tree>)
    requires forall k :: k in keys ==> k in args
    ensures forall e :: e in ArgsTree(keys, args, tr) <==> e.key in keys && e.arg == ArgTree(args[e.key], tr)
    decreases |keys|
  {
    if keys != [] { ArgsTreeIn(keys[1..], args, tr); }
  }

  lemma {:induction false} CopyIsTree(r: Node, of: map<Node, Node>, all: set<Node>, tr: map<Node, Tree>)
    requires r in of && r.parent == null && Linked(of.Keys) && Labelled(of.Keys, AstCopy.Labels(of, tr))
    requires AstCopy.CopyOf(of, all)
    requires forall n :: n in all ==> "" !in n.args
    ensures TreeUnder(r, of.Keys, AstCopy.Labels(of, tr))
  {
    forall m | m in of ensures LinkableArgs(m.args) && r !in ArgsNodes(m.args) && "" !in m.args {
      LinkedArgs(of.Keys, m);
      RootApart(of.Keys, m, r);
      assert AstCopy.Finished(m, of[m], of);
    }
  }

  lemma {:induction false} RootApart(all: set<Node>, n: Node, r: Node)
    requires Linked(all) && n in all && r.parent == null
    ensures r !in ArgsNodes(n.args)
  {
    forall k | k in n.args ensures r !in ArgNodes(n.args[k]) {
      assert ArgLinked(n.args[k], n, k);
    }
  }

  /** `transform` as it is by default: a copy is changed, and the original does not even need its links. */
  method TransformCopy(root: Node, f: Tree -> Verdict, ghost all: set<Node>, ghost tr: map<Node, Tree>)
    returns (ok: bool, r: Option<Node>, ghost all': set<Node>, ghost tr': map<Node, Tree>)
    requires Labelled(all, tr) && root in all && BuildableAnswers(f)
    requires forall n :: n in all ==> "" !in n.args
    ensures ok == !TransformRaises(f, tr[root])
    ensures fresh(all')
    ensures ok ==> Linked(all') && Labelled(all', tr')
    ensures ok ==>
              match r
              case None => TransformTree(f, tr[root]) == None
              case Some(n) => n in all' && TransformTree(f, tr[root]) == Some(tr'[n])
  {
    hide *;
    var c;
    ghost var of;
    c, of := AstCopy.DeepCopy(root, all, tr);
    CopyIsTree(c, of, all, tr);
    ok, r, all', tr' := Transform(c, f, of.Keys, AstCopy.Labels(of, tr));
  }
}
