/** The view that the tree diff has of an expression tree (sqlglot/diff.py; expressions.py, `bfs`). */
module DiffTree {
  import opened Collections
  import Ast

  type Id = int

  /** An argument that is not an expression: None, a value, or a list of values. */
  datatype Leaf = Missing | Single(value: Ast.Scalar) | Several(values: seq<Ast.Scalar>)

  /** Where a child stands: the argument that holds it, and whether that is a list. */
  datatype Slot = Slot(key: string, list: bool)

  /** `leaves` are the arguments that are not expressions, `children` what `iter_expressions` yields. */
  datatype Tree = Tree(id: Id, kind: string, slot: Slot, leaves: map<string, Leaf>, children: seq<Tree>)

  const IGNORED: set<string> := {"Identifier"}

  /** The updatable types and, in the second line, the subclasses of two of them */
  const UPDATABLE: set<string> :=
    {"Alias", "Boolean", "Column", "DataType", "Lambda", "Literal", "Table", "Window"} +
    {"PivotAlias", "IntervalSpan", "PseudoType", "ObjectIdentifier"}

  predicate Ignored(t: Tree) { t.kind in IGNORED }

  ghost function Nodes(t: Tree): set<Tree>
    decreases t, 1
  {
    {t} + NodesOf(t.children)
  }

  ghost function NodesOf(ts: seq<Tree>): set<Tree>
    decreases ts, 0
  {
    if ts == [] then {} else Nodes(ts[0]) + NodesOf(ts[1..])
  }

  lemma {:induction false} NodesOfConcat(s: seq<Tree>, t: seq<Tree>)
    ensures NodesOf(s + t) == NodesOf(s) + NodesOf(t)
    decreases |s|
  {
    if s == [] {
      assert s + t == t;
    } else {
      assert (s + t)[1..] == s[1..] + t;
      NodesOfConcat(s[1..], t);
    }
  }

  lemma {:induction false} ChildInNodesOf(ts: seq<Tree>, k: nat)
    requires k < |ts|
    ensures Nodes(ts[k]) <= NodesOf(ts)
    decreases |ts|
  {
    if k > 0 { ChildInNodesOf(ts[1..], k - 1); }
  }

  /** Nodes below a node of the tree are nodes of the tree. */
  lemma {:induction false} NodesBelow(t: Tree, n: Tree)
    requires n in Nodes(t)
    ensures Nodes(n) <= Nodes(t)
    decreases t, 1
  {
    if n != t { NodesBelowOf(t.children, n); }
  }

  lemma {:induction false} NodesBelowOf(ts: seq<Tree>, n: Tree)
    requires n in NodesOf(ts)
    ensures Nodes(n) <= NodesOf(ts)
    decreases ts, 0
  {
    if n in Nodes(ts[0]) { NodesBelow(ts[0], n); } else { NodesBelowOf(ts[1..], n); }
  }

  /** An identity stands for one node, and no node holds the same child twice. */
  ghost predicate Unshared(t: Tree) {
    && (forall x, y :: x in Nodes(t) && y in Nodes(t) && x.id == y.id ==> x == y)
    && (forall x :: x in Nodes(t) ==> forall i, j :: 0 <= i < j < |x.children| ==> x.children[i].id != x.children[j].id)
  }

  ghost function Size(t: Tree): nat
    decreases t, 1
  {
    1 + SizeOf(t.children)
  }

  ghost function SizeOf(ts: seq<Tree>): nat
    decreases ts, 0
  {
    if ts == [] then 0 else Size(ts[0]) + SizeOf(ts[1..])
  }

  lemma {:induction false} SizeOfConcat(s: seq<Tree>, t: seq<Tree>)
    ensures SizeOf(s + t) == SizeOf(s) + SizeOf(t)
    decreases |s|
  {
    if s == [] {
      assert s + t == t;
    } else {
      assert (s + t)[1..] == s[1..] + t;
      SizeOfConcat(s[1..], t);
    }
  }

  lemma {:induction false} QueueShrinks(q: seq<Tree>)
    requires q != []
    ensures SizeOf(q[1..] + q[0].children) < SizeOf(q)
  {
    SizeOfConcat(q[1..], q[0].children);
    assert Size(q[0]) == 1 + SizeOf(q[0].children);
  }

  /** The nodes in breadth-first order, from a queue. */
  ghost function Walk(q: seq<Tree>): seq<Tree>
    decreases SizeOf(q)
  {
    if q == [] then [] else
      QueueShrinks(q);
      [q[0]] + Walk(q[1..] + q[0].children)
  }

  lemma {:induction false} WalkMeets(q: seq<Tree>)
    ensures Elems(Walk(q)) == NodesOf(q)
    decreases SizeOf(q)
  {
    if q != [] {
      QueueShrinks(q);
      NodesOfConcat(q[1..], q[0].children);
      WalkMeets(q[1..] + q[0].children);
      assert forall n :: n in Walk(q) <==> n == q[0] || n in Elems(Walk(q[1..] + q[0].children));
    }
  }

  ghost function AllChildren(q: seq<Tree>): seq<Tree> {
    if q == [] then [] else q[0].children + AllChildren(q[1..])
  }

  /** The walk meets the nodes of the queue, then their children, and so on, level by level. */
  lemma {:induction false} WalkByLevels(q: seq<Tree>)
    ensures Walk(q) == q + Walk(AllChildren(q))
  {
    assert q + [] == q && [] + AllChildren(q) == AllChildren(q);
    WalkPast(q, []);
  }

  lemma {:induction false} WalkPast(p: seq<Tree>, r: seq<Tree>)
    ensures Walk(p + r) == p + Walk(r + AllChildren(p))
    decreases |p|
  {
    if p == [] {
      assert p + r == r && r + [] == r;
    } else {
      var q, kids := p + r, p[0].children;
      assert q[1..] == p[1..] + r && q[1..] + kids == p[1..] + (r + kids);
      WalkPast(p[1..], r + kids);
      assert r + kids + AllChildren(p[1..]) == r + AllChildren(p);
      assert p == [p[0]] + p[1..];
    }
  }

  method Bfs(root: Tree) returns (order: seq<Tree>)
    ensures order == Walk([root]) && Elems(order) == Nodes(root)
  {
    order := [];
    var queue := [root];
    WalkMeets(queue);
    assert NodesOf(queue) == Nodes(root);
    assert [] + Walk(queue) == Walk(queue);
    while queue != []
      invariant order + Walk(queue) == Walk([root])
      decreases SizeOf(queue)
    {
      var node := queue[0];
      QueueShrinks(queue);
      assert order + Walk(queue) == order + [node] + Walk(queue[1..] + node.children);
      order := order + [node];
      queue := queue[1..] + node.children;
    }
    assert order + [] == order;
  }

  /** `{id(n): n for n in root.bfs() if not ignored}` */
  ghost predicate IsIndex(index: map<Id, Tree>, root: Tree) {
    && (forall i :: i in index ==> index[i].id == i && index[i] in Nodes(root) && !Ignored(index[i]))
    && (forall n :: n in Nodes(root) && !Ignored(n) ==> n.id in index && index[n.id] == n)
  }

  method IndexOf(root: Tree) returns (index: map<Id, Tree>)
    requires Unshared(root)
    ensures IsIndex(index, root)
  {
    var order := Bfs(root);
    index := map[];
    for k := 0 to |order|
      invariant forall i :: i in index ==> index[i].id == i && index[i] in Nodes(root) && !Ignored(index[i])
      invariant forall l :: 0 <= l < k && !Ignored(order[l]) ==> order[l].id in index && index[order[l].id] == order[l]
    {
      assert order[k] in Elems(order);
      if !Ignored(order[k]) {
        index := index[order[k].id := order[k]];
      }
    }
    forall n | n in Nodes(root) && !Ignored(n) ensures n.id in index && index[n.id] == n {
      assert n in Elems(order);
    }
  }

  /** Identities in `keep`, in the order in which they first occur. */
  function IdsIn(order: seq<Tree>, keep: set<Id>): seq<Id> {
    if order == [] then []
    else
      var n := |order| - 1;
      var ids, i := IdsIn(order[..n], keep), order[n].id;
      if i in keep && i !in ids then ids + [i] else ids
  }

  /** `order` comes to an element `i` before it first comes to `j`. */
  ghost predicate Before(order: seq<Tree>, i: Id, j: Id) {
    exists p :: 0 <= p < |order| && order[p].id == i && forall r :: 0 <= r <= p ==> order[r].id != j
  }

  lemma {:induction false} IdsInOrder(order: seq<Tree>, keep: set<Id>)
    ensures Distinct(IdsIn(order, keep))
    ensures forall i :: i in IdsIn(order, keep) <==> i in keep && exists n :: n in order && n.id == i
    ensures forall k, l :: 0 <= k < l < |IdsIn(order, keep)| ==>
              Before(order, IdsIn(order, keep)[k], IdsIn(order, keep)[l])
    decreases |order|
  {
    if order != [] {
      var n := |order| - 1;
      var some, ids, last := IdsIn(order[..n], keep), IdsIn(order, keep), order[n];
      IdsInOrder(order[..n], keep);
      assert order == order[..n] + [last];
      assert forall x :: x in order <==> x in order[..n] || x == last;
      forall k, l | 0 <= k < l < |ids| ensures Before(order, ids[k], ids[l]) {
        FirstBefore(order, keep, k, l);
      }
    }
  }

  lemma {:induction false} FirstBefore(order: seq<Tree>, keep: set<Id>, k: nat, l: nat)
    requires order != [] && k < l < |IdsIn(order, keep)|
    requires var some := IdsIn(order[..|order| - 1], keep);
      && (forall i :: i in some <==> i in keep && exists n :: n in order[..|order| - 1] && n.id == i)
      && (l < |some| ==> Before(order[..|order| - 1], some[k], some[l]))
    ensures Before(order, IdsIn(order, keep)[k], IdsIn(order, keep)[l])
  {
    var n := |order| - 1;
    var some, ids := IdsIn(order[..n], keep), IdsIn(order, keep);
    if l < |some| {
      var p :| 0 <= p < n && order[..n][p].id == some[k] && forall r :: 0 <= r <= p ==> order[..n][r].id != some[l];
      assert order[p].id == ids[k] && forall r :: 0 <= r <= p ==> order[r] == order[..n][r];
    } else {
      assert some[k] in some && ids[l] == order[n].id && ids[l] !in some && ids[l] in keep;
      var x :| x in order[..n] && x.id == some[k];
      var p :| 0 <= p < n && order[..n][p] == x;
      forall r | 0 <= r <= p ensures order[r].id != ids[l] {
        assert order[..n][r] in order[..n];
      }
      assert order[p].id == ids[k];
    }
  }

  /** `{id(n): None for n in root.bfs() if id(n) in keep}` */
  method OrderedIds(root: Tree, keep: set<Id>) returns (ids: seq<Id>)
    requires keep <= (set n | n in Nodes(root) :: n.id)
    ensures ids == IdsIn(Walk([root]), keep) && Elems(ids) == keep && Distinct(ids)
  {
    var order := Bfs(root);
    ids := [];
    for k := 0 to |order|
      invariant ids == IdsIn(order[..k], keep)
    {
      assert order[..k + 1][..k] == order[..k];
      if order[k].id in keep && order[k].id !in ids {
        ids := ids + [order[k].id];
      }
    }
    assert order[..|order|] == order;
    IdsInOrder(order, keep);
    assert forall i :: i in ids ==> i in keep;
    forall i | i in keep ensures i in ids {
      var n :| n in Nodes(root) && n.id == i;
      assert n in Elems(order);
    }
  }

  /** `_get_expression_leaves` */
  function Leaves(t: Tree): seq<Tree>
    decreases t, 1
  {
    if (forall c :: c in t.children ==> Ignored(c)) then [t] else LeavesOf(t.children)
  }

  function LeavesOf(ts: seq<Tree>): seq<Tree>
    decreases ts, 0
  {
    if ts == [] then []
    else (if Ignored(ts[0]) then [] else Leaves(ts[0])) + LeavesOf(ts[1..])
  }

  lemma {:induction false} LeavesAreNodes(t: Tree)
    ensures forall l :: l in Leaves(t) ==> l in Nodes(t)
    ensures !Ignored(t) ==> forall l :: l in Leaves(t) ==> !Ignored(l)
    decreases t, 1
  {
    if exists c :: c in t.children && !Ignored(c) { LeavesOfAreNodes(t.children); }
  }

  lemma {:induction false} LeavesOfAreNodes(ts: seq<Tree>)
    ensures forall l :: l in LeavesOf(ts) ==> l in NodesOf(ts) && !Ignored(l)
    decreases ts, 0
  {
    if ts != [] {
      LeavesAreNodes(ts[0]);
      LeavesOfAreNodes(ts[1..]);
    }
  }

  /** No child takes part in the diff. */
  predicate Childless(t: Tree) { forall c :: c in t.children ==> Ignored(c) }

  /** `n` is `t`, or a node below it, with no ignored node on the way. */
  ghost predicate Under(t: Tree, n: Tree)
    decreases t
  {
    n == t || exists c :: c in t.children && !Ignored(c) && Under(c, n)
  }

  /** A node, then what is under its children, from left to right. */
  ghost function Preorder(t: Tree): seq<Tree>
    decreases t, 1
  {
    [t] + PreorderOf(t.children)
  }

  ghost function PreorderOf(ts: seq<Tree>): seq<Tree>
    decreases ts, 0
  {
    if ts == [] then [] else (if Ignored(ts[0]) then [] else Preorder(ts[0])) + PreorderOf(ts[1..])
  }

  ghost function ChildlessOf(ts: seq<Tree>): seq<Tree> {
    if ts == [] then [] else (if Childless(ts[0]) then [ts[0]] else []) + ChildlessOf(ts[1..])
  }

  lemma {:induction false} ChildlessConcat(ts: seq<Tree>, us: seq<Tree>)
    ensures ChildlessOf(ts + us) == ChildlessOf(ts) + ChildlessOf(us)
    decreases |ts|
  {
    if ts == [] {
      assert ts + us == us;
    } else {
      hide Childless;
      assert (ts + us)[1..] == ts[1..] + us;
      ChildlessConcat(ts[1..], us);
    }
  }

  /** The leaves are the nodes without children in the diff, in the order in which they stand in the tree. */
  lemma {:induction false} LeavesInPreorder(t: Tree)
    ensures Leaves(t) == ChildlessOf(Preorder(t))
    decreases t, 1
  {
    var below := PreorderOf(t.children);
    assert ([t] + below)[1..] == below;
    if Childless(t) {
      NothingBelow(t.children);
      assert ChildlessOf([t] + below) == [t] + ChildlessOf([]);
    } else {
      LeavesOfInPreorder(t.children);
      assert ChildlessOf([t] + below) == [] + ChildlessOf(below);
    }
  }

  lemma {:induction false} NothingBelow(ts: seq<Tree>)
    requires forall c :: c in ts ==> Ignored(c)
    ensures PreorderOf(ts) == []
    decreases |ts|
  {
    if ts != [] {
      assert ts[0] in ts;
      NothingBelow(ts[1..]);
    }
  }

  lemma {:induction false} LeavesOfInPreorder(ts: seq<Tree>)
    ensures LeavesOf(ts) == ChildlessOf(PreorderOf(ts))
    decreases ts, 0
  {
    if ts != [] {
      hide Leaves, Childless;
      LeavesOfInPreorder(ts[1..]);
      if !Ignored(ts[0]) {
        LeavesInPreorder(ts[0]);
        ChildlessConcat(Preorder(ts[0]), PreorderOf(ts[1..]));
      } else {
        assert PreorderOf(ts) == PreorderOf(ts[1..]) && LeavesOf(ts) == LeavesOf(ts[1..]);
      }
    }
  }

  /** Exactly the nodes without children in the diff that are reached without passing an ignored node. */
  lemma {:induction false} LeavesIff(t: Tree, n: Tree)
    ensures n in Leaves(t) <==> Under(t, n) && Childless(n)
    decreases t, 1
  {
    if !Childless(t) {
      LeavesOfIff(t.children, n);
    }
  }

  lemma {:induction false} LeavesOfIff(ts: seq<Tree>, n: Tree)
    ensures n in LeavesOf(ts) <==> Childless(n) && exists c :: c in ts && !Ignored(c) && Under(c, n)
    decreases ts, 0
  {
    if ts != [] {
      hide Leaves, Under, Childless;
      LeavesOfIff(ts[1..], n);
      if !Ignored(ts[0]) { LeavesIff(ts[0], n); }
      assert forall c :: c in ts <==> c == ts[0] || c in ts[1..];
    }
  }

  lemma {:induction false} LeavesExist(t: Tree)
    ensures Leaves(t) != []
    decreases t, 1
  {
    if !Childless(t) {
      var c :| c in t.children && !Ignored(c);
      LeavesExistOf(t.children, c);
    }
  }

  lemma {:induction false} LeavesExistOf(ts: seq<Tree>, c: Tree)
    requires c in ts && !Ignored(c)
    ensures LeavesOf(ts) != []
    decreases ts, 0
  {
    if ts[0] == c { LeavesExist(c); } else { LeavesExistOf(ts[1..], c); }
  }

  // ---- Equality ----

  /** `_norm_arg` */
  function Normal(v: Ast.Scalar): Ast.Scalar {
    if v.Str? then Ast.Str(Lower(v.text)) else v
  }

  function NormalLeaf(l: Leaf): Leaf {
    match l
    case Missing => l
    case Single(v) => Single(Normal(v))
    case Several(vs) => Several(seq(|vs|, i requires 0 <= i < |vs| => Normal(vs[i])))
  }

  function LeafAt(leaves: map<string, Leaf>, k: string): Leaf {
    if k in leaves then leaves[k] else Missing
  }

  /** These kinds are compared by two of their arguments, as they are. */
  const EXACT: set<string> := {"Identifier", "Literal"}

  /** `bool` */
  function Truthy(l: Leaf): bool {
    match l
    case Missing => false
    case Single(Str(text)) => text != ""
    case Single(Number(n)) => n != 0
    case Single(Flag(on)) => on
    case Several(vs) => vs != []
  }

  /** None, False and empty lists do not count. */
  predicate Counts(l: Leaf) { l !in {Missing, Single(Ast.Flag(false)), Several([])} }

  /** `hashable_args`, as far as they are not expressions */
  function HashableLeaves(t: Tree): map<string, Leaf> {
    if t.kind == "Identifier" then
      map["this" := LeafAt(t.leaves, "this"), "quoted" := Single(Ast.Flag(Truthy(LeafAt(t.leaves, "quoted"))))]
    else if t.kind == "Literal" then
      map["this" := LeafAt(t.leaves, "this"), "is_string" := LeafAt(t.leaves, "is_string")]
    else
      map k | k in t.leaves && Counts(t.leaves[k]) :: NormalLeaf(t.leaves[k])
  }

  predicate AlikeValue(v: Ast.Scalar, w: Ast.Scalar) {
    v == w || (v.Str? && w.Str? && SameText(v.text, w.text))
  }

  /** Both are None, False, an empty list or missing, or they are the same text, value or list up to case. */
  predicate Alike(l: Leaf, m: Leaf) {
    if !Counts(l) || !Counts(m) then !Counts(l) && !Counts(m)
    else if l.Single? then m.Single? && AlikeValue(l.value, m.value)
    else
      m.Several? && |l.values| == |m.values| && forall i :: 0 <= i < |l.values| ==> AlikeValue(l.values[i], m.values[i])
  }

  lemma {:induction false} NormalIffAlike(v: Ast.Scalar, w: Ast.Scalar)
    ensures Normal(v) == Normal(w) <==> AlikeValue(v, w)
  {
    if v.Str? && w.Str? { LowerIff(v.text, w.text); }
  }

  lemma {:induction false} AlikeIff(l: Leaf, m: Leaf)
    ensures Alike(l, m) <==> if Counts(l) && Counts(m) then NormalLeaf(l) == NormalLeaf(m) else Counts(l) == Counts(m)
  {
    hide AlikeValue, Normal;
    if l.Single? && m.Single? { NormalIffAlike(l.value, m.value); }
    if l.Several? && m.Several? && |l.values| == |m.values| {
      forall i | 0 <= i < |l.values|
        ensures NormalLeaf(l).values[i] == NormalLeaf(m).values[i] <==> AlikeValue(l.values[i], m.values[i])
      {
        NormalIffAlike(l.values[i], m.values[i]);
      }
    }
  }

  /** The arguments that equality does not tell apart. */
  lemma {:induction false} EqualLeaves(t: Tree, u: Tree)
    requires t.kind == u.kind && t.kind !in EXACT
    ensures HashableLeaves(t) == HashableLeaves(u) <==> forall k :: Alike(LeafAt(t.leaves, k), LeafAt(u.leaves, k))
  {
    hide Alike, NormalLeaf;
    forall k
      ensures Alike(LeafAt(t.leaves, k), LeafAt(u.leaves, k)) <==>
              var l, m := LeafAt(t.leaves, k), LeafAt(u.leaves, k);
              if Counts(l) && Counts(m) then NormalLeaf(l) == NormalLeaf(m) else Counts(l) == Counts(m)
    {
      AlikeIff(LeafAt(t.leaves, k), LeafAt(u.leaves, k));
    }
    var a, b := HashableLeaves(t), HashableLeaves(u);
    forall k ensures k in a <==> Counts(LeafAt(t.leaves, k)) {}
    forall k ensures k in b <==> Counts(LeafAt(u.leaves, k)) {}
    if a == b {
      forall k ensures Alike(LeafAt(t.leaves, k), LeafAt(u.leaves, k)) {
        assert k in a <==> k in b;
      }
    }
    if forall k :: Alike(LeafAt(t.leaves, k), LeafAt(u.leaves, k)) {
      forall k ensures k in a <==> k in b {
        assert Alike(LeafAt(t.leaves, k), LeafAt(u.leaves, k));
      }
      forall k | k in a ensures a[k] == b[k] {
        assert Alike(LeafAt(t.leaves, k), LeafAt(u.leaves, k));
      }
    }
  }

  function CountSlot(ts: seq<Tree>, slot: Slot): nat {
    if ts == [] then 0 else CountSlot(ts[..|ts| - 1], slot) + if ts[|ts| - 1].slot == slot then 1 else 0
  }

  /** `k` and `m` are the places of children that have to be equal: the arguments, and the places in them, are the
      same. */
  predicate Corresponding(ts: seq<Tree>, k: nat, us: seq<Tree>, m: nat)
    requires k < |ts| && m < |us|
  {
    ts[k].slot == us[m].slot && CountSlot(ts[..k], ts[k].slot) == CountSlot(us[..m], us[m].slot)
  }

  /** `__eq__`: the same structure, whatever the identities and the order of the arguments. */
  predicate Same(t: Tree, u: Tree)
    decreases t
  {
    && t.kind == u.kind && HashableLeaves(t) == HashableLeaves(u)
    && (t.kind in EXACT ||
        (&& |t.children| == |u.children|
         && (forall c :: c in t.children ==> CountSlot(t.children, c.slot) == CountSlot(u.children, c.slot))
         && (forall k, m ::
              0 <= k < |t.children| && 0 <= m < |u.children| && Corresponding(t.children, k, u.children, m) ==>
               Same(t.children[k], u.children[m]))))
  }

  lemma {:induction false} CountGrows(ts: seq<Tree>, k: nat, m: nat)
    requires k < m < |ts| && ts[k].slot == ts[m].slot
    ensures CountSlot(ts[..k], ts[k].slot) < CountSlot(ts[..m], ts[k].slot)
    decreases m
  {
    assert ts[..m][..m - 1] == ts[..m - 1] && ts[..m][m - 1] == ts[m - 1];
    if k < m - 1 {
      CountBelow(ts, k, m - 1);
    }
  }

  lemma {:induction false} CountBelow(ts: seq<Tree>, k: nat, m: nat)
    requires k < m <= |ts|
    ensures CountSlot(ts[..k], ts[k].slot) < CountSlot(ts[..m], ts[k].slot)
    decreases m
  {
    assert ts[..m][..m - 1] == ts[..m - 1] && ts[..m][m - 1] == ts[m - 1];
    if k < m - 1 { CountBelow(ts, k, m - 1); }
  }

  /** Every tree is equal to itself. */
  lemma {:induction false} SameAsItself(t: Tree)
    ensures Same(t, t)
    decreases t
  {
    forall k, m | 0 <= k < |t.children| && 0 <= m < |t.children| && Corresponding(t.children, k, t.children, m)
      ensures Same(t.children[k], t.children[m])
    {
      if k < m { CountGrows(t.children, k, m); }
      if m < k { CountGrows(t.children, m, k); }
      SameAsItself(t.children[k]);
    }
  }

  // ---- Equality, argument by argument ----

  /** The children in one argument, in order. */
  ghost function ArgChildren(ts: seq<Tree>, slot: Slot): (r: seq<Tree>) {
    if ts == [] then []
    else ArgChildren(ts[..|ts| - 1], slot) + if ts[|ts| - 1].slot == slot then [ts[|ts| - 1]] else []
  }

  ghost predicate AllSame(ts: seq<Tree>, us: seq<Tree>) {
    |ts| == |us| && forall i :: 0 <= i < |ts| ==> Same(ts[i], us[i])
  }

  lemma {:induction false} ArgCount(ts: seq<Tree>, slot: Slot)
    ensures |ArgChildren(ts, slot)| == CountSlot(ts, slot)
    decreases |ts|
  {
    if ts != [] { ArgCount(ts[..|ts| - 1], slot); }
  }

  /** The place of a child in its argument. */
  lemma {:induction false} ArgAt(ts: seq<Tree>, k: nat)
    requires k < |ts|
    ensures var i := CountSlot(ts[..k], ts[k].slot);
      i < |ArgChildren(ts, ts[k].slot)| && ArgChildren(ts, ts[k].slot)[i] == ts[k]
    decreases |ts|
  {
    var before := ts[..|ts| - 1];
    if k < |ts| - 1 {
      assert before[..k] == ts[..k];
      ArgAt(before, k);
    } else {
      ArgCount(before, ts[k].slot);
    }
  }

  lemma {:induction false} ArgFrom(ts: seq<Tree>, slot: Slot, i: nat) returns (k: nat)
    requires i < |ArgChildren(ts, slot)|
    ensures k < |ts| && ts[k].slot == slot && CountSlot(ts[..k], slot) == i && ArgChildren(ts, slot)[i] == ts[k]
    decreases |ts|
  {
    var before := ts[..|ts| - 1];
    if i < |ArgChildren(before, slot)| {
      k := ArgFrom(before, slot, i);
      assert before[..k] == ts[..k];
    } else {
      k := |ts| - 1;
      ArgCount(before, slot);
    }
  }

  /** Two nodes are equal exactly if they are of one kind, their own arguments are alike, and the children in each
      argument are equal one by one. */
  lemma {:induction false} SameIff(t: Tree, u: Tree)
    requires t.kind !in EXACT
    ensures Same(t, u) <==>
            && t.kind == u.kind && (forall k :: Alike(LeafAt(t.leaves, k), LeafAt(u.leaves, k)))
            && |t.children| == |u.children|
            && forall c :: c in t.children ==> AllSame(ArgChildren(t.children, c.slot), ArgChildren(u.children, c.slot))
  {
    hide HashableLeaves, Alike, ArgChildren, CountSlot;
    if t.kind == u.kind { EqualLeaves(t, u); }
    var ts, us := t.children, u.children;
    if Same(t, u) {
      forall c | c in ts ensures AllSame(ArgChildren(ts, c.slot), ArgChildren(us, c.slot)) {
        SameArgument(t, u, c.slot);
      }
    }
    if |ts| == |us| && forall c :: c in ts ==> AllSame(ArgChildren(ts, c.slot), ArgChildren(us, c.slot)) {
      forall c | c in ts ensures CountSlot(ts, c.slot) == CountSlot(us, c.slot) {
        ArgCount(ts, c.slot);
        ArgCount(us, c.slot);
      }
      forall k, m | 0 <= k < |ts| && 0 <= m < |us| && Corresponding(ts, k, us, m) ensures Same(ts[k], us[m]) {
        ArgAt(ts, k);
        ArgAt(us, m);
        assert ts[k] in ts;
      }
    }
  }

  lemma {:induction false} SameArgument(t: Tree, u: Tree, slot: Slot)
    requires t.kind !in EXACT && Same(t, u) && exists c :: c in t.children && c.slot == slot
    ensures AllSame(ArgChildren(t.children, slot), ArgChildren(u.children, slot))
  {
    hide HashableLeaves, ArgChildren, CountSlot;
    var ts, us := t.children, u.children;
    ArgCount(ts, slot);
    ArgCount(us, slot);
    forall i | 0 <= i < |ArgChildren(ts, slot)| ensures Same(ArgChildren(ts, slot)[i], ArgChildren(us, slot)[i]) {
      var k := ArgFrom(ts, slot, i);
      var m := ArgFrom(us, slot, i);
      assert Corresponding(ts, k, us, m);
    }
  }
}
