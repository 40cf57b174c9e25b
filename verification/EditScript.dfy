/** From a matching to an edit script (sqlglot/diff.py, `_generate_edit_script`, `_generate_move_edits`). */
module EditScript {
  import opened Collections
  import opened DiffTree
  import Ast
  import Lcs

  datatype Edit =
    | Insert(node: Tree)
    | Remove(node: Tree)
    | Move(source: Tree, target: Tree)
    | Update(source: Tree, target: Tree)
    | Keep(source: Tree, target: Tree)

  datatype Result<+T> = Done(value: T) | KeyError

  /** The state of the distiller when the script is generated, with the `parent` of each node. */
  datatype Context = Context(
    sourceIndex: map<Id, Tree>, targetIndex: map<Id, Tree>,
    unmatchedSource: set<Id>, unmatchedTarget: set<Id>,
    sourceUp: map<Id, Id>, targetUp: map<Id, Id>,
    matchings: map<Id, Id>)

  function Lookup<K, V>(m: map<K, V>, k: K): Option<V> {
    if k in m then Some(m[k]) else None
  }

  /** Identities of the children that take part in the diff. */
  function ExpressionOnlyArgs(t: Tree): seq<Id> {
    ArgIds(t.children)
  }

  function ArgIds(ts: seq<Tree>): seq<Id> {
    if ts == [] then [] else (if Ignored(ts[0]) then [] else [ts[0].id]) + ArgIds(ts[1..])
  }

  /** Children in the diff are indexed, and no two of them are the same. */
  ghost predicate Closed(index: map<Id, Tree>) {
    forall i :: i in index ==>
      Distinct(ExpressionOnlyArgs(index[i])) && forall a :: a in ExpressionOnlyArgs(index[i]) ==> a in index
  }

  /** Every indexed node is either matched or in its unmatched set, and no target is matched twice. */
  ghost predicate Consistent(c: Context) {
    && Closed(c.sourceIndex) && Closed(c.targetIndex)
    && (forall i :: i in c.sourceIndex ==> (i in c.unmatchedSource <==> i !in c.matchings))
    && (forall i :: i in c.targetIndex ==> (i in c.unmatchedTarget <==> i !in c.matchings.Values))
    && c.unmatchedSource <= c.sourceIndex.Keys && c.unmatchedTarget <= c.targetIndex.Keys
    && (forall i, j :: i in c.matchings && j in c.matchings && c.matchings[i] == c.matchings[j] ==> i == j)
  }

  ghost predicate AllIndexed(c: Context) {
    forall i :: i in c.matchings ==> i in c.sourceIndex && c.matchings[i] in c.targetIndex
  }

  // ---- Moves among the children of one matched pair ----

  ghost predicate Precedes(s: seq<Id>, x: Id, y: Id) {
    exists k, l :: 0 <= k < l < |s| && s[k] == x && s[l] == y
  }

  /** Kept children keep, in the target, the order they have in the source. */
  ghost predicate InTargetOrder(sources: seq<Id>, targets: seq<Id>, m: map<Id, Id>, kept: set<Id>) {
    && (forall a :: a in kept ==> a in sources && a in m && m[a] in targets)
    && (forall i, j :: 0 <= i < j < |sources| && sources[i] in kept && sources[j] in kept ==>
          Precedes(targets, m[sources[i]], m[sources[j]]))
  }

  /** Moving `moved` leaves the other matched children in target order, and nothing smaller does. */
  ghost predicate FewestMoves(sources: seq<Id>, targets: seq<Id>, m: map<Id, Id>, moved: set<Id>) {
    && moved <= Elems(sources) * m.Keys
    && InTargetOrder(sources, targets, m, Elems(sources) * m.Keys - moved)
    && forall kept :: kept <= Elems(sources) * m.Keys && InTargetOrder(sources, targets, m, kept) ==>
         |moved| <= |Elems(sources) * m.Keys - kept|
  }

  /** `lambda l, r: matchings.get(l) == r` */
  ghost predicate Relates(equal: (Id, Id) -> bool, m: map<Id, Id>) {
    forall a, b {:trigger equal(a, b)} :: equal(a, b) <==> Lookup(m, a) == Some(b)
  }

  lemma {:induction false} RelatedIsLookup(equal: (Id, Id) -> bool, m: map<Id, Id>, a: Id, b: Id)
    requires Relates(equal, m) && equal(a, b)
    ensures a in m && m[a] == b
  {
    assert Lookup(m, a) == Some(b);
  }

  lemma {:induction false} AlignmentInOrder(sources: seq<Id>, targets: seq<Id>, m: map<Id, Id>, pairs: seq<(nat, nat)>,
      equal: (Id, Id) -> bool)
    requires Distinct(sources) && Distinct(targets)
    requires Relates(equal, m)
    requires Lcs.IsAlignment(sources, targets, equal, pairs)
    ensures InTargetOrder(sources, targets, m, Elems(Lcs.Picked(sources, pairs)))
    ensures |Elems(Lcs.Picked(sources, pairs))| == |pairs|
  {
    var picked := Lcs.Picked(sources, pairs);
    forall a | a in Elems(picked) ensures a in sources && a in m && m[a] in targets {
      var k :| 0 <= k < |picked| && picked[k] == a;
      RelatedIsLookup(equal, m, a, targets[pairs[k].1]);
    }
    forall i, j | 0 <= i < j < |sources| && sources[i] in Elems(picked) && sources[j] in Elems(picked)
      ensures Precedes(targets, m[sources[i]], m[sources[j]])
    {
      var p :| 0 <= p < |picked| && picked[p] == sources[i];
      var q :| 0 <= q < |picked| && picked[q] == sources[j];
      assert pairs[p].0 == i && pairs[q].0 == j;
      RelatedIsLookup(equal, m, sources[i], targets[pairs[p].1]);
      RelatedIsLookup(equal, m, sources[j], targets[pairs[q].1]);
    }
    forall k, l | 0 <= k < l < |picked| ensures picked[k] != picked[l] {
      assert pairs[k].0 < pairs[l].0;
    }
    DistinctCount(picked);
  }

  lemma {:induction false} AppendPair(sources: seq<Id>, targets: seq<Id>, m: map<Id, Id>, kept: set<Id>,
      equal: (Id, Id) -> bool,
                   pairs: seq<(nat, nat)>, i: nat, l: nat)
    requires i < |sources| && l < |targets| && sources[i] in kept && equal(sources[i], targets[l])
    requires Distinct(targets) && InTargetOrder(sources, targets, m, kept)
    requires Relates(equal, m)
    requires Lcs.IsAlignment(sources, targets, equal, pairs)
    requires forall k :: 0 <= k < |pairs| ==> pairs[k].0 < i && sources[pairs[k].0] in kept
    ensures Lcs.IsAlignment(sources, targets, equal, pairs + [(i, l)])
  {
    RelatedIsLookup(equal, m, sources[i], targets[l]);
    forall k | 0 <= k < |pairs| ensures pairs[k].1 < l {
      RelatedIsLookup(equal, m, sources[pairs[k].0], targets[pairs[k].1]);
      assert Precedes(targets, m[sources[pairs[k].0]], m[sources[i]]);
    }
  }

  lemma {:induction false} KeptHasTarget(sources: seq<Id>, targets: seq<Id>, m: map<Id, Id>, kept: set<Id>,
      equal: (Id, Id) -> bool, a: Id)
    returns (l: nat)
    requires a in kept && InTargetOrder(sources, targets, m, kept)
    requires Relates(equal, m)
    ensures l < |targets| && equal(a, targets[l])
  {
    l :| 0 <= l < |targets| && targets[l] == m[a];
  }

  /** Any choice of children to keep in order is an alignment. */
  lemma {:induction false} OrderAligns(sources: seq<Id>, targets: seq<Id>, m: map<Id, Id>, kept: set<Id>,
                                       equal: (Id, Id) -> bool, n: nat)
    returns (pairs: seq<(nat, nat)>)
    requires n <= |sources| && Distinct(sources) && Distinct(targets) && InTargetOrder(sources, targets, m, kept)
    requires Relates(equal, m)
    ensures Lcs.IsAlignment(sources, targets, equal, pairs)
    ensures forall k :: 0 <= k < |pairs| ==> pairs[k].0 < n && sources[pairs[k].0] in kept
    ensures |pairs| == |kept * Elems(sources[..n])|
  {
    hide Distinct, Lookup;
    if n == 0 {
      pairs := [];
      assert kept * Elems(sources[..0]) == {};
    } else {
      hide InTargetOrder, Lcs.IsAlignment;
      var a := sources[n - 1];
      pairs := OrderAligns(sources, targets, m, kept, equal, n - 1);
      CountNext(sources, kept, n);
      if a in kept {
        var l := KeptHasTarget(sources, targets, m, kept, equal, a);
        AppendPair(sources, targets, m, kept, equal, pairs, n - 1, l);
        pairs := pairs + [(n - 1, l)];
      }
    }
  }

  lemma {:induction false} CountNext(sources: seq<Id>, kept: set<Id>, n: nat)
    requires 0 < n <= |sources| && Distinct(sources)
    ensures |kept * Elems(sources[..n])| == |kept * Elems(sources[..n - 1])| + if sources[n - 1] in kept then 1 else 0
  {
    var a := sources[n - 1];
    assert sources[..n] == sources[..n - 1] + [a];
    assert Elems(sources[..n]) == Elems(sources[..n - 1]) + {a};
    assert a !in Elems(sources[..n - 1]);
    if a in kept {
      assert kept * Elems(sources[..n]) == kept * Elems(sources[..n - 1]) + {a};
    } else {
      assert kept * Elems(sources[..n]) == kept * Elems(sources[..n - 1]);
    }
  }

  lemma {:induction false} KeptAtMostLcs(sources: seq<Id>, targets: seq<Id>, m: map<Id, Id>, equal: (Id, Id) -> bool,
      lcs: seq<Id>, kept: set<Id>)
    requires Distinct(sources) && Distinct(targets) && InTargetOrder(sources, targets, m, kept)
    requires Relates(equal, m)
    requires Lcs.IsLongestCommon(sources, targets, equal, lcs)
    ensures |kept| <= |lcs|
  {
    var pairs := OrderAligns(sources, targets, m, kept, equal, |sources|);
    assert sources[..|sources|] == sources;
    forall a | a in kept ensures a in Elems(sources) {}
    assert kept * Elems(sources) == kept;
  }

  lemma {:induction false} LcsInOrder(sources: seq<Id>, targets: seq<Id>, m: map<Id, Id>, equal: (Id, Id) -> bool,
      lcs: seq<Id>)
    requires Distinct(sources) && Distinct(targets)
    requires Relates(equal, m)
    requires Lcs.IsLongestCommon(sources, targets, equal, lcs)
    ensures InTargetOrder(sources, targets, m, Elems(lcs)) && |Elems(lcs)| == |lcs|
    ensures Elems(lcs) <= Elems(sources) * m.Keys
  {
    var best :| Lcs.IsAlignment(sources, targets, equal, best) && Lcs.Picked(sources, best) == lcs;
    AlignmentInOrder(sources, targets, m, best, equal);
    forall a | a in Elems(lcs) ensures a in Elems(sources) {}
  }

  lemma {:induction false} SubsetCount<T>(all: set<T>, part: set<T>)
    requires part <= all
    ensures |all - part| == |all| - |part| && all - (all - part) == part
  {
    assert all == part + (all - part);
  }

  /** Moving what is outside a longest common subsequence moves the fewest. */
  lemma {:induction false} LcsMeansFewest(sources: seq<Id>, targets: seq<Id>, m: map<Id, Id>, equal: (Id, Id) -> bool,
      lcs: seq<Id>)
    requires Distinct(sources) && Distinct(targets)
    requires Relates(equal, m)
    requires Lcs.IsLongestCommon(sources, targets, equal, lcs)
    ensures FewestMoves(sources, targets, m, Elems(sources) * m.Keys - Elems(lcs))
  {
    hide InTargetOrder, Lcs.IsLongestCommon, Distinct, Lookup;
    var all := Elems(sources) * m.Keys;
    LcsInOrder(sources, targets, m, equal, lcs);
    SubsetCount(all, Elems(lcs));
    forall kept | kept <= all && InTargetOrder(sources, targets, m, kept) ensures |all - Elems(lcs)| <= |all - kept| {
      KeptAtMostLcs(sources, targets, m, equal, lcs, kept);
      SubsetCount(all, kept);
    }
  }

  /** The loop of `_generate_move_edits`: every matched child outside the common subsequence moves. */
  method EmitMoves(c: Context, sources: seq<Id>, lcs: seq<Id>) returns (r: Result<seq<Edit>>, ghost moved: seq<Id>)
    requires Distinct(sources)
    requires forall a :: a in sources ==> a in c.sourceIndex && (a in c.unmatchedSource <==> a !in c.matchings)
    ensures r.KeyError? ==> !AllIndexed(c)
    ensures r.Done? ==> AreMoves(c, r.value, moved) && Elems(moved) == Elems(sources) * c.matchings.Keys - Elems(lcs)
  {
    var moves: seq<Edit> := [];
    moved := [];
    for k := 0 to |sources|
      invariant forall a :: a in moved <==> a in sources[..k] && a in c.matchings && a !in lcs
      invariant AreMoves(c, moves, moved)
    {
      var a := sources[k];
      if a !in lcs && a !in c.unmatchedSource {
        if c.matchings[a] !in c.targetIndex {
          return KeyError, moved;
        }
        moves := moves + [Move(c.sourceIndex[a], c.targetIndex[c.matchings[a]])];
        moved := moved + [a];
      }
    }
    assert sources[..|sources|] == sources;
    forall a ensures a in Elems(moved) <==> a in Elems(sources) * c.matchings.Keys - Elems(lcs) {
      assert a in Elems(moved) <==> a in moved;
    }
    r := Done(moves);
  }

  method GenerateMoveEdits(c: Context, source: Tree, target: Tree)
    returns (r: Result<seq<Edit>>, ghost moved: seq<Id>)
    requires Consistent(c) && Indexed(c, source, target)
    ensures r.KeyError? ==> !AllIndexed(c)
    ensures r.Done? ==> MovesFor(c, source, target, r.value, moved)
  {
    hide FewestMoves, Lcs.IsLongestCommon, AreMoves, AllIndexed;
    var sources, targets := ExpressionOnlyArgs(source), ExpressionOnlyArgs(target);
    var related := (a, b) => Lookup(c.matchings, a) == Some(b);
    var lcs := Lcs.Compute(sources, targets, related);
    LcsMeansFewest(sources, targets, c.matchings, related, lcs);
    r, moved := EmitMoves(c, sources, lcs);
  }

  ghost predicate Indexed(c: Context, source: Tree, target: Tree) {
    && source.id in c.sourceIndex && c.sourceIndex[source.id] == source
    && target.id in c.targetIndex && c.targetIndex[target.id] == target
  }

  ghost predicate AreMoves(c: Context, moves: seq<Edit>, moved: seq<Id>) {
    |moves| == |moved| && Distinct(moved) && forall k :: 0 <= k < |moves| ==>
      && moved[k] in c.sourceIndex && moved[k] in c.matchings && c.matchings[moved[k]] in c.targetIndex
      && moves[k] == Move(c.sourceIndex[moved[k]], c.targetIndex[c.matchings[moved[k]]])
  }

  ghost predicate MovesFor(c: Context, source: Tree, target: Tree, moves: seq<Edit>, moved: seq<Id>) {
    && AreMoves(c, moves, moved)
    && FewestMoves(ExpressionOnlyArgs(source), ExpressionOnlyArgs(target), c.matchings, Elems(moved))
  }

  // ---- The whole script ----

  predicate IsUpdatable(t: Tree) { t.kind in UPDATABLE }

  predicate NeedsUpdate(source: Tree, target: Tree) {
    (IsUpdatable(source) && !Same(source, target)) || source.leaves != target.leaves
  }

  /** Equal nodes can still need an update: equality does not look at case, or at an argument False, and the comparison
      of arguments does. */
  lemma {:induction false} EqualButUpdated()
    ensures var f := Tree(1, "Anonymous", Slot("this", false), map["this" := Single(Ast.Str("F"))], []);
      var g := f.(leaves := map["this" := Single(Ast.Str("f"))]);
      var h := f.(leaves := f.leaves["distinct" := Single(Ast.Flag(false))]);
      Same(f, g) && NeedsUpdate(f, g) && Same(f, h) && NeedsUpdate(f, h)
  {
    hide Same, HashableLeaves;
    var f := Tree(1, "Anonymous", Slot("this", false), map["this" := Single(Ast.Str("F"))], []);
    var g := f.(leaves := map["this" := Single(Ast.Str("f"))]);
    var h := f.(leaves := f.leaves["distinct" := Single(Ast.Flag(false))]);
    assert Lower("F") == "f" && Lower("f") == "f";
    assert f.leaves["this"] != g.leaves["this"];
    assert "distinct" in h.leaves && "distinct" !in f.leaves;
    SameIfAlike(f, g);
    SameIfAlike(f, h);
  }

  lemma {:induction false} SameIfAlike(t: Tree, u: Tree)
    requires t.kind == u.kind && t.kind !in EXACT && t.children == u.children == []
    requires forall k :: Alike(LeafAt(t.leaves, k), LeafAt(u.leaves, k))
    ensures Same(t, u)
  {
    hide Alike, HashableLeaves;
    EqualLeaves(t, u);
  }

  /** Only one of the nodes has a parent, or the parents are not matched to each other. */
  predicate ParentsDiffer(c: Context, source: Tree, target: Tree) {
    match (Lookup(c.sourceUp, source.id), Lookup(c.targetUp, target.id))
    case (None, None) => false
    case (Some(p), Some(q)) => Lookup(c.matchings, p) != Some(q)
    case _ => true
  }

  ghost function Verdict(source: Tree, target: Tree, deltaOnly: bool): seq<Edit> {
    if NeedsUpdate(source, target) then [Update(source, target)]
    else if deltaOnly then [] else [Keep(source, target)]
  }

  ghost predicate PairMoves(c: Context, source: Tree, target: Tree, moves: seq<Edit>, moved: seq<Id>) {
    if Same(source, target) then moves == if ParentsDiffer(c, source, target) then [Move(source, target)] else []
    else if IsUpdatable(source) then moves == []
    else MovesFor(c, source, target, moves, moved)
  }

  /** What the script says about one matched pair: moves, and then whether it is kept or updated. */
  ghost predicate PairEdits(c: Context, source: Tree, target: Tree, deltaOnly: bool, edits: seq<Edit>, moved: seq<Id>) {
    exists moves: seq<Edit> ::
      edits == moves + Verdict(source, target, deltaOnly) && PairMoves(c, source, target, moves, moved)
  }

  lemma {:induction false} SameLeaves(source: Tree, target: Tree)
    requires Same(source, target)
    ensures source.kind == target.kind && HashableLeaves(source) == HashableLeaves(target)
  {
  }

  /** Of two equal nodes an Update is reported exactly if their own arguments differ as they are written. They can do so
      in case, or in that a node has an argument None, False or [] where the other has another of these or none. */
  lemma {:induction false} UpdatedThoughEqual(c: Context, source: Tree, target: Tree, deltaOnly: bool, edits: seq<Edit>,
      moved: seq<Id>)
    requires Same(source, target) && PairEdits(c, source, target, deltaOnly, edits, moved)
    ensures Update(source, target) in edits <==> source.leaves != target.leaves
    ensures source.kind !in EXACT ==> forall k :: Alike(LeafAt(source.leaves, k), LeafAt(target.leaves, k))
  {
    hide Same, Alike, HashableLeaves;
    var moves: seq<Edit> :|
      edits == moves + Verdict(source, target, deltaOnly) && PairMoves(c, source, target, moves, moved);
    if source.kind !in EXACT {
      SameLeaves(source, target);
      EqualLeaves(source, target);
    }
  }

  /** What is reported of a matched pair: an Update exactly if the nodes differ and are of an updatable kind, or their
      own arguments are written differently; otherwise a Keep, unless only the delta is wanted. Of two equal nodes a
      Move is reported exactly if one of them has a parent and the other has not, or their parents are not matched. */
  lemma {:induction false} EditsOfPair(c: Context, source: Tree, target: Tree, deltaOnly: bool, edits: seq<Edit>,
      moved: seq<Id>)
    requires PairEdits(c, source, target, deltaOnly, edits, moved)
    ensures var updated := (source.kind in UPDATABLE && !Same(source, target)) || source.leaves != target.leaves;
      && (Update(source, target) in edits <==> updated)
      && (Keep(source, target) in edits <==> !updated && !deltaOnly)
    ensures var p, q := Lookup(c.sourceUp, source.id), Lookup(c.targetUp, target.id);
      Same(source, target) ==>
        (Move(source, target) in edits <==>
          p.Some? != q.Some? || (p.Some? && q.Some? && Lookup(c.matchings, p.value) != q))
    ensures source.kind in UPDATABLE && !Same(source, target) ==> edits == [Update(source, target)]
  {
    hide Same, FewestMoves;
    var moves: seq<Edit> :|
      edits == moves + Verdict(source, target, deltaOnly) && PairMoves(c, source, target, moves, moved);
    assert forall e :: e in moves ==> e.Move?;
  }

  method EditPair(c: Context, source: Tree, target: Tree, deltaOnly: bool)
    returns (r: Result<seq<Edit>>, ghost moved: seq<Id>)
    requires Consistent(c) && Indexed(c, source, target)
    ensures r.KeyError? ==> !AllIndexed(c)
    ensures r.Done? ==> PairEdits(c, source, target, deltaOnly, r.value, moved)
  {
    hide Consistent, MovesFor, AllIndexed;
    var identical := Same(source, target);
    var moves: seq<Edit>, verdict: seq<Edit> := [], [];
    moved := [];
    if !IsUpdatable(source) || identical {
      if identical {
        if ParentsDiffer(c, source, target) {
          moves := [Move(source, target)];
        }
      } else {
        var m;
        m, moved := GenerateMoveEdits(c, source, target);
        if m.KeyError? {
          return KeyError, moved;
        }
        moves := m.value;
      }
      if source.leaves != target.leaves {
        verdict := [Update(source, target)];
      } else if !deltaOnly {
        verdict := [Keep(source, target)];
      }
    } else {
      verdict := [Update(source, target)];
    }
    assert PairMoves(c, source, target, moves, moved) && verdict == Verdict(source, target, deltaOnly);
    r := Done(moves + verdict);
  }

  function SourceEnd(e: Edit): multiset<Id> {
    match e
    case Remove(n) => multiset{n.id}
    case Update(s, t) => multiset{s.id}
    case Keep(s, t) => multiset{s.id}
    case _ => multiset{}
  }

  function TargetEnd(e: Edit): multiset<Id> {
    match e
    case Insert(n) => multiset{n.id}
    case Update(s, t) => multiset{t.id}
    case Keep(s, t) => multiset{t.id}
    case _ => multiset{}
  }

  /** How often each source identity is removed, updated or kept. */
  ghost function SourceEnds(es: seq<Edit>): multiset<Id> {
    if es == [] then multiset{} else SourceEnds(es[..|es| - 1]) + SourceEnd(es[|es| - 1])
  }

  /** How often each target identity is inserted, updated or kept. */
  ghost function TargetEnds(es: seq<Edit>): multiset<Id> {
    if es == [] then multiset{} else TargetEnds(es[..|es| - 1]) + TargetEnd(es[|es| - 1])
  }

  lemma {:induction false} EndsOfConcat(s: seq<Edit>, t: seq<Edit>)
    ensures SourceEnds(s + t) == SourceEnds(s) + SourceEnds(t)
    ensures TargetEnds(s + t) == TargetEnds(s) + TargetEnds(t)
    decreases |t|
  {
    if t == [] {
      assert s + t == s;
    } else {
      assert (s + t)[..|s + t| - 1] == s + t[..|t| - 1];
      EndsOfConcat(s, t[..|t| - 1]);
    }
  }

  lemma {:induction false} MovesHaveNoEnds(c: Context, moves: seq<Edit>, moved: seq<Id>)
    requires AreMoves(c, moves, moved)
    ensures SourceEnds(moves) == multiset{} && TargetEnds(moves) == multiset{}
    decreases |moves|
  {
    if moves != [] {
      var n := |moves| - 1;
      MovesHaveNoEnds(c, moves[..n], moved[..n]);
    }
  }

  /** A matched pair accounts for its two ends once, unless it is kept and only changes are wanted. */
  lemma {:induction false} PairEnds(c: Context, source: Tree, target: Tree, deltaOnly: bool, edits: seq<Edit>,
      moved: seq<Id>)
    requires PairEdits(c, source, target, deltaOnly, edits, moved)
    ensures SourceEnds(edits) == if deltaOnly && !NeedsUpdate(source, target) then multiset{} else multiset{source.id}
    ensures TargetEnds(edits) == if deltaOnly && !NeedsUpdate(source, target) then multiset{} else multiset{target.id}
  {
    var moves: seq<Edit> :|
      edits == moves + Verdict(source, target, deltaOnly) && PairMoves(c, source, target, moves, moved);
    EndsOfConcat(moves, Verdict(source, target, deltaOnly));
    PairMovesHaveNoEnds(c, source, target, moves, moved);
    hide PairMoves, NeedsUpdate;
    var verdict := Verdict(source, target, deltaOnly);
    assert verdict == [] || verdict[..0] == [];
  }

  lemma {:induction false} PairMovesHaveNoEnds(c: Context, source: Tree, target: Tree, moves: seq<Edit>, moved: seq<Id>)
    requires PairMoves(c, source, target, moves, moved)
    ensures SourceEnds(moves) == multiset{} && TargetEnds(moves) == multiset{}
  {
    hide Same, FewestMoves, ParentsDiffer;
    if !Same(source, target) && !IsUpdatable(source) {
      MovesHaveNoEnds(c, moves, moved);
    } else if moves != [] {
      assert moves[..0] == [];
    }
  }

  ghost predicate Within(part: seq<Edit>, script: seq<Edit>) {
    exists before: seq<Edit>, after: seq<Edit> :: script == before + part + after
  }

  lemma {:induction false} WithinAppended(part: seq<Edit>, script: seq<Edit>, more: seq<Edit>)
    ensures Within(part, script) ==> Within(part, script + more)
    ensures Within(more, script + more)
  {
    if Within(part, script) {
      var before: seq<Edit>, after: seq<Edit> :| script == before + part + after;
      assert script + more == before + part + (after + more);
    }
    assert script + more == script + more + [];
  }

  lemma {:induction false} EndsOfAppend(s: seq<Edit>, e: Edit)
    ensures SourceEnds(s + [e]) == SourceEnds(s) + SourceEnd(e)
    ensures TargetEnds(s + [e]) == TargetEnds(s) + TargetEnd(e)
  {
    assert (s + [e])[..|s|] == s;
  }

  /** Members of `s` occur once, everything else never. */
  ghost predicate ExactlyOnce(m: multiset<Id>, s: set<Id>) {
    forall i :: m[i] == if i in s then 1 else 0
  }

  /** The loop over the unmatched source nodes. */
  method EmitRemoves(c: Context) returns (script: seq<Edit>)
    requires c.unmatchedSource <= c.sourceIndex.Keys && NamedById(c.sourceIndex)
    ensures ExactlyOnce(SourceEnds(script), c.unmatchedSource) && ExactlyOnce(TargetEnds(script), {})
    ensures forall i :: i in c.unmatchedSource ==> Remove(c.sourceIndex[i]) in script
  {
    script := [];
    var todo := c.unmatchedSource;
    while todo != {}
      invariant todo <= c.unmatchedSource
      invariant ExactlyOnce(SourceEnds(script), c.unmatchedSource - todo) && ExactlyOnce(TargetEnds(script), {})
      invariant forall i :: i in c.unmatchedSource - todo ==> Remove(c.sourceIndex[i]) in script
      decreases todo
    {
      var i := Pick(todo);
      EndsOfAppend(script, Remove(c.sourceIndex[i]));
      script := script + [Remove(c.sourceIndex[i])];
      todo := todo - {i};
    }
  }

  /** The loop over the unmatched target nodes. */
  method EmitInserts(c: Context) returns (script: seq<Edit>)
    requires c.unmatchedTarget <= c.targetIndex.Keys && NamedById(c.targetIndex)
    ensures ExactlyOnce(SourceEnds(script), {}) && ExactlyOnce(TargetEnds(script), c.unmatchedTarget)
    ensures forall i :: i in c.unmatchedTarget ==> Insert(c.targetIndex[i]) in script
  {
    script := [];
    var todo := c.unmatchedTarget;
    while todo != {}
      invariant todo <= c.unmatchedTarget
      invariant ExactlyOnce(SourceEnds(script), {}) && ExactlyOnce(TargetEnds(script), c.unmatchedTarget - todo)
      invariant forall i :: i in c.unmatchedTarget - todo ==> Insert(c.targetIndex[i]) in script
      decreases todo
    {
      var i := Pick(todo);
      EndsOfAppend(script, Insert(c.targetIndex[i]));
      script := script + [Insert(c.targetIndex[i])];
      todo := todo - {i};
    }
  }

  ghost predicate Resolved(c: Context, i: Id) {
    i in c.matchings && i in c.sourceIndex && c.matchings[i] in c.targetIndex
  }

  /** Matched nodes that the script mentions: all, or with `deltaOnly` those that changed. */
  ghost predicate Speaks(c: Context, deltaOnly: bool, i: Id)
    requires Resolved(c, i)
  {
    !deltaOnly || NeedsUpdate(c.sourceIndex[i], c.targetIndex[c.matchings[i]])
  }

  ghost function Reported(c: Context, deltaOnly: bool, done: set<Id>): set<Id>
    requires forall i :: i in done ==> Resolved(c, i)
  {
    set i | i in done && Speaks(c, deltaOnly, i)
  }

  ghost function Images(c: Context, ids: set<Id>): set<Id>
    requires forall i :: i in ids ==> i in c.matchings
  {
    set i | i in ids :: c.matchings[i]
  }

  /** The edits of the pairs in `done`: each contributes its part, and the ends add up. */
  ghost predicate PairsEmitted(c: Context, deltaOnly: bool, done: set<Id>, script: seq<Edit>) {
    && (forall i :: i in done ==> Resolved(c, i))
    && (forall i :: i in done ==> PairReported(c, deltaOnly, i, script))
    && ExactlyOnce(SourceEnds(script), Reported(c, deltaOnly, done))
    && ExactlyOnce(TargetEnds(script), Images(c, Reported(c, deltaOnly, done)))
  }

  ghost predicate PairReported(c: Context, deltaOnly: bool, i: Id, script: seq<Edit>)
    requires i in c.matchings && i in c.sourceIndex && c.matchings[i] in c.targetIndex
  {
    exists part: seq<Edit>, moved: seq<Id> :: Within(part, script) &&
      PairEdits(c, c.sourceIndex[i], c.targetIndex[c.matchings[i]], deltaOnly, part, moved)
  }

  ghost predicate NamedById(index: map<Id, Tree>) {
    forall i :: i in index ==> index[i].id == i
  }

  lemma {:induction false} PairReportedStays(c: Context, deltaOnly: bool, i: Id, script: seq<Edit>, more: seq<Edit>)
    requires Resolved(c, i) && PairReported(c, deltaOnly, i, script)
    ensures PairReported(c, deltaOnly, i, script + more)
  {
    hide PairEdits;
    var part: seq<Edit>, moved: seq<Id> :| Within(part, script) &&
      PairEdits(c, c.sourceIndex[i], c.targetIndex[c.matchings[i]], deltaOnly, part, moved);
    WithinAppended(part, script, more);
  }

  lemma {:induction false} ReportedMore(c: Context, deltaOnly: bool, done: set<Id>, i: Id)
    requires forall j :: j in done + {i} ==> Resolved(c, j)
    ensures Reported(c, deltaOnly, done + {i}) == Reported(c, deltaOnly, done) +
              if Speaks(c, deltaOnly, i) then {i}
              else {}
    ensures Images(c, Reported(c, deltaOnly, done + {i})) ==
            Images(c, Reported(c, deltaOnly, done)) + if Speaks(c, deltaOnly, i) then {c.matchings[i]} else {}
  {
    hide Speaks;
    var before, after := Reported(c, deltaOnly, done), Reported(c, deltaOnly, done + {i});
    assert after == before + if Speaks(c, deltaOnly, i) then {i} else {};
    forall x | x in Images(c, before) ensures x in Images(c, after) {
      var j :| j in before && c.matchings[j] == x;
      assert j in after;
    }
    if Speaks(c, deltaOnly, i) { assert i in after; }
  }

  lemma {:induction false} OnceMore(m: multiset<Id>, s: set<Id>, i: Id)
    requires ExactlyOnce(m, s) && i !in s
    ensures ExactlyOnce(m + multiset{i}, s + {i})
  {
  }

  lemma {:induction false} NewImage(c: Context, ids: set<Id>, i: Id)
    requires Consistent(c) && i in c.matchings && i !in ids && forall j :: j in ids ==> j in c.matchings
    ensures c.matchings[i] !in Images(c, ids)
  {
  }

  lemma {:induction false} OnePairEnds(c: Context, deltaOnly: bool, done: set<Id>, script: seq<Edit>, i: Id,
      part: seq<Edit>, moved: seq<Id>)
    requires Consistent(c) && NamedById(c.sourceIndex) && NamedById(c.targetIndex)
    requires (forall j :: j in done ==> Resolved(c, j)) && Resolved(c, i) && i !in done
    requires ExactlyOnce(SourceEnds(script), Reported(c, deltaOnly, done))
    requires ExactlyOnce(TargetEnds(script), Images(c, Reported(c, deltaOnly, done)))
    requires PairEdits(c, c.sourceIndex[i], c.targetIndex[c.matchings[i]], deltaOnly, part, moved)
    ensures ExactlyOnce(SourceEnds(script + part), Reported(c, deltaOnly, done + {i}))
    ensures ExactlyOnce(TargetEnds(script + part), Images(c, Reported(c, deltaOnly, done + {i})))
  {
    hide PairEdits, NeedsUpdate, Consistent, SourceEnds, TargetEnds, ExactlyOnce, Images;
    EndsOfConcat(script, part);
    PairEnds(c, c.sourceIndex[i], c.targetIndex[c.matchings[i]], deltaOnly, part, moved);
    ReportedMore(c, deltaOnly, done, i);
    if Speaks(c, deltaOnly, i) {
      OnceMore(SourceEnds(script), Reported(c, deltaOnly, done), i);
      NewImage(c, Reported(c, deltaOnly, done), i);
      OnceMore(TargetEnds(script), Images(c, Reported(c, deltaOnly, done)), c.matchings[i]);
    } else {
      assert SourceEnds(script) + multiset{} == SourceEnds(script) &&
        TargetEnds(script) + multiset{} == TargetEnds(script);
      assert Reported(c, deltaOnly, done) + {} == Reported(c, deltaOnly, done);
      assert Images(c, Reported(c, deltaOnly, done)) + {} == Images(c, Reported(c, deltaOnly, done));
    }
  }

  /** One pass of the loop over the matched pairs. */
  lemma {:induction false} OnePair(c: Context, deltaOnly: bool, done: set<Id>, script: seq<Edit>, i: Id,
      part: seq<Edit>, moved: seq<Id>)
    requires Consistent(c) && NamedById(c.sourceIndex) && NamedById(c.targetIndex)
    requires PairsEmitted(c, deltaOnly, done, script)
    requires Resolved(c, i) && i !in done
    requires PairEdits(c, c.sourceIndex[i], c.targetIndex[c.matchings[i]], deltaOnly, part, moved)
    ensures PairsEmitted(c, deltaOnly, done + {i}, script + part)
  {
    hide PairEdits, Consistent, SourceEnds, TargetEnds, ExactlyOnce, Images, Reported, Within;
    forall j | j in done ensures PairReported(c, deltaOnly, j, script + part) {
      PairReportedStays(c, deltaOnly, j, script, part);
    }
    WithinAppended(part, script, part);
    assert PairReported(c, deltaOnly, i, script + part);
    OnePairEnds(c, deltaOnly, done, script, i, part, moved);
  }

  lemma {:induction false} NoPairs(c: Context, deltaOnly: bool)
    ensures PairsEmitted(c, deltaOnly, {}, [])
  {
  }

  /** The loop over the matched pairs. */
  method EmitPairs(c: Context, deltaOnly: bool) returns (r: Result<seq<Edit>>)
    requires Consistent(c) && NamedById(c.sourceIndex) && NamedById(c.targetIndex)
    ensures r.KeyError? <==> !AllIndexed(c)
    ensures r.Done? ==> PairsEmitted(c, deltaOnly, c.matchings.Keys, r.value)
  {
    hide PairsEmitted, PairEdits, Consistent;
    var script: seq<Edit> := [];
    var todo := c.matchings.Keys;
    ghost var done: set<Id> := {};
    NoPairs(c, deltaOnly);
    while todo != {}
      invariant done !! todo && done + todo == c.matchings.Keys
      invariant PairsEmitted(c, deltaOnly, done, script)
      invariant forall j :: j in done ==> Resolved(c, j)
      decreases todo
    {
      var i := Pick(todo);
      if i !in c.sourceIndex || c.matchings[i] !in c.targetIndex {
        return KeyError;
      }
      assert c.sourceIndex[i].id == i && c.targetIndex[c.matchings[i]].id == c.matchings[i];
      ghost var moved;
      var part;
      part, moved := EditPair(c, c.sourceIndex[i], c.targetIndex[c.matchings[i]], deltaOnly);
      if part.KeyError? {
        return KeyError;
      }
      OnePair(c, deltaOnly, done, script, i, part.value, moved);
      script := script + part.value;
      todo, done := todo - {i}, done + {i};
    }
    r := Done(script);
  }

  /** What the whole script promises: every indexed node is accounted for exactly once on its side. */
  ghost predicate ScriptFor(c: Context, deltaOnly: bool, script: seq<Edit>) {
    && (forall i :: i in c.matchings ==> Resolved(c, i))
    && (forall i :: i in c.unmatchedSource ==> i in c.sourceIndex && Remove(c.sourceIndex[i]) in script)
    && (forall i :: i in c.unmatchedTarget ==> i in c.targetIndex && Insert(c.targetIndex[i]) in script)
    && (forall i :: i in c.matchings ==> PairReported(c, deltaOnly, i, script))
    && ExactlyOnce(SourceEnds(script), c.unmatchedSource + Reported(c, deltaOnly, c.matchings.Keys))
    && ExactlyOnce(TargetEnds(script), c.unmatchedTarget + Images(c, Reported(c, deltaOnly, c.matchings.Keys)))
  }

  method EmitUnmatched(c: Context) returns (script: seq<Edit>)
    requires Consistent(c) && NamedById(c.sourceIndex) && NamedById(c.targetIndex)
    ensures ExactlyOnce(SourceEnds(script), c.unmatchedSource) && ExactlyOnce(TargetEnds(script), c.unmatchedTarget)
    ensures forall i :: i in c.unmatchedSource ==> Remove(c.sourceIndex[i]) in script
    ensures forall i :: i in c.unmatchedTarget ==> Insert(c.targetIndex[i]) in script
  {
    var removes := EmitRemoves(c);
    var inserts := EmitInserts(c);
    EndsOfConcat(removes, inserts);
    script := removes + inserts;
  }

  lemma {:induction false} PairReportedAfter(c: Context, deltaOnly: bool, i: Id, before: seq<Edit>, script: seq<Edit>)
    requires Resolved(c, i) && PairReported(c, deltaOnly, i, script)
    ensures PairReported(c, deltaOnly, i, before + script)
  {
    hide PairEdits;
    var part: seq<Edit>, moved: seq<Id> :| Within(part, script) &&
      PairEdits(c, c.sourceIndex[i], c.targetIndex[c.matchings[i]], deltaOnly, part, moved);
    WithinAfter(part, before, script);
  }

  lemma {:induction false} WithinAfter(part: seq<Edit>, before: seq<Edit>, script: seq<Edit>)
    requires Within(part, script)
    ensures Within(part, before + script)
  {
    var front: seq<Edit>, after: seq<Edit> :| script == front + part + after;
    assert before + script == (before + front) + part + after;
  }

  lemma {:induction false} OnceEach(m: multiset<Id>, s: set<Id>, m': multiset<Id>, s': set<Id>)
    requires ExactlyOnce(m, s) && ExactlyOnce(m', s') && s !! s'
    ensures ExactlyOnce(m + m', s + s')
  {
  }

  lemma {:induction false} SplitEnds(c: Context, deltaOnly: bool)
    requires Consistent(c) && AllIndexed(c)
    ensures forall i :: i in c.matchings ==> Resolved(c, i)
    ensures c.unmatchedSource !! Reported(c, deltaOnly, c.matchings.Keys)
    ensures c.unmatchedTarget !! Images(c, Reported(c, deltaOnly, c.matchings.Keys))
  {
    forall x | x in Images(c, Reported(c, deltaOnly, c.matchings.Keys)) ensures x !in c.unmatchedTarget {
      var i :| i in c.matchings && c.matchings[i] == x;
      assert x in c.matchings.Values;
    }
  }

  lemma {:induction false} ScriptParts(c: Context, deltaOnly: bool, script: seq<Edit>, pairs: seq<Edit>)
    requires Consistent(c) && AllIndexed(c) && PairsEmitted(c, deltaOnly, c.matchings.Keys, pairs)
    requires ExactlyOnce(SourceEnds(script), c.unmatchedSource) && ExactlyOnce(TargetEnds(script), c.unmatchedTarget)
    requires forall i :: i in c.unmatchedSource ==> i in c.sourceIndex && Remove(c.sourceIndex[i]) in script
    requires forall i :: i in c.unmatchedTarget ==> i in c.targetIndex && Insert(c.targetIndex[i]) in script
    ensures ScriptFor(c, deltaOnly, script + pairs)
  {
    hide Consistent, ExactlyOnce, SourceEnds, TargetEnds, Images, PairReported;
    SplitEnds(c, deltaOnly);
    EndsOfConcat(script, pairs);
    OnceEach(SourceEnds(script), c.unmatchedSource, SourceEnds(pairs), Reported(c, deltaOnly, c.matchings.Keys));
    OnceEach(TargetEnds(script), c.unmatchedTarget, TargetEnds(pairs),
      Images(c, Reported(c, deltaOnly, c.matchings.Keys)));
    forall i | i in c.matchings ensures PairReported(c, deltaOnly, i, script + pairs) {
      PairReportedAfter(c, deltaOnly, i, script, pairs);
    }
  }

  /** `_generate_edit_script` */
  method GenerateEditScript(c: Context, deltaOnly: bool) returns (r: Result<seq<Edit>>)
    requires Consistent(c) && NamedById(c.sourceIndex) && NamedById(c.targetIndex)
    ensures r.KeyError? <==> !AllIndexed(c)
    ensures r.Done? ==> ScriptFor(c, deltaOnly, r.value)
  {
    var script := EmitUnmatched(c);
    var pairs := EmitPairs(c, deltaOnly);
    if pairs.KeyError? {
      return KeyError;
    }
    hide PairsEmitted, ExactlyOnce, ScriptFor, NamedById;
    ScriptParts(c, deltaOnly, script, pairs.value);
    r := Done(script + pairs.value);
  }

  /** Without `deltaOnly` no indexed node is missing: removed, updated or kept on the source side,
      inserted, updated or kept on the target side, each exactly once. */
  lemma {:induction false} ScriptAccountsForAll(c: Context, script: seq<Edit>)
    requires Consistent(c) && AllIndexed(c) && ScriptFor(c, false, script)
    ensures ExactlyOnce(SourceEnds(script), c.sourceIndex.Keys)
    ensures ExactlyOnce(TargetEnds(script), c.targetIndex.Keys)
  {
    hide SourceEnds, TargetEnds, PairReported;
    var told := Reported(c, false, c.matchings.Keys);
    assert told == c.matchings.Keys;
    forall i | i in c.sourceIndex ensures i in c.unmatchedSource || i in told {}
    forall i | i in told ensures Resolved(c, i) {}
    assert c.unmatchedSource + told == c.sourceIndex.Keys;
    forall j | j in c.targetIndex ensures j in c.unmatchedTarget || j in Images(c, told) {
      if j in c.matchings.Values {
        var i :| i in c.matchings && c.matchings[i] == j;
        assert i in told;
      }
    }
    assert c.unmatchedTarget + Images(c, told) == c.targetIndex.Keys;
  }
}
