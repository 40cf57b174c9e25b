/** Greedy matching of two trees (sqlglot/diff.py, `ChangeDistiller`). */
module Matching {
  import opened Collections
  import opened DiffTree
  import Ast
  import EditScript

  type Pair = (Id, Id)

  /** Heap keys are compared left to right; `count` is the number of candidates pushed before. */
  datatype Key = Key(score: real, parents: int, count: nat)

  /** The places of two leaves among the leaves of their trees. */
  type Place = (nat, nat)

  ghost predicate Earlier(p: Place, q: Place) { p.0 < q.0 || (p.0 == q.0 && p.1 < q.1) }

  datatype Cand = Cand(key: Key, source: Tree, target: Tree) {
    ghost predicate Joins(other: Cand) {
      source.id == other.source.id || target.id == other.target.id
    }
  }

  predicate Less(k: Key, l: Key) {
    k.score < l.score ||
      (k.score == l.score && (k.parents < l.parents || (k.parents == l.parents && k.count < l.count)))
  }

  ghost function Firsts(m: set<Pair>): set<Id> { set p | p in m :: p.0 }
  ghost function Seconds(m: set<Pair>): set<Id> { set p | p in m :: p.1 }

  /** No identity occurs twice on either side. */
  ghost predicate OneToOne(m: set<Pair>) {
    forall p, q :: p in m && q in m && (p.0 == q.0 || p.1 == q.1) ==> p == q
  }

  ghost function PairsOf(cs: set<Cand>): set<Pair> { set c | c in cs :: (c.source.id, c.target.id) }

  /** Every candidate with two free ends was chosen or lost to a chosen one with a smaller key. */
  ghost predicate Stable(cands: set<Cand>, chosen: set<Cand>, freeSource: set<Id>, freeTarget: set<Id>) {
    forall c :: c in cands && c.source.id in freeSource && c.target.id in freeTarget ==>
      c in chosen || exists d :: d in chosen && d.Joins(c) && Less(d.key, c.key)
  }

  ghost predicate Counted(cands: seq<Cand>) {
    forall i, j :: 0 <= i < j < |cands| ==> cands[i].key.count != cands[j].key.count
  }

  /** `heappop`: take out the candidate with the smallest key. */
  method PopMin(heap: seq<Cand>) returns (min: Cand, rest: seq<Cand>)
    requires heap != [] && Counted(heap)
    ensures Elems(heap) == Elems(rest) + {min} && Counted(rest)
    ensures forall c :: c in Elems(rest) ==> Less(min.key, c.key)
    ensures |rest| == |heap| - 1
  {
    var best := 0;
    for k := 1 to |heap|
      invariant 0 <= best < |heap|
      invariant forall l :: 0 <= l < k && l != best ==> Less(heap[best].key, heap[l].key)
    {
      if Less(heap[k].key, heap[best].key) {
        best := k;
      }
    }
    min, rest := heap[best], RemoveAt(heap, best);
    Removed(heap, best);
  }

  lemma {:induction false} Removed(heap: seq<Cand>, best: nat)
    requires best < |heap|
    ensures Elems(heap) == Elems(RemoveAt(heap, best)) + {heap[best]}
    ensures forall c :: c in Elems(RemoveAt(heap, best)) ==> exists l :: 0 <= l < |heap| && l != best && heap[l] == c
    ensures Counted(heap) ==> Counted(RemoveAt(heap, best))
  {
    var rest := RemoveAt(heap, best);
    assert forall k :: 0 <= k < |rest| ==> rest[k] == heap[if k < best then k else k + 1];
    forall c | c in heap && c != heap[best] ensures c in rest {
      var l :| 0 <= l < |heap| && heap[l] == c;
      assert rest[if l < best then l else l - 1] == c;
    }
  }

  class ChangeDistiller {
    const f: real
    const t: real
    /** Bigram similarity of two printed nodes, and the length of the common chain of parent types. */
    const dice: (Tree, Tree) -> real
    const parentSimilarity: (Tree, Tree) -> nat
    const sameType: (Tree, Tree) -> bool
    /** The `parent` of each node, also of the roots where they have one. */
    const sourceUp: map<Id, Id>
    const targetUp: map<Id, Id>

    var source: Tree
    var target: Tree
    var sourceIndex: map<Id, Tree>
    var targetIndex: map<Id, Tree>
    var unmatchedSource: set<Id>
    var unmatchedTarget: set<Id>

    constructor (f: real, t: real, dice: (Tree, Tree) -> real, parentSimilarity: (Tree, Tree) -> nat,
                 sameType: (Tree, Tree) -> bool, source: Tree, target: Tree,
                 sourceUp: map<Id, Id>, targetUp: map<Id, Id>)
      ensures this.source == source && this.target == target
    {
      this.sourceUp, this.targetUp := sourceUp, targetUp;
      this.f, this.t, this.dice, this.parentSimilarity, this.sameType := f, t, dice, parentSimilarity, sameType;
      this.source, this.target := source, target;
      sourceIndex, targetIndex, unmatchedSource, unmatchedTarget := map[], map[], {}, {};
    }

    ghost predicate Indexed()
      reads this
    {
      && Unshared(source) && Unshared(target)
      && IsIndex(sourceIndex, source) && IsIndex(targetIndex, target)
      && unmatchedSource <= sourceIndex.Keys && unmatchedTarget <= targetIndex.Keys
    }

    /** `m` and the two unmatched sets share out what was free before. */
    ghost predicate SharesOut(m: set<Pair>, freeSource: set<Id>, freeTarget: set<Id>)
      reads this
    {
      && OneToOne(m)
      && Firsts(m) !! unmatchedSource && Firsts(m) + unmatchedSource == freeSource
      && Seconds(m) !! unmatchedTarget && Seconds(m) + unmatchedTarget == freeTarget
    }

    predicate IsCandidate(a: Tree, b: Tree) { sameType(a, b) && dice(a, b) >= f }

    function KeyOf(a: Tree, b: Tree, count: nat): Key {
      Key(-dice(a, b), 0 - parentSimilarity(a, b) as int, count)
    }

    predicate InRange(p: Place)
      reads this`source, this`target
    {
      p.0 < |Leaves(source)| && p.1 < |Leaves(target)|
    }

    /** The candidate at `p`, pushed after `count` others. */
    ghost predicate FromLeaves(c: Cand, p: Place, count: nat)
      reads this`source, this`target
    {
      && InRange(p) && c.source == Leaves(source)[p.0] && c.target == Leaves(target)[p.1]
      && IsCandidate(c.source, c.target) && c.key == KeyOf(c.source, c.target, count)
    }

    /** The heap holds the candidates before `next`, in the order of their places: source leaves first, then target
        leaves. */
    ghost predicate Pushed(heap: seq<Cand>, places: seq<Place>, next: Place)
      reads this`source, this`target
    {
      && |places| == |heap|
      && (forall k :: 0 <= k < |heap| ==> FromLeaves(heap[k], places[k], k) && Earlier(places[k], next))
      && (forall k, l :: 0 <= k < l < |places| ==> Earlier(places[k], places[l]))
      && forall p: Place ::
           Earlier(p, next) && InRange(p) && IsCandidate(Leaves(source)[p.0], Leaves(target)[p.1]) ==> p in places
    }

    /** The candidates are exactly the similar pairs of leaves, each with its key. */
    ghost predicate AllCandidates(heap: seq<Cand>, places: seq<Place>)
      reads this`source, this`target
    {
      Pushed(heap, places, (|Leaves(source)|, 0))
    }

    lemma {:induction false} PushedMore(heap: seq<Cand>, places: seq<Place>, p: Place)
      requires Pushed(heap, places, p) && p.0 < |Leaves(source)| && p.1 < |Leaves(target)|
      ensures var a, b := Leaves(source)[p.0], Leaves(target)[p.1];
        if IsCandidate(a, b)
        then Pushed(heap + [Cand(KeyOf(a, b, |heap|), a, b)], places + [p], (p.0, p.1 + 1))
        else Pushed(heap, places, (p.0, p.1 + 1))
    {
      assert (places + [p])[|places|] == p;
      assert forall q: Place :: Earlier(q, (p.0, p.1 + 1)) ==> Earlier(q, p) || q == p;
      assert forall q: Place :: q in places ==> q in places + [p];
    }

    lemma {:induction false} NextSource(heap: seq<Cand>, places: seq<Place>, i: nat)
      requires Pushed(heap, places, (i, |Leaves(target)|))
      ensures Pushed(heap, places, (i + 1, 0))
    {
    }

    method PushCandidates() returns (heap: seq<Cand>, ghost places: seq<Place>)
      ensures AllCandidates(heap, places)
    {
      hide *;
      NonePushed();
      heap, places := [], [];
      var sourceLeaves, targetLeaves := Leaves(source), Leaves(target);
      for i := 0 to |sourceLeaves|
        invariant Pushed(heap, places, (i, 0))
      {
        hide *;
        var a := sourceLeaves[i];
        for j := 0 to |targetLeaves|
          invariant Pushed(heap, places, (i, j))
        {
          hide *;
          var b := targetLeaves[j];
          PushedMore(heap, places, (i, j));
          if IsCandidate(a, b) {
            heap, places := heap + [Cand(KeyOf(a, b, |heap|), a, b)], places + [(i, j)];
          }
        }
        NextSource(heap, places, i);
      }
      AllPushed(heap, places);
    }

    lemma {:induction false} NonePushed()
      ensures Pushed([], [], (0, 0))
    {
    }

    lemma {:induction false} AllPushed(heap: seq<Cand>, places: seq<Place>)
      requires Pushed(heap, places, (|Leaves(source)|, 0))
      ensures AllCandidates(heap, places)
    {
    }

    // ---- What the order of the heap is for ----

    /** The pair at place `p` is more similar than the one at `q`, or as similar with more parents in common, or it has
        as many of these, too, and comes first. */
    ghost predicate Preferred(p: Place, q: Place)
      requires InRange(p) && InRange(q)
      reads this`source, this`target
    {
      var a, b, c, d := Leaves(source)[p.0], Leaves(target)[p.1], Leaves(source)[q.0], Leaves(target)[q.1];
      || dice(a, b) > dice(c, d)
      || (dice(a, b) == dice(c, d) && parentSimilarity(a, b) > parentSimilarity(c, d))
      || (dice(a, b) == dice(c, d) && parentSimilarity(a, b) == parentSimilarity(c, d) && Earlier(p, q))
    }

    /** The leaves at place `p` are of one type, similar, and free. */
    ghost predicate CanMatch(p: Place, freeSource: set<Id>, freeTarget: set<Id>)
      reads this`source, this`target
    {
      && InRange(p)
      && sameType(Leaves(source)[p.0], Leaves(target)[p.1]) && dice(Leaves(source)[p.0], Leaves(target)[p.1]) >= f
      && Leaves(source)[p.0].id in freeSource && Leaves(target)[p.1].id in freeTarget
    }

    /** Exactly pairs that can match are matched, and one that is not shares an end with a matched pair that is
        preferred. */
    ghost predicate MostSimilarFirst(matching: set<Pair>, freeSource: set<Id>, freeTarget: set<Id>)
      reads this`source, this`target
    {
      && (forall m :: m in matching ==> exists p: Place :: CanMatch(p, freeSource, freeTarget) && IdsAt(p) == m)
      && forall q: Place :: CanMatch(q, freeSource, freeTarget) ==>
           || IdsAt(q) in matching
           || exists p: Place ::
                && CanMatch(p, freeSource, freeTarget) && IdsAt(p) in matching && Preferred(p, q)
                && (IdsAt(p).0 == IdsAt(q).0 || IdsAt(p).1 == IdsAt(q).1)
    }

    ghost function IdsAt(p: Place): Pair
      requires InRange(p)
      reads this`source, this`target
    {
      (Leaves(source)[p.0].id, Leaves(target)[p.1].id)
    }

    lemma {:induction false} ChosenAreMostSimilar(cands: seq<Cand>, places: seq<Place>, chosen: set<Cand>,
        matching: set<Pair>, freeSource: set<Id>, freeTarget: set<Id>)
      requires AllCandidates(cands, places)
      requires chosen <= Elems(cands) && matching == PairsOf(chosen)
      requires Stable(Elems(cands), chosen, freeSource, freeTarget)
      requires Firsts(matching) <= freeSource && Seconds(matching) <= freeTarget
      ensures MostSimilarFirst(matching, freeSource, freeTarget)
    {
      forall m | m in matching ensures exists p: Place :: CanMatch(p, freeSource, freeTarget) && IdsAt(p) == m {
        var c :| c in chosen && (c.source.id, c.target.id) == m;
        var k := PlaceOfChosen(cands, places, chosen, matching, c, freeSource, freeTarget);
      }
      forall q: Place | CanMatch(q, freeSource, freeTarget) && IdsAt(q) !in matching
        ensures exists p: Place ::
          && CanMatch(p, freeSource, freeTarget) && IdsAt(p) in matching && Preferred(p, q)
          && (IdsAt(p).0 == IdsAt(q).0 || IdsAt(p).1 == IdsAt(q).1)
      {
        assert Earlier(q, (|Leaves(source)|, 0)) && q in places;
        var k :| 0 <= k < |places| && places[k] == q;
        LostToBetter(cands, places, chosen, matching, k, freeSource, freeTarget);
      }
    }

    lemma {:induction false} PlaceOfChosen(cands: seq<Cand>, places: seq<Place>, chosen: set<Cand>, matching: set<Pair>,
        c: Cand, freeSource: set<Id>, freeTarget: set<Id>) returns (k: nat)
      requires AllCandidates(cands, places) && chosen <= Elems(cands) && c in chosen
      requires matching == PairsOf(chosen) && Firsts(matching) <= freeSource && Seconds(matching) <= freeTarget
      ensures k < |cands| && cands[k] == c && CanMatch(places[k], freeSource, freeTarget)
      ensures IdsAt(places[k]) == (c.source.id, c.target.id) && IdsAt(places[k]) in matching
    {
      k :| 0 <= k < |cands| && cands[k] == c;
      assert FromLeaves(cands[k], places[k], k);
      var m := (c.source.id, c.target.id);
      assert m in matching && m.0 in Firsts(matching) && m.1 in Seconds(matching);
    }

    lemma {:induction false} LostToBetter(cands: seq<Cand>, places: seq<Place>, chosen: set<Cand>, matching: set<Pair>,
        k: nat, freeSource: set<Id>, freeTarget: set<Id>)
      requires AllCandidates(cands, places) && k < |cands|
      requires chosen <= Elems(cands) && matching == PairsOf(chosen)
      requires Stable(Elems(cands), chosen, freeSource, freeTarget)
      requires Firsts(matching) <= freeSource && Seconds(matching) <= freeTarget
      requires CanMatch(places[k], freeSource, freeTarget) && IdsAt(places[k]) !in matching
      ensures exists p: Place ::
        && CanMatch(p, freeSource, freeTarget) && IdsAt(p) in matching && Preferred(p, places[k])
        && (IdsAt(p).0 == IdsAt(places[k]).0 || IdsAt(p).1 == IdsAt(places[k]).1)
    {
      var c := cands[k];
      assert FromLeaves(c, places[k], k);
      assert c in Elems(cands);
      assert c !in chosen by {
        ChosenIsPaired(chosen, c);
      }
      var d :| d in chosen && d.Joins(c) && Less(d.key, c.key);
      var l := PlaceOfChosen(cands, places, chosen, matching, d, freeSource, freeTarget);
      assert FromLeaves(d, places[l], l);
      assert Preferred(places[l], places[k]);
    }

    /** The candidates are pairs of indexed nodes, unless a root itself is ignored. */
    lemma {:induction false} CandidatesAreIndexed(heap: seq<Cand>, places: seq<Place>)
      requires Indexed() && AllCandidates(heap, places) && !Ignored(source) && !Ignored(target)
      ensures forall k :: 0 <= k < |heap| ==>
                && heap[k].source.id in sourceIndex && sourceIndex[heap[k].source.id] == heap[k].source
                && heap[k].target.id in targetIndex && targetIndex[heap[k].target.id] == heap[k].target
    {
      LeavesAreNodes(source);
      LeavesAreNodes(target);
      assert forall k :: 0 <= k < |heap| ==> FromLeaves(heap[k], places[k], k);
    }

    /** Record one match: both ends leave the unmatched sets. */
    method Match(a: Id, b: Id, matching: set<Pair>, ghost freeSource: set<Id>, ghost freeTarget: set<Id>)
      returns (extended: set<Pair>)
      requires Indexed() && SharesOut(matching, freeSource, freeTarget)
      requires a in unmatchedSource && b in unmatchedTarget
      modifies this`unmatchedSource, this`unmatchedTarget
      ensures Indexed() && SharesOut(extended, freeSource, freeTarget) && extended == matching + {(a, b)}
      ensures unmatchedSource == old(unmatchedSource) - {a} && unmatchedTarget == old(unmatchedTarget) - {b}
    {
      EndsOfExtended(matching, (a, b));
      assert a !in Firsts(matching) && b !in Seconds(matching);
      forall p | p in matching ensures p.0 != a && p.1 != b {
        assert p.0 in Firsts(matching) && p.1 in Seconds(matching);
      }
      extended := matching + {(a, b)};
      unmatchedSource := unmatchedSource - {a};
      unmatchedTarget := unmatchedTarget - {b};
    }

    /** What holds while the heap is emptied: the choice so far is consistent and stable. */
    ghost predicate Chosen(matching: set<Pair>, popped: set<Cand>, chosen: set<Cand>,
                           freeSource: set<Id>, freeTarget: set<Id>)
      reads this
    {
      && Indexed() && SharesOut(matching, freeSource, freeTarget)
      && chosen <= popped && matching == PairsOf(chosen)
      && Stable(popped, chosen, freeSource, freeTarget)
    }

    /** One pass of the loop that picks the best matchings. */
    method TryCandidate(c: Cand, matching: set<Pair>, ghost popped: set<Cand>, ghost chosen: set<Cand>,
                        ghost freeSource: set<Id>, ghost freeTarget: set<Id>)
      returns (matching': set<Pair>, ghost chosen': set<Cand>)
      requires Chosen(matching, popped, chosen, freeSource, freeTarget) && InKeyOrder(popped, {c})
      modifies this`unmatchedSource, this`unmatchedTarget
      ensures Chosen(matching', popped + {c}, chosen', freeSource, freeTarget)
    {
      hide Stable, OneToOne, Unshared, IsIndex;
      StablePop(popped, chosen, c, freeSource, freeTarget);
      matching', chosen' := matching, chosen;
      if c.source.id in unmatchedSource && c.target.id in unmatchedTarget {
        matching' := Match(c.source.id, c.target.id, matching, freeSource, freeTarget);
        ChooseMore(chosen, c);
        chosen' := chosen + {c};
      }
    }

    /** The candidates with the smallest keys are matched first. */
    method ComputeLeafMatchingSet()
      returns (matching: set<Pair>, ghost cands: seq<Cand>, ghost places: seq<Place>, ghost chosen: set<Cand>)
      requires Indexed()
      modifies this`unmatchedSource, this`unmatchedTarget
      ensures AllCandidates(cands, places) && MostSimilarFirst(matching, old(unmatchedSource), old(unmatchedTarget))
      ensures Chosen(matching, Elems(cands), chosen, old(unmatchedSource), old(unmatchedTarget))
    {
      hide Pushed;
      var heap;
      heap, places := PushCandidates();
      cands := heap;
      matching, chosen := {}, {};
      CandidatesAreCounted(heap, places);
      ghost var popped: set<Cand> := {};
      EmptyEnds();
      assert {} + Elems(heap) == Elems(heap);
      while heap != []
        invariant Counted(heap) && Elems(cands) == popped + Elems(heap) && InKeyOrder(popped, Elems(heap))
        invariant Chosen(matching, popped, chosen, old(unmatchedSource), old(unmatchedTarget))
        decreases |heap|
      {
        hide Chosen, AllCandidates, Pushed;
        var c;
        c, heap := PopMin(heap);
        matching, chosen := TryCandidate(c, matching, popped, chosen, old(unmatchedSource), old(unmatchedTarget));
        popped := popped + {c};
      }
      assert popped + Elems([]) == popped;
      ChosenAreMostSimilar(cands, places, chosen, matching, old(unmatchedSource), old(unmatchedTarget));
    }

    lemma {:induction false} CandidatesAreCounted(heap: seq<Cand>, places: seq<Place>)
      requires AllCandidates(heap, places)
      ensures Counted(heap)
    {
      forall i, j | 0 <= i < j < |heap| ensures heap[i].key.count != heap[j].key.count {
        assert FromLeaves(heap[i], places[i], i) && FromLeaves(heap[j], places[j], j);
      }
    }

    /** Are two inner nodes similar enough, given how many of their leaves were matched to each other? */
    predicate Similar(leafMatching: set<Pair>, a: Tree, b: Tree) {
      var as', bs := LeafIds(a), LeafIds(b);
      var most := if |as'| > |bs| then |as'| else |bs|;
      var least := if |as'| < |bs| then |as'| else |bs|;
      var score := if most > 0 then CommonLeaves(leafMatching, as', bs) as real / most as real else 0.0;
      var threshold := if least > 4 then t else 0.4;
      sameType(a, b) && (score >= 0.8 || (score >= threshold && dice(a, b) >= f))
    }

    /** Two inner nodes of one type are matched if four fifths of the leaves of each are matched to leaves of the other;
        or if they are similar as texts and it is two fifths, or the share `t` where both have more than four leaves. */
    lemma {:induction false} SimilarIff(leafMatching: set<Pair>, a: Tree, b: Tree)
      ensures
        var common := |set m | m in leafMatching && IsLeafId(a, m.0) && IsLeafId(b, m.1)|;
        var x, y := |LeafIds(a)|, |LeafIds(b)|;
        Similar(leafMatching, a, b) <==>
        && sameType(a, b)
        && (|| (5 * common >= 4 * x && 5 * common >= 4 * y)
            || (dice(a, b) >= f &&
                if x > 4 && y > 4 then common as real >= t * x as real && common as real >= t * y as real
                else 5 * common >= 2 * x && 5 * common >= 2 * y))
    {
      var common := CommonLeaves(leafMatching, LeafIds(a), LeafIds(b));
      CommonCount(leafMatching, a, b);
      HasLeaf(a);
      HasLeaf(b);
      hide CommonLeaves, IsLeafId, LeafIds;
      var x, y := |LeafIds(a)|, |LeafIds(b)|;
      var most := if x > y then x else y;
      Fifths(common, most);
      ShareAtLeast(common, most, t);
      AtLeastOfBoth(common, x, y, t);
    }

    ghost predicate SimilarIds(leafMatching: set<Pair>, a: Id, b: Id)
      reads this`sourceIndex, this`targetIndex
    {
      a in sourceIndex && b in targetIndex && Similar(leafMatching, sourceIndex[a], targetIndex[b])
    }

    /** The place of the first target that is similar enough to `a`; behind the last one if there is none. */
    ghost function FirstFor(a: Id, targets: seq<Id>, leafMatching: set<Pair>): (k: nat)
      ensures k <= |targets| && (k < |targets| ==> SimilarIds(leafMatching, a, targets[k]))
      ensures forall l :: 0 <= l < k ==> !SimilarIds(leafMatching, a, targets[l])
      reads this`sourceIndex, this`targetIndex
    {
      if targets == [] || SimilarIds(leafMatching, a, targets[0]) then 0
      else
        var k := FirstFor(a, targets[1..], leafMatching);
        assert forall l :: 0 < l < 1 + k ==> targets[l] == targets[1..][l - 1];
        1 + k
    }

    /** Each source in turn takes the first similar target that is left. */
    ghost function FirstFit(sources: seq<Id>, targets: seq<Id>, leafMatching: set<Pair>): set<Pair>
      reads this`sourceIndex, this`targetIndex
      decreases |sources|
    {
      if sources == [] then {}
      else
        var k := FirstFor(sources[0], targets, leafMatching);
        if k == |targets| then FirstFit(sources[1..], targets, leafMatching)
        else {(sources[0], targets[k])} + FirstFit(sources[1..], RemoveAt(targets, k), leafMatching)
    }

    /** A similar pair is matched, or its source has taken an earlier target, or its target was taken by an earlier
        source. */
    lemma {:induction false} FirstFitIsGreedy(sources: seq<Id>, targets: seq<Id>, leafMatching: set<Pair>, i: nat,
        j: nat)
      requires i < |sources| && j < |targets| && SimilarIds(leafMatching, sources[i], targets[j])
      ensures var m := FirstFit(sources, targets, leafMatching);
        || (sources[i], targets[j]) in m
        || (exists l :: 0 <= l < j && (sources[i], targets[l]) in m)
        || (exists h :: 0 <= h < i && (sources[h], targets[j]) in m)
      decreases i
    {
      hide SimilarIds, FirstFit, FirstFor;
      var m, k, first, later :=
        FirstFit(sources, targets, leafMatching), FirstFor(sources[0], targets, leafMatching), sources[0], sources[1..];
      FirstFitStep(sources, 0, targets, leafMatching, k);
      FirstForFinds(first, targets, leafMatching);
      assert sources[0..] == sources;
      if i == 0 {
        assert (first, targets[k]) in m;
      } else if k == |targets| {
        FirstFitIsGreedy(later, targets, leafMatching, i - 1, j);
        if h :| 0 <= h < i - 1 && (later[h], targets[j]) in m { assert (sources[h + 1], targets[j]) in m; }
      } else if j == k {
        assert (first, targets[j]) in m;
      } else {
        var rest, j' := RemoveAt(targets, k), if j < k then j else j - 1;
        FirstFitIsGreedy(later, rest, leafMatching, i - 1, j');
        FitsBehind(sources, targets, FirstFit(later, rest, leafMatching), i, j, k);
      }
    }

    /** What holds for the sources behind the first one and the targets that are left holds for all. */
    lemma {:induction false} FitsBehind(sources: seq<Id>, targets: seq<Id>, m: set<Pair>, i: nat, j: nat, k: nat)
      requires 0 < i < |sources| && j < |targets| && k < |targets| && j != k
      requires var rest, j' := RemoveAt(targets, k), if j < k then j else j - 1;
        || (sources[1..][i - 1], rest[j']) in m
        || (exists l :: 0 <= l < j' && (sources[1..][i - 1], rest[l]) in m)
        || (exists h :: 0 <= h < i - 1 && (sources[1..][h], rest[j']) in m)
      ensures
        || (sources[i], targets[j]) in m
        || (exists l :: 0 <= l < j && (sources[i], targets[l]) in m)
        || (exists h :: 0 <= h < i && (sources[h], targets[j]) in m)
    {
      var rest, j' := RemoveAt(targets, k), if j < k then j else j - 1;
      assert rest[j'] == targets[j];
      if l :| 0 <= l < j' && (sources[i], rest[l]) in m {
        assert rest[l] == targets[if l < k then l else l + 1];
      }
      if h :| 0 <= h < i - 1 && (sources[1..][h], rest[j']) in m { assert (sources[h + 1], targets[j]) in m; }
    }

    lemma {:induction false} FirstFitStep(sources: seq<Id>, i: nat, targets: seq<Id>, leaves: set<Pair>, k: nat)
      requires i < |sources| && k == FirstFor(sources[i], targets, leaves)
      ensures FirstFit(sources[i..], targets, leaves) ==
              if k == |targets| then FirstFit(sources[i + 1..], targets, leaves)
              else {(sources[i], targets[k])} + FirstFit(sources[i + 1..], RemoveAt(targets, k), leaves)
    {
      assert sources[i..][0] == sources[i] && sources[i..][1..] == sources[i + 1..];
    }

    lemma {:induction false} FirstForFinds(a: Id, targets: seq<Id>, leaves: set<Pair>)
      ensures var k := FirstFor(a, targets, leaves);
        && k <= |targets| && (k < |targets| ==> SimilarIds(leaves, a, targets[k]))
        && forall l :: 0 <= l < k ==> !SimilarIds(leaves, a, targets[l])
    {
    }

    /** The inner loop. */
    method FirstSimilar(a: Id, targets: seq<Id>, leafMatching: set<Pair>) returns (k: nat)
      requires a in sourceIndex && forall b :: b in targets ==> b in targetIndex
      ensures k == FirstFor(a, targets, leafMatching)
    {
      k := 0;
      while k < |targets|
        invariant 0 <= k <= |targets| && forall l :: 0 <= l < k ==> !SimilarIds(leafMatching, a, targets[l])
      {
        assert targets[k] in targets;
        if Similar(leafMatching, sourceIndex[a], targetIndex[targets[k]]) {
          return;
        }
        k := k + 1;
      }
    }

    /** The target identities still to be paired, without repetition. */
    ghost predicate Waiting(targets: seq<Id>)
      reads this`unmatchedTarget
    {
      && (forall b :: b in targets <==> b in unmatchedTarget)
      && (forall k, l :: 0 <= k < l < |targets| ==> targets[k] != targets[l])
    }

    /** Sources before `i` are paired, or similar to no target that is left. */
    ghost predicate Processed(leaves: set<Pair>, sources: seq<Id>, i: nat, targets: seq<Id>)
      reads this`sourceIndex, this`targetIndex, this`unmatchedSource
    {
      && (forall a :: a in unmatchedSource ==> a in sources)
      && (forall k, b :: 0 <= k < |sources| && k < i && sources[k] in unmatchedSource && b in targets ==>
            !SimilarIds(leaves, sources[k], b))
    }

    /** Sources from `i` on are free, and each occurs once. */
    ghost predicate StillFree(sources: seq<Id>, i: nat)
      reads this`unmatchedSource
    {
      && (forall k :: i <= k < |sources| ==> sources[k] in unmatchedSource)
      && (forall k, l :: 0 <= k < l < |sources| ==> sources[k] != sources[l])
    }

    /** Pairs beyond the matched leaves are similar. */
    ghost predicate OnlySimilar(leaves: set<Pair>, matching: set<Pair>)
      reads this`sourceIndex, this`targetIndex
    {
      leaves <= matching && forall p :: p in matching - leaves ==> SimilarIds(leaves, p.0, p.1)
    }

    /** One pass of the outer loop. */
    method TrySource(leaves: set<Pair>, matching: set<Pair>, sources: seq<Id>, i: nat, targets: seq<Id>,
                     ghost freeSource: set<Id>, ghost freeTarget: set<Id>)
      returns (matching': set<Pair>, targets': seq<Id>)
      requires i < |sources| && Indexed() && SharesOut(matching, freeSource, freeTarget)
      requires Processed(leaves, sources, i, targets) && StillFree(sources, i) && Waiting(targets)
      requires OnlySimilar(leaves, matching)
      modifies this`unmatchedSource, this`unmatchedTarget
      ensures Indexed() && SharesOut(matching', freeSource, freeTarget)
      ensures matching' + FirstFit(sources[i + 1..], targets', leaves) == matching +
                FirstFit(sources[i..], targets, leaves)
      ensures Processed(leaves, sources, i + 1, targets') && StillFree(sources, i + 1) && Waiting(targets')
      ensures OnlySimilar(leaves, matching')
    {
      hide OneToOne, SharesOut, Unshared, IsIndex, SimilarIds;
      hide FirstFit, FirstFor;
      matching', targets' := matching, targets;
      var k := FirstSimilar(sources[i], targets, leaves);
      FirstFitStep(sources, i, targets, leaves, k);
      FirstForFinds(sources[i], targets, leaves);
      if k < |targets| {
        assert targets[k] in targets;
        matching' := Match(sources[i], targets[k], matching, freeSource, freeTarget);
        targets' := RemoveAt(targets, k);
        Without(targets, k);
      } else {
        forall b | b in targets ensures !SimilarIds(leaves, sources[i], b) {
          var l :| 0 <= l < |targets| && targets[l] == b;
        }
      }
    }

    method ComputeMatchingSet() returns (matching: set<Pair>, ghost leafMatching: set<Pair>)
      requires Indexed()
      modifies this`unmatchedSource, this`unmatchedTarget
      ensures Indexed() && SharesOut(matching, old(unmatchedSource), old(unmatchedTarget))
      ensures OneToOne(leafMatching) && MostSimilarFirst(leafMatching, old(unmatchedSource), old(unmatchedTarget))
      ensures OnlySimilar(leafMatching, matching)
      ensures var freeSource, freeTarget :=
                old(unmatchedSource) - Firsts(leafMatching), old(unmatchedTarget) - Seconds(leafMatching);
        matching == leafMatching +
          FirstFit(IdsIn(Walk([source]), freeSource), IdsIn(Walk([target]), freeTarget), leafMatching)
      ensures forall a, b :: a in unmatchedSource && b in unmatchedTarget ==> !SimilarIds(leafMatching, a, b)
    {
      hide OneToOne, Unshared, IsIndex, SimilarIds, Stable, AllCandidates, FirstFit, IdsIn, Walk, Firsts, Seconds,
        MostSimilarFirst;
      var leaves;
      ghost var cands, places, chosen;
      leaves, cands, places, chosen := ComputeLeafMatchingSet();
      hide SharesOut;
      matching, leafMatching := leaves, leaves;
      IndexedIds();
      var sources := OrderedIds(source, unmatchedSource);
      var targets := OrderedIds(target, unmatchedTarget);
      FreeEnds(leaves, old(unmatchedSource), old(unmatchedTarget));
      assert forall b :: b in targets <==> b in Elems(targets);
      assert forall b :: b in sources <==> b in Elems(sources);
      ghost var first := targets;
      assert sources[0..] == sources;
      for i := 0 to |sources|
        invariant Indexed() && SharesOut(matching, old(unmatchedSource), old(unmatchedTarget))
        invariant Processed(leaves, sources, i, targets) && StillFree(sources, i) && Waiting(targets)
        invariant OnlySimilar(leaves, matching)
        invariant matching + FirstFit(sources[i..], targets, leaves) == leaves + FirstFit(sources, first, leaves)
      {
        matching, targets :=
          TrySource(leaves, matching, sources, i, targets, old(unmatchedSource), old(unmatchedTarget));
      }
      NoneLeft(sources, targets, leaves);
    }

    lemma {:induction false} NoneLeft(sources: seq<Id>, targets: seq<Id>, leaves: set<Pair>)
      ensures FirstFit(sources[|sources|..], targets, leaves) == {}
    {
    }

    lemma {:induction false} FreeEnds(m: set<Pair>, freeSource: set<Id>, freeTarget: set<Id>)
      requires SharesOut(m, freeSource, freeTarget)
      ensures unmatchedSource == freeSource - Firsts(m) && unmatchedTarget == freeTarget - Seconds(m)
    {
    }

    ghost function ContextOf(matchings: map<Id, Id>): EditScript.Context
      reads this
    {
      EditScript.Context(sourceIndex, targetIndex, unmatchedSource, unmatchedTarget, sourceUp, targetUp, matchings)
    }

    /** The four fields before the matching starts. */
    method Prepare(pre: map<Id, Id>)
      requires Unshared(source) && Unshared(target)
      modifies this
      ensures source == old(source) && target == old(target) && Indexed()
      ensures unmatchedSource == sourceIndex.Keys - pre.Keys && unmatchedTarget == targetIndex.Keys - pre.Values
    {
      sourceIndex := IndexOf(source);
      targetIndex := IndexOf(target);
      unmatchedSource := sourceIndex.Keys - pre.Keys;
      unmatchedTarget := targetIndex.Keys - pre.Values;
    }

    lemma {:induction false} MatchingIsConsistent(pre: map<Id, Id>, matching: set<Pair>)
      requires Indexed() && Injective(pre)
      requires SharesOut(matching, sourceIndex.Keys - pre.Keys, targetIndex.Keys - pre.Values)
      ensures EditScript.Consistent(ContextOf(pre + DictOf(matching)))
      ensures EditScript.NamedById(sourceIndex) && EditScript.NamedById(targetIndex)
      ensures forall i :: i in pre ==> (pre + DictOf(matching))[i] == pre[i]
      ensures EditScript.AllIndexed(ContextOf(pre + DictOf(matching))) <==>
              forall i :: i in pre ==> i in sourceIndex && pre[i] in targetIndex
    {
      IndexIsClosed(sourceIndex, source);
      IndexIsClosed(targetIndex, target);
      var d := DictOf(matching);
      DisjointUnion(pre, d);
    }

    /** `pre` are the pre-matched nodes. A script is produced exactly when all of them are indexed. */
    method Diff(pre: map<Id, Id>, deltaOnly: bool)
      returns (r: EditScript.Result<seq<EditScript.Edit>>, ghost matchings: map<Id, Id>)
      requires Unshared(source) && Unshared(target) && Injective(pre)
      modifies this
      ensures source == old(source) && target == old(target) && Indexed()
      ensures EditScript.Consistent(ContextOf(matchings))
      ensures forall i :: i in pre ==> i in matchings && matchings[i] == pre[i]
      ensures r.KeyError? <==> exists i :: i in pre && (i !in sourceIndex || pre[i] !in targetIndex)
      ensures r.Done? ==> EditScript.ScriptFor(ContextOf(matchings), deltaOnly, r.value)
      ensures r.Done? && !deltaOnly ==>
        && EditScript.ExactlyOnce(EditScript.SourceEnds(r.value), sourceIndex.Keys)
        && EditScript.ExactlyOnce(EditScript.TargetEnds(r.value), targetIndex.Keys)
    {
      Prepare(pre);
      hide Indexed, SharesOut, MostSimilarFirst, OnlySimilar, SimilarIds, Injective;
      hide EditScript.Consistent, EditScript.ScriptFor, EditScript.ExactlyOnce;
      var matching;
      ghost var leaves;
      matching, leaves := ComputeMatchingSet();
      MatchingIsConsistent(pre, matching);
      var dict := pre + DictOf(matching);
      matchings := dict;
      var c := EditScript.Context(sourceIndex, targetIndex, unmatchedSource, unmatchedTarget, sourceUp, targetUp, dict);
      r := EditScript.GenerateEditScript(c, deltaOnly);
      if r.Done? && !deltaOnly {
        EditScript.ScriptAccountsForAll(c, r.value);
      }
    }

    lemma {:induction false} IndexedIds()
      requires Indexed()
      ensures unmatchedSource <= (set n | n in Nodes(source) :: n.id)
      ensures unmatchedTarget <= (set n | n in Nodes(target) :: n.id)
    {
      forall i | i in unmatchedSource ensures exists n :: n in Nodes(source) && n.id == i {
        assert sourceIndex[i].id == i;
      }
      forall i | i in unmatchedTarget ensures exists n :: n in Nodes(target) && n.id == i {
        assert targetIndex[i].id == i;
      }
    }
  }

  /** Matching the name of one column to that of another beforehand: identifiers are not indexed. */
  method PreMatchedIdentifiers(dice: (Tree, Tree) -> real, similarity: (Tree, Tree) -> nat, same: (Tree, Tree) -> bool)
    returns (r: EditScript.Result<seq<EditScript.Edit>>)
    ensures r.KeyError?
  {
    var name := Tree(2, "Identifier", Slot("this", false), map["this" := Single(Ast.Str("a"))], []);
    var source := Tree(1, "Column", Slot("", false), map[], [name]);
    var target := source.(id := 3, children := [name.(id := 4)]);
    OneName(source);
    OneName(target);
    var distiller := new ChangeDistiller(0.6, 0.6, dice, similarity, same, source, target, map[2 := 1], map[4 := 3]);
    var done, _ := distiller.Diff(map[2 := 4], false);
    return done;
  }

  lemma {:induction false} OneName(t: Tree)
    requires |t.children| == 1 && t.children[0].children == [] && t.children[0].id != t.id
    requires Ignored(t.children[0])
    ensures Unshared(t) && forall m :: IsIndex(m, t) ==> t.children[0].id !in m
  {
    var name := t.children[0];
    assert t.children[1..] == [];
    assert NodesOf(t.children) == Nodes(name) + NodesOf([]) && Nodes(name) == {name} + NodesOf([]);
    assert Nodes(t) == {t, name};
  }

  lemma {:induction false} Without(s: seq<Id>, k: nat)
    requires k < |s| && forall i, j :: 0 <= i < j < |s| ==> s[i] != s[j]
    ensures forall x :: x in RemoveAt(s, k) <==> x in s && x != s[k]
    ensures forall i, j :: 0 <= i < j < |s| - 1 ==> RemoveAt(s, k)[i] != RemoveAt(s, k)[j]
  {
    forall x | x in s && x != s[k] ensures x in RemoveAt(s, k) {
      var i :| 0 <= i < |s| && s[i] == x;
      assert x == RemoveAt(s, k)[if i < k then i else i - 1];
    }
  }

  function LeafIds(t: Tree): set<Id> { set l | l in Leaves(t) :: l.id }

  ghost predicate IsLeafId(t: Tree, i: Id) { exists l :: l in Leaves(t) && l.id == i }

  lemma {:induction false} CommonCount(leafMatching: set<Pair>, a: Tree, b: Tree)
    ensures CommonLeaves(leafMatching, LeafIds(a), LeafIds(b)) ==
            |set m | m in leafMatching && IsLeafId(a, m.0) && IsLeafId(b, m.1)|
  {
    assert (set m | m in leafMatching && IsLeafId(a, m.0) && IsLeafId(b, m.1)) ==
           (set m | m in leafMatching && m.0 in LeafIds(a) && m.1 in LeafIds(b));
  }

  lemma {:induction false} HasLeaf(t: Tree)
    ensures LeafIds(t) != {}
  {
    LeavesExist(t);
    assert Leaves(t)[0].id in LeafIds(t);
  }

  lemma {:induction false} ShareAtLeast(n: nat, m: nat, share: real)
    requires m > 0
    ensures n as real / m as real >= share <==> n as real >= share * m as real
  {
    var q := n as real / m as real;
    assert q * m as real == n as real;
    if q >= share {
      ScaledUp(share, q, m as real);
    } else {
      ScaledStrictly(q, share, m as real);
    }
  }

  lemma {:induction false} Fifths(n: nat, m: nat)
    requires m > 0
    ensures n as real / m as real >= 0.8 <==> 5 * n >= 4 * m
    ensures n as real / m as real >= 0.4 <==> 5 * n >= 2 * m
  {
    ShareAtLeast(n, m, 0.8);
    ShareAtLeast(n, m, 0.4);
  }

  lemma {:induction false} ScaledUp(x: real, y: real, m: real)
    requires x <= y && m > 0.0
    ensures x * m <= y * m
  {
  }

  lemma {:induction false} ScaledStrictly(x: real, y: real, m: real)
    requires x < y && m > 0.0
    ensures x * m < y * m
  {
  }

  /** A share of the greater number is a share of both. */
  lemma {:induction false} AtLeastOfBoth(n: nat, x: nat, y: nat, share: real)
    requires x > 0 && y > 0
    ensures n as real >= share * (if x > y then x else y) as real <==>
            n as real >= share * x as real && n as real >= share * y as real
  {
    var most, least := if x > y then x else y, if x > y then y else x;
    if share >= 0.0 {
      ScaledBy(least as real, most as real, share);
    } else {
      NegativeShare(share, x as real);
      NegativeShare(share, y as real);
    }
  }

  lemma {:induction false} ScaledBy(x: real, y: real, share: real)
    requires x <= y && share >= 0.0
    ensures share * x <= share * y
  {
  }

  lemma {:induction false} NegativeShare(share: real, x: real)
    requires share < 0.0 && x > 0.0
    ensures share * x < 0.0
  {
  }

  function CommonLeaves(leafMatching: set<Pair>, a: set<Id>, b: set<Id>): nat {
    |set p | p in leafMatching && p.0 in a && p.1 in b|
  }

  ghost predicate Injective<K, V>(m: map<K, V>) {
    forall i, j :: i in m && j in m && m[i] == m[j] ==> i == j
  }

  lemma {:induction false} DisjointUnion<K, V>(m: map<K, V>, d: map<K, V>)
    requires m.Keys !! d.Keys && m.Values !! d.Values && Injective(m) && Injective(d)
    ensures Injective(m + d) && (m + d).Keys == m.Keys + d.Keys && (m + d).Values == m.Values + d.Values
  {
    forall i, j | i in m + d && j in m + d && (m + d)[i] == (m + d)[j] ensures i == j {
      assert i in m ==> m[i] in m.Values;
      assert j in m ==> m[j] in m.Values;
      assert i in d ==> d[i] in d.Values;
      assert j in d ==> d[j] in d.Values;
    }
    forall v | v in m.Values + d.Values ensures v in (m + d).Values {
      if v in m.Values {
        var i :| i in m && m[i] == v;
        assert i in m + d && (m + d)[i] == v;
      } else {
        assert v in d.Values;
        var i :| i in d && d[i] == v;
        assert i in m + d && (m + d)[i] == v;
      }
    }
  }

  lemma {:induction false} ArgIdsOf(ts: seq<Tree>)
    ensures forall a :: a in EditScript.ArgIds(ts) <==> exists k :: 0 <= k < |ts| && !Ignored(ts[k]) && ts[k].id == a
    ensures (forall i, j :: 0 <= i < j < |ts| ==> ts[i].id != ts[j].id) ==> Distinct(EditScript.ArgIds(ts))
    decreases |ts|
  {
    if ts != [] {
      var rest := ts[1..];
      ArgIdsOf(rest);
      forall a | a in EditScript.ArgIds(ts)
        ensures exists k :: 0 <= k < |ts| && !Ignored(ts[k]) && ts[k].id == a
      {
        if a in EditScript.ArgIds(rest) {
          var k :| 0 <= k < |rest| && !Ignored(rest[k]) && rest[k].id == a;
          assert ts[k + 1] == rest[k];
        }
      }
      forall k | 0 <= k < |ts| && !Ignored(ts[k]) ensures ts[k].id in EditScript.ArgIds(ts) {
        if k > 0 { assert rest[k - 1] == ts[k]; }
      }
      if forall i, j :: 0 <= i < j < |ts| ==> ts[i].id != ts[j].id {
        forall k | 0 <= k < |rest| ensures rest[k].id != ts[0].id {
          assert rest[k] == ts[k + 1];
        }
        forall i, j | 0 <= i < j < |rest| ensures rest[i].id != rest[j].id {
          assert rest[i] == ts[i + 1] && rest[j] == ts[j + 1];
        }
        assert ts[0].id !in EditScript.ArgIds(rest);
        assert EditScript.ArgIds(ts) ==
               (if Ignored(ts[0]) then [] else [ts[0].id]) + EditScript.ArgIds(rest);
      }
    }
  }

  lemma {:induction false} IndexIsClosed(index: map<Id, Tree>, root: Tree)
    requires Unshared(root) && IsIndex(index, root)
    ensures EditScript.Closed(index)
  {
    forall i | i in index
      ensures Distinct(EditScript.ExpressionOnlyArgs(index[i]))
      ensures forall a :: a in EditScript.ExpressionOnlyArgs(index[i]) ==> a in index
    {
      var n := index[i];
      ArgIdsOf(n.children);
      forall k | 0 <= k < |n.children| && !Ignored(n.children[k]) ensures n.children[k].id in index {
        ChildInNodesOf(n.children, k);
        NodesBelow(root, n);
        assert n.children[k] in Nodes(n);
      }
    }
  }

  /** `dict(pairs)` */
  function DictOf(m: set<Pair>): (d: map<Id, Id>)
    requires OneToOne(m)
    ensures d.Keys == Firsts(m) && d.Values == Seconds(m) && Injective(d)
    ensures forall p :: p in m ==> d[p.0] == p.1
  {
    var d := map p | p in m :: p.0 := p.1;
    assert forall p :: p in m ==> p.0 in d && d[p.0] == p.1;
    assert forall i :: i in d ==> (i, d[i]) in m;
    d
  }

  ghost predicate InKeyOrder(popped: set<Cand>, waiting: set<Cand>) {
    forall c, d :: c in popped && d in waiting ==> Less(c.key, d.key)
  }

  /** Popping in key order keeps the choice stable, whether or not the candidate is chosen. */
  lemma {:induction false} StablePop(popped: set<Cand>, chosen: set<Cand>, c: Cand, freeSource: set<Id>,
      freeTarget: set<Id>)
    requires Stable(popped, chosen, freeSource, freeTarget) && chosen <= popped
    requires InKeyOrder(popped, {c})
    ensures Stable(popped + {c}, chosen + {c}, freeSource, freeTarget)
    ensures c.source.id in freeSource && c.target.id in freeTarget &&
            (c.source.id in Firsts(PairsOf(chosen)) || c.target.id in Seconds(PairsOf(chosen))) ==>
              Stable(popped + {c}, chosen, freeSource, freeTarget)
    ensures c.source.id !in freeSource || c.target.id !in freeTarget ==>
              Stable(popped + {c}, chosen, freeSource, freeTarget)
  {
    if c.source.id in Firsts(PairsOf(chosen)) || c.target.id in Seconds(PairsOf(chosen)) {
      var d :| d in chosen && d.Joins(c);
      assert Less(d.key, c.key);
    }
  }

  lemma {:induction false} ChosenIsPaired(chosen: set<Cand>, c: Cand)
    ensures c in chosen ==> (c.source.id, c.target.id) in PairsOf(chosen)
  {
  }

  lemma {:induction false} EmptyEnds()
    ensures Firsts({}) == {} && Seconds({}) == {} && PairsOf({}) == {} && Elems<Cand>([]) == {}
  {
  }

  lemma {:induction false} EndsOfExtended(matching: set<Pair>, p: Pair)
    ensures Firsts(matching + {p}) == Firsts(matching) + {p.0}
    ensures Seconds(matching + {p}) == Seconds(matching) + {p.1}
  {
    assert p in matching + {p};
    forall q | q in matching ensures q.0 in Firsts(matching + {p}) && q.1 in Seconds(matching + {p}) {
      assert q in matching + {p};
    }
  }

  lemma {:induction false} ChooseMore(chosen: set<Cand>, c: Cand)
    ensures PairsOf(chosen + {c}) == PairsOf(chosen) + {(c.source.id, c.target.id)}
  {
    assert c in chosen + {c};
    forall d | d in chosen ensures (d.source.id, d.target.id) in PairsOf(chosen + {c}) {
      assert d in chosen + {c};
    }
  }
}
