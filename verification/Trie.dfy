/** Tries as nested dictionaries that are extended in place (sqlglot/trie.py). */
module Trie {

  datatype TrieResult = FAILED | PREFIX | EXISTS

  /** One nested dictionary; `end` stands for the entry under the key 0.
      `path` records how it is reached from the outermost dictionary, `parent` who holds it. */
  class TrieNode<K(==, !new)> {
    var kids: map<K, TrieNode<K>>
    var end: bool
    ghost const path: seq<K>
    ghost const parent: TrieNode?<K>

    constructor (ghost path: seq<K>, ghost parent: TrieNode?<K>)
      ensures kids == map[] && !end && this.path == path && this.parent == parent
    {
      kids, end := map[], false;
      this.path, this.parent := path, parent;
    }
  }

  ghost predicate Below<K>(p: seq<K>, k: seq<K>) {
    |p| < |k| && k[..|p|] == p
  }

  lemma {:induction false} BelowBelow<K>(p: seq<K>, c: K, k: seq<K>)
    ensures k == p + [c] || Below(p + [c], k) ==> Below(p, k) && k[|p|] == c
  {
    if |p + [c]| <= |k| && k[..|p + [c]|] == p + [c] {
      assert k[..|p|] == k[..|p + [c]|][..|p|];
      assert k[|p|] == k[..|p + [c]|][|p|];
    }
  }

  ghost predicate Extends<K(!new)>(keys: set<seq<K>>, p: seq<K>) {
    exists k :: k in keys && p <= k
  }

  class Trie<K(==, !new)> {
    const root: TrieNode<K>
    ghost var nodes: set<TrieNode<K>>
    /** What the trie stands for: every key inserted so far. */
    ghost var keys: set<seq<K>>

    /** Dictionaries form a tree, and `path` names the place of each. */
    ghost predicate Linked()
      reads this, nodes
    {
      && root in nodes && root.path == []
      && (forall n, c {:trigger n.kids[c]} :: n in nodes && c in n.kids ==>
            n.kids[c] in nodes && n.kids[c].path == n.path + [c])
      && (forall n, m {:trigger n.path, m.path} :: n in nodes && m in nodes && n.path == m.path ==> n == m)
      && (forall n {:trigger n.parent} :: n in nodes && n != root ==>
            && n.parent != null && n.parent in nodes && n.path != [] && n.parent.path == n.path[..|n.path| - 1]
            && n.path[|n.path| - 1] in n.parent.kids && n.parent.kids[n.path[|n.path| - 1]] == n)
    }

    /** `ks` are the keys: their paths are present and marked, and nothing else is. */
    ghost predicate Holds(ks: set<seq<K>>)
      reads this, nodes
    {
      && (forall n {:trigger n.end} :: n in nodes ==> (n.end <==> n.path in ks))
      && (forall n, k {:trigger Below(n.path, k)} :: n in nodes && k in ks && Below(n.path, k) ==>
            k[|n.path|] in n.kids)
    }

    ghost predicate Valid()
      reads this, nodes
    {
      Linked() && Holds(keys) && forall n :: n in nodes && n != root ==> Extends(keys, n.path)
    }

    constructor ()
      ensures Valid() && keys == {} && fresh(nodes)
    {
      var node := new TrieNode<K>([], null);
      root := node;
      nodes := {node};
      keys := {};
    }

    lemma {:induction false} RootHolds()
      requires Valid()
      ensures root in nodes && root.path == []
    {
    }

    /** Where there is no dictionary, there is neither a path nor a key. */
    lemma {:induction false} NewPath(current: TrieNode<K>, c: K, ks: set<seq<K>>)
      requires Linked() && Holds(ks) && current in nodes && c !in current.kids
      ensures forall n :: n in nodes ==> n.path != current.path + [c]
      ensures forall k :: k in ks ==> k != current.path + [c] && !Below(current.path + [c], k)
    {
      forall n | n in nodes ensures n.path != current.path + [c] {
        var holder := n.parent;
      }
      forall k | k in ks ensures k != current.path + [c] && !Below(current.path + [c], k) {
        BelowBelow(current.path, c, k);
        var under := Below(current.path, k);
      }
    }

    /** `current = current.setdefault(char, {})` */
    method SetDefault(current: TrieNode<K>, c: K, ghost ks: set<seq<K>>) returns (child: TrieNode<K>)
      requires Linked() && Holds(ks) && current in nodes
      modifies this`nodes, current`kids
      ensures Linked() && Holds(ks) && child in nodes && child.path == current.path + [c]
      ensures current.kids.Keys == old(current.kids.Keys) + {c}
      ensures nodes == old(nodes) || (nodes == old(nodes) + {child} && fresh(child))
    {
      if c !in current.kids {
        NewPath(current, c, ks);
        child := new TrieNode<K>(current.path + [c], current);
        current.kids := current.kids[c := child];
        nodes := nodes + {child};
      } else {
        child := current.kids[c];
      }
    }

    lemma {:induction false} StartExtends(ks: set<seq<K>>, key: seq<K>, i: nat)
      requires i <= |key|
      ensures Extends(ks + {key}, key[..i])
    {
      assert key in ks + {key} && key[..i] <= key;
    }

    /** The first `i` places of the key have their nodes, the last of which is `current`. */
    ghost predicate Inserting(key: seq<K>, i: nat, current: TrieNode<K>)
      reads this, nodes
    {
      && i <= |key| && Linked() && Holds(keys) && current in nodes && current.path == key[..i]
      && (forall n :: n in nodes && n != root ==> Extends(keys + {key}, n.path))
      && forall n {:trigger n.kids} :: n in nodes && |n.path| < i && Below(n.path, key) ==> key[|n.path|] in n.kids
    }

    lemma {:induction false} InsertStarts(key: seq<K>)
      requires Valid()
      ensures Inserting(key, 0, root)
    {
      hide Below;
      RootHolds();
      forall n | n in nodes && n != root ensures Extends(keys + {key}, n.path) {
        var k :| k in keys && n.path <= k;
        assert k in keys + {key};
      }
    }

    /** There is one node for each place of the key. */
    lemma {:induction false} OnlyCurrent(key: seq<K>, i: nat, current: TrieNode<K>)
      requires i < |key| && Inserting(key, i, current)
      ensures forall n :: n in nodes && |n.path| == i && Below(n.path, key) ==> n == current
    {
      hide Extends, Holds;
    }

    /** One pass of the inner loop. */
    method InsertNext(key: seq<K>, i: nat, current: TrieNode<K>) returns (child: TrieNode<K>)
      requires i < |key| && Inserting(key, i, current)
      modifies this`nodes, current`kids
      ensures Inserting(key, i + 1, child) && old(nodes) <= nodes && fresh(nodes - old(nodes))
    {
      hide Extends, Linked, Holds, Below;
      assert key[..i] + [key[i]] == key[..i + 1];
      StartExtends(keys, key, i + 1);
      OnlyCurrent(key, i, current);
      child := SetDefault(current, key[i], keys);
    }

    /** One pass of the outer loop of `new_trie`. */
    method Insert(key: seq<K>)
      requires Valid()
      modifies this, nodes
      ensures Valid() && keys == old(keys) + {key} && fresh(nodes - old(nodes))
    {
      InsertStarts(key);
      hide Valid, Linked, Holds, Extends, Below;
      var current := root;
      var i := 0;
      while i < |key|
        invariant Inserting(key, i, current) && keys == old(keys) && fresh(nodes - old(nodes))
      {
        hide Valid, Linked, Holds, Extends, Below;
        current := InsertNext(key, i, current);
        i := i + 1;
      }
      EndsAt(key, current);
      Mark(current, key);
    }

    lemma {:induction false} EndsAt(key: seq<K>, current: TrieNode<K>)
      requires Inserting(key, |key|, current)
      ensures Linked() && Holds(keys) && current in nodes && current.path == key
      ensures forall n :: n in nodes && n != root ==> Extends(keys + {key}, n.path)
      ensures forall n {:trigger n.kids} :: n in nodes && Below(n.path, key) ==> key[|n.path|] in n.kids
    {
      hide Linked, Holds, Extends;
      assert key[..|key|] == key;
    }

    /** `current[0] = True` */
    method Mark(current: TrieNode<K>, ghost key: seq<K>)
      requires Linked() && Holds(keys) && current in nodes && current.path == key
      requires forall n :: n in nodes && n != root ==> Extends(keys + {key}, n.path)
      requires forall n {:trigger n.kids} :: n in nodes && Below(n.path, key) ==> key[|n.path|] in n.kids
      modifies this`keys, current`end
      ensures Valid() && keys == old(keys) + {key}
    {
      current.end := true;
      keys := keys + {key};
    }

    /** `new_trie(keywords, trie)`: the outer loop. */
    method Extend(keywords: seq<seq<K>>)
      requires Valid()
      modifies this, nodes
      ensures Valid() && keys == old(keys) + (set k | k in keywords) && fresh(nodes - old(nodes))
    {
      for i := 0 to |keywords|
        invariant Valid() && keys == old(keys) + (set k | k in keywords[..i]) && fresh(nodes - old(nodes))
      {
        Insert(keywords[i]);
      }
      assert keywords[..|keywords|] == keywords;
    }

    /** `in_trie(start, key)`, where `start` is the trie or a subtrie returned before. */
    method InTrie(start: TrieNode<K>, key: seq<K>) returns (r: TrieResult, node: TrieNode<K>)
      requires Valid() && start in nodes
      ensures r == Lookup(keys, start.path, key)
      ensures node in nodes && start.path <= node.path <= start.path + key
      ensures r != FAILED ==> node.path == start.path + key
      ensures r == FAILED && node.path != start.path + key ==>
                !Extends(keys, node.path + [(start.path + key)[|node.path|]])
    {
      if key == [] {
        return FAILED, start;
      }
      node := start;
      var i := 0;
      while i < |key|
        invariant 0 <= i <= |key| && node in nodes && node.path == start.path + key[..i]
      {
        assert node.path + [key[i]] == start.path + key[..i + 1];
        if key[i] !in node.kids {
          NoKeyPast(node, key[i]);
          assert start.path + key == (node.path + [key[i]]) + key[i + 1..];
          NotExtended(keys, node.path + [key[i]], key[i + 1..]);
          return FAILED, node;
        }
        node := node.kids[key[i]];
        i := i + 1;
      }
      assert key[..i] == key;
      r := if node.end then EXISTS else PREFIX;
    }

    lemma {:induction false} NoKeyPast(n: TrieNode<K>, c: K)
      requires Valid() && n in nodes && c !in n.kids
      ensures !Extends(keys, n.path + [c])
    {
      forall k | k in keys ensures !(n.path + [c] <= k) {
        BelowBelow(n.path, c, k);
        var under := Below(n.path, k);
      }
    }
  }

  /** What `in_trie` answers, in terms of the inserted keys: `key` is looked up below `prefix`. */
  ghost function Lookup<K(!new)>(keys: set<seq<K>>, prefix: seq<K>, key: seq<K>): TrieResult {
    if key == [] then FAILED
    else if prefix + key in keys then EXISTS
    else if Extends(keys, prefix + key) then PREFIX
    else FAILED
  }

  lemma {:induction false} NotExtended<K(!new)>(keys: set<seq<K>>, p: seq<K>, q: seq<K>)
    requires !Extends(keys, p)
    ensures !Extends(keys, p + q) && p + q !in keys
  {
    forall k | k in keys ensures !(p + q <= k) {
      assert p <= p + q;
    }
  }

  /** The keys that continue `prefix`, without it: what a subtrie contains. */
  ghost function Residual<K(!new)>(keys: set<seq<K>>, prefix: seq<K>): set<seq<K>> {
    set k | k in keys && prefix <= k :: k[|prefix|..]
  }

  lemma {:induction false} InResidual<K(!new)>(keys: set<seq<K>>, prefix: seq<K>, q: seq<K>)
    ensures q in Residual(keys, prefix) <==> prefix + q in keys
    ensures Extends(Residual(keys, prefix), q) <==> Extends(keys, prefix + q)
  {
    forall k | k in keys && prefix <= k ensures k == prefix + k[|prefix|..] {}
    assert (prefix + q)[|prefix|..] == q;
    if r :| r in Residual(keys, prefix) && q <= r {
      var k :| k in keys && prefix <= k && r == k[|prefix|..];
      assert prefix + q <= k;
    }
    if k :| k in keys && prefix + q <= k {
      assert prefix <= prefix + q <= k;
      assert k[|prefix|..] in Residual(keys, prefix) && q <= k[|prefix|..];
    }
  }

  /** A subtrie is a trie of its own: it answers for exactly the residual keys. */
  lemma {:induction false} SubtrieIsResidual<K(!new)>(keys: set<seq<K>>, prefix: seq<K>, key: seq<K>)
    ensures Lookup(keys, prefix, key) == Lookup(Residual(keys, prefix), [], key)
  {
    InResidual(keys, prefix, key);
    assert [] + key == key;
  }

  /** Looking a key up in pieces, each in the subtrie the piece before returned, is looking it up whole. */
  lemma {:induction false} StepwiseLookup<K(!new)>(keys: set<seq<K>>, prefix: seq<K>, a: seq<K>, b: seq<K>)
    requires a != [] && b != []
    ensures Lookup(keys, prefix, a + b) ==
            if Lookup(keys, prefix, a) == FAILED then FAILED else Lookup(keys, prefix + a, b)
  {
    assert prefix + (a + b) == prefix + a + b;
    if Lookup(keys, prefix, a) == FAILED {
      NotExtended(keys, prefix + a, b);
    }
  }

  /** PREFIX is answered exactly for a proper prefix of some key that is not itself a key. */
  lemma {:induction false} PrefixMeansProper<K(!new)>(keys: set<seq<K>>, key: seq<K>)
    requires key != []
    ensures Lookup(keys, [], key) == EXISTS <==> key in keys
    ensures Lookup(keys, [], key) == PREFIX <==> key !in keys && exists k :: k in keys && key < k
  {
    assert [] + key == key;
    if k :| k in keys && key < k {
      assert key <= k;
    }
    if key !in keys && Extends(keys, key) {
      var k :| k in keys && key <= k;
      assert |key| == |k| ==> key == k;
      assert key < k;
    }
  }
}
