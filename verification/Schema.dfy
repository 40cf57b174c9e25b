/** The nested mapping of tables, the trie of reversed paths beside it, and the lookups that use both
    (sqlglot/schema.py; sqlglot/helper.py, `dict_depth`). */
module Schema {
  import opened Collections
  import opened Trie

  /** A Python dictionary in insertion order, or anything else. */
  datatype Val = Leaf(text: string) | Dict(entries: seq<Entry>)

  datatype Entry = Entry(key: string, val: Val)

  type Path = seq<string>

  // ---- Dictionaries ----

  function IndexOf(es: seq<Entry>, k: string): (r: Option<nat>)
    ensures r.Some? ==> r.value < |es| && es[r.value].key == k
    ensures r == None ==> forall e :: e in es ==> e.key != k
  {
    if es == [] then None
    else if es[0].key == k then Some(0)
    else match IndexOf(es[1..], k) case Some(i) => Some(i + 1) case None => None
  }

  function GetKey(es: seq<Entry>, k: string): Option<Val> {
    match IndexOf(es, k)
    case Some(i) => Some(es[i].val)
    case None => None
  }

  /** `d[k] = val` */
  function Put(es: seq<Entry>, k: string, val: Val): seq<Entry> {
    match IndexOf(es, k)
    case Some(i) => es[i := Entry(k, val)]
    case None => es + [Entry(k, val)]
  }

  ghost predicate DistinctKeys(es: seq<Entry>) {
    forall i, j :: 0 <= i < j < |es| ==> es[i].key != es[j].key
  }

  lemma {:induction false} LookupIn(es: seq<Entry>, e: Entry)
    requires DistinctKeys(es) && e in es
    ensures GetKey(es, e.key) == Some(e.val)
  {
    var i :| 0 <= i < |es| && es[i] == e;
    var r := IndexOf(es, e.key);
    assert es[i].key == e.key;
  }

  lemma {:induction false} LookupPut(es: seq<Entry>, k: string, val: Val, l: string)
    requires DistinctKeys(es)
    ensures DistinctKeys(Put(es, k, val))
    ensures GetKey(Put(es, k, val), l) == if l == k then Some(val) else GetKey(es, l)
    ensures forall e :: e in Put(es, k, val) ==> e == Entry(k, val) || e in es
  {
    var after := Put(es, k, val);
    var i, j := IndexOf(es, l), IndexOf(after, l);
    if l == k {
      assert Entry(k, val) in after by {
        if IndexOf(es, k).Some? { assert after[IndexOf(es, k).value] == Entry(k, val); }
        else { assert after[|es|] == Entry(k, val); }
      }
      LookupIn(after, Entry(k, val));
    } else if i.Some? {
      assert after[i.value] == es[i.value];
      LookupIn(after, es[i.value]);
    } else {
      assert forall e :: e in after ==> e == Entry(k, val) || e in es;
    }
  }

  // ---- Nesting ----

  function DictDepth(v: Val): nat {
    match v
    case Leaf(_) => 0
    case Dict(es) => if es == [] then 1 else 1 + DictDepth(es[0].val)
  }

  /** Tables at depth `d`, each a dictionary of columns, and no empty dictionary on the way. */
  ghost predicate Uniform(v: Val, d: nat)
    decreases d
  {
    && v.Dict? && DistinctKeys(v.entries)
    && forall e :: e in v.entries ==>
         if d == 0 then e.val.Leaf? else Uniform(e.val, d - 1) && (d > 1 ==> e.val.entries != [])
  }

  lemma {:induction false} UniformDepth(v: Val, d: nat)
    requires Uniform(v, d) && (d > 0 ==> v.entries != [])
    ensures DictDepth(v) == d + 1
    decreases d
  {
    if v.entries != [] {
      assert v.entries[0] in v.entries;
      if d > 0 {
        UniformDepth(v.entries[0].val, d - 1);
      }
    }
  }

  /** `flatten_schema(schema, depth, keys)` */
  function Flatten(es: seq<Entry>, depth: nat, keys: Path): seq<Path>
    decreases depth, |es|
  {
    if es == [] then []
    else
      var e := es[0];
      (if depth == 1 || e.val.Leaf? then [keys + [e.key]]
       else if depth >= 2 then Flatten(e.val.entries, depth - 1, keys + [e.key])
       else [])
      + Flatten(es[1..], depth, keys)
  }

  /** `nested_get` */
  function NestedGet(v: Val, path: Path): Option<Val>
    decreases |path|
  {
    if path == [] then Some(v)
    else if v.Leaf? then None
    else match GetKey(v.entries, path[0])
      case None => None
      case Some(sub) => NestedGet(sub, path[1..])
  }

  /** `nested_set` */
  function NestedSet(v: Val, path: Path, value: Val): Val
    decreases |path|
  {
    if path == [] || v.Leaf? then v
    else if |path| == 1 then Dict(Put(v.entries, path[0], value))
    else
      var sub := match GetKey(v.entries, path[0]) case Some(s) => s case None => Dict([]);
      Dict(Put(v.entries, path[0], NestedSet(sub, path[1..], value)))
  }

  lemma {:induction false} FlattenFinds(es: seq<Entry>, d: nat, keys: Path, p: Path)
    requires d > 0 && Uniform(Dict(es), d)
    ensures p in Flatten(es, d, keys) <==> |p| == |keys| + d && keys <= p && NestedGet(Dict(es), p[|keys|..]).Some?
    decreases d, |es|
  {
    if es != [] {
      var e, rest := es[0], es[1..];
      RestUniform(es, d);
      FlattenFinds(rest, d, keys, p);
      if d > 1 {
        FlattenFinds(e.val.entries, d - 1, keys + [e.key], p);
      }
      assert Flatten(es, d, keys) ==
        (if d == 1 then [keys + [e.key]] else Flatten(e.val.entries, d - 1, keys + [e.key])) + Flatten(rest, d, keys);
      hide Flatten, Uniform;
      if |p| == |keys| + d && keys <= p {
        FirstOrRest(es, p[|keys|..]);
        FirstKey(keys, e.key, p);
      }
    }
  }

  lemma {:induction false} RestUniform(es: seq<Entry>, d: nat)
    requires es != [] && Uniform(Dict(es), d)
    ensures Uniform(Dict(es[1..]), d)
    ensures d > 0 ==> es[0].val.Dict? && Uniform(es[0].val, d - 1) && DistinctKeys(es)
  {
    var rest := es[1..];
    assert es[0] in es && forall x :: x in rest ==> x in es;
    assert forall i :: 0 <= i < |rest| ==> rest[i] == es[i + 1];
  }

  lemma {:induction false} FirstKey(keys: Path, k: string, p: Path)
    requires keys <= p && |p| > |keys|
    ensures keys + [k] <= p <==> p[|keys|] == k
    ensures p[|keys|..][0] == p[|keys|] && p[|keys|..][1..] == p[|keys + [k]|..]
    ensures |p| == |keys| + 1 ==> (p == keys + [k] <==> p[|keys|] == k) && p[|keys|..][1..] == []
  {
  }

  lemma {:induction false} FirstOrRest(es: seq<Entry>, q: Path)
    requires es != [] && q != [] && DistinctKeys(es)
    ensures NestedGet(Dict(es), q) ==
              if q[0] == es[0].key then NestedGet(es[0].val, q[1..])
              else NestedGet(Dict(es[1..]), q)
    ensures q[0] == es[0].key ==> NestedGet(Dict(es[1..]), q) == None
  {
    if q[0] == es[0].key {
      forall x | x in es[1..] ensures x.key != q[0] {
        var i :| 0 <= i < |es[1..]| && es[1..][i] == x;
        assert es[i + 1] == x;
      }
    }
  }

  lemma {:induction false} NothingInside(p: Path)
    requires p != []
    ensures NestedGet(Dict([]), p) == None
  {
  }

  lemma {:induction false} GetAfterSet(v: Val, p: Path, x: Val, q: Path)
    requires p != [] && |p| == |q| && Uniform(v, |p|)
    ensures NestedGet(NestedSet(v, p, x), q) == if p == q then Some(x) else NestedGet(v, q)
    decreases |p|
  {
    hide Put, GetKey, Uniform;
    TopKeys(v, |p|);
    var sub := match GetKey(v.entries, p[0]) case Some(s) => s case None => Dict([]);
    var inner := if |p| == 1 then x else NestedSet(sub, p[1..], x);
    LookupPut(v.entries, p[0], inner, q[0]);
    if |p| > 1 {
      SubUniform(v, |p|, p[0]);
      GetAfterSet(sub, p[1..], x, q[1..]);
      assert p == q <==> p[0] == q[0] && p[1..] == q[1..];
      if q[0] == p[0] && GetKey(v.entries, p[0]) == None {
        NothingInside(q[1..]);
      }
    } else {
      assert q[1..] == [] && (p == q <==> p[0] == q[0]);
    }
  }

  lemma {:induction false} TopKeys(v: Val, d: nat)
    requires Uniform(v, d)
    ensures v.Dict? && DistinctKeys(v.entries)
  {
  }

  lemma {:induction false} SubUniform(v: Val, d: nat, k: string)
    requires d > 0 && Uniform(v, d)
    ensures GetKey(v.entries, k).Some? ==> Uniform(GetKey(v.entries, k).value, d - 1)
    ensures Uniform(Dict([]), d - 1)
  {
    var i := IndexOf(v.entries, k);
    if i.Some? { assert v.entries[i.value] in v.entries; }
  }

  lemma {:induction false} SetIsUniform(v: Val, p: Path, x: Val)
    requires p != [] && Uniform(v, |p|) && Uniform(x, 0)
    ensures Uniform(NestedSet(v, p, x), |p|) && NestedSet(v, p, x).entries != []
    decreases |p|
  {
    var sub := match GetKey(v.entries, p[0]) case Some(s) => s case None => Dict([]);
    var inner := if |p| == 1 then x else NestedSet(sub, p[1..], x);
    LookupPut(v.entries, p[0], inner, p[0]);
    if |p| > 1 {
      SubUniform(v, |p|, p[0]);
      SetIsUniform(sub, p[1..], x);
    }
  }

  // ---- Flattening a subtrie ----

  ghost predicate AllOfLength(keys: set<Path>, d: nat) {
    forall k :: k in keys ==> |k| == d
  }

  /** `q`, without the names gathered so far, leads from `path` to a key. */
  ghost predicate Leads(q: Path, gathered: Path, path: Path, keys: set<Path>) {
    gathered <= q && path + q[|gathered|..] in keys
  }

  lemma {:induction false} NodeInside(trie: Trie<string>, n: TrieNode<string>, d: nat)
    requires trie.Valid() && n in trie.nodes && AllOfLength(trie.keys, d) && Extends(trie.keys, n.path)
    ensures |n.path| <= d && (n.kids == map[] <==> |n.path| == d) && (n.end <==> |n.path| == d)
    ensures forall c :: c in n.kids ==>
              n.kids[c] in trie.nodes && n.kids[c].path == n.path + [c] && Extends(trie.keys, n.path + [c])
  {
    forall c | c in n.kids ensures Extends(trie.keys, n.path + [c]) && |n.path| < d {
      var kid := n.kids[c];
      var l :| l in trie.keys && kid.path <= l;
    }
    var k :| k in trie.keys && n.path <= k;
    if |n.path| < d {
      assert Below(n.path, k);
    } else {
      assert n.path == k;
    }
  }

  /** `dict_depth` of a subtrie: the first entry is as good as any. */
  method NodeDepth(n: TrieNode<string>, ghost trie: Trie<string>, ghost d: nat) returns (r: nat)
    requires trie.Valid() && n in trie.nodes && AllOfLength(trie.keys, d) && Extends(trie.keys, n.path)
    ensures |n.path| <= d && r == d - |n.path| + 1
    decreases d - |n.path|
  {
    NodeInside(trie, n, d);
    if n.kids == map[] {
      r := 1;
    } else {
      assert n.kids.Keys != {};
      var c := Pick(n.kids.Keys);
      NodeInside(trie, n.kids[c], d);
      r := NodeDepth(n.kids[c], trie, d);
      r := r + 1;
    }
  }

  /** `flatten_schema(trie)`, below the names gathered so far */
  method FlattenNode(n: TrieNode<string>, depth: nat, gathered: Path, ghost trie: Trie<string>, ghost d: nat)
    returns (out: seq<Path>)
    requires trie.Valid() && n in trie.nodes && AllOfLength(trie.keys, d) && Extends(trie.keys, n.path)
    requires depth > 0 && depth + |n.path| == d
    ensures forall q :: q in out <==> Leads(q, gathered, n.path, trie.keys)
    ensures Distinct(out)
    decreases depth
  {
    NodeInside(trie, n, d);
    hide Leads, AllOfLength, Extends;
    out := [];
    var rest := n.kids.Keys;
    while rest != {}
      invariant rest <= n.kids.Keys && Distinct(out)
      invariant forall q :: q in out <==>
                  Leads(q, gathered, n.path, trie.keys) && |q| > |gathered| && q[|gathered|] in n.kids.Keys - rest
    {
      hide Leads, AllOfLength, Extends;
      var c := Pick(rest);
      var more;
      if depth == 1 {
        more := [gathered + [c]];
        LastName(n, c, gathered, trie, d);
      } else {
        more := FlattenNode(n.kids[c], depth - 1, gathered + [c], trie, d);
      }
      MoreNames(n.path, c, gathered, more, trie.keys);
      Disjoint(out, more, gathered, c);
      out, rest := out + more, rest - {c};
    }
    AllNamed(trie, n, gathered, d);
  }

  lemma {:induction false} LastName(n: TrieNode<string>, c: string, gathered: Path, trie: Trie<string>, d: nat)
    requires trie.Valid() && n in trie.nodes && AllOfLength(trie.keys, d) && Extends(trie.keys, n.path)
    requires |n.path| + 1 == d && c in n.kids
    ensures forall q :: q in [gathered + [c]] <==> Leads(q, gathered + [c], n.path + [c], trie.keys)
  {
    NodeInside(trie, n, d);
    var k :| k in trie.keys && n.path + [c] <= k;
    assert k == n.path + [c];
    forall q ensures q in [gathered + [c]] <==> Leads(q, gathered + [c], n.path + [c], trie.keys) {
      assert q == gathered + [c] ==> n.path + [c] + q[|gathered + [c]|..] == k;
      if Leads(q, gathered + [c], n.path + [c], trie.keys) {
        assert |q[|gathered + [c]|..]| == 0;
        assert q == gathered + [c];
      }
    }
  }

  lemma {:induction false} MoreNames(path: Path, c: string, gathered: Path, more: seq<Path>, keys: set<Path>)
    requires forall q :: q in more <==> Leads(q, gathered + [c], path + [c], keys)
    ensures forall q :: q in more <==> Leads(q, gathered, path, keys) && |q| > |gathered| && q[|gathered|] == c
  {
    forall q
      ensures Leads(q, gathered + [c], path + [c], keys) <==>
                Leads(q, gathered, path, keys) && |q| > |gathered| && q[|gathered|] == c
    {
      if |q| > |gathered| && gathered <= q && q[|gathered|] == c {
        assert path + [c] + q[|gathered + [c]|..] == path + q[|gathered|..];
      }
    }
  }

  lemma {:induction false} Disjoint(out: seq<Path>, more: seq<Path>, gathered: Path, c: string)
    requires Distinct(out) && Distinct(more)
    requires forall q :: q in out ==> |q| > |gathered| && q[|gathered|] != c
    requires forall q :: q in more ==> |q| > |gathered| && q[|gathered|] == c
    ensures Distinct(out + more)
  {
    forall i, j | 0 <= i < |out| && 0 <= j < |more| ensures out[i] != more[j] {
      assert out[i] in out && more[j] in more;
    }
  }

  lemma {:induction false} AllNamed(trie: Trie<string>, n: TrieNode<string>, gathered: Path, d: nat)
    requires trie.Valid() && n in trie.nodes && AllOfLength(trie.keys, d) && |n.path| < d
    ensures forall q :: Leads(q, gathered, n.path, trie.keys) ==> |q| > |gathered| && q[|gathered|] in n.kids
  {
    forall q | Leads(q, gathered, n.path, trie.keys) ensures |q| > |gathered| && q[|gathered|] in n.kids {
      var k := n.path + q[|gathered|..];
      assert Below(n.path, k);
    }
  }

  // ---- A linear scan as the reference for `find` ----

  lemma {:induction false} ReversedAt(p: Path, i: nat)
    requires i < |p|
    ensures Reversed(p)[i] == p[|p| - 1 - i]
  {
    if i < |p| - 1 { ReversedAt(p[1..], i); }
  }

  lemma {:induction false} ReversedTwice(p: Path)
    ensures Reversed(Reversed(p)) == p
  {
    forall i | 0 <= i < |p| ensures Reversed(Reversed(p))[i] == p[i] {
      ReversedAt(Reversed(p), i);
      ReversedAt(p, |p| - 1 - i);
    }
  }

  /** The reversed paths that start with `part`. */
  function Scan(paths: seq<Path>, part: Path): seq<Path> {
    if paths == [] then []
    else (if part <= Reversed(paths[0]) then [Reversed(paths[0])] else []) + Scan(paths[1..], part)
  }

  lemma {:induction false} ScanFinds(paths: seq<Path>, part: Path, k: Path)
    ensures k in Scan(paths, part) <==> part <= k && Reversed(k) in paths
    decreases |paths|
  {
    if paths != [] {
      ScanFinds(paths[1..], part, k);
      ReversedTwice(k);
      ReversedTwice(paths[0]);
    }
  }

  lemma {:induction false} ScanRepeatsNothing(paths: seq<Path>, part: Path)
    requires Distinct(paths)
    ensures Distinct(Scan(paths, part))
    decreases |paths|
  {
    if paths != [] {
      var first, rest := Reversed(paths[0]), paths[1..];
      assert forall i :: 0 <= i < |rest| ==> rest[i] == paths[i + 1];
      ScanRepeatsNothing(rest, part);
      ScanFinds(rest, part, first);
      ReversedTwice(paths[0]);
      assert first !in Scan(rest, part);
      if part <= first {
        assert Scan(paths, part) == [first] + Scan(rest, part);
      } else {
        assert Scan(paths, part) == Scan(rest, part);
      }
    }
  }

  lemma {:induction false} FlattenRepeatsNothing(es: seq<Entry>, d: nat, keys: Path)
    requires d > 0 && Uniform(Dict(es), d)
    ensures Distinct(Flatten(es, d, keys))
    decreases d, |es|
  {
    if es != [] {
      var e, rest := es[0], es[1..];
      assert e in es && forall x :: x in rest ==> x in es;
      assert forall i :: 0 <= i < |rest| ==> rest[i] == es[i + 1];
      assert Uniform(Dict(rest), d);
      FlattenRepeatsNothing(rest, d, keys);
      var head := if d == 1 then [keys + [e.key]] else Flatten(e.val.entries, d - 1, keys + [e.key]);
      if d > 1 { FlattenRepeatsNothing(e.val.entries, d - 1, keys + [e.key]); }
      assert Flatten(es, d, keys) == head + Flatten(rest, d, keys);
      forall p | p in head ensures p !in Flatten(rest, d, keys) {
        InFirst(es, d, keys, p);
      }
      ConcatRepeatsNothing(head, Flatten(rest, d, keys));
    }
  }

  lemma {:induction false} ConcatRepeatsNothing<T>(a: seq<T>, b: seq<T>)
    requires Distinct(a) && Distinct(b) && forall x :: x in a ==> x !in b
    ensures Distinct(a + b)
  {
    forall i, j | 0 <= i < |a| && 0 <= j < |b| ensures a[i] != b[j] {
      assert a[i] in a && b[j] in b;
    }
  }

  lemma {:induction false} InFirst(es: seq<Entry>, d: nat, keys: Path, p: Path)
    requires d > 0 && Uniform(Dict(es), d) && es != [] && Uniform(Dict(es[1..]), d)
    requires if d == 1 then p == keys + [es[0].key]
             else es[0].val.Dict? && p in Flatten(es[0].val.entries, d - 1, keys + [es[0].key])
    ensures p !in Flatten(es[1..], d, keys)
  {
    var e := es[0];
    assert e in es;
    if d > 1 { FlattenFinds(e.val.entries, d - 1, keys + [e.key], p); }
    FlattenFinds(es[1..], d, keys, p);
    if keys <= p && |p| == |keys| + d {
      assert p[|keys|..][0] == e.key;
      FirstOrRest(es, p[|keys|..]);
    }
  }

  function PrefixAll(part: Path, ps: seq<Path>): seq<Path> {
    seq(|ps|, i requires 0 <= i < |ps| => part + ps[i])
  }

  /** What is left below `part` in the trie, and what the scan finds, agree in number and in content. */
  lemma {:induction false} ScanMatchesTrie(found: seq<Path>, left: seq<Path>, part: Path, keys: set<Path>)
    requires Distinct(found) && forall k :: k in found <==> part <= k && k in keys
    requires Distinct(left) && forall q :: q in left <==> Leads(q, [], part, keys)
    ensures |found| == |left| && forall k :: k in found <==> k in PrefixAll(part, left)
    ensures |left| == 1 ==> found[0] == part + left[0]
  {
    var all := PrefixAll(part, left);
    forall i, j | 0 <= i < j < |all| ensures all[i] != all[j] {
      assert all[i][|part|..] == left[i] && all[j][|part|..] == left[j];
    }
    forall k ensures k in found <==> k in all {
      if k in found {
        var q := k[|part|..];
        assert k == part + q && q[0..] == q;
        assert Leads(q, [], part, keys);
        var i :| 0 <= i < |left| && left[i] == q;
        assert all[i] == k;
      }
      if k in all {
        var i :| 0 <= i < |all| && all[i] == k;
        assert left[i] in left && left[i][0..] == left[i];
        assert Leads(left[i], [], part, keys);
      }
    }
    SameLength(found, all);
    if |left| == 1 { assert found[0] in found; assert all[0] == part + left[0]; }
  }

  // ---- The schema object ----

  datatype SchemaError =
    | InvalidShape(depth: nat)
    | NestingLevel(depth: nat)
    | Ambiguous(rest: seq<Path>)

  datatype Result<+T> = Ok(value: T) | Err(error: SchemaError)

  const TABLE_PARTS: Path := ["this", "db", "catalog"]

  /** An empty mapping, or one with all tables at the same depth. */
  ghost predicate WellShaped(mapping: Val) {
    mapping.Dict? && (mapping.entries != [] ==> DictDepth(mapping) >= 2 && Uniform(mapping, DictDepth(mapping) - 1))
  }

  /** How deep the tables are; the columns do not count. */
  ghost function Nesting(mapping: Val): nat {
    if mapping.Dict? && mapping.entries != [] && DictDepth(mapping) > 0 then DictDepth(mapping) - 1 else 0
  }

  /** `k` names a table, innermost part first. */
  ghost predicate HasTable(mapping: Val, k: Path) {
    mapping.Dict? && mapping.entries != [] && |k| == Nesting(mapping) && NestedGet(mapping, Reversed(k)).Some?
  }

  ghost predicate SameTables(keys: set<Path>, mapping: Val) {
    forall k :: k in keys <==> HasTable(mapping, k)
  }

  lemma {:induction false} FlattenedTables(mapping: Val, paths: seq<Path>)
    requires WellShaped(mapping) && mapping.entries != [] && paths == Flatten(mapping.entries, Nesting(mapping), [])
    ensures Distinct(paths) && forall k :: HasTable(mapping, k) <==> Reversed(k) in paths
  {
    var d := Nesting(mapping);
    assert mapping == Dict(mapping.entries);
    FlattenRepeatsNothing(mapping.entries, d, []);
    forall k ensures HasTable(mapping, k) <==> Reversed(k) in paths {
      FlattenFinds(mapping.entries, d, [], Reversed(k));
      assert Reversed(k)[0..] == Reversed(k);
    }
  }

  function ReversedAll(paths: seq<Path>): seq<Path> {
    seq(|paths|, i requires 0 <= i < |paths| => Reversed(paths[i]))
  }

  lemma {:induction false} ReversedTables(mapping: Val, paths: seq<Path>)
    requires WellShaped(mapping) && paths == Flatten(mapping.entries, Nesting(mapping), [])
    ensures SameTables((set k | k in ReversedAll(paths)), mapping)
  {
    if mapping.entries == [] {
      assert paths == [];
    } else {
      FlattenedTables(mapping, paths);
      forall k ensures k in ReversedAll(paths) <==> HasTable(mapping, k) {
        if k in ReversedAll(paths) {
          var i :| 0 <= i < |paths| && Reversed(paths[i]) == k;
          ReversedTwice(paths[i]);
        }
        if HasTable(mapping, k) {
          var i :| 0 <= i < |paths| && paths[i] == Reversed(k);
          ReversedTwice(k);
          assert ReversedAll(paths)[i] == k;
        }
      }
    }
  }

  lemma {:induction false} ShapeFacts(mapping: Val)
    requires WellShaped(mapping)
    ensures mapping.Dict? && (mapping.entries == [] <==> Nesting(mapping) == 0)
  {
  }

  /** What `find` should answer for tables whose reversed paths start with `part`, as a scan over all tables. */
  ghost predicate Answers(mapping: Val, part: Path, raise: bool, r: Result<Option<Val>>)
    requires WellShaped(mapping)
  {
    var d := Nesting(mapping);
    if d > |TABLE_PARTS| then r == Err(InvalidShape(d))
    else
      var found := Scan(Flatten(mapping.entries, d, []), part);
      if |found| == 0 then r == Ok(None)
      else if |found| == 1 then r == Ok(NestedGet(mapping, Reversed(found[0]))) && r.value.Some?
      else if raise then r.Err? && r.error.Ambiguous? && forall k :: k in found <==> k in PrefixAll(part, r.error.rest)
      else r == Ok(None)
  }

  /** `find` looks at no more parts than the schema has levels. */
  ghost predicate Finds(mapping: Val, table: Path, raise: bool, r: Result<Option<Val>>)
    requires WellShaped(mapping)
  {
    Answers(mapping, table[..Min(|table|, Nesting(mapping))], raise, r)
  }

  function Min(a: nat, b: nat): nat { if a < b then a else b }

  /** The answer is right for the whole path of the table exactly if the schema has as many levels, or no
      table goes by what is left of the path. */
  lemma {:induction false} RightForWholePath(mapping: Val, table: Path, raise: bool, r: Result<Option<Val>>)
    requires WellShaped(mapping) && Nesting(mapping) <= |TABLE_PARTS| && Finds(mapping, table, raise, r)
    ensures Answers(mapping, table, raise, r) <==>
            |table| <= Nesting(mapping) || !HasTable(mapping, table[..Nesting(mapping)])
  {
    var d := Nesting(mapping);
    if |table| <= d {
      assert table[..|table|] == table;
    } else {
      hide Scan, Flatten, WellShaped, Nesting, HasTable, NestedGet;
      var paths := Flatten(mapping.entries, d, []);
      NoLongPath(mapping, table);
      AtFullLength(mapping, table[..d]);
      assert Scan(paths, table[..d]) != [] ==> Scan(paths, table[..d])[0] in Scan(paths, table[..d]);
    }
  }

  lemma {:induction false} NoLongPath(mapping: Val, table: Path)
    requires WellShaped(mapping) && |table| > Nesting(mapping)
    ensures Scan(Flatten(mapping.entries, Nesting(mapping), []), table) == []
  {
    var found := Scan(Flatten(mapping.entries, Nesting(mapping), []), table);
    if mapping.entries != [] && found != [] {
      FlattenedTables(mapping, Flatten(mapping.entries, Nesting(mapping), []));
      hide Scan, Flatten, WellShaped;
      assert found[0] in found;
      ScanFinds(Flatten(mapping.entries, Nesting(mapping), []), table, found[0]);
      assert false;
    }
  }

  lemma {:induction false} AtFullLength(mapping: Val, k: Path)
    requires WellShaped(mapping) && |k| == Nesting(mapping)
    ensures var found := Scan(Flatten(mapping.entries, Nesting(mapping), []), k);
      found == if HasTable(mapping, k) then [k] else []
  {
    var paths := Flatten(mapping.entries, Nesting(mapping), []);
    if mapping.entries != [] {
      FlattenedTables(mapping, paths);
      hide Scan, Flatten, WellShaped;
      forall x ensures x in Scan(paths, k) <==> x == k && HasTable(mapping, k) {
        ScanFinds(paths, k, x);
      }
      ScanRepeatsNothing(paths, k);
      OneOrNone(Scan(paths, k), k);
    }
  }

  lemma {:induction false} OneOrNone(found: seq<Path>, k: Path)
    requires Distinct(found) && forall x :: x in found ==> x == k
    ensures found == if k in found then [k] else []
  {
    DistinctCount(found);
    if found != [] {
      assert found[0] in found;
      assert Elems(found) == {k};
    }
  }

  const ONE_TABLE: Val := Dict([Entry("t", Dict([Entry("c", Leaf("int"))]))])

  /** In a schema without databases, `t` of another database is taken for `t`. */
  lemma {:induction false} TooQualified()
    ensures WellShaped(ONE_TABLE) && Scan(Flatten(ONE_TABLE.entries, 1, []), ["t", "other_db"]) == []
    ensures Finds(ONE_TABLE, ["t", "other_db"], false, Ok(Some(Dict([Entry("c", Leaf("int"))]))))
  {
  }

  class MappingSchema {
    var mapping: Val
    const trie: Trie<string>
    var cachedDepth: nat
    var supported: Path

    ghost predicate Valid()
      reads this, trie, trie.nodes
    {
      && trie.Valid() && WellShaped(mapping) && SameTables(trie.keys, mapping)
      && (cachedDepth == 0 || cachedDepth == Nesting(mapping))
      && (supported == [] || (Nesting(mapping) <= |TABLE_PARTS| && supported == TABLE_PARTS[..Nesting(mapping)]))
    }

    constructor (mapping: Val)
      requires WellShaped(mapping)
      ensures Valid() && this.mapping == mapping && fresh(trie) && fresh(trie.nodes)
    {
      this.mapping := mapping;
      var depth := if mapping.entries == [] then 0 else DictDepth(mapping) - 1;
      cachedDepth := depth;
      supported := [];
      var words := ReversedAll(Flatten(mapping.entries, depth, []));
      var t := new Trie<string>();
      t.Extend(words);
      trie := t;
      new;
      ReversedTables(mapping, Flatten(mapping.entries, depth, []));
      assert trie.keys == (set k | k in words);
    }

    /** `depth` */
    method Depth() returns (d: nat)
      requires Valid()
      modifies this`cachedDepth
      ensures Valid() && d == Nesting(mapping)
    {
      if mapping.entries != [] && cachedDepth == 0 {
        cachedDepth := DictDepth(mapping) - 1;
      }
      d := cachedDepth;
    }

    /** `supported_table_args` */
    method SupportedTableArgs() returns (r: Result<Path>)
      requires Valid()
      modifies this`cachedDepth, this`supported
      ensures Valid()
      ensures r ==
                if Nesting(mapping) > |TABLE_PARTS| then Err(InvalidShape(Nesting(mapping)))
                else Ok(TABLE_PARTS[..Nesting(mapping)])
    {
      if supported == [] && mapping.entries != [] {
        var depth := Depth();
        if depth <= 3 {
          supported := TABLE_PARTS[..depth];
        } else {
          return Err(InvalidShape(depth));
        }
      }
      r := Ok(supported);
    }

    /** `find`: what it answers is what a scan over all tables answers. */
    method Find(table: Path, raise: bool) returns (r: Result<Option<Val>>)
      requires Valid() && table != []
      modifies this`cachedDepth, this`supported
      ensures Valid() && Finds(mapping, table, raise, r)
    {
      hide Scan, Flatten, WellShaped, NestedGet, DictDepth, Extends, Finds, Nesting, AllOfLength, Distinct, Leads;
      var args := SupportedTableArgs();
      if args.Err? {
        TooDeep(mapping, table, raise);
        return Err(args.error);
      }
      var parts := table[..Min(|table|, |args.value|)];
      var value, node := trie.InTrie(trie.root, parts);
      assert [] + parts == parts;
      if value == FAILED {
        NothingFound(mapping, trie.keys, table, parts, raise);
        return Ok(None);
      }
      if value == PREFIX {
        AtPrefix(mapping, trie.keys, parts);
        var depth := NodeDepth(node, trie, Nesting(mapping));
        var rest := FlattenNode(node, depth - 1, [], trie, Nesting(mapping));
        PartlyFound(mapping, trie.keys, table, parts, rest, raise);
        if |rest| == 1 {
          parts := parts + rest[0];
        } else {
          return if raise then Err(Ambiguous(rest)) else Ok(None);
        }
      } else {
        ExactlyFound(mapping, trie.keys, table, parts, raise);
      }
      r := Ok(NestedGet(mapping, Reversed(parts)));
    }

    /** What the schema knows: the columns of each table, innermost part of its path first. */
    ghost function Tables(): map<Path, Val>
      requires Valid()
      reads this, trie, trie.nodes
    {
      map k | k in trie.keys :: NestedGet(mapping, Reversed(k)).value
    }

    lemma {:induction false} TablesAreDicts()
      requires Valid()
      ensures forall k :: k in Tables() ==> Tables()[k].Dict?
    {
      hide Uniform, NestedGet, Reversed, DictDepth;
      forall k | k in trie.keys ensures NestedGet(mapping, Reversed(k)).value.Dict? {
        assert HasTable(mapping, k);
        GetUniform(mapping, Reversed(k));
        UniformIsDict(NestedGet(mapping, Reversed(k)).value);
      }
    }

    /** `add_table`, with `match_depth` on. The first table decides the nesting. A table that has columns
        is not overwritten by an empty column mapping. */
    method AddTable(parts: Path, columns: Val) returns (e: Option<SchemaError>)
      requires Valid() && parts != [] && columns.Dict? && Uniform(columns, 0)
      modifies this, trie, trie.nodes
      ensures Valid() && fresh(trie.nodes - old(trie.nodes))
      ensures var d := Nesting(old(mapping));
        e == if d > 0 && |parts| != d then Some(NestingLevel(d))
             else if d > |TABLE_PARTS| then Some(InvalidShape(d)) else None
      ensures if e == None then Nesting(mapping) == |parts| else mapping == old(mapping)
      ensures Tables() == if e == None then Added(old(Tables()), parts, columns) else old(Tables())
      ensures e != None ==> Tables() == old(Tables())
      ensures e == None ==> Registers(old(Tables()), Tables(), parts, columns)
    {
      TablesAreDicts();
      AddedRegisters(Tables(), parts, columns);
      hide WellShaped, Finds, NestedSet, NestedGet, Reversed, Uniform, Registers;
      ShapeFacts(mapping);
      var empty := mapping.entries == [];
      var depth := Depth();
      if !empty && |parts| != depth {
        return Some(NestingLevel(depth));
      }
      var schema := Find(parts, false);
      WholeTable(mapping, trie.keys, parts, schema);
      if schema.Err? {
        return Some(schema.error);
      }
      if schema.value.Some? && schema.value.value.entries != [] && columns.entries == [] {
        return None;
      }
      Store(parts, columns);
      return None;
    }

    /** The last two steps of `add_table`: the mapping and the trie. */
    method Store(parts: Path, columns: Val)
      requires Valid() && parts != [] && columns.Dict? && Uniform(columns, 0)
      requires (mapping.entries != [] ==> |parts| == Nesting(mapping))
      modifies this`mapping, trie, trie.nodes
      ensures Valid() && fresh(trie.nodes - old(trie.nodes)) && Nesting(mapping) == |parts|
      ensures Tables() == old(Tables())[parts := columns]
    {
      hide WellShaped, NestedSet, NestedGet, Reversed, Uniform;
      ghost var was, keys, tables := mapping, trie.keys, Tables();
      ShapeFacts(mapping);
      assert was.entries == [] ==> cachedDepth == 0 && supported == [];
      TableSet(was, keys, parts, columns);
      mapping := NestedSet(mapping, Reversed(parts), columns);
      trie.Extend([parts]);
      assert trie.keys == keys + {parts};
      forall k | k in Tables() ensures Tables()[k] == tables[parts := columns][k] {}
    }

    /** Any run of `add_table`, with the errors caught. */
    method Run(calls: seq<Call>)
      requires Valid() && forall c :: c in calls ==> c.parts != [] && c.columns.Dict? && Uniform(c.columns, 0)
      modifies this, trie, trie.nodes
      ensures Valid() && fresh(trie.nodes - old(trie.nodes))
      ensures Tables() == AfterRun(Nesting(old(mapping)), old(Tables()), calls)
      ensures forall k :: Decided(Nesting(old(mapping)), old(Tables()), calls, k, Tables())
    {
      TablesAreDicts();
      forall k
        ensures Decided(Nesting(mapping), Tables(), calls, k, AfterRun(Nesting(mapping), Tables(), calls))
      {
        RunDecides(Nesting(mapping), Tables(), calls, k);
      }
      hide Decided;
      for i := 0 to |calls|
        invariant Valid() && fresh(trie.nodes - old(trie.nodes))
        invariant AfterRun(Nesting(mapping), Tables(), calls[i..]) ==
                    AfterRun(Nesting(old(mapping)), old(Tables()), calls)
      {
        hide WellShaped, Uniform;
        assert calls[i..][0] == calls[i] && calls[i..][1..] == calls[i + 1..];
        var e := AddTable(calls[i].parts, calls[i].columns);
      }
    }
  }

  datatype Call = Call(parts: Path, columns: Val)

  /** The tables after a run that starts at nesting `d`; 0 is an empty schema. */
  ghost function AfterRun(d: nat, tables: map<Path, Val>, calls: seq<Call>): map<Path, Val>
    requires forall c :: c in calls ==> c.columns.Dict?
    decreases |calls|
  {
    if calls == [] then tables
    else if d > |TABLE_PARTS| || (d > 0 && |calls[0].parts| != d) then AfterRun(d, tables, calls[1..])
    else AfterRun(|calls[0].parts|, Added(tables, calls[0].parts, calls[0].columns), calls[1..])
  }

  /** The table has the columns it is given. Without columns it stays as it is, or becomes a table without any. No other
      table changes. */
  ghost predicate Registers(before: map<Path, Val>, after: map<Path, Val>, parts: Path, columns: Val)
    requires columns.Dict?
  {
    && parts in after
    && (columns.entries != [] ==> after[parts] == columns)
    && (columns.entries == [] ==> after[parts] == if parts in before then before[parts] else Dict([]))
    && forall k :: k != parts ==> (k in after <==> k in before) && (k in before ==> after[k] == before[k])
  }

  /** The call is not an error: it names a table at the nesting of the schema, which is the one at the start or, in an
      empty schema, that of the first call. */
  predicate Succeeds(d: nat, calls: seq<Call>, i: nat)
    requires i < |calls|
  {
    if d == 0 then i == 0 || |calls[i].parts| == |calls[0].parts| <= |TABLE_PARTS|
    else |calls[i].parts| == d <= |TABLE_PARTS|
  }

  /** The i-th call gives columns to the table, and no later one does. */
  ghost predicate LastWithColumns(d: nat, calls: seq<Call>, k: Path, i: nat)
    requires i < |calls| && forall c :: c in calls ==> c.columns.Dict?
  {
    && Succeeds(d, calls, i) && calls[i].parts == k && calls[i].columns.entries != []
    && forall j :: i < j < |calls| && Succeeds(d, calls, j) && calls[j].parts == k ==> calls[j].columns.entries == []
  }

  ghost predicate NamedBy(d: nat, calls: seq<Call>, k: Path) {
    exists i :: 0 <= i < |calls| && Succeeds(d, calls, i) && calls[i].parts == k
  }

  /** After a run a table has the columns of the last successful call that gives it some; if there is none, those it had
      before; and if it was not there, none, provided that a successful call names it. */
  ghost predicate Decided(d: nat, before: map<Path, Val>, calls: seq<Call>, k: Path, after: map<Path, Val>)
    requires forall c :: c in calls ==> c.columns.Dict?
  {
    && (forall i :: 0 <= i < |calls| && LastWithColumns(d, calls, k, i) ==> k in after && after[k] == calls[i].columns)
    && ((forall i :: 0 <= i < |calls| ==> !LastWithColumns(d, calls, k, i)) ==>
         && (k in after <==> k in before || NamedBy(d, calls, k))
         && (k in after ==> after[k] == if k in before then before[k] else Dict([])))
  }

  lemma {:induction false} RunDecides(d: nat, tables: map<Path, Val>, calls: seq<Call>, k: Path)
    requires forall c :: c in calls ==> c.columns.Dict? && c.parts != []
    requires forall t :: t in tables ==> tables[t].Dict?
    ensures Decided(d, tables, calls, k, AfterRun(d, tables, calls))
    decreases |calls|
  {
    if calls != [] {
      hide Decided, AfterRun;
      var rest := calls[1..];
      var d' := if Succeeds(d, calls, 0) then |calls[0].parts| else d;
      var tables' := if Succeeds(d, calls, 0) then Added(tables, calls[0].parts, calls[0].columns) else tables;
      RunStep(d, tables, calls);
      assert calls[0] in calls;
      AddedRegisters(tables, calls[0].parts, calls[0].columns);
      RunDecides(d', tables', rest, k);
      DecidedBefore(d, d', tables, tables', calls, k, AfterRun(d', tables', rest));
    } else {
      assert AfterRun(d, tables, calls) == tables;
    }
  }

  lemma {:induction false} RunStep(d: nat, tables: map<Path, Val>, calls: seq<Call>)
    requires calls != [] && forall c :: c in calls ==> c.columns.Dict? && c.parts != []
    ensures AfterRun(d, tables, calls) ==
            if Succeeds(d, calls, 0)
            then AfterRun(|calls[0].parts|, Added(tables, calls[0].parts, calls[0].columns), calls[1..])
            else AfterRun(d, tables, calls[1..])
  {
    hide Added;
    assert calls[0] in calls;
  }

  lemma {:induction false} AddedRegisters(tables: map<Path, Val>, parts: Path, columns: Val)
    requires columns.Dict? && forall t :: t in tables ==> tables[t].Dict?
    ensures Registers(tables, Added(tables, parts, columns), parts, columns)
    ensures forall t :: t in Added(tables, parts, columns) ==> Added(tables, parts, columns)[t].Dict?
  {
    if columns.entries == [] { assert columns == Dict([]); }
  }

  lemma {:induction false} SucceedsLater(d: nat, d': nat, calls: seq<Call>, i: nat)
    requires 0 < i < |calls| && calls[0].parts != []
    requires d' == if Succeeds(d, calls, 0) then |calls[0].parts| else d
    ensures Succeeds(d, calls, i) <==> Succeeds(d', calls[1..], i - 1)
  {
  }

  lemma {:induction false} DecidedBefore(d: nat, d': nat, tables: map<Path, Val>, tables': map<Path, Val>,
      calls: seq<Call>, k: Path, after: map<Path, Val>)
    requires calls != [] && forall c :: c in calls ==> c.columns.Dict? && c.parts != []
    requires d' == if Succeeds(d, calls, 0) then |calls[0].parts| else d
    requires if Succeeds(d, calls, 0) then Registers(tables, tables', calls[0].parts, calls[0].columns)
             else tables' == tables
    requires Decided(d', tables', calls[1..], k, after)
    ensures Decided(d, tables, calls, k, after)
  {
    hide Succeeds, LastWithColumns;
    var rest := calls[1..];
    assert forall i :: 0 <= i < |rest| ==> rest[i] == calls[i + 1];
    forall i | 0 < i < |calls| ensures LastWithColumns(d, calls, k, i) <==> LastWithColumns(d', rest, k, i - 1) {
      LastLater(d, d', calls, k, i);
    }
    forall i | 0 <= i < |rest| ensures LastWithColumns(d', rest, k, i) <==> LastWithColumns(d, calls, k, i + 1) {
      LastLater(d, d', calls, k, i + 1);
    }
    NamedLater(d, d', calls, k);
    FirstCall(d, calls, k);
  }

  lemma {:induction false} LastLater(d: nat, d': nat, calls: seq<Call>, k: Path, i: nat)
    requires 0 < i < |calls| && forall c :: c in calls ==> c.columns.Dict? && c.parts != []
    requires d' == if Succeeds(d, calls, 0) then |calls[0].parts| else d
    ensures LastWithColumns(d, calls, k, i) <==> LastWithColumns(d', calls[1..], k, i - 1)
  {
    var rest := calls[1..];
    assert forall j :: 0 <= j < |rest| ==> rest[j] == calls[j + 1];
    assert forall j :: 1 <= j < |calls| ==> calls[j] == rest[j - 1];
    forall j | 0 < j < |calls| ensures Succeeds(d, calls, j) <==> Succeeds(d', rest, j - 1) {
      SucceedsLater(d, d', calls, j);
    }
    forall j | 0 <= j < |rest| ensures Succeeds(d', rest, j) <==> Succeeds(d, calls, j + 1) {
      SucceedsLater(d, d', calls, j + 1);
    }
    hide Succeeds;
  }

  lemma {:induction false} NamedLater(d: nat, d': nat, calls: seq<Call>, k: Path)
    requires calls != [] && forall c :: c in calls ==> c.columns.Dict? && c.parts != []
    requires d' == if Succeeds(d, calls, 0) then |calls[0].parts| else d
    ensures NamedBy(d, calls, k) <==> NamedBy(d', calls[1..], k) || (Succeeds(d, calls, 0) && calls[0].parts == k)
  {
    hide Succeeds;
    var rest := calls[1..];
    if i :| 0 <= i < |calls| && Succeeds(d, calls, i) && calls[i].parts == k {
      if i > 0 {
        SucceedsLater(d, d', calls, i);
        assert rest[i - 1] == calls[i];
      }
    }
    if i :| 0 <= i < |rest| && Succeeds(d', rest, i) && rest[i].parts == k {
      SucceedsLater(d, d', calls, i + 1);
      assert rest[i] == calls[i + 1];
    }
  }

  /** The first call gives columns to the table for good, or a later one does. */
  lemma {:induction false} FirstCall(d: nat, calls: seq<Call>, k: Path)
    requires calls != [] && forall c :: c in calls ==> c.columns.Dict? && c.parts != []
    ensures LastWithColumns(d, calls, k, 0) <==>
            && Succeeds(d, calls, 0) && calls[0].parts == k && calls[0].columns.entries != []
            && forall i :: 0 < i < |calls| ==> !LastWithColumns(d, calls, k, i)
  {
    hide Succeeds;
    if Succeeds(d, calls, 0) && calls[0].parts == k && calls[0].columns.entries != [] &&
       !LastWithColumns(d, calls, k, 0) {
      var j :| 0 < j < |calls| && Succeeds(d, calls, j) && calls[j].parts == k && calls[j].columns.entries != [];
      var i := LastFrom(d, calls, k, j);
    }
  }

  lemma {:induction false} LastFrom(d: nat, calls: seq<Call>, k: Path, j: nat) returns (i: nat)
    requires forall c :: c in calls ==> c.columns.Dict?
    requires j < |calls| && Succeeds(d, calls, j) && calls[j].parts == k && calls[j].columns.entries != []
    ensures j <= i < |calls| && LastWithColumns(d, calls, k, i)
    decreases |calls| - j
  {
    hide Succeeds;
    i := j;
    if m :| j < m < |calls| && Succeeds(d, calls, m) && calls[m].parts == k && calls[m].columns.entries != [] {
      i := LastFrom(d, calls, k, m);
    }
  }

  /** Tables that a run does not name keep their columns; columns are never emptied by a later call. */
  lemma {:induction false} RunKeepsColumns(d: nat, tables: map<Path, Val>, calls: seq<Call>, k: Path)
    requires forall c :: c in calls ==> c.columns.Dict?
    requires k in tables && tables[k].Dict?
    ensures var after := AfterRun(d, tables, calls);
      && k in after && after[k].Dict?
      && ((forall c :: c in calls ==> c.parts != k) ==> after[k] == tables[k])
      && (tables[k].entries != [] ==> after[k].entries != [])
    decreases |calls|
  {
    if calls != [] {
      var c := calls[0];
      if d > |TABLE_PARTS| || (d > 0 && |c.parts| != d) {
        RunKeepsColumns(d, tables, calls[1..], k);
      } else {
        RunKeepsColumns(|c.parts|, Added(tables, c.parts, c.columns), calls[1..], k);
      }
    }
  }

  /** The effect of `add_table` on the tables and their columns. */
  ghost function Added(tables: map<Path, Val>, parts: Path, columns: Val): map<Path, Val>
    requires columns.Dict?
  {
    if parts in tables && tables[parts].Dict? && tables[parts].entries != [] && columns.entries == [] then tables
    else tables[parts := columns]
  }

  lemma {:induction false} WholeTable(mapping: Val, keys: set<Path>, parts: Path, r: Result<Option<Val>>)
    requires WellShaped(mapping) && SameTables(keys, mapping) && (mapping.entries != [] ==> |parts| == Nesting(mapping))
    requires Finds(mapping, parts, false, r)
    ensures r.Err? <==> Nesting(mapping) > |TABLE_PARTS|
    ensures r.Err? ==> r.error == InvalidShape(Nesting(mapping))
    ensures r.Ok? ==> r.value == if parts in keys then NestedGet(mapping, Reversed(parts)) else None
    ensures r.Ok? && r.value.Some? ==> r.value.value.Dict?
  {
    hide Scan, Flatten, NestedGet, Uniform, DictDepth, Reversed;
    if mapping.entries == [] {
      EmptyFind(parts);
    } else if Nesting(mapping) <= |TABLE_PARTS| {
      assert parts[..|parts|] == parts;
      ScanAndTrie(mapping, keys, parts);
      var found := Scan(Flatten(mapping.entries, Nesting(mapping), []), parts);
      HasElement(found);
      forall k | k in found ensures k == parts { assert k[..|parts|] == k; }
      if parts in keys {
        assert forall k :: k in found <==> k in [parts];
        SameLength(found, [parts]);
        assert found[0] in found;
        GetUniform(mapping, Reversed(parts));
      }
    }
  }

  lemma {:induction false} EmptyFind(part: Path)
    ensures Scan(Flatten([], 0, []), part[..0]) == [] && Nesting(Dict([])) == 0
  {
  }

  lemma {:induction false} UniformIsDict(v: Val)
    requires Uniform(v, 0)
    ensures v.Dict?
  {
  }

  lemma {:induction false} GetUniform(v: Val, p: Path)
    requires Uniform(v, |p|) && NestedGet(v, p).Some?
    ensures Uniform(NestedGet(v, p).value, 0)
    decreases |p|
  {
    if p != [] {
      SubUniform(v, |p|, p[0]);
      GetUniform(GetKey(v.entries, p[0]).value, p[1..]);
    }
  }

  lemma {:induction false} TableSet(was: Val, keys: set<Path>, parts: Path, columns: Val)
    requires WellShaped(was) && SameTables(keys, was) && (was.entries != [] ==> |parts| == Nesting(was)) && parts != []
    requires Uniform(columns, 0)
    ensures var now := NestedSet(was, Reversed(parts), columns);
      && WellShaped(now) && Nesting(now) == |parts| && SameTables(keys + {parts}, now)
      && forall k :: k in keys + {parts} ==>
           NestedGet(now, Reversed(k)) == if k == parts then Some(columns) else NestedGet(was, Reversed(k))
  {
    hide NestedSet, NestedGet, DictDepth, Reversed;
    var p := Reversed(parts);
    var now := NestedSet(was, p, columns);
    assert Uniform(was, |p|);
    SetIsUniform(was, p, columns);
    UniformDepth(now, |p|);
    forall k | |k| == |parts|
      ensures NestedGet(now, Reversed(k)) == if k == parts then Some(columns) else NestedGet(was, Reversed(k))
    {
      ReversedTwice(k);
      ReversedTwice(parts);
      GetAfterSet(was, p, columns, Reversed(k));
    }
    if was.entries == [] {
      forall k | |k| == |parts| ensures NestedGet(was, Reversed(k)) == None { NothingInside(Reversed(k)); }
    }
  }

  lemma {:induction false} TooDeep(mapping: Val, table: Path, raise: bool)
    requires WellShaped(mapping) && Nesting(mapping) > |TABLE_PARTS|
    ensures Finds(mapping, table, raise, Err(InvalidShape(Nesting(mapping))))
  {
  }

  lemma {:induction false} ScanAndTrie(mapping: Val, keys: set<Path>, part: Path)
    requires WellShaped(mapping) && SameTables(keys, mapping)
    ensures AllOfLength(keys, Nesting(mapping))
    ensures var found := Scan(Flatten(mapping.entries, Nesting(mapping), []), part);
      Distinct(found) && forall k :: k in found <==> part <= k && k in keys
  {
    var paths := Flatten(mapping.entries, Nesting(mapping), []);
    if mapping.entries != [] {
      FlattenedTables(mapping, paths);
      ScanRepeatsNothing(paths, part);
      forall k ensures k in Scan(paths, part) <==> part <= k && k in keys {
        ScanFinds(paths, part, k);
      }
    }
  }

  /** The part of a table's path that `find` looks up. */
  ghost predicate IsPart(mapping: Val, table: Path, part: Path) {
    Nesting(mapping) <= |TABLE_PARTS| && part == table[..Min(|table|, Nesting(mapping))]
  }

  lemma {:induction false} NothingFound(mapping: Val, keys: set<Path>, table: Path, part: Path, raise: bool)
    requires WellShaped(mapping) && SameTables(keys, mapping) && table != [] && IsPart(mapping, table, part)
    requires Lookup(keys, [], part) == FAILED
    ensures Finds(mapping, table, raise, Ok(None))
  {
    assert [] + part == part;
    ScanAndTrie(mapping, keys, part);
    var found := Scan(Flatten(mapping.entries, Nesting(mapping), []), part);
    if part != [] {
      assert forall k :: k in found ==> !Extends(keys, part);
      HasElement(found);
    }
  }

  lemma {:induction false} HasElement<T>(s: seq<T>)
    ensures s == [] || exists x :: x in s
  {
    if s != [] { assert s[0] in s; }
  }

  lemma {:induction false} ExactlyFound(mapping: Val, keys: set<Path>, table: Path, part: Path, raise: bool)
    requires WellShaped(mapping) && SameTables(keys, mapping) && IsPart(mapping, table, part) && part in keys
    ensures Finds(mapping, table, raise, Ok(NestedGet(mapping, Reversed(part))))
  {
    ScanAndTrie(mapping, keys, part);
    var found := Scan(Flatten(mapping.entries, Nesting(mapping), []), part);
    assert forall k :: k in found ==> k == part;
    SameLength(found, [part]);
    assert found[0] in found;
  }

  lemma {:induction false} AtPrefix(mapping: Val, keys: set<Path>, part: Path)
    requires WellShaped(mapping) && SameTables(keys, mapping) && Lookup(keys, [], part) == PREFIX
    ensures AllOfLength(keys, Nesting(mapping)) && Extends(keys, part) && |part| < Nesting(mapping)
  {
    assert [] + part == part;
    ScanAndTrie(mapping, keys, part);
    var k :| k in keys && part <= k;
    assert |part| == |k| ==> part == k;
  }

  lemma {:induction false} PartlyFound(mapping: Val, keys: set<Path>, table: Path, part: Path, rest: seq<Path>,
      raise: bool)
    requires WellShaped(mapping) && SameTables(keys, mapping) && IsPart(mapping, table, part)
    requires Extends(keys, part) && Distinct(rest) && forall q :: q in rest <==> Leads(q, [], part, keys)
    ensures Finds(mapping, table, raise,
              if |rest| == 1 then Ok(NestedGet(mapping, Reversed(part + rest[0])))
              else if raise then Err(Ambiguous(rest)) else Ok(None))
  {
    hide Scan, Flatten, WellShaped, NestedGet, DictDepth, Leads, Distinct, Nesting, PrefixAll, Reversed;
    ScanAndTrie(mapping, keys, part);
    var found := Scan(Flatten(mapping.entries, Nesting(mapping), []), part);
    ScanMatchesTrie(found, rest, part, keys);
    var k :| k in keys && part <= k;
    assert k in found;
    if |rest| == 1 {
      assert found[0] in found;
      assert HasTable(mapping, found[0]);
    }
  }
}
