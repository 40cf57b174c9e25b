/** One more visited node: how the arguments of its holder change (sqlglot/expressions.py, `transform`). */
module AstImages {
  import opened Collections
  import opened Ast
  import opened AstTree

  /** On these nodes the two image maps do the same. */
  ghost predicate SameOn(ns: set<Node>, img: Images, img': Images) {
    forall n :: n in ns ==> MapItem(Sub(n), img) == MapItem(Sub(n), img')
  }

  lemma {:induction false} SameItems(xs: seq<Item>, img: Images, img': Images)
    requires SameOn(ItemNodes(xs), img, img')
    ensures MapItems(xs, img) == MapItems(xs, img')
    decreases |xs|
  {
    if xs != [] {
      assert xs[0].Sub? ==> xs[0].node in ItemNodes(xs);
      TailNodes(xs);
      SameItems(xs[1..], img, img');
    }
  }

  lemma {:induction false} TailNodes(xs: seq<Item>)
    requires xs != []
    ensures ItemNodes(xs[1..]) <= ItemNodes(xs)
  {
    forall c | c in ItemNodes(xs[1..]) ensures c in ItemNodes(xs) {
      var i :| 0 <= i < |xs[1..]| && xs[1..][i] == Sub(c);
      assert xs[i + 1] == Sub(c);
    }
  }

  lemma {:induction false} SameArg(a: Arg, img: Images, img': Images)
    requires SameOn(ArgNodes(a), img, img')
    ensures Stays(a, img) <==> Stays(a, img')
    ensures Stays(a, img) ==> MapArg(a, img) == MapArg(a, img')
  {
    match a {
      case One(x) =>
        assert x.Sub? ==> x.node in ArgNodes(a);
        assert MapItem(x, img) == MapItem(x, img');
      case Many(xs) => SameItems(xs, img, img');
    }
  }

  lemma {:induction false} SameArgs(args: map<Key, Arg>, keys: seq<Key>, img: Images, img': Images)
    requires forall k :: k in args ==> SameOn(ArgNodes(args[k]), img, img')
    ensures MapArgs(args, img) == MapArgs(args, img') && MapKeys(keys, args, img) == MapKeys(keys, args, img')
  {
    forall k | k in args
      ensures Stays(args[k], img) <==> Stays(args[k], img')
      ensures Stays(args[k], img) ==> MapArg(args[k], img) == MapArg(args[k], img')
    {
      SameArg(args[k], img, img');
    }
    SameKeys(keys, args, args, img, img');
  }

  lemma {:induction false} SameKeys(keys: seq<Key>, args: map<Key, Arg>, args': map<Key, Arg>, img: Images,
      img': Images)
    requires forall k :: k in keys ==> ((k in args && Stays(args[k], img)) <==> (k in args' && Stays(args'[k], img')))
    ensures MapKeys(keys, args, img) == MapKeys(keys, args', img')
    decreases |keys|
  {
    if keys != [] { SameKeys(keys[1..], args, args', img, img'); }
  }

  lemma {:induction false} UntouchedItems(xs: seq<Item>, img: Images)
    requires ItemNodes(xs) !! img.Keys
    ensures MapItems(xs, img) == xs
    decreases |xs|
  {
    if xs != [] {
      assert xs[0].Sub? ==> xs[0].node in ItemNodes(xs);
      TailNodes(xs);
      UntouchedItems(xs[1..], img);
      assert xs == [xs[0]] + xs[1..];
    }
  }

  /** A node none of whose children has been visited. */
  lemma {:induction false} UntouchedArgs(args: map<Key, Arg>, keys: seq<Key>, img: Images)
    requires KeysMatch(args, keys) && forall k :: k in args ==> ArgNodes(args[k]) !! img.Keys
    ensures MapArgs(args, img) == args && MapKeys(keys, args, img) == keys
  {
    forall k | k in args ensures Stays(args[k], img) && MapArg(args[k], img) == args[k] {
      match args[k] {
        case One(x) => assert x.Sub? ==> x.node in ArgNodes(args[k]);
        case Many(xs) => UntouchedItems(xs, img);
      }
    }
    AllKeysStay(keys, args, img);
  }

  lemma {:induction false} AllKeysStay(keys: seq<Key>, args: map<Key, Arg>, img: Images)
    requires forall k :: k in keys ==> k in args && Stays(args[k], img)
    ensures MapKeys(keys, args, img) == keys
    decreases |keys|
  {
    if keys != [] {
      AllKeysStay(keys[1..], args, img);
      assert keys == [keys[0]] + keys[1..];
    }
  }

  lemma {:induction false} MapItemsConcat(xs: seq<Item>, ys: seq<Item>, img: Images)
    ensures MapItems(xs + ys, img) == MapItems(xs, img) + MapItems(ys, img)
    decreases |xs|
  {
    if xs == [] {
      assert xs + ys == ys;
    } else {
      assert (xs + ys)[1..] == xs[1..] + ys;
      MapItemsConcat(xs[1..], ys, img);
    }
  }

  lemma {:induction false} MapItemsAround(xs: seq<Item>, j: nat, img: Images)
    requires j < |xs|
    ensures MapItems(xs, img) == MapItems(xs[..j], img) + MapItem(xs[j], img) + MapItems(xs[j + 1..], img)
  {
    var rest := [xs[j]] + xs[j + 1..];
    assert xs == xs[..j] + rest && rest[1..] == xs[j + 1..];
    MapItemsConcat(xs[..j], rest, img);
  }

  lemma {:induction false} NodeOnlyAt(xs: seq<Item>, j: nat, c: Node)
    requires j < |xs| && xs[j] == Sub(c) && DistinctNodes(xs)
    ensures c !in ItemNodes(xs[..j]) && c !in ItemNodes(xs[j + 1..])
  {
  }

  /** In a list: the images around the visited node stay, and its own image takes its place. */
  lemma {:induction false} ListSlot(xs: seq<Item>, j: nat, img: Images, c: Node, v: Option<Node>, i: nat)
    requires j < |xs| && xs[j] == Sub(c) && DistinctNodes(xs) && c !in img
    requires DistinctNodes(MapItems(xs, img)) && i < |MapItems(xs, img)| && MapItems(xs, img)[i] == Sub(c)
    ensures MapItems(xs, img[c := v]) == MapItems(xs, img)[..i] + MapItem(Sub(c), img[c := v]) +
              MapItems(xs, img)[i + 1..]
  {
    hide MapItems;
    var img' := img[c := v];
    MapItemsAround(xs, j, img);
    MapItemsAround(xs, j, img');
    NodeOnlyAt(xs, j, c);
    SameItems(xs[..j], img, img');
    SameItems(xs[j + 1..], img, img');
    var before, ys := MapItems(xs[..j], img), MapItems(xs, img);
    assert MapItem(xs[j], img) == [Sub(c)];
    assert ys[|before|] == Sub(c) && i == |before|;
    assert ys[..i] == before && ys[i + 1..] == MapItems(xs[j + 1..], img);
  }

  /** What `transform` passes to `set` for an image. */
  function ImageValue(v: Option<Node>): Value {
    match v
    case Some(r) => Single(Sub(r))
    case None => Nothing
  }

  /** `c` stands in argument `k` and nowhere else, and its current place there is `idx`. */
  ghost predicate StandsAt(args: map<Key, Arg>, img: Images, c: Node, k: Key, idx: Option<int>) {
    && c !in img && k in args && c in ArgNodes(args[k])
    && (forall l :: l in args && l != k ==> c !in ArgNodes(args[l]))
    && (match args[k]
        case One(_) => idx == None
        case Many(xs) =>
          && DistinctNodes(xs) && DistinctNodes(MapItems(xs, img))
          && idx.Some? && 0 <= idx.value < |MapItems(xs, img)| && MapItems(xs, img)[idx.value] == Sub(c))
  }

  /** The argument that holds the visited node. */
  lemma {:induction false} SlotArg(args: map<Key, Arg>, img: Images, c: Node, k: Key, idx: Option<int>,
      v: Option<Node>, m: map<Key, Arg>)
    requires StandsAt(args, img, c, k, idx) && Stays(args[k], img) && k in m && m[k] == MapArg(args[k], img)
    ensures ArgsAfterSet(m, k, ImageValue(v), idx, true) ==
            if Stays(args[k], img[c := v]) then m[k := MapArg(args[k], img[c := v])] else m - {k}
  {
    hide MapItems, DistinctNodes, NewList;
    if args[k].Many? {
      var xs := args[k].items;
      var j :| 0 <= j < |xs| && xs[j] == Sub(c);
      ListSlot(xs, j, img, c, v, idx.value);
      SetInList(MapItems(xs, img), idx.value, v);
    }
  }

  /** Setting the slot of a visited node to its image is recording the image. */
  lemma {:induction false} SlotImage(args: map<Key, Arg>, img: Images, c: Node, k: Key, idx: Option<int>,
      v: Option<Node>)
    requires StandsAt(args, img, c, k, idx)
    ensures k in MapArgs(args, img)
    ensures ArgsAfterSet(MapArgs(args, img), k, ImageValue(v), idx, true) == MapArgs(args, img[c := v])
  {
    hide MapArg, ArgsAfterSet;
    var img' := img[c := v];
    forall l | l in args && l != k
      ensures Stays(args[l], img) <==> Stays(args[l], img')
      ensures Stays(args[l], img) ==> MapArg(args[l], img) == MapArg(args[l], img')
    {
      SameArg(args[l], img, img');
    }
    SlotArg(args, img, c, k, idx, v, MapArgs(args, img));
  }

  lemma {:induction false} DropKey(keys: seq<Key>, args: map<Key, Arg>, img: Images, img': Images, k: Key)
    requires forall l :: l in args && l != k ==> (Stays(args[l], img) <==> Stays(args[l], img'))
    requires k in args && !Stays(args[k], img')
    ensures WithoutKey(MapKeys(keys, args, img), k) == MapKeys(keys, args, img')
    decreases |keys|
  {
    if keys != [] {
      DropKey(keys[1..], args, img, img', k);
      var rest := MapKeys(keys[1..], args, img);
      if keys[0] in args && Stays(args[keys[0]], img) {
        assert MapKeys(keys, args, img)[1..] == rest;
      } else {
        assert MapKeys(keys, args, img) == rest;
      }
      assert [] + MapKeys(keys[1..], args, img') == MapKeys(keys[1..], args, img');
    }
  }

  lemma {:induction false} MapKeysIn(keys: seq<Key>, args: map<Key, Arg>, img: Images)
    ensures forall k :: k in MapKeys(keys, args, img) <==> k in keys && k in args && Stays(args[k], img)
    decreases |keys|
  {
    if keys != [] { MapKeysIn(keys[1..], args, img); }
  }

  lemma {:induction false} SlotKeys(args: map<Key, Arg>, keys: seq<Key>, img: Images, c: Node, k: Key,
      idx: Option<int>, v: Option<Node>)
    requires StandsAt(args, img, c, k, idx) && KeysMatch(args, keys)
    ensures KeysAfterSet(MapKeys(keys, args, img), k, ImageValue(v), idx) == MapKeys(keys, args, img[c := v])
  {
    var img' := img[c := v];
    forall l | l in args && l != k ensures Stays(args[l], img) <==> Stays(args[l], img') {
      SameArg(args[l], img, img');
    }
    if args[k].One? && v == None {
      DropKey(keys, args, img, img', k);
    } else {
      MapKeysIn(keys, args, img);
      SameKeys(keys, args, args, img, img');
    }
  }

  lemma {:induction false} SetInList(ys: seq<Item>, i: nat, v: Option<Node>)
    requires i < |ys|
    ensures NewList(ys, ImageValue(v), i, true) == ys[..i] + (if v.Some? then [Sub(v.value)] else []) + ys[i + 1..]
  {
  }
}
