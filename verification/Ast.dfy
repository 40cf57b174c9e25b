/** Expression nodes with links to their parent, and the operations that move nodes about
    (sqlglot/expressions.py, `Expression`). */
module Ast {
  import opened Collections

  type Key = string

  /** A value in a node's arguments: a node, or anything else. */
  datatype Item = Sub(node: Node) | Atom(value: Scalar)

  datatype Scalar = Str(text: string) | Number(n: int) | Flag(on: bool)

  datatype Arg = One(item: Item) | Many(items: seq<Item>)

  /** What `set` and `replace` are given: None, a single value, or a list. */
  datatype Value = Nothing | Single(item: Item) | List(items: seq<Item>)

  class Node {
    const kind: string
    /** A Python dictionary: its contents, and its keys in insertion order. */
    var args: map<Key, Arg>
    var keys: seq<Key>
    var parent: Node?
    var argKey: Option<Key>
    var index: Option<int>

    constructor Empty(kind: string)
      ensures this.kind == kind && args == map[] && keys == [] && parent == null && argKey == None && index == None
    {
      this.kind := kind;
      args, keys, parent, argKey, index := map[], [], null, None, None;
    }

    /** `__init__`: the arguments are linked one by one. */
    constructor (kind: string, args: map<Key, Arg>, keys: seq<Key>)
      requires KeysMatch(args, keys) && LinkableArgs(args)
      modifies ArgsNodes(args)`parent, ArgsNodes(args)`argKey, ArgsNodes(args)`index
      ensures this.kind == kind && this.args == args && this.keys == keys
      ensures parent == null && argKey == None && index == None
      ensures forall k :: k in args ==> ArgLinked(args[k], this, k)
    {
      this.kind := kind;
      this.args, this.keys, parent, argKey, index := args, keys, null, None, None;
      new;
      LinkArgs(args, keys);
    }

    method LinkArgs(args: map<Key, Arg>, keys: seq<Key>)
      requires KeysMatch(args, keys) && LinkableArgs(args)
      modifies ArgsNodes(args)`parent, ArgsNodes(args)`argKey, ArgsNodes(args)`index
      ensures forall k :: k in args ==> ArgLinked(args[k], this, k)
    {
      for i := 0 to |keys|
        invariant forall j :: 0 <= j < i ==> ArgLinked(args[keys[j]], this, keys[j])
      {
        hide DistinctNodes, LinkedTo;
        ghost var k := keys[i];
        assert ArgNodes(args[k]) <= ArgsNodes(args);
        assert forall j :: 0 <= j < i ==> keys[j] != k && ArgNodes(args[keys[j]]) !! ArgNodes(args[k]);
        SetParent(keys[i], args[keys[i]]);
      }
    }

    ghost predicate LinkedTo(p: Node, k: Key, i: Option<int>)
      reads this`parent, this`argKey, this`index
    {
      parent == p && argKey == Some(k) && index == i
    }

    /** `_set_parent`. A node that stood twice in the list could only link to one of its places. */
    method SetParent(k: Key, a: Arg)
      requires a.Many? ==> DistinctNodes(a.items)
      modifies ArgNodes(a)`parent, ArgNodes(a)`argKey, ArgNodes(a)`index
      ensures ArgLinked(a, this, k)
    {
      match a {
        case One(Sub(n)) =>
          n.parent, n.argKey, n.index := this, Some(k), None;
        case One(Atom(_)) =>
        case Many(xs) =>
          for i := 0 to |xs|
            invariant forall j :: 0 <= j < i && xs[j].Sub? ==> xs[j].node.LinkedTo(this, k, Some(j))
          {
            if xs[i].Sub? {
              xs[i].node.parent, xs[i].node.argKey, xs[i].node.index := this, Some(k), Some(i);
            }
          }
      }
    }

    /** `self.args[k] = value` and `self._set_parent(k, value, index)` */
    method Assign(k: Key, a: Arg, ghost all: set<Node>)
      requires this in all && OthersLinked(all, this, k) && ArgNodes(a) <= all
      requires a.Many? ==> DistinctNodes(a.items)
      requires Apart(all, this, k, ArgNodes(a)) && KeysMatch(args, keys)
      modifies this`args, this`keys, ArgNodes(a)`parent, ArgNodes(a)`argKey, ArgNodes(a)`index
      ensures args == old(args)[k := a] && keys == WithKey(old(keys), k)
      ensures Linked(all) && ArgLinked(a, this, k) && KeysMatch(args, keys)
    {
      hide DistinctNodes, WithKey, KeysMatch;
      WithKeyMatches(args, keys, k);
      args := args[k := a];
      keys := WithKey(keys, k);
      SetParent(k, a);
      forall n, l | n in all && l in n.args && (n != this || l != k)
        ensures ArgNodes(n.args[l]) <= all && ArgLinked(n.args[l], n, l)
      {
        assert old(l in n.args && ArgNodes(n.args[l]) !! ArgNodes(a) && ArgLinked(n.args[l], n, l));
      }
    }

    /** `expressions.pop(index)` and the loop that moves the later indices down. The loop starts at the
        slice `expressions[index:]` of the shortened list, also when `index` is negative, and an element
        that is not a node ends it with an exception. */
    method PopList(k: Key, i: int) returns (ok: bool)
      requires k in args && args[k].Many? && Position(|args[k].items|, i).Some? && ArgLinked(args[k], this, k)
      modifies this`args, ArgNodes(args[k])`index
      ensures ok == !PopRaises(old(args[k].items), i)
      ensures args == old(args)[k := Many(AfterPop(old(args[k].items), i))]
      ensures forall j :: 0 <= j < |args[k].items| && args[k].items[j].Sub? ==>
                args[k].items[j].node.LinkedTo(this, k, Some(IndexAfterPop(old(args[k].items), i, j)))
    {
      hide ArgLinked, AfterPop;
      ghost var was := args[k].items;
      var xs := AfterPop(args[k].items, i);
      var start := SliceStart(|xs|, i);
      ListAfterPop(was, i, this, k);
      args := args[k := Many(xs)];
      ok := ShiftDown(xs, start, this, k, Position(|was|, i).value);
    }

    /** `set(k, None, i)` */
    method PopAt(k: Key, i: int, ghost all: set<Node>) returns (ok: bool)
      requires this in all && Linked(all) && k in args && args[k].Many? && Position(|args[k].items|, i).Some?
      modifies this`args, ArgNodes(args[k])`index
      ensures ok == !PopRaises(old(args[k].items), i)
      ensures args == old(args)[k := Many(AfterPop(old(args[k].items), i))]
      ensures Linked(all) <==> PopKeepsLinks(old(args[k].items), i)
    {
      hide DistinctNodes, LinkedTo, IndexAfterPop, PopKeepsLinks;
      ghost var was := args[k].items;
      LinkedKeepsApart(all, this, k);
      RemovalKeepsNodes(was, i);
      ok := PopList(k, i);
      forall n, l | n in all && l in n.args && (n != this || l != k)
        ensures ArgNodes(n.args[l]) <= all && ArgLinked(n.args[l], n, l)
      {
        assert old(l in n.args && ArgNodes(n.args[l]) !! ArgNodes(Many(was)) && ArgLinked(n.args[l], n, l));
      }
      PoppedIsLinked(was, this, k, i);
    }

    /** `set` with an index: overwrite, insert, splice or remove in a list. */
    method SetAt(k: Key, v: Value, i: int, overwrite: bool, ghost all: set<Node>) returns (ok: bool)
      requires this in all && OthersLinked(all, this, k) && KeysMatch(args, keys)
      requires k in args ==> ArgNodes(args[k]) <= all && (args[k].One? ==> ArgLinked(args[k], this, k))
      requires SettableAt(ListAt(args, k), v, i, overwrite, this, k)
      requires ValueNodes(v) <= all && Apart(all, this, k, ValueNodes(v))
      modifies this`args, this`keys
      modifies ItemNodes(ListAt(args, k))`parent, ItemNodes(ListAt(args, k))`argKey, ItemNodes(ListAt(args, k))`index
      modifies ValueNodes(v)`parent, ValueNodes(v)`argKey, ValueNodes(v)`index
      ensures keys == old(keys) && (ok == !SetRaises(old(args), k, v, Some(i)))
      ensures args == ArgsAfterSet(old(args), k, v, Some(i), overwrite)
      ensures forall n :: n in all && n != this ==> n.args == old(n.args) && n.keys == old(n.keys)
      ensures Linked(all) <==> SetKeepsLinks(old(args), k, v, Some(i))
      ensures forall n :: n in all ==>
                SameHolder(n, old(n.parent), old(n.argKey)) || (n in ValueNodes(v) && SameHolder(n, this, Some(k)))
    {
      hide SettableAt, NewList, Apart, OthersLinked, Linked, ArgLinked, DistinctNodes, PopRaises, PopKeepsLinks;
      if k in args && args[k].One? {
        ScalarSlot(all, this, k);
        return !Unindexable(args[k].item, i);
      }
      if k !in args || Position(|args[k].items|, i).None? {
        NothingToSet(all, this, k, v, i, overwrite);
        return true;
      }
      if v == Nothing {
        NothingToSet(all, this, k, v, i, overwrite);
        ok := PopAt(k, i, all);
      } else {
        ok := true;
        var xs := NewList(args[k].items, v, i, overwrite);
        NewListApart(all, this, k, v, i, overwrite);
        ghost var before := args[k].items;
        forall c | c in ArgNodes(Many(xs)) ensures c in ValueNodes(v) || (c.parent == this && c.argKey == Some(k)) {
          NewListNodes(before, v, i, overwrite, this, k, c);
        }
        Assign(k, Many(xs), all);
        LinkedNodes(Many(xs), this, k);
      }
    }

    /** What `set` demands: new nodes have no other place, and everything that stays is linked. */
    ghost predicate Settable(k: Key, v: Value, idx: Option<int>, overwrite: bool, all: set<Node>)
      reads this, all
    {
      && this in all && OthersLinked(all, this, k) && KeysMatch(args, keys)
      && ValueNodes(v) <= all && Apart(all, this, k, ValueNodes(v))
      && (match idx
          case None => v.List? ==> DistinctNodes(v.items)
          case Some(i) =>
            && (k in args ==> ArgNodes(args[k]) <= all && (args[k].One? ==> ArgLinked(args[k], this, k)))
            && SettableAt(ListAt(args, k), v, i, overwrite, this, k))
    }

    /** `set`. Without `ok` it has ended with an exception: an index has met a single value, or the loop
        that moves indices down an element without one. */
    method Set(k: Key, v: Value, idx: Option<int>, overwrite: bool, ghost all: set<Node>) returns (ok: bool)
      requires Settable(k, v, idx, overwrite, all)
      modifies this`args, this`keys
      modifies (if idx.Some? then ItemNodes(ListAt(args, k)) else {})`parent
      modifies (if idx.Some? then ItemNodes(ListAt(args, k)) else {})`argKey
      modifies (if idx.Some? then ItemNodes(ListAt(args, k)) else {})`index
      modifies ValueNodes(v)`parent, ValueNodes(v)`argKey, ValueNodes(v)`index
      ensures ok == !SetRaises(old(args), k, v, idx)
      ensures args == ArgsAfterSet(old(args), k, v, idx, overwrite)
      ensures keys == KeysAfterSet(old(keys), k, v, idx) && KeysMatch(args, keys)
      ensures IsSet(old(args), args, k, v, idx, overwrite) && KeysAreSet(old(keys), keys, k, v, idx)
      ensures Linked(all) <==> SetKeepsLinks(old(args), k, v, idx)
      ensures forall n :: n in all ==>
                SameHolder(n, old(n.parent), old(n.argKey)) || (n in ValueNodes(v) && SameHolder(n, this, Some(k)))
    {
      AfterSetIsSet(args, k, v, idx, overwrite);
      KeysAfterSetAreSet(keys, k, v, idx);
      hide IsSet, KeysAreSet, ArgsAfterSet, KeysAfterSet;
      match idx {
        case Some(i) => ok := SetAt(k, v, i, overwrite, all);
        case None => SetWhole(k, v, all); ok := true;
      }
    }

    /** `set` without an index: the argument is replaced or removed. */
    method SetWhole(k: Key, v: Value, ghost all: set<Node>)
      requires this in all && OthersLinked(all, this, k) && KeysMatch(args, keys)
      requires ValueNodes(v) <= all && Apart(all, this, k, ValueNodes(v)) && (v.List? ==> DistinctNodes(v.items))
      modifies this`args, this`keys, ValueNodes(v)`parent, ValueNodes(v)`argKey, ValueNodes(v)`index
      ensures args == ArgsAfterSet(old(args), k, v, None, true)
      ensures keys == KeysAfterSet(old(keys), k, v, None) && KeysMatch(args, keys) && Linked(all)
      ensures forall n :: n in all ==>
                SameHolder(n, old(n.parent), old(n.argKey)) || (n in ValueNodes(v) && SameHolder(n, this, Some(k)))
    {
      hide DistinctNodes, WithKey, KeysMatch, WithoutKey;
      match v {
        case Nothing => RemoveArg(k, all);
        case Single(x) => Assign(k, One(x), all); LinkedNodes(One(x), this, k);
        case List(xs) => Assign(k, Many(xs), all); LinkedNodes(Many(xs), this, k);
      }
    }

    method RemoveArg(k: Key, ghost all: set<Node>)
      requires OthersLinked(all, this, k) && KeysMatch(args, keys)
      modifies this`args, this`keys
      ensures args == old(args) - {k} && keys == WithoutKey(old(keys), k) && KeysMatch(args, keys) && Linked(all)
    {
      hide KeysMatch, WithoutKey;
      WithoutKeyMatches(args, keys, k);
      args := args - {k};
      keys := WithoutKey(keys, k);
      forall n, l | n in all && l in n.args ensures ArgNodes(n.args[l]) <= all && ArgLinked(n.args[l], n, l) {
        assert old(ArgNodes(n.args[l]) <= all && ArgLinked(n.args[l], n, l));
      }
    }

    /** `append`: a missing or scalar argument becomes a list first. */
    method Append(k: Key, x: Item, ghost all: set<Node>)
      requires this in all && OthersLinked(all, this, k) && KeysMatch(args, keys)
      requires k in args && args[k].Many? ==> ArgNodes(args[k]) <= all && ArgLinked(args[k], this, k)
      requires ArgNodes(One(x)) <= all && Apart(all, this, k, ArgNodes(One(x)))
      requires x.Sub? ==> x !in ListAt(args, k)
      modifies this`args, this`keys
      modifies ArgNodes(One(x))`parent, ArgNodes(One(x))`argKey, ArgNodes(One(x))`index
      ensures args == old(args)[k := Many(ListAt(old(args), k) + [x])]
      ensures keys == WithKey(old(keys), k) && KeysMatch(args, keys)
      ensures Linked(all) && (x.Sub? ==> SameHolder(x.node, this, Some(k)))
    {
      assert k in args ==> k in keys;
      hide DistinctNodes, WithKey, KeysMatch, ArgNodes, ItemNodes, Linked;
      WithKeyMatches(args, keys, k);
      EnsureList(k);
      forall n, l | n in all && l in n.args && (n != this || l != k)
        ensures ArgNodes(n.args[l]) <= all && ArgLinked(n.args[l], n, l) && ArgNodes(n.args[l]) !! ArgNodes(One(x))
      {
        assert old(l in n.args && ArgNodes(n.args[l]) !! ArgNodes(One(x)) && ArgLinked(n.args[l], n, l));
      }
      AppendTo(k, x, all);
    }

    /** The rest of `append`, once there is a list. */
    method AppendTo(k: Key, x: Item, ghost all: set<Node>)
      requires this in all && OthersLinked(all, this, k) && k in args && args[k].Many?
      requires ArgNodes(args[k]) <= all && ArgLinked(args[k], this, k) && (x.Sub? ==> x !in args[k].items)
      requires ArgNodes(One(x)) <= all && Apart(all, this, k, ArgNodes(One(x)))
      modifies this`args, ArgNodes(One(x))`parent, ArgNodes(One(x))`argKey, ArgNodes(One(x))`index
      ensures args == old(args)[k := Many(old(args)[k].items + [x])] && Linked(all)
      ensures x.Sub? ==> SameHolder(x.node, this, Some(k))
    {
      hide DistinctNodes, LinkedTo;
      var values := args[k].items;
      LinkAs(k, x, |values|);
      args := args[k := Many(values + [x])];
      forall n, l | n in all && l in n.args && (n != this || l != k)
        ensures ArgNodes(n.args[l]) <= all && ArgLinked(n.args[l], n, l)
      {
        assert old(l in n.args && ArgNodes(n.args[l]) !! ArgNodes(One(x)) && ArgLinked(n.args[l], n, l));
      }
      LinkedAppended(values, x, this, k);
    }

    /** A missing or scalar argument becomes an empty list. */
    method EnsureList(k: Key)
      requires k in args ==> k in keys
      modifies this`args, this`keys
      ensures args == old(args)[k := Many(ListAt(old(args), k))] && keys == WithKey(old(keys), k)
    {
      if k !in args || !args[k].Many? {
        args := args[k := Many([])];
        keys := WithKey(keys, k);
      }
    }

    /** `_set_parent(k, value)` followed by `value.index = i` */
    method LinkAs(k: Key, x: Item, i: nat)
      modifies ArgNodes(One(x))`parent, ArgNodes(One(x))`argKey, ArgNodes(One(x))`index
      ensures x.Sub? ==> x.node.LinkedTo(this, k, Some(i))
    {
      SetParent(k, One(x));
      if x.Sub? {
        x.node.index := Some(i);
      }
    }

    /** The node stands where its links say it does. A node that another one has displaced does not: it keeps its
        links. */
    ghost predicate Held(all: set<Node>)
      reads this, all
    {
      parent != null ==>
        && parent in all && argKey.Some? && argKey.value in parent.args
        && (match parent.args[argKey.value]
            case One(x) => x == Sub(this) && index == None
            case Many(xs) => index.Some? && 0 <= index.value < |xs| && xs[index.value] == Sub(this))
    }

    /** `replace` returns at once. */
    predicate Ignores(v: Value)
      reads this
    {
      parent == null || v == Single(Sub(parent))
    }

    /** A list cannot stand in for a single node: the node's holder is replaced instead. */
    predicate Climbs(v: Value)
      reads this, parent
    {
      && v.List? && parent != null && argKey.Some? && argKey.value in parent.args
      && parent.args[argKey.value].One? && parent.args[argKey.value].item.Sub?
    }

    /** What `replace` demands of its value at the node whose slot it ends up in. */
    ghost predicate CanReplace(v: Value, all: set<Node>, rank: map<Node, nat>, bound: nat)
      requires this in all && all <= rank.Keys && rank[this] <= bound
      reads this, all
      decreases bound - rank[this]
    {
      !Ignores(v) ==>
        && parent in all && argKey.Some? && rank[this] < rank[parent] <= bound
        && if Climbs(v) then parent.CanReplace(v, all, rank, bound)
           else parent.Settable(argKey.value, v, index, true, all)
    }

    /** The node whose slot `replace` sets. */
    function Target(v: Value, ghost all: set<Node>, ghost rank: map<Node, nat>, ghost bound: nat): (r: Option<Node>)
      requires this in all && all <= rank.Keys && rank[this] <= bound && CanReplace(v, all, rank, bound)
      ensures r.Some? ==>
                r.value in all && r.value.parent != null && r.value.parent in all && r.value.argKey.Some? &&
                  rank[this] <= rank[r.value] < rank[r.value.parent]
      reads this, all
      decreases bound - rank[this]
    {
      if Ignores(v) then None else if Climbs(v) then parent.Target(v, all, rank, bound) else Some(this)
    }

    /** `replace` ends with an exception. */
    predicate ReplaceRaises(v: Value, ghost all: set<Node>, ghost rank: map<Node, nat>, ghost bound: nat)
      requires this in all && all <= rank.Keys && rank[this] <= bound && CanReplace(v, all, rank, bound)
      reads this, all
    {
      match Target(v, all, rank, bound)
      case None => false
      case Some(t) => SetRaises(t.parent.args, t.argKey.value, v, t.index)
    }

    /** The slot that `replace` sets holds `c` afterwards. */
    predicate Placed(v: Value, c: Node, ghost all: set<Node>, ghost rank: map<Node, nat>, ghost bound: nat)
      requires this in all && all <= rank.Keys && rank[this] <= bound && CanReplace(v, all, rank, bound)
      reads this, all
    {
      match Target(v, all, rank, bound)
      case None => false
      case Some(t) =>
        var after := ArgsAfterSet(t.parent.args, t.argKey.value, v, t.index, true);
        t.argKey.value in after && Holds(after[t.argKey.value], c)
    }

    /** All links survive `replace`: the slot is set without harm, and no node that forgets its links is still held. */
    predicate ReplaceKeepsLinks(v: Value, ghost all: set<Node>, ghost rank: map<Node, nat>, ghost bound: nat)
      requires this in all && all <= rank.Keys && rank[this] <= bound && CanReplace(v, all, rank, bound)
      reads this, all
      decreases bound - rank[this]
    {
      if Ignores(v) || v == Single(Sub(this)) then true
      else if Climbs(v) then
        && parent.ReplaceKeepsLinks(v, all, rank, bound)
        && (ReplaceRaises(v, all, rank, bound)
            || (parent.args[argKey.value] != One(Sub(this)) && !Placed(v, this, all, rank, bound)))
      else
        && SetKeepsLinks(parent.args, argKey.value, v, index)
        && (ReplaceRaises(v, all, rank, bound) || !Placed(v, this, all, rank, bound))
    }

    /** `replace`. Which slot is set, when it ends with an exception, and when all links hold afterwards. */
    method Replace(v: Value, ghost all: set<Node>, ghost rank: map<Node, nat>, ghost bound: nat) returns (ok: bool)
      requires Linked(all) && this in all && all <= rank.Keys && rank[this] <= bound
      requires CanReplace(v, all, rank, bound)
      modifies all
      ensures ok == !old(ReplaceRaises(v, all, rank, bound))
      ensures Linked(all) <==> old(ReplaceKeepsLinks(v, all, rank, bound))
      ensures match old(Target(v, all, rank, bound))
        case None => forall n :: n in all ==> n.args == old(n.args) && n.keys == old(n.keys)
        case Some(t) =>
          && old(t.parent).args == ArgsAfterSet(old(t.parent.args), old(t.argKey.value), v, old(t.index), true)
          && IsSet(old(t.parent.args), old(t.parent).args, old(t.argKey.value), v, old(t.index), true)
          && KeysMatch(old(t.parent).args, old(t.parent).keys)
          && forall n :: n in all && n != old(t.parent) ==> n.args == old(n.args) && n.keys == old(n.keys)
      ensures ok && !old(Ignores(v)) && v != Single(Sub(this)) ==> parent == null && argKey == None && index == None
      ensures old(Ignores(v)) ==> parent == old(parent) && argKey == old(argKey) && index == old(index)
      ensures forall n :: n in all ==>
                (SameHolder(n, old(n.parent), old(n.argKey)) || n.parent == null ||
                 (n in ValueNodes(v) && old(Target(v, all, rank, bound)).Some? &&
                  n.parent == old(Target(v, all, rank, bound).value.parent) && n.argKey.Some?))
      decreases bound - rank[this], 1
    {
      hide Linked, ArgLinked, Settable, ArgsAfterSet, CanReplace, Placed, PopKeepsLinks, SetRaises, IsSet;
      if Ignores(v) {
        return true;
      }
      ghost var t := Target(v, all, rank, bound);
      if t.Some? { AfterSetIsSet(t.value.parent.args, t.value.argKey.value, v, t.value.index, true); }
      ok := PutInSlot(v, all, rank, bound);
      if ok && v != Single(Sub(this)) {
        Unlink(all);
      }
    }

    /** `replace` up to its last three assignments: `value.parent.replace(expression)` or `parent.set(key, expression,
        self.index)` */
    method PutInSlot(v: Value, ghost all: set<Node>, ghost rank: map<Node, nat>, ghost bound: nat) returns (ok: bool)
      requires Linked(all) && this in all && all <= rank.Keys && rank[this] <= bound
      requires CanReplace(v, all, rank, bound) && !Ignores(v)
      modifies all
      ensures ok == !old(ReplaceRaises(v, all, rank, bound))
      ensures Linked(all) <==> old(if Climbs(v) then parent.ReplaceKeepsLinks(v, all, rank, bound)
                                   else SetKeepsLinks(parent.args, argKey.value, v, index))
      ensures match old(Target(v, all, rank, bound))
        case None => forall n :: n in all ==> n.args == old(n.args) && n.keys == old(n.keys)
        case Some(t) =>
          && old(t.parent).args == ArgsAfterSet(old(t.parent.args), old(t.argKey.value), v, old(t.index), true)
          && KeysMatch(old(t.parent).args, old(t.parent).keys)
          && forall n :: n in all && n != old(t.parent) ==> n.args == old(n.args) && n.keys == old(n.keys)
      ensures Unheld(this, all) <==>
        !(old(Climbs(v)) && old(parent.args[argKey.value]) == One(Sub(this))) && !old(Placed(v, this, all, rank, bound))
      ensures forall n :: n in all ==>
                (SameHolder(n, old(n.parent), old(n.argKey)) || n.parent == null ||
                 (n in ValueNodes(v) && old(Target(v, all, rank, bound)).Some? &&
                  n.parent == old(Target(v, all, rank, bound).value.parent) && n.argKey.Some?))
      decreases bound - rank[this], 0
    {
      hide Linked, SetRaises, PopKeepsLinks, SetKeepsLinks, ReplaceKeepsLinks, KeysMatch, ArgsAfterSet, KeysAfterSet;
      ghost var p, k, t := parent, argKey.value, Target(v, all, rank, bound);
      ghost var q, m := if t.Some? then t.value.parent else p, if t.Some? then t.value.argKey.value else k;
      OnlyPlace(this, all);
      assert OnlyAt(all, this, p, k);
      if Climbs(v) {
        var value := parent.args[argKey.value].item.node;
        HolderOf(value, parent, argKey.value, all);
        ok := value.parent.Replace(v, all, rank, bound);
      } else {
        ok := parent.Set(argKey.value, v, index, true, all);
      }
      if t.Some? {
        AfterSetElsewhere(old(q.args), m, v, old(t.value.index));
        assert q.args == ArgsAfterSet(old(q.args), m, v, old(t.value.index), true);
      }
      forall n, l | n in all && l in n.args && (n != p || l != k) && (n != q || l != m)
        ensures this !in ArgNodes(n.args[l])
      {
        assert old(l in n.args && (n != p || l != k)) && n.args[l] == old(n.args[l]);
        assert old(this !in ArgNodes(n.args[l]));
      }
      if k in p.args { HoldsNode(p.args[k], this); }
      if m in q.args { HoldsNode(q.args[m], this); }
    }

    /** `pop` */
    method Pop(ghost all: set<Node>, ghost rank: map<Node, nat>, ghost bound: nat) returns (ok: bool)
      requires Linked(all) && this in all && all <= rank.Keys && rank[this] <= bound
      requires CanReplace(Nothing, all, rank, bound)
      modifies all
      ensures old(parent) == null ==>
                ok && Linked(all) && forall n :: n in all ==> n.args == old(n.args) && n.keys == old(n.keys)
      ensures old(parent) != null ==>
        && ok == !SetRaises(old(parent.args), old(argKey.value), Nothing, old(index))
        && (Linked(all) <==> SetKeepsLinks(old(parent.args), old(argKey.value), Nothing, old(index)))
        && old(parent).args == ArgsAfterSet(old(parent.args), old(argKey.value), Nothing, old(index), true)
        && IsSet(old(parent.args), old(parent).args, old(argKey.value), Nothing, old(index), true)
        && (forall n :: n in all && n != old(parent) ==> n.args == old(n.args) && n.keys == old(n.keys))
        && KeysMatch(old(parent).args, old(parent).keys)
      ensures ok ==> parent == null && (old(parent) != null ==> argKey == None && index == None)
      ensures forall n :: n in all ==> SameHolder(n, old(n.parent), old(n.argKey)) || n.parent == null
    {
      hide IsSet;
      ok := Replace(Nothing, all, rank, bound);
    }

    /** The last three assignments of `replace`. */
    method Unlink(ghost all: set<Node>)
      modifies this`parent, this`argKey, this`index
      ensures parent == null && argKey == None && index == None
      ensures Linked(all) <==> old(Linked(all) && Unheld(this, all))
    {
      parent := null;
      argKey := None;
      index := None;
      if old(Linked(all)) && Unheld(this, all) {
        forall n, l | n in all && l in n.args ensures ArgNodes(n.args[l]) <= all && ArgLinked(n.args[l], n, l) {
          assert old(ArgNodes(n.args[l]) <= all && ArgLinked(n.args[l], n, l));
          assert this !in ArgNodes(n.args[l]);
        }
      }
      if Linked(all) {
        forall n, l | n in all && l in n.args
          ensures this !in ArgNodes(n.args[l]) && old(ArgNodes(n.args[l]) <= all && ArgLinked(n.args[l], n, l))
        {
          assert ArgLinked(n.args[l], n, l);
          if this in ArgNodes(n.args[l]) { NullNotLinked(n.args[l], this, n, l); }
        }
      }
    }
  }

  /** No argument holds `c`. */
  ghost predicate Unheld(c: Node, all: set<Node>)
    reads all
  {
    forall n, l :: n in all && l in n.args ==> c !in ArgNodes(n.args[l])
  }

  /** No argument other than `k` of `p` holds `c`. */
  ghost predicate OnlyAt(all: set<Node>, c: Node, p: Node, k: Key)
    reads all
  {
    forall n, l :: n in all && l in n.args && (n != p || l != k) ==> c !in ArgNodes(n.args[l])
  }

  /** A node that stands in its slot, and no exception: the links survive exactly if nothing happens, or the node
      replaces itself, or no list stands in for a single value, the value does not hold the node, and the slot can be
      set without harm. */
  lemma {:induction false} WhenReplaceKeepsLinks(c: Node, v: Value, all: set<Node>, rank: map<Node, nat>, bound: nat)
    requires Linked(all) && c in all && all <= rank.Keys && rank[c] <= bound && c.CanReplace(v, all, rank, bound)
    requires c.Held(all) && !c.ReplaceRaises(v, all, rank, bound)
    ensures c.ReplaceKeepsLinks(v, all, rank, bound) <==>
            c.Ignores(v) || v == Single(Sub(c)) ||
            (!c.Climbs(v) && c !in ValueNodes(v) && SetKeepsLinks(c.parent.args, c.argKey.value, v, c.index))
  {
    if !c.Ignores(v) && v != Single(Sub(c)) && !c.Climbs(v) {
      var after := ArgsAfterSet(c.parent.args, c.argKey.value, v, c.index, true);
      if c.argKey.value in after { HoldsNode(after[c.argKey.value], c); }
      if c.index.Some? {
        var xs := c.parent.args[c.argKey.value].items;
        LinkedListIsDistinct(xs, c.parent, c.argKey.value);
        ReplacedInList(xs, v, c.index.value, c);
      }
    }
  }

  /** Whose slot `replace` sets: that of the receiver, unless a list meets a single node there; then the one for its
      holder. */
  lemma {:induction false} WhoseSlot(c: Node, v: Value, all: set<Node>, rank: map<Node, nat>, bound: nat)
    requires c in all && all <= rank.Keys && rank[c] <= bound && c.CanReplace(v, all, rank, bound)
    ensures c.parent == null || v == Single(Sub(c.parent)) ==> c.Target(v, all, rank, bound) == None
    ensures c.parent != null && v != Single(Sub(c.parent)) ==>
      var p, k := c.parent, c.argKey.value;
      if v.List? && k in p.args && p.args[k].One? && p.args[k].item.Sub?
      then c.Target(v, all, rank, bound) == p.Target(v, all, rank, bound)
      else c.Target(v, all, rank, bound) == Some(c)
  {
  }

  lemma {:induction false} ReplacedInList(xs: seq<Item>, v: Value, i: nat, c: Node)
    requires DistinctNodes(xs) && i < |xs| && xs[i] == Sub(c)
    ensures c in ItemNodes(NewList(xs, v, i, true)) <==> c in ValueNodes(v)
  {
    var ys := NewList(xs, v, i, true);
    if c in ItemNodes(ys) {
      var j :| 0 <= j < |ys| && ys[j] == Sub(c);
      if v.List? && i <= j < i + |v.items| { assert ys[j] == v.items[j - i]; }
    }
    if v.List? && c in ItemNodes(v.items) {
      var j :| 0 <= j < |v.items| && v.items[j] == Sub(c);
      assert ys[i + j] == v.items[j];
    }
    if v.Single? { assert ys[i] == v.item; }
  }

  /** A linked node has only the place it links to. */
  lemma {:induction false} OnlyPlace(c: Node, all: set<Node>)
    requires Linked(all) && c.parent != null && c.argKey.Some?
    ensures OnlyAt(all, c, c.parent, c.argKey.value)
  {
    forall n, l | n in all && l in n.args && (n != c.parent || l != c.argKey.value) ensures c !in ArgNodes(n.args[l]) {
      LinkedNodes(n.args[l], n, l);
    }
  }

  lemma {:induction false} HolderOf(c: Node, p: Node, k: Key, all: set<Node>)
    requires Linked(all) && p in all && k in p.args && c in ArgNodes(p.args[k])
    ensures c.parent == p
  {
    LinkedNodes(p.args[k], p, k);
  }

  lemma {:induction false} AfterSetElsewhere(args: map<Key, Arg>, k: Key, v: Value, idx: Option<int>)
    ensures var after := ArgsAfterSet(args, k, v, idx, true);
      forall l :: l != k ==> (l in after <==> l in args) && (l in args ==> after[l] == args[l])
  {
  }

  ghost predicate SameHolder(n: Node, p: Node?, k: Option<Key>)
    reads n`parent, n`argKey
  {
    n.parent == p && n.argKey == k
  }

  predicate Holds(a: Arg, c: Node) {
    match a
    case One(x) => x == Sub(c)
    case Many(xs) => Sub(c) in xs
  }

  lemma {:induction false} HoldsNode(a: Arg, c: Node)
    ensures Holds(a, c) <==> c in ArgNodes(a)
  {
    if a.Many? && Sub(c) in a.items {
      var i :| 0 <= i < |a.items| && a.items[i] == Sub(c);
    }
  }

  lemma {:induction false} NullNotLinked(a: Arg, c: Node, p: Node, k: Key)
    requires c in ArgNodes(a) && c.parent == null
    ensures !ArgLinked(a, p, k)
  {
  }

  lemma {:induction false} WithKeyMatches(args: map<Key, Arg>, keys: seq<Key>, k: Key)
    requires KeysMatch(args, keys)
    ensures forall a: Arg {:trigger args[k := a]} :: KeysMatch(args[k := a], WithKey(keys, k))
    ensures k in args ==> WithKey(keys, k) == keys
  {
  }

  lemma {:induction false} LinkedAppended(xs: seq<Item>, x: Item, p: Node, k: Key)
    requires ArgLinked(Many(xs), p, k) && (x.Sub? ==> x.node.LinkedTo(p, k, Some(|xs|)))
    ensures ArgLinked(Many(xs + [x]), p, k)
    ensures ArgNodes(Many(xs + [x])) <= ArgNodes(Many(xs)) + ArgNodes(One(x))
  {
    forall j | 0 <= j < |xs + [x]| && (xs + [x])[j].Sub? ensures (xs + [x])[j].node.LinkedTo(p, k, Some(j)) {
      assert j < |xs| ==> (xs + [x])[j] == xs[j];
    }
  }

  /** `set` with an index, on a single value: it ends with an exception, unless the value counts as empty or
      is a text that short. (Indexing a node makes a `Bracket`, which then cannot be changed like a list.) */
  predicate Unindexable(x: Item, i: int) {
    match x
    case Sub(_) => true
    case Atom(Str(text)) => Position(|text|, i).Some?
    case Atom(Number(n)) => n != 0
    case Atom(Flag(on)) => on
  }

  predicate SetRaises(args: map<Key, Arg>, k: Key, v: Value, idx: Option<int>) {
    idx.Some? && k in args &&
    match args[k]
    case One(x) => Unindexable(x, idx.value)
    case Many(xs) => v == Nothing && Position(|xs|, idx.value).Some? && PopRaises(xs, idx.value)
  }

  predicate SetKeepsLinks(args: map<Key, Arg>, k: Key, v: Value, idx: Option<int>) {
    v == Nothing && idx.Some? && Position(|ListAt(args, k)|, idx.value).Some? ==>
      PopKeepsLinks(ListAt(args, k), idx.value)
  }

  /** Where the loop after `pop` stops: at the first element that is not a node. */
  function FirstAtom(xs: seq<Item>, start: nat): (r: nat)
    requires start <= |xs|
    ensures start <= r <= |xs| && (r < |xs| ==> xs[r].Atom?) && forall j :: start <= j < r ==> xs[j].Sub?
    decreases |xs| - start
  {
    if start == |xs| || xs[start].Atom? then start else FirstAtom(xs, start + 1)
  }

  predicate PopRaises(xs: seq<Item>, i: int)
    requires Position(|xs|, i).Some?
  {
    var rest := AfterPop(xs, i);
    FirstAtom(rest, SliceStart(|rest|, i)) < |rest|
  }

  /** The removal ends with an exception exactly if, from the removed element on, or from the one before it if the index
      is negative, another element is not a node. */
  lemma {:induction false} WhenPopRaises(xs: seq<Item>, i: int)
    requires -|xs| <= i < |xs|
    ensures var pos := if i >= 0 then i else |xs| + i;
      var s := if i >= 0 || pos == 0 then pos else pos - 1;
      PopRaises(xs, i) <==> exists j :: s <= j < |xs| && j != pos && xs[j].Atom?
  {
    var pos := if i >= 0 then i else |xs| + i;
    var rest := AfterPop(xs, i);
    var s := SliceStart(|rest|, i);
    assert forall j :: 0 <= j < |rest| ==> rest[j] == xs[if j < pos then j else j + 1];
    if j :| s <= j < |xs| && j != pos && xs[j].Atom? {
      assert rest[if j < pos then j else j - 1].Atom?;
    }
    if PopRaises(xs, i) {
      var j := FirstAtom(rest, s);
      assert xs[if j < pos then j else j + 1].Atom?;
    }
  }

  /** `set` ends with an exception exactly if an index meets a node, or a value that is not empty and, if it is a text,
      long enough; or in the removal from a list. */
  lemma {:induction false} WhenSetRaises(args: map<Key, Arg>, k: Key, v: Value, idx: Option<int>)
    ensures SetRaises(args, k, v, idx) <==>
      && idx.Some? && k in args
      && match args[k]
         case One(Sub(_)) => true
         case One(Atom(Str(text))) => -|text| <= idx.value < |text|
         case One(Atom(Number(n))) => n != 0
         case One(Atom(Flag(on))) => on
         case Many(xs) => v == Nothing && -|xs| <= idx.value < |xs| && PopRaises(xs, idx.value)
  {
  }

  /** The loop after `pop` moves exactly the nodes behind the removed element. */
  predicate PopKeepsLinks(xs: seq<Item>, i: int)
    requires Position(|xs|, i).Some?
  {
    var rest := AfterPop(xs, i);
    var start := SliceStart(|rest|, i);
    forall j :: 0 <= j < |rest| && rest[j].Sub? ==>
      (j >= Position(|xs|, i).value <==> start <= j < FirstAtom(rest, start))
  }

  /** Without an exception the links survive exactly if the index is not negative or names the first element;
      with one, exactly if no node stands behind the element that caused it, and the loop did not start too early. */
  lemma {:induction false} WhenPopKeepsLinks(xs: seq<Item>, i: int)
    requires Position(|xs|, i).Some?
    ensures !PopRaises(xs, i) ==> (PopKeepsLinks(xs, i) <==> i >= 0 || i == -|xs|)
    ensures i >= 0 ==>
              (PopKeepsLinks(xs, i) <==> forall j :: FirstAtom(AfterPop(xs, i), i) <= j < |xs| - 1 ==>
                AfterPop(xs, i)[j].Atom?)
  {
    var rest := AfterPop(xs, i);
    if !PopRaises(xs, i) && i < 0 && i != -|xs| {
      assert rest[SliceStart(|rest|, i)].Sub?;
    }
  }

  function ArgsAfterSet(args: map<Key, Arg>, k: Key, v: Value, idx: Option<int>, overwrite: bool): map<Key, Arg> {
    match idx
    case Some(i) =>
      var xs := ListAt(args, k);
      if Position(|xs|, i).None? then args else args[k := Many(NewList(xs, v, i, overwrite))]
    case None =>
      match v
      case Nothing => args - {k}
      case Single(x) => args[k := One(x)]
      case List(xs) => args[k := Many(xs)]
  }

  function KeysAfterSet(keys: seq<Key>, k: Key, v: Value, idx: Option<int>): seq<Key> {
    if idx.Some? then keys else if v == Nothing then WithoutKey(keys, k) else WithKey(keys, k)
  }

  function WithoutKey(keys: seq<Key>, k: Key): (r: seq<Key>)
    ensures forall l :: l in r <==> l in keys && l != k
  {
    if keys == [] then []
    else if keys[0] == k then WithoutKey(keys[1..], k)
    else [keys[0]] + WithoutKey(keys[1..], k)
  }

  lemma {:induction false} WithoutKeyMatches(args: map<Key, Arg>, keys: seq<Key>, k: Key)
    requires KeysMatch(args, keys)
    ensures KeysMatch(args - {k}, WithoutKey(keys, k))
  {
    WithoutKeyDistinct(keys, k);
  }

  lemma {:induction false} WithoutKeyDistinct(keys: seq<Key>, k: Key)
    requires Distinct(keys)
    ensures Distinct(WithoutKey(keys, k))
    decreases |keys|
  {
    if keys != [] {
      assert forall i :: 0 <= i < |keys[1..]| ==> keys[1..][i] == keys[i + 1];
      WithoutKeyDistinct(keys[1..], k);
      assert keys[0] !in keys[1..];
    }
  }

  function ListAt(args: map<Key, Arg>, k: Key): seq<Item> {
    if k in args && args[k].Many? then args[k].items else []
  }

  ghost function ValueNodes(v: Value): set<Node> {
    match v
    case Nothing => {}
    case Single(x) => ArgNodes(One(x))
    case List(xs) => ItemNodes(xs)
  }

  /** The list after `set(k, v, i, overwrite)`. A list value replaces the element at `i`; with a negative
      index it is spliced in one place further left, because the list is already shorter by then. */
  function NewList(xs: seq<Item>, v: Value, i: int, overwrite: bool): seq<Item>
    requires Position(|xs|, i).Some?
  {
    var pos := Position(|xs|, i).value;
    match v
    case Nothing => AfterPop(xs, i)
    case List(ys) => var rest := AfterPop(xs, i); var s := SliceStart(|rest|, i); rest[..s] + ys + rest[s..]
    case Single(x) => if overwrite then xs[pos := x] else xs[..pos] + [x] + xs[pos..]
  }

  /** What `set` with an index makes of a list: an insertion puts the value in front of the named element; a list stands
      for the element, with a negative index one place further left than the element was. */
  ghost predicate ListIsSet(was: seq<Item>, now: seq<Item>, v: Value, i: int, overwrite: bool)
    requires -|was| <= i < |was|
  {
    var n := |was|;
    var pos := if i >= 0 then i else n + i;
    match v
    case Nothing => |now| == n - 1 && now[..pos] == was[..pos] && now[pos..] == was[pos + 1..]
    case Single(x) =>
      if overwrite then |now| == n && now[pos] == x && now[..pos] == was[..pos] && now[pos + 1..] == was[pos + 1..]
      else |now| == n + 1 && now[pos] == x && now[..pos] + now[pos + 1..] == was
    case List(ys) =>
      var s := if i >= 0 || pos == 0 then pos else pos - 1;
      && |now| == n - 1 + |ys| && now[s..s + |ys|] == ys
      && now[..s] + now[s + |ys|..] == was[..pos] + was[pos + 1..]
  }

  /** What `set` makes of the arguments: a list at an index it has, or the whole argument; nothing else changes. */
  ghost predicate IsSet(before: map<Key, Arg>, after: map<Key, Arg>, k: Key, v: Value, idx: Option<int>,
      overwrite: bool)
  {
    && (forall l :: l != k ==> (l in after <==> l in before) && (l in before ==> after[l] == before[l]))
    && match idx
       case Some(i) =>
         if k in before && before[k].Many? && -|before[k].items| <= i < |before[k].items|
         then k in after && after[k].Many? && ListIsSet(before[k].items, after[k].items, v, i, overwrite)
         else (k in after <==> k in before) && (k in before ==> after[k] == before[k])
       case None =>
         match v
         case Nothing => k !in after
         case Single(x) => k in after && after[k] == One(x)
         case List(xs) => k in after && after[k] == Many(xs)
  }

  /** What `set` makes of the order of the arguments: a new one comes last, and one that goes leaves the others as they
      were. */
  ghost predicate KeysAreSet(before: seq<Key>, after: seq<Key>, k: Key, v: Value, idx: Option<int>) {
    if idx.Some? || (v == Nothing <==> k !in before) then after == before
    else if v != Nothing then after == before + [k]
    else exists i :: 0 <= i < |before| && before[i] == k && after == before[..i] + before[i + 1..]
  }

  lemma {:induction false} AfterSetIsSet(args: map<Key, Arg>, k: Key, v: Value, idx: Option<int>, overwrite: bool)
    ensures IsSet(args, ArgsAfterSet(args, k, v, idx, overwrite), k, v, idx, overwrite)
  {
    if idx.Some? && Position(|ListAt(args, k)|, idx.value).Some? {
      hide NewList, ListIsSet;
      NewListIsSet(ListAt(args, k), v, idx.value, overwrite);
    }
  }

  lemma {:induction false} NewListIsSet(xs: seq<Item>, v: Value, i: int, overwrite: bool)
    requires Position(|xs|, i).Some?
    ensures ListIsSet(xs, NewList(xs, v, i, overwrite), v, i, overwrite)
  {
    var pos := Position(|xs|, i).value;
    match v {
      case Nothing =>
      case Single(x) => if overwrite { Overwritten(xs, x, pos); } else { Inserted(xs, x, pos); }
      case List(ys) =>
        var rest := AfterPop(xs, i);
        Spliced(rest, ys, SliceStart(|rest|, i));
    }
  }

  lemma {:induction false} Overwritten(xs: seq<Item>, x: Item, pos: nat)
    requires pos < |xs|
    ensures var now := xs[pos := x];
      |now| == |xs| && now[pos] == x && now[..pos] == xs[..pos] && now[pos + 1..] == xs[pos + 1..]
  {
  }

  lemma {:induction false} Inserted(xs: seq<Item>, x: Item, pos: nat)
    requires pos <= |xs|
    ensures var now := xs[..pos] + [x] + xs[pos..];
      |now| == |xs| + 1 && now[pos] == x && now[..pos] + now[pos + 1..] == xs
  {
    var now := xs[..pos] + [x] + xs[pos..];
    assert now[..pos] == xs[..pos] && now[pos + 1..] == xs[pos..];
  }

  lemma {:induction false} Spliced(xs: seq<Item>, ys: seq<Item>, s: nat)
    requires s <= |xs|
    ensures var now := xs[..s] + ys + xs[s..];
      |now| == |xs| + |ys| && now[s..s + |ys|] == ys && now[..s] + now[s + |ys|..] == xs
  {
    var now := xs[..s] + ys + xs[s..];
    assert now[..s] == xs[..s] && now[s + |ys|..] == xs[s..];
  }

  lemma {:induction false} KeysAfterSetAreSet(keys: seq<Key>, k: Key, v: Value, idx: Option<int>)
    requires Distinct(keys)
    ensures KeysAreSet(keys, KeysAfterSet(keys, k, v, idx), k, v, idx)
  {
    if idx == None && v == Nothing {
      if k in keys {
        var i :| 0 <= i < |keys| && keys[i] == k;
        WithoutKeyAt(keys, k, i);
      } else {
        WithoutNoKey(keys, k);
      }
    }
  }

  lemma {:induction false} WithoutKeyAt(keys: seq<Key>, k: Key, i: nat)
    requires Distinct(keys) && i < |keys| && keys[i] == k
    ensures WithoutKey(keys, k) == keys[..i] + keys[i + 1..]
    decreases |keys|
  {
    var rest := keys[1..];
    assert forall j :: 0 <= j < |rest| ==> rest[j] == keys[j + 1];
    if i > 0 {
      WithoutKeyAt(rest, k, i - 1);
      assert keys[..i] == [keys[0]] + rest[..i - 1];
    } else {
      WithoutNoKey(rest, k);
    }
  }

  lemma {:induction false} WithoutNoKey(keys: seq<Key>, k: Key)
    requires k !in keys
    ensures WithoutKey(keys, k) == keys
    decreases |keys|
  {
    if keys != [] { WithoutNoKey(keys[1..], k); }
  }

  /** The elements that stay are linked, and the new list holds no node twice. */
  ghost predicate SettableAt(xs: seq<Item>, v: Value, i: int, overwrite: bool, p: Node, k: Key)
    reads ItemNodes(xs)
  {
    && (Position(|xs|, i).Some? ==> DistinctNodes(NewList(xs, v, i, overwrite)))
    && (forall j :: 0 <= j < |xs| && xs[j].Sub? && Remains(|xs|, v, i, overwrite, j) ==>
         xs[j].node.LinkedTo(p, k, Some(j)))
  }

  /** Is the element at `j` still in the list afterwards, or needed to find the others? */
  ghost predicate Remains(n: nat, v: Value, i: int, overwrite: bool, j: nat) {
    Some(j) != Position(n, i) || v == Nothing || (v.Single? && !overwrite)
  }

  lemma {:induction false} NewListNodes(xs: seq<Item>, v: Value, i: int, overwrite: bool, p: Node, k: Key, c: Node)
    requires Position(|xs|, i).Some? && v != Nothing && SettableAt(xs, v, i, overwrite, p, k)
    requires c in ItemNodes(NewList(xs, v, i, overwrite))
    ensures c in ValueNodes(v) || (c in ItemNodes(xs) && c.parent == p && c.argKey == Some(k))
  {
    match v {
      case List(items) => SplicedNodes(xs, items, i, overwrite, p, k, c);
      case Single(x) => PutNodes(xs, x, i, overwrite, p, k, c);
    }
  }

  lemma {:induction false} SplicedNodes(xs: seq<Item>, items: seq<Item>, i: int, overwrite: bool, p: Node, k: Key,
      c: Node)
    requires Position(|xs|, i).Some? && SettableAt(xs, List(items), i, overwrite, p, k)
    requires c in ItemNodes(NewList(xs, List(items), i, overwrite))
    ensures c in ItemNodes(items) || (c in ItemNodes(xs) && c.parent == p && c.argKey == Some(k))
  {
    hide SettableAt;
    var rest := AfterPop(xs, i);
    var s := SliceStart(|rest|, i);
    var j :| 0 <= j < |rest| + |items| && (rest[..s] + items + rest[s..])[j] == Sub(c);
    if s <= j < s + |items| {
      assert items[j - s] == Sub(c);
    } else {
      var r := if j < s then j else j - |items|;
      assert rest[r] == Sub(c);
      RemainingNode(xs, List(items), i, overwrite, p, k, r);
    }
  }

  lemma {:induction false} PutNodes(xs: seq<Item>, x: Item, i: int, overwrite: bool, p: Node, k: Key, c: Node)
    requires Position(|xs|, i).Some? && SettableAt(xs, Single(x), i, overwrite, p, k)
    requires c in ItemNodes(NewList(xs, Single(x), i, overwrite))
    ensures c in ArgNodes(One(x)) || (c in ItemNodes(xs) && c.parent == p && c.argKey == Some(k))
  {
    hide DistinctNodes;
    var pos, ys := Position(|xs|, i).value, NewList(xs, Single(x), i, overwrite);
    var j :| 0 <= j < |ys| && ys[j] == Sub(c);
    if j != pos {
      var r := if overwrite || j < pos then j else j - 1;
      assert xs[r] == Sub(c) && Remains(|xs|, Single(x), i, overwrite, r);
    }
  }

  lemma {:induction false} RemainingNode(xs: seq<Item>, v: Value, i: int, overwrite: bool, p: Node, k: Key, r: nat)
    requires Position(|xs|, i).Some? && SettableAt(xs, v, i, overwrite, p, k) && r < |xs| - 1
    ensures AfterPop(xs, i)[r].Sub? ==>
              AfterPop(xs, i)[r].node in ItemNodes(xs) && AfterPop(xs, i)[r].node.parent == p &&
                AfterPop(xs, i)[r].node.argKey == Some(k)
  {
    assert AfterPop(xs, i)[r] == xs[IndexBefore(Position(|xs|, i).value, r)];
  }

  /** Nothing is put in: the links are complete already. */
  lemma {:induction false} NothingToSet(all: set<Node>, p: Node, k: Key, v: Value, i: int, overwrite: bool)
    requires p in all && OthersLinked(all, p, k) && (k in p.args ==> p.args[k].Many? && ArgNodes(p.args[k]) <= all)
    requires SettableAt(ListAt(p.args, k), v, i, overwrite, p, k)
    requires k !in p.args || Position(|p.args[k].items|, i).None? || v == Nothing
    ensures Linked(all)
    ensures k in p.args && Position(|p.args[k].items|, i).Some? ==>
              NewList(p.args[k].items, v, i, overwrite) == AfterPop(p.args[k].items, i)
  {
    if k in p.args {
      assert ArgLinked(p.args[k], p, k);
    }
  }

  lemma {:induction false} ScalarSlot(all: set<Node>, p: Node, k: Key)
    requires p in all && OthersLinked(all, p, k) && k in p.args && ArgNodes(p.args[k]) <= all
    requires ArgLinked(p.args[k], p, k)
    ensures Linked(all)
  {
  }

  lemma {:induction false} NewListApart(all: set<Node>, p: Node, k: Key, v: Value, i: int, overwrite: bool)
    requires p in all && OthersLinked(all, p, k) && k in p.args && p.args[k].Many? && ArgNodes(p.args[k]) <= all
    requires Position(|p.args[k].items|, i).Some? && v != Nothing && SettableAt(p.args[k].items, v, i, overwrite, p, k)
    requires ValueNodes(v) <= all && Apart(all, p, k, ValueNodes(v))
    ensures ArgNodes(Many(NewList(p.args[k].items, v, i, overwrite))) <= all
    ensures ArgNodes(Many(NewList(p.args[k].items, v, i, overwrite))) <= ItemNodes(p.args[k].items) + ValueNodes(v)
    ensures Apart(all, p, k, ArgNodes(Many(NewList(p.args[k].items, v, i, overwrite))))
    ensures DistinctNodes(NewList(p.args[k].items, v, i, overwrite))
  {
    var ys := NewList(p.args[k].items, v, i, overwrite);
    hide NewList, ItemNodes, ValueNodes;
    forall c | c in ArgNodes(Many(ys))
      ensures c in ValueNodes(v) || (c in ItemNodes(p.args[k].items) && c.parent == p && c.argKey == Some(k))
    {
      NewListNodes(p.args[k].items, v, i, overwrite, p, k, c);
    }
    forall n, l | n in all && l in n.args && (n != p || l != k) ensures ArgNodes(n.args[l]) !! ArgNodes(Many(ys)) {
      assert ArgLinked(n.args[l], n, l);
      LinkedNodes(n.args[l], n, l);
    }
  }

  lemma {:induction false} LinkedNodes(a: Arg, p: Node, k: Key)
    requires ArgLinked(a, p, k)
    ensures forall c :: c in ArgNodes(a) ==> c.parent == p && c.argKey == Some(k)
  {
  }

  lemma {:induction false} RemovalKeepsNodes(was: seq<Item>, i: int)
    requires Position(|was|, i).Some?
    ensures ArgNodes(Many(AfterPop(was, i))) <= ArgNodes(Many(was))
  {
    forall j | 0 <= j < |AfterPop(was, i)| ensures AfterPop(was, i)[j] in was {}
  }

  /** Everything but the value of `k` in `p` is linked. */
  ghost predicate OthersLinked(all: set<Node>, p: Node, k: Key)
    reads all
  {
    forall n, l :: n in all && l in n.args && (n != p || l != k) ==>
      ArgNodes(n.args[l]) <= all && ArgLinked(n.args[l], n, l)
  }

  /** No argument other than `k` of `p` holds any of `some`. */
  ghost predicate Apart(all: set<Node>, p: Node, k: Key, some: set<Node>)
    reads all
  {
    forall n, l :: n in all && l in n.args && (n != p || l != k) ==> ArgNodes(n.args[l]) !! some
  }

  lemma {:induction false} LinkedKeepsApart(all: set<Node>, p: Node, k: Key)
    requires Linked(all) && p in all && k in p.args
    ensures OthersLinked(all, p, k) && Apart(all, p, k, ArgNodes(p.args[k]))
  {
    forall n, l | n in all && l in n.args && (n != p || l != k) ensures ArgNodes(n.args[l]) !! ArgNodes(p.args[k]) {
      ApartByLinks(n.args[l], n, l, p.args[k], p, k);
    }
  }

  /** A linked node has one place only. */
  lemma {:induction false} ApartByLinks(a: Arg, n: Node, l: Key, b: Arg, p: Node, k: Key)
    requires ArgLinked(a, n, l) && ArgLinked(b, p, k) && (n != p || l != k)
    ensures ArgNodes(a) !! ArgNodes(b)
  {
    assert forall c :: c in ArgNodes(a) ==> c.parent == n && c.argKey == Some(l);
    assert forall c :: c in ArgNodes(b) ==> c.parent == p && c.argKey == Some(k);
  }

  /** The index that the element now at place `j` of the list carries after `pop(i)` and the loop. */
  function IndexAfterPop(was: seq<Item>, i: int, j: nat): int
    requires Position(|was|, i).Some? && j < |was| - 1
  {
    var rest := AfterPop(was, i);
    var start := SliceStart(|rest|, i);
    IndexBefore(Position(|was|, i).value, j) - if start <= j < FirstAtom(rest, start) then 1 else 0
  }

  lemma {:induction false} PoppedIsLinked(was: seq<Item>, p: Node, k: Key, i: int)
    requires Position(|was|, i).Some?
    requires var xs := AfterPop(was, i);
      forall j :: 0 <= j < |xs| && xs[j].Sub? ==> xs[j].node.LinkedTo(p, k, Some(IndexAfterPop(was, i, j)))
    ensures ArgLinked(Many(AfterPop(was, i)), p, k) <==> PopKeepsLinks(was, i)
  {
    var xs := AfterPop(was, i);
    var start := SliceStart(|xs|, i);
    forall j | 0 <= j < |xs| && xs[j].Sub?
      ensures xs[j].node.LinkedTo(p, k, Some(j)) <==>
                (j >= Position(|was|, i).value <==> start <= j < FirstAtom(xs, start))
    {
      assert xs[j].node.LinkedTo(p, k, Some(IndexAfterPop(was, i, j)));
    }
  }

  /** A linked list after `pop(i)`, before the loop: what stays behind still has its old index. */
  lemma {:induction false} ListAfterPop(was: seq<Item>, i: int, p: Node, k: Key)
    requires Position(|was|, i).Some? && ArgLinked(Many(was), p, k)
    ensures var xs := AfterPop(was, i);
      && |xs| == |was| - 1 && ItemNodes(xs) <= ArgNodes(Many(was))
      && (forall j :: 0 <= j < |xs| && xs[j].Sub? ==>
           xs[j].node.LinkedTo(p, k, Some(IndexBefore(Position(|was|, i).value, j))))
  {
    var xs := AfterPop(was, i);
    forall j | 0 <= j < |xs| ensures xs[j] == was[IndexBefore(Position(|was|, i).value, j)] {}
  }

  /** Where the element now at place `j` stood before the element at `pos` was removed. */
  function IndexBefore(pos: nat, j: nat): nat {
    if j < pos then j else j + 1
  }

  /** `for v in xs[start:]: v.index = v.index - 1` */
  method ShiftDown(xs: seq<Item>, start: nat, ghost p: Node, ghost k: Key, ghost pos: nat) returns (ok: bool)
    requires start <= |xs|
    requires forall j :: 0 <= j < |xs| && xs[j].Sub? ==> xs[j].node.LinkedTo(p, k, Some(IndexBefore(pos, j)))
    modifies ItemNodes(xs)`index
    ensures ok == (FirstAtom(xs, start) == |xs|)
    ensures forall j :: 0 <= j < |xs| && xs[j].Sub? ==>
              xs[j].node.LinkedTo(p, k, Some(IndexBefore(pos, j) - if start <= j < FirstAtom(xs, start) then 1 else 0))
  {
    assert forall i, j :: 0 <= i < j < |xs| && xs[i].Sub? && xs[j].Sub? ==> xs[i].node != xs[j].node;
    for m := start to |xs|
      invariant m <= FirstAtom(xs, start)
      invariant forall j :: 0 <= j < |xs| && xs[j].Sub? ==>
                  xs[j].node.LinkedTo(p, k, Some(IndexBefore(pos, j) - if start <= j < m then 1 else 0))
    {
      if xs[m].Atom? {
        return false;
      }
      xs[m].node.index := Some(xs[m].node.index.value - 1);
    }
    return true;
  }

  lemma {:induction false} LinkedListIsDistinct(xs: seq<Item>, p: Node, k: Key)
    requires ArgLinked(Many(xs), p, k)
    ensures DistinctNodes(xs)
  {
  }

  /** The place in a list of `n` elements that a Python index names. */
  function Position(n: nat, i: int): (r: Option<nat>)
    ensures r.Some? ==> r.value < n
  {
    if 0 <= i < n then Some(i) else if 0 <= n + i < n then Some(n + i) else None
  }

  /** Where the Python slice `xs[i:]` of a list of `n` elements starts. */
  function SliceStart(n: nat, i: int): (r: nat)
    ensures r <= n
  {
    if i >= n then n else if i >= 0 then i else if n + i >= 0 then n + i else 0
  }

  function AfterPop(xs: seq<Item>, i: int): seq<Item>
    requires Position(|xs|, i).Some?
  {
    RemoveAt(xs, Position(|xs|, i).value)
  }

  /** No list holds the same node twice. */
  ghost predicate DistinctNodes(xs: seq<Item>) {
    forall i, j :: 0 <= i < j < |xs| && xs[i].Sub? && xs[j].Sub? ==> xs[i].node != xs[j].node
  }

  ghost predicate KeysMatch(args: map<Key, Arg>, keys: seq<Key>) {
    (forall k :: k in keys <==> k in args) && Distinct(keys)
  }

  function WithKey(keys: seq<Key>, k: Key): seq<Key> {
    if k in keys then keys else keys + [k]
  }

  ghost function ItemNodes(xs: seq<Item>): set<Node> {
    set i | 0 <= i < |xs| && xs[i].Sub? :: xs[i].node
  }

  ghost function ArgNodes(a: Arg): set<Node> {
    match a
    case One(Sub(n)) => {n}
    case One(Atom(_)) => {}
    case Many(xs) => ItemNodes(xs)
  }

  ghost function ArgsNodes(args: map<Key, Arg>): set<Node> {
    set k, c | k in args && c in ArgNodes(args[k]) :: c
  }

  /** No node stands in two places. */
  ghost predicate LinkableArgs(args: map<Key, Arg>) {
    && (forall k :: k in args && args[k].Many? ==> DistinctNodes(args[k].items))
    && (forall k, l :: k in args && l in args && k != l ==> ArgNodes(args[k]) !! ArgNodes(args[l]))
  }

  /** Every node in `a` names its holder, its key, and its place in the list. */
  ghost predicate ArgLinked(a: Arg, p: Node, k: Key)
    reads ArgNodes(a)
  {
    match a
    case One(Sub(n)) => n.LinkedTo(p, k, None)
    case One(Atom(_)) => true
    case Many(xs) => forall i :: 0 <= i < |xs| && xs[i].Sub? ==> xs[i].node.LinkedTo(p, k, Some(i))
  }

  /** All nodes of `all` hold nodes of `all`, which link back to them. */
  ghost predicate Linked(all: set<Node>)
    reads all
  {
    forall n, k :: n in all && k in n.args ==> ArgNodes(n.args[k]) <= all && ArgLinked(n.args[k], n, k)
  }

  // ---- Broken links ----

  /** Removing the last of two nodes by the index -1 leaves the first one with the index -1. */
  lemma {:induction false} NegativeIndexBreaks(a: Node, b: Node)
    ensures !PopRaises([Sub(a), Sub(b)], -1) && !PopKeepsLinks([Sub(a), Sub(b)], -1)
    ensures IndexAfterPop([Sub(a), Sub(b)], -1, 0) == -1
  {
    var rest := AfterPop([Sub(a), Sub(b)], -1);
    assert rest == [Sub(a)] && FirstAtom(rest, 0) == 1;
  }

  /** A node that is a single argument of a root, replaced by a list: it stays where it is, without links. */
  method ReplacedByList() returns (p: Node, c: Node)
    ensures p.args == map["this" := One(Sub(c))] && c.parent == null && !Linked({p, c})
  {
    c := new Node.Empty("c");
    p := new Node("p", map["this" := One(Sub(c))], ["this"]);
    var d := new Node.Empty("d");
    ghost var all, rank := {p, c, d}, map[p := 1, c := 0, d := 0];
    assert ArgLinked(p.args["this"], p, "this");
    assert c.Climbs(List([Sub(d)])) && p.Ignores(List([Sub(d)]));
    var _ := c.Replace(List([Sub(d)]), all, rank, 1);
    NullNotLinked(p.args["this"], c, p, "this");
  }
}
