/** Conditions built with `and_`, `or_` and `not_`, the iterative printer of connectors, and a reader that
    gets the tree back (sqlglot/expressions.py, `_combine`, `_wrap`, `not_`; sqlglot/generator.py,
    `connector_sql`, `paren_sql`, `not_sql`). */
module Connector {
  import opened Collections
  import opened Logic

  /** `Atom` is any condition that is neither a connector nor a negation nor in parentheses. */
  datatype Cond =
    | Atom(text: string)
    | Paren(cond: Cond)
    | Not(cond: Cond)
    | And(left: Cond, right: Cond)
    | Or(left: Cond, right: Cond)
  {
    predicate IsConnector() { And? || Or? }
  }

  datatype Op = AND | OR

  function Join(op: Op, l: Cond, r: Cond): Cond {
    if op == AND then And(l, r) else Or(l, r)
  }

  // ---- Building ----

  /** `_wrap(c, Connector)` */
  function Wrap(c: Cond): Cond {
    if c.IsConnector() then Paren(c) else c
  }

  /** `this` joined with each of `rest` in turn, from the left. */
  function Chain(op: Op, first: Cond, rest: seq<Cond>, wrap: bool): Cond
    decreases |rest|
  {
    if rest == [] then first
    else
      var last := rest[|rest| - 1];
      Join(op, Chain(op, first, rest[..|rest| - 1], wrap), if wrap then Wrap(last) else last)
  }

  function Present(xs: seq<Option<Cond>>): seq<Cond> {
    if xs == [] then [] else (if xs[0].Some? then [xs[0].value] else []) + Present(xs[1..])
  }

  /** `_combine`: None for the error that an empty list of conditions leads to. */
  function Combined(op: Op, cs: seq<Cond>, wrap: bool): Option<Cond> {
    if cs == [] then None
    else Some(Chain(op, if wrap && |cs| > 1 then Wrap(cs[0]) else cs[0], cs[1..], wrap))
  }

  lemma {:induction false} PresentStep(xs: seq<Option<Cond>>, i: nat)
    requires i < |xs|
    ensures Present(xs[i..]) == (if xs[i].Some? then [xs[i].value] else []) + Present(xs[i + 1..])
  {
    assert xs[i..][1..] == xs[i + 1..];
  }

  lemma {:induction false} PresentNone()
    ensures Present([]) == []
  {
  }

  lemma {:induction false} ChainFrom(op: Op, first: Cond, wrap: bool)
    ensures Chain(op, first, [], wrap) == first
  {
  }

  lemma {:induction false} ChainStep(op: Op, first: Cond, rest: seq<Cond>, i: nat, wrap: bool)
    requires i < |rest|
    ensures Chain(op, first, rest[..i + 1], wrap) ==
            Join(op, Chain(op, first, rest[..i], wrap), if wrap then Wrap(rest[i]) else rest[i])
  {
    hide Join, Wrap;
    assert rest[..i + 1][..i] == rest[..i];
  }

  lemma {:induction false} CombinedChain(op: Op, cs: seq<Cond>, wrap: bool)
    ensures cs == [] ==> Combined(op, cs, wrap) == None
    ensures cs != [] ==>
              Combined(op, cs, wrap) ==
              Some(Chain(op, if cs[1..] != [] && wrap then Wrap(cs[0]) else cs[0], cs[1..], wrap))
  {
    hide Chain, Wrap;
  }

  method Combine(expressions: seq<Option<Cond>>, op: Op, wrap: bool) returns (r: Option<Cond>)
    ensures r == Combined(op, Present(expressions), wrap)
  {
    hide *;
    PresentNone();
    var conditions := [];
    assert expressions[0..] == expressions;
    for i := 0 to |expressions|
      invariant conditions + Present(expressions[i..]) == Present(expressions)
    {
      hide *;
      PresentStep(expressions, i);
      if expressions[i].Some? {
        conditions := conditions + [expressions[i].value];
      }
    }
    assert expressions[|expressions|..] == [] && conditions + [] == conditions;
    CombinedChain(op, conditions, wrap);
    if conditions == [] {
      return None;
    }
    var combined, rest := conditions[0], conditions[1..];
    if rest != [] && wrap {
      combined := Wrap(combined);
    }
    ghost var first := combined;
    assert rest[..0] == [];
    ChainFrom(op, first, wrap);
    for i := 0 to |rest|
      invariant combined == Chain(op, first, rest[..i], wrap)
    {
      hide *;
      ChainStep(op, first, rest, i, wrap);
      combined := Join(op, combined, if wrap then Wrap(rest[i]) else rest[i]);
    }
    assert rest[..|rest|] == rest;
    r := Some(combined);
  }

  /** Any nesting of the builders, with `wrap` on. A list of conditions is never empty. */
  datatype Build =
    | Leaf(text: string)
    | All(first: Build, rest: seq<Build>)
    | Any(first: Build, rest: seq<Build>)
    | Negation(build: Build)

  function Built(b: Build): Cond
    decreases b, 1
  {
    match b
    case Leaf(text) => Atom(text)
    case All(first, rest) => CombineAll(AND, Built(first), BuiltAll(rest))
    case Any(first, rest) => CombineAll(OR, Built(first), BuiltAll(rest))
    case Negation(inner) => Not(Wrap(Built(inner)))
  }

  function BuiltAll(bs: seq<Build>): (cs: seq<Cond>)
    ensures |cs| == |bs|
    decreases bs, 0
  {
    if bs == [] then [] else [Built(bs[0])] + BuiltAll(bs[1..])
  }

  function CombineAll(op: Op, first: Cond, rest: seq<Cond>): Cond {
    Combined(op, [first] + rest, true).value
  }

  /** Nothing but connectors stands in parentheses. */
  predicate OnlyConnectorsWrapped(c: Cond) {
    match c
    case Atom(_) => true
    case Paren(x) => (x.And? || x.Or?) && OnlyConnectorsWrapped(x)
    case Not(x) => OnlyConnectorsWrapped(x)
    case And(l, r) => OnlyConnectorsWrapped(l) && OnlyConnectorsWrapped(r)
    case Or(l, r) => OnlyConnectorsWrapped(l) && OnlyConnectorsWrapped(r)
  }

  lemma {:induction false} ChainWrapsConnectors(op: Op, first: Cond, rest: seq<Cond>, wrap: bool)
    requires OnlyConnectorsWrapped(first) && forall c :: c in rest ==> OnlyConnectorsWrapped(c)
    ensures OnlyConnectorsWrapped(Chain(op, first, rest, wrap))
    decreases |rest|
  {
    if rest != [] {
      ChainWrapsConnectors(op, first, rest[..|rest| - 1], wrap);
      assert rest[|rest| - 1] in rest;
    }
  }

  /** Combining conditions puts parentheses around connectors only. */
  lemma {:induction false} CombinedWrapsConnectors(op: Op, cs: seq<Cond>, wrap: bool)
    requires forall c :: c in cs ==> OnlyConnectorsWrapped(c)
    ensures Combined(op, cs, wrap).Some? ==> OnlyConnectorsWrapped(Combined(op, cs, wrap).value)
  {
    if cs != [] {
      hide Chain;
      assert cs[0] in cs && forall c :: c in cs[1..] ==> c in cs;
      ChainWrapsConnectors(op, if wrap && |cs| > 1 then Wrap(cs[0]) else cs[0], cs[1..], wrap);
    }
  }

  /** Every nesting of the builders puts parentheses around connectors only. */
  lemma {:induction false} BuiltWrapsConnectors(b: Build)
    ensures OnlyConnectorsWrapped(Built(b))
    decreases b, 1
  {
    match b {
      case Leaf(_) =>
      case All(first, rest) =>
        BuiltWrapsConnectors(first);
        AllBuiltWrapConnectors(rest);
        CombinedWrapsConnectors(AND, [Built(first)] + BuiltAll(rest), true);
      case Any(first, rest) =>
        BuiltWrapsConnectors(first);
        AllBuiltWrapConnectors(rest);
        CombinedWrapsConnectors(OR, [Built(first)] + BuiltAll(rest), true);
      case Negation(inner) => BuiltWrapsConnectors(inner);
    }
  }

  lemma {:induction false} AllBuiltWrapConnectors(bs: seq<Build>)
    ensures forall c :: c in BuiltAll(bs) ==> OnlyConnectorsWrapped(c)
    decreases bs, 0
  {
    if bs != [] {
      BuiltWrapsConnectors(bs[0]);
      AllBuiltWrapConnectors(bs[1..]);
    }
  }

  // ---- Tokens and text ----

  datatype Token = Word(text: string) | KeyAnd | KeyOr | KeyNot | Open | Close

  function KeyOf(op: Op): Token { if op == AND then KeyAnd else KeyOr }

  function Tokens(c: Cond): seq<Token> {
    match c
    case Atom(text) => [Word(text)]
    case Paren(x) => [Open] + Tokens(x) + [Close]
    case Not(x) => [KeyNot] + Tokens(x)
    case And(l, r) => Tokens(l) + [KeyAnd] + Tokens(r)
    case Or(l, r) => Tokens(l) + [KeyOr] + Tokens(r)
  }

  function OpText(op: Op): string { if op == AND then "AND" else "OR" }

  /** The naive infix text. */
  function Infix(c: Cond): string {
    match c
    case Atom(text) => text
    case Paren(x) => "(" + Infix(x) + ")"
    case Not(x) => "NOT " + Infix(x)
    case And(l, r) => Infix(l) + " " + OpText(AND) + " " + Infix(r)
    case Or(l, r) => Infix(l) + " " + OpText(OR) + " " + Infix(r)
  }

  /** How a connector, a NOT and parentheses are shown. */
  lemma {:induction false} ShownAs(a: string, b: string)
    ensures Infix(And(Atom(a), Atom(b))) == a + " AND " + b && Infix(Or(Atom(a), Atom(b))) == a + " OR " + b
    ensures Infix(Not(Atom(a))) == "NOT " + a && Infix(Paren(Atom(a))) == "(" + a + ")"
  {
    var l, r := Atom(a), Atom(b);
    assert Infix(l) == a && Infix(r) == b;
    assert Infix(And(l, r)) == a + " " + "AND" + " " + b && Infix(Or(l, r)) == a + " " + "OR" + " " + b;
    assert " " + "AND" + " " == " AND " && " " + "OR" + " " == " OR ";
    assert a + " " + "AND" + " " + b == a + (" " + "AND" + " ") + b;
    assert a + " " + "OR" + " " + b == a + (" " + "OR" + " ") + b;
  }

  // ---- The iterative printer ----

  /** What stands on the printer's stack: an operator, or a condition still to be printed. */
  datatype Entry = Text(text: string) | Node(cond: Cond)

  function EntryText(e: Entry): string {
    match e
    case Text(s) => s
    case Node(c) => Infix(c)
  }

  /** The texts of the stack, the top first. */
  function StackTexts(stack: seq<Entry>): seq<string> {
    if stack == [] then [] else [EntryText(stack[|stack| - 1])] + StackTexts(stack[..|stack| - 1])
  }

  /** `" ".join(sqls)` */
  function JoinTexts(sqls: seq<string>): string {
    if sqls == [] then "" else if |sqls| == 1 then sqls[0] else sqls[0] + " " + JoinTexts(sqls[1..])
  }

  lemma {:induction false} JoinMerge(xs: seq<string>, a: string, b: string, ys: seq<string>)
    ensures JoinTexts(xs + [a, b] + ys) == JoinTexts(xs + [a + " " + b] + ys)
    decreases |xs|
  {
    if xs == [] {
      assert xs + [a, b] + ys == [a] + ([b] + ys) && xs + [a + " " + b] + ys == [a + " " + b] + ys;
      if ys == [] {
        assert [b] + ys == [b] && [a + " " + b] + ys == [a + " " + b];
      } else {
        assert ([b] + ys)[1..] == ys && ([a + " " + b] + ys)[1..] == ys;
        assert a + " " + (b + " " + JoinTexts(ys)) == a + " " + b + " " + JoinTexts(ys);
      }
    } else {
      assert (xs + [a, b] + ys)[1..] == xs[1..] + [a, b] + ys;
      assert (xs + [a + " " + b] + ys)[1..] == xs[1..] + [a + " " + b] + ys;
      JoinMerge(xs[1..], a, b, ys);
    }
  }

  lemma {:induction false} JoinThree(xs: seq<string>, a: string, b: string, c: string, ys: seq<string>)
    ensures JoinTexts(xs + [a, b, c] + ys) == JoinTexts(xs + [a + " " + b + " " + c] + ys)
  {
    assert xs + [a, b, c] + ys == xs + [a, b] + ([c] + ys);
    JoinMerge(xs, a, b, [c] + ys);
    assert xs + [a + " " + b] + ([c] + ys) == xs + [a + " " + b, c] + ys;
    JoinMerge(xs, a + " " + b, c, ys);
  }

  ghost function Size(c: Cond): nat {
    match c
    case Atom(_) => 1
    case Paren(x) => 1 + Size(x)
    case Not(x) => 1 + Size(x)
    case And(l, r) => 2 + Size(l) + Size(r)
    case Or(l, r) => 2 + Size(l) + Size(r)
  }

  ghost function StackSize(stack: seq<Entry>): nat {
    if stack == [] then 0
    else (match stack[|stack| - 1] case Text(_) => 1 case Node(c) => Size(c)) + StackSize(stack[..|stack| - 1])
  }

  /** Everything on the stack is part of `whole`, and smaller. */
  ghost predicate Within(stack: seq<Entry>, bound: nat) {
    forall e :: e in stack && e.Node? ==> Size(e.cond) < bound || (e.cond.IsConnector() && Size(e.cond) <= bound)
  }

  /** `sql`, for conditions */
  method Sql(c: Cond) returns (s: string)
    ensures s == Infix(c)
    decreases Size(c), 1
  {
    match c {
      case Atom(text) => s := text;
      case Paren(x) =>
        s := Sql(x);
        s := "(" + s + ")";
      case Not(x) =>
        s := Sql(x);
        s := "NOT " + s;
      case And(_, _) => s := ConnectorSql(c);
      case Or(_, _) => s := ConnectorSql(c);
    }
  }

  /** `connector_sql`, not pretty: one stack for a whole tree of connectors. */
  method ConnectorSql(c: Cond) returns (s: string)
    requires c.IsConnector()
    ensures s == Infix(c)
    decreases Size(c), 0
  {
    var stack := [Node(c)];
    var sqls: seq<string> := [];
    var ops: set<string> := {};
    assert StackTexts(stack) == [Infix(c)] by { assert stack[..0] == []; }
    assert [] + [Infix(c)] == [Infix(c)];
    while stack != []
      invariant JoinTexts(sqls + StackTexts(stack)) == Infix(c)
      invariant Within(stack, Size(c))
      decreases StackSize(stack)
    {
      var node, rest := stack[|stack| - 1], stack[..|stack| - 1];
      assert node in stack && forall e :: e in rest ==> e in stack;
      assert StackTexts(stack) == [EntryText(node)] + StackTexts(rest);
      if node.Node? && node.cond.IsConnector() {
        var op := if node.cond.And? then "AND" else "OR";
        ops := ops + {op};
        PushThree(rest, sqls, node.cond, op, Size(c));
        stack := rest + [Node(node.cond.right), Text(op), Node(node.cond.left)];
      } else {
        var sql;
        match node {
          case Text(t) => sql := t;
          case Node(x) => sql := Sql(x);
        }
        if sqls != [] && sqls[|sqls| - 1] in ops {
          Extend(sqls, sql, StackTexts(rest));
          sqls := sqls[|sqls| - 1 := sqls[|sqls| - 1] + " " + sql];
        } else {
          assert sqls + ([sql] + StackTexts(rest)) == sqls + [sql] + StackTexts(rest);
          sqls := sqls + [sql];
        }
        stack := rest;
      }
    }
    assert sqls + [] == sqls;
    s := JoinTexts(sqls);
  }

  lemma {:induction false} Extend(sqls: seq<string>, sql: string, ys: seq<string>)
    requires sqls != []
    ensures JoinTexts(sqls + ([sql] + ys)) == JoinTexts(sqls[|sqls| - 1 := sqls[|sqls| - 1] + " " + sql] + ys)
  {
    var n := |sqls| - 1;
    assert sqls + ([sql] + ys) == sqls[..n] + [sqls[n], sql] + ys;
    JoinMerge(sqls[..n], sqls[n], sql, ys);
    assert sqls[n := sqls[n] + " " + sql] + ys == sqls[..n] + [sqls[n] + " " + sql] + ys;
  }

  lemma {:induction false} PushThree(rest: seq<Entry>, sqls: seq<string>, x: Cond, op: string, bound: nat)
    requires x.IsConnector() && Size(x) <= bound && op == (if x.And? then "AND" else "OR") && Within(rest, bound)
    ensures var stack := rest + [Node(x.right), Text(op), Node(x.left)];
      && JoinTexts(sqls + StackTexts(stack)) == JoinTexts(sqls + ([Infix(x)] + StackTexts(rest)))
      && Within(stack, bound) && StackSize(stack) < Size(x) + StackSize(rest)
  {
    var s1 := rest + [Node(x.right)];
    var s2 := s1 + [Text(op)];
    var s3 := s2 + [Node(x.left)];
    assert s3 == rest + [Node(x.right), Text(op), Node(x.left)];
    assert s3[..|s3| - 1] == s2 && s2[..|s2| - 1] == s1 && s1[..|s1| - 1] == rest;
    var l, r, ys := Infix(x.left), Infix(x.right), StackTexts(rest);
    assert StackTexts(s1) == [r] + ys && StackSize(s1) == Size(x.right) + StackSize(rest);
    assert StackTexts(s2) == [op] + ([r] + ys) && StackSize(s2) == 1 + StackSize(s1);
    assert StackTexts(s3) == [l] + ([op] + ([r] + ys)) && StackSize(s3) == Size(x.left) + StackSize(s2);
    assert sqls + ([l] + ([op] + ([r] + ys))) == sqls + [l, op, r] + ys;
    JoinThree(sqls, l, op, r, ys);
    assert sqls + [l + " " + op + " " + r] + ys == sqls + ([Infix(x)] + ys);
  }

  // ---- Reading ----

  datatype Parsed = Got(cond: Cond, rest: seq<Token>) | Fail

  predicate Starts(ts: seq<Token>, t: Token) {
    ts != [] && ts[0] == t
  }

  /** What a reader that binds NOT before AND before OR, and from left to right, can return. */
  predicate Readable(c: Cond) {
    match c
    case Atom(_) => true
    case Paren(x) => Readable(x)
    case Not(x) => Readable(x) && !x.IsConnector()
    case And(l, r) => Readable(l) && Readable(r) && !l.Or? && !r.IsConnector()
    case Or(l, r) => Readable(l) && Readable(r) && !r.Or?
  }

  function ReadNot(ts: seq<Token>): (r: Parsed)
    ensures r.Got? ==> |r.rest| < |ts| && Readable(r.cond) && !r.cond.IsConnector()
    decreases |ts|, 0
  {
    if ts == [] then Fail
    else match ts[0]
      case Word(text) => Got(Atom(text), ts[1..])
      case KeyNot => (match ReadNot(ts[1..]) case Got(c, rest) => Got(Not(c), rest) case Fail => Fail)
      case Open =>
        (match ReadOr(ts[1..])
         case Got(c, rest) => if Starts(rest, Close) then Got(Paren(c), rest[1..]) else Fail
         case Fail => Fail)
      case _ => Fail
  }

  function ReadAnd(ts: seq<Token>): (r: Parsed)
    ensures r.Got? ==> |r.rest| < |ts| && Readable(r.cond) && !r.cond.Or? && !Starts(r.rest, KeyAnd)
    decreases |ts|, 2
  {
    match ReadNot(ts)
    case Got(c, rest) => MoreAnd(c, rest)
    case Fail => Fail
  }

  function MoreAnd(l: Cond, ts: seq<Token>): (r: Parsed)
    ensures r.Got? ==>
              |r.rest| <= |ts| && (Readable(l) && !l.Or? ==> Readable(r.cond) && !r.cond.Or?) && !Starts(r.rest, KeyAnd)
    decreases |ts|, 1
  {
    if Starts(ts, KeyAnd) then
      match ReadNot(ts[1..])
      case Got(c, rest) => MoreAnd(And(l, c), rest)
      case Fail => Fail
    else Got(l, ts)
  }

  function ReadOr(ts: seq<Token>): (r: Parsed)
    ensures r.Got? ==> |r.rest| < |ts| && Readable(r.cond)
    decreases |ts|, 4
  {
    match ReadAnd(ts)
    case Got(c, rest) => MoreOr(c, rest)
    case Fail => Fail
  }

  function MoreOr(l: Cond, ts: seq<Token>): (r: Parsed)
    ensures r.Got? ==> |r.rest| <= |ts| && (Readable(l) ==> Readable(r.cond))
    decreases |ts|, 3
  {
    if Starts(ts, KeyOr) then
      match ReadAnd(ts[1..])
      case Got(c, rest) => MoreOr(Or(l, c), rest)
      case Fail => Fail
    else Got(l, ts)
  }

  function Read(ts: seq<Token>): Option<Cond> {
    match ReadOr(ts)
    case Got(c, rest) => if rest == [] then Some(c) else None
    case Fail => None
  }

  lemma {:induction false} ReadsNot(c: Cond, rest: seq<Token>)
    requires Readable(c) && !c.IsConnector()
    ensures ReadNot(Tokens(c) + rest) == Got(c, rest)
    decreases c, 0
  {
    var ts := Tokens(c) + rest;
    match c {
      case Atom(_) => assert ts[1..] == rest;
      case Not(x) =>
        assert ts[1..] == Tokens(x) + rest;
        ReadsNot(x, rest);
      case Paren(x) =>
        var after := [Close] + rest;
        assert ts[1..] == Tokens(x) + after;
        ReadsOr(x, after);
        assert after[1..] == rest;
    }
  }

  /** A conjunction is read up to its end, where the reader goes on with what it has. */
  lemma {:induction false} ReadsAnd(c: Cond, rest: seq<Token>)
    requires Readable(c) && !c.Or?
    ensures ReadAnd(Tokens(c) + rest) == MoreAnd(c, rest)
    decreases c, 1
  {
    if c.And? {
      var after := [KeyAnd] + (Tokens(c.right) + rest);
      assert Tokens(c) + rest == Tokens(c.left) + after;
      ReadsAnd(c.left, after);
      assert after[1..] == Tokens(c.right) + rest;
      ReadsNot(c.right, rest);
    } else {
      ReadsNot(c, rest);
    }
  }

  lemma {:induction false} ReadsOr(c: Cond, rest: seq<Token>)
    requires Readable(c) && !Starts(rest, KeyAnd)
    ensures ReadOr(Tokens(c) + rest) == MoreOr(c, rest)
    ensures !Starts(rest, KeyOr) ==> ReadOr(Tokens(c) + rest) == Got(c, rest)
    decreases c, 2
  {
    if c.Or? {
      var after := [KeyOr] + (Tokens(c.right) + rest);
      assert Tokens(c) + rest == Tokens(c.left) + after;
      ReadsOr(c.left, after);
      assert after[1..] == Tokens(c.right) + rest;
      ReadsAnd(c.right, rest);
    } else {
      ReadsAnd(c, rest);
    }
  }

  /** The reader gets a tree back exactly when every operand that needs parentheses has them. */
  lemma {:induction false} ReadBack(c: Cond)
    ensures Read(Tokens(c)) == Some(c) <==> Readable(c)
  {
    if Readable(c) {
      assert Tokens(c) + [] == Tokens(c);
      ReadsOr(c, []);
    }
  }

  // ---- What the builders build ----

  lemma {:induction false} ChainReadable(op: Op, first: Cond, rest: seq<Cond>)
    requires Readable(first) && !first.IsConnector() && forall c :: c in rest ==> Readable(c)
    ensures Readable(Chain(op, first, rest, true))
    ensures var c := Chain(op, first, rest, true); c.IsConnector() ==> (if op == AND then c.And? else c.Or?)
    decreases |rest|
  {
    if rest != [] {
      ChainReadable(op, first, rest[..|rest| - 1]);
      assert rest[|rest| - 1] in rest;
    }
  }

  lemma {:induction false} BuiltReadable(b: Build)
    ensures Readable(Built(b))
    decreases b, 1
  {
    match b {
      case Leaf(_) =>
      case All(first, rest) =>
        BuiltReadable(first);
        AllBuiltReadable(rest);
        CombineReadable(AND, Built(first), BuiltAll(rest));
      case Any(first, rest) =>
        BuiltReadable(first);
        AllBuiltReadable(rest);
        CombineReadable(OR, Built(first), BuiltAll(rest));
      case Negation(inner) => BuiltReadable(inner);
    }
  }

  lemma {:induction false} AllBuiltReadable(bs: seq<Build>)
    ensures forall c :: c in BuiltAll(bs) ==> Readable(c)
    decreases bs, 0
  {
    if bs != [] {
      BuiltReadable(bs[0]);
      AllBuiltReadable(bs[1..]);
    }
  }

  lemma {:induction false} CombineReadable(op: Op, first: Cond, rest: seq<Cond>)
    requires Readable(first) && forall c :: c in rest ==> Readable(c)
    ensures Readable(CombineAll(op, first, rest))
  {
    var cs := [first] + rest;
    assert cs[1..] == rest;
    if rest != [] { ChainReadable(op, Wrap(first), rest); }
  }

  // ---- Without `wrap` ----

  /** These conditions need no parentheses when they are joined in a row. */
  predicate FitsUnwrapped(op: Op, cs: seq<Cond>) {
    && (forall c :: c in cs ==> Readable(c))
    && (|cs| > 1 && op == AND ==> !cs[0].Or?)
    && forall i :: 0 < i < |cs| ==> if op == AND then !cs[i].IsConnector() else !cs[i].Or?
  }

  lemma {:induction false} ChainUnwrapped(op: Op, first: Cond, rest: seq<Cond>)
    ensures Readable(Chain(op, first, rest, false)) <==> FitsUnwrapped(op, [first] + rest)
    ensures rest != [] ==> (if op == AND then Chain(op, first, rest, false).And? else Chain(op, first, rest, false).Or?)
    decreases |rest|
  {
    hide *;
    ChainFrom(op, first, false);
    if rest == [] {
      FitsOne(op, first);
      assert [first] + [] == [first];
    } else {
      var n := |rest| - 1;
      assert ([first] + rest[..n])[0] == first && (n == 0 ==> rest[..n] == []);
      ChainUnwrapped(op, first, rest[..n]);
      FitsOneMore(op, [first] + rest[..n], rest[n]);
      ChainStep(op, first, rest, n, false);
      JoinReadable(op, Chain(op, first, rest[..n], false), rest[n]);
      assert rest == rest[..n] + [rest[n]] == rest[..n + 1];
      assert [first] + rest == [first] + rest[..n] + [rest[n]];
    }
  }

  lemma {:induction false} FitsOne(op: Op, c: Cond)
    ensures FitsUnwrapped(op, [c]) <==> Readable(c)
  {
    assert [c][0] == c && forall x :: x in [c] ==> x == c;
  }

  /** A condition at the end of an unwrapped chain. */
  lemma {:induction false} JoinReadable(op: Op, l: Cond, r: Cond)
    ensures op == AND ==>
      Join(op, l, r).And? && !Join(op, l, r).Or? &&
      (Readable(Join(op, l, r)) <==> Readable(l) && Readable(r) && !l.Or? && !r.IsConnector())
    ensures op == OR ==>
      Join(op, l, r).Or? && !Join(op, l, r).And? &&
      (Readable(Join(op, l, r)) <==> Readable(l) && Readable(r) && !r.Or?)
  {
  }

  lemma {:induction false} FitsOneMore(op: Op, cs: seq<Cond>, c: Cond)
    requires cs != []
    ensures FitsUnwrapped(op, cs + [c]) <==>
      && FitsUnwrapped(op, cs) && Readable(c)
      && (if op == AND then !c.IsConnector() && (|cs| == 1 ==> !cs[0].Or?) else !c.Or?)
  {
    var all := cs + [c];
    hide Readable;
    assert all[|cs|] == c && forall i :: 0 <= i < |cs| ==> all[i] == cs[i];
    assert forall x :: x in all <==> x in cs || x == c;
    if FitsUnwrapped(op, all) {
      assert c in all;
      forall i | 0 < i < |cs| ensures if op == AND then !cs[i].IsConnector() else !cs[i].Or? { assert all[i] == cs[i]; }
    }
  }

  /** Without `wrap`, exactly these conditions are read back as the tree that was printed. */
  lemma {:induction false} UnwrappedReadBack(op: Op, cs: seq<Cond>)
    requires cs != []
    ensures var c := Combined(op, cs, false).value; Read(Tokens(c)) == Some(c) <==> FitsUnwrapped(op, cs)
  {
    assert cs == [cs[0]] + cs[1..];
    ChainUnwrapped(op, cs[0], cs[1..]);
    ReadBack(Combined(op, cs, false).value);
  }

  /** (a OR b) AND c, built without `wrap`, is read back as a OR (b AND c). */
  lemma {:induction false} LostWithoutWrap()
    ensures var a, b, c := Atom("a"), Atom("b"), Atom("c");
      && Combined(AND, [Or(a, b), c], false) == Some(And(Or(a, b), c))
      && Read(Tokens(And(Or(a, b), c))) == Some(Or(a, And(b, c)))
  {
    var a, b, c := Atom("a"), Atom("b"), Atom("c");
    assert Chain(AND, Or(a, b), [], false) == Or(a, b);
    assert [c][..0] == [] && Chain(AND, Or(a, b), [c], false) == And(Or(a, b), c);
    assert [Or(a, b), c][1..] == [c];
    assert Tokens(And(Or(a, b), c)) == Tokens(Or(a, And(b, c)));
    ReadBack(Or(a, And(b, c)));
  }

  // ---- Meaning ----

  function Eval(c: Cond, env: string -> Truth): Truth {
    match c
    case Atom(text) => env(text)
    case Paren(x) => Eval(x, env)
    case Not(x) => Not3(Eval(x, env))
    case And(l, r) => And3(Eval(l, env), Eval(r, env))
    case Or(l, r) => Or3(Eval(l, env), Eval(r, env))
  }

  /** What the nested calls of the builders mean. */
  function Meaning(b: Build, env: string -> Truth): Truth
    decreases b, 1
  {
    match b
    case Leaf(text) => env(text)
    case All(first, rest) => AllMean(Meaning(first, env), rest, env)
    case Any(first, rest) => AnyMean(Meaning(first, env), rest, env)
    case Negation(inner) => Not3(Meaning(inner, env))
  }

  function AllMean(first: Truth, rest: seq<Build>, env: string -> Truth): Truth
    decreases rest, 0
  {
    if rest == [] then first else And3(first, AllMean(Meaning(rest[0], env), rest[1..], env))
  }

  function AnyMean(first: Truth, rest: seq<Build>, env: string -> Truth): Truth
    decreases rest, 0
  {
    if rest == [] then first else Or3(first, AnyMean(Meaning(rest[0], env), rest[1..], env))
  }

  function Apply(op: Op, a: Truth, b: Truth): Truth {
    if op == AND then And3(a, b) else Or3(a, b)
  }

  lemma {:induction false} WrapMeans(c: Cond, env: string -> Truth)
    ensures Eval(Wrap(c), env) == Eval(c, env)
  {
  }

  lemma {:induction false} MiddlePart<T>(s: seq<T>)
    requires |s| > 1
    ensures var n := |s| - 1; s[..n][0] == s[0] && s[1..][..n - 1] == s[..n][1..] && s[1..][n - 1] == s[n]
  {
  }

  /** A chain from the left means the same as one from the right. */
  lemma {:induction false} ChainMeans(op: Op, first: Cond, rest: seq<Cond>, env: string -> Truth)
    requires rest != []
    ensures Eval(Chain(op, first, rest, true), env) ==
              Apply(op, Eval(first, env), Eval(Chain(op, rest[0], rest[1..], true), env))
    decreases |rest|
  {
    var n := |rest| - 1;
    WrapMeans(rest[n], env);
    if n == 0 {
      assert rest[..0] == [] && rest[1..] == [];
    } else {
      var init := rest[..n];
      ChainMeans(op, first, init, env);
      MiddlePart(rest);
    }
  }

  lemma {:induction false} CombineMeans(op: Op, first: Cond, rest: seq<Cond>, env: string -> Truth)
    ensures Eval(CombineAll(op, first, rest), env) ==
            if rest == [] then Eval(first, env)
            else Apply(op, Eval(first, env), Eval(CombineAll(op, rest[0], rest[1..]), env))
  {
    var cs := [first] + rest;
    assert cs[1..] == rest;
    if rest != [] {
      WrapMeans(first, env);
      ChainMeans(op, Wrap(first), rest, env);
      var next := [rest[0]] + rest[1..];
      assert next[1..] == rest[1..];
      FirstWrapped(op, rest[0], rest[1..], env);
    }
  }

  lemma {:induction false} FirstWrapped(op: Op, first: Cond, rest: seq<Cond>, env: string -> Truth)
    ensures Eval(Chain(op, Wrap(first), rest, true), env) == Eval(Chain(op, first, rest, true), env)
  {
    WrapMeans(first, env);
    if rest != [] {
      ChainMeans(op, first, rest, env);
      ChainMeans(op, Wrap(first), rest, env);
    }
  }

  /** The tree that is built, and the tree that is read back, mean what the calls say. */
  lemma {:induction false} BuiltMeans(b: Build, env: string -> Truth)
    ensures Eval(Built(b), env) == Meaning(b, env)
    ensures Read(Tokens(Built(b))) == Some(Built(b))
    decreases b, 1
  {
    BuiltReadable(b);
    ReadBack(Built(b));
    match b {
      case Leaf(_) =>
      case All(first, rest) =>
        BuiltMeans(first, env);
        AllBuiltMean(AND, Built(first), rest, env);
      case Any(first, rest) =>
        BuiltMeans(first, env);
        AllBuiltMean(OR, Built(first), rest, env);
      case Negation(inner) =>
        BuiltMeans(inner, env);
        WrapMeans(Built(inner), env);
    }
  }

  lemma {:induction false} AllBuiltMean(op: Op, first: Cond, rest: seq<Build>, env: string -> Truth)
    ensures Eval(CombineAll(op, first, BuiltAll(rest)), env) ==
            if op == AND then AllMean(Eval(first, env), rest, env) else AnyMean(Eval(first, env), rest, env)
    decreases rest, 0
  {
    CombineMeans(op, first, BuiltAll(rest), env);
    if rest != [] {
      BuiltMeans(rest[0], env);
      AllBuiltMean(op, Built(rest[0]), rest[1..], env);
      assert BuiltAll(rest)[1..] == BuiltAll(rest[1..]);
    }
  }

  // ---- Text and tokens ----

  function TokenText(t: Token): string {
    match t
    case Word(text) => text
    case KeyAnd => "AND"
    case KeyOr => "OR"
    case KeyNot => "NOT"
    case Open => "("
    case Close => ")"
  }

  /** Tokens are set apart by blanks, except inside parentheses next to them. */
  function Gap(a: Token, b: Token): string {
    if a == Open || b == Close then "" else " "
  }

  function Render(ts: seq<Token>): string {
    if ts == [] then "" else if |ts| == 1 then TokenText(ts[0])
    else TokenText(ts[0]) + Gap(ts[0], ts[1]) + Render(ts[1..])
  }

  lemma {:induction false} RenderConcat(xs: seq<Token>, ys: seq<Token>)
    requires xs != [] && ys != []
    ensures Render(xs + ys) == Render(xs) + Gap(xs[|xs| - 1], ys[0]) + Render(ys)
    decreases |xs|
  {
    var all := xs + ys;
    RenderStep(all);
    if |xs| == 1 {
      hide Render;
      assert all[1..] == ys;
      RenderOne(xs[0]);
      assert xs == [xs[0]];
    } else {
      RenderStep(xs);
      hide Render;
      assert all[1..] == xs[1..] + ys;
      RenderConcat(xs[1..], ys);
      Assoc(TokenText(xs[0]), Gap(xs[0], xs[1]), Render(xs[1..]), Gap(xs[|xs| - 1], ys[0]), Render(ys));
    }
  }

  lemma {:induction false} Assoc(a: string, b: string, c: string, d: string, e: string)
    ensures a + b + (c + d + e) == a + b + c + d + e
  {
  }

  lemma {:induction false} RenderStep(ts: seq<Token>)
    requires |ts| > 1
    ensures Render(ts) == TokenText(ts[0]) + Gap(ts[0], ts[1]) + Render(ts[1..])
  {
  }

  lemma {:induction false} RenderOne(t: Token)
    ensures Render([t]) == TokenText(t)
  {
  }

  predicate OpenEnds(ts: seq<Token>) { ts != [] && ts[0] != Close && ts[|ts| - 1] != Open }

  lemma {:induction false} OpenEndsOfJoined(l: seq<Token>, m: seq<Token>, r: seq<Token>)
    requires OpenEnds(r) && (OpenEnds(l) || (l == [] && OpenEnds(m)))
    ensures OpenEnds(l + m + r)
  {
  }

  /** Neither end of a condition clings to what is next to it. */
  lemma {:induction false} TokenEnds(c: Cond)
    ensures OpenEnds(Tokens(c))
  {
    match c {
      case Atom(_) =>
      case Paren(_) =>
      case Not(x) =>
        TokenEnds(x);
        hide Tokens, OpenEnds;
        TokensOf(c);
        OpenEndsOfOne(KeyNot);
        OpenEndsOfJoined([], [KeyNot], Tokens(x));
        assert [] + [KeyNot] + Tokens(x) == [KeyNot] + Tokens(x);
      case _ =>
        TokenEnds(c.left);
        TokenEnds(c.right);
        hide Tokens, OpenEnds;
        TokensOf(c);
        OpenEndsOfJoined(Tokens(c.left), [if c.And? then KeyAnd else KeyOr], Tokens(c.right));
    }
  }

  lemma {:induction false} OpenEndsOfOne(t: Token)
    requires t != Open && t != Close
    ensures OpenEnds([t])
  {
  }

  lemma {:induction false} TokensOf(c: Cond)
    ensures c.Not? ==> Tokens(c) == [KeyNot] + Tokens(c.cond)
    ensures c.IsConnector() ==> Tokens(c) == Tokens(c.left) + [if c.And? then KeyAnd else KeyOr] + Tokens(c.right)
  {
  }

  /** The text that is printed is the text of the tokens that are read. */
  lemma {:induction false} TextOfTokens(c: Cond)
    ensures Render(Tokens(c)) == Infix(c)
  {
    hide Render;
    match c {
      case Atom(text) => RenderOne(Word(text));
      case Paren(x) =>
        TextOfTokens(x);
        TokenEnds(x);
        RenderOne(Open);
        RenderOne(Close);
        RenderConcat([Open], Tokens(x) + [Close]);
        RenderConcat(Tokens(x), [Close]);
        assert Tokens(c) == [Open] + (Tokens(x) + [Close]);
      case Not(x) =>
        TextOfTokens(x);
        TokenEnds(x);
        RenderOne(KeyNot);
        RenderConcat([KeyNot], Tokens(x));
      case And(l, r) => InfixText(c, l, r, AND);
      case Or(l, r) => InfixText(c, l, r, OR);
    }
  }

  lemma {:induction false} InfixText(c: Cond, l: Cond, r: Cond, op: Op)
    requires c == Join(op, l, r)
    ensures Render(Tokens(c)) == Infix(c)
    decreases c, 0
  {
    hide Render, Gap, Tokens;
    TextOfTokens(l);
    TextOfTokens(r);
    NoGaps(KeyOf(op));
    RenderOne(KeyOf(op));
    TokenEnds(l);
    TokenEnds(r);
    JoinedTokens(op, l, r);
    RenderConcat(Tokens(l), [KeyOf(op)] + Tokens(r));
    RenderConcat([KeyOf(op)], Tokens(r));
    Assoc(Infix(l), " ", OpText(op), " ", Infix(r));
  }

  lemma {:induction false} NoGaps(k: Token)
    requires k == KeyAnd || k == KeyOr
    ensures forall a: Token :: a != Open ==> Gap(a, k) == " "
    ensures forall b: Token :: b != Close ==> Gap(k, b) == " "
  {
  }

  lemma {:induction false} JoinedTokens(op: Op, l: Cond, r: Cond)
    ensures Tokens(Join(op, l, r)) == Tokens(l) + ([KeyOf(op)] + Tokens(r))
  {
  }
}
