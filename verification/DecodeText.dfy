/** The tokens of the CASE that DECODE becomes, and a reader that gets the tree back, although parentheses
    are left out next to an equation (sqlglot/generator.py, `decodecase_sql`; sqlglot/expressions.py, `_binop`). */
module DecodeText {
  import opened Collections
  import opened Decode
  import opened Logic

  /** `Op` is any binary operator but `=`, `IS`, `AND` and `OR`. */
  datatype Token =
    | Name(text: string) | Number(n: int) | KeyNull
    | Op(text: string) | EqSign | KeyIs | KeyAnd | KeyOr | KeyNot
    | Open | Close | KeyCase | KeyWhen | KeyThen | KeyElse | KeyEnd

  const LEVELS: nat := 5
  const EQUALITY: nat := 2

  /** OR binds least, then AND, `=`, IS, and the other operators. NOT is an operand wherever it stands. */
  function Level(e: Expr): (n: nat)
    ensures n < LEVELS <==> e.IsBinary()
  {
    match e
    case Or(_, _) => 0
    case And(_, _) => 1
    case Eq(_, _) => EQUALITY
    case Is(_, _) => 3
    case Other(_, _, _) => 4
    case _ => LEVELS
  }

  function OpLevel(t: Token): (n: nat)
  {
    match t
    case KeyOr => 0
    case KeyAnd => 1
    case EqSign => EQUALITY
    case KeyIs => 3
    case Op(_) => 4
    case _ => LEVELS
  }

  function OpOf(e: Expr): (t: Token)
    requires e.IsBinary()
    ensures OpLevel(t) == Level(e)
  {
    match e
    case Or(_, _) => KeyOr
    case And(_, _) => KeyAnd
    case Eq(_, _) => EqSign
    case Is(_, _) => KeyIs
    case Other(op, _, _) => Op(op)
  }

  function Binary(t: Token, l: Expr, r: Expr): (e: Expr)
    requires OpLevel(t) < LEVELS
    ensures e.IsBinary() && Level(e) == OpLevel(t) && e.left == l && e.right == r && OpOf(e) == t
  {
    match t
    case KeyOr => Or(l, r)
    case KeyAnd => And(l, r)
    case EqSign => Eq(l, r)
    case KeyIs => Is(l, r)
    case Op(text) => Other(text, l, r)
  }

  // ---- Printing ----

  function Tokens(e: Expr): seq<Token>
    decreases e, 1
  {
    match e
    case Literal(n) => [Number(n)]
    case Null => [KeyNull]
    case Column(name) => [Name(name)]
    case Not(x) => [KeyNot] + Tokens(x)
    case Paren(x) => [Open] + Tokens(x) + [Close]
    case Case(ifs, default) =>
      [KeyCase] + IfTokens(ifs) + (if default.Some? then [KeyElse] + Tokens(default.value) else []) + [KeyEnd]
    case _ => Tokens(e.left) + [OpOf(e)] + Tokens(e.right)
  }

  function IfTokens(ifs: seq<If>): seq<Token>
    decreases ifs, 0
  {
    if ifs == [] then [] else BranchTokens(ifs[0]) + IfTokens(ifs[1..])
  }

  function BranchTokens(i: If): seq<Token>
    decreases i, 0
  {
    [KeyWhen] + Tokens(i.cond) + [KeyThen] + Tokens(i.result)
  }

  // ---- Reading ----

  datatype Parsed<+T> = Got(value: T, rest: seq<Token>) | Fail

  predicate Starts(ts: seq<Token>, t: Token) { ts != [] && ts[0] == t }

  /** The level of the operator that comes next, if there is one. */
  function NextLevel(ts: seq<Token>): int {
    if ts == [] || OpLevel(ts[0]) == LEVELS then -1 else OpLevel(ts[0])
  }

  /** A NOT at the right end, without parentheses around it, reads on over the equation that follows. */
  predicate OpenNot(e: Expr) {
    e.Not? || (e.IsBinary() && OpenNot(e.right))
  }

  predicate Fits(e: Expr, rest: seq<Token>) {
    OpenNot(e) ==> NextLevel(rest) < EQUALITY
  }

  /** Every operand that needs parentheses has them: none binds less than its operator, no NOT reads on over an
      operator, and IS NOT is another operator. */
  predicate Readable(e: Expr)
    decreases e, 1
  {
    match e
    case Literal(_) => true
    case Null => true
    case Column(_) => true
    case Not(x) => Readable(x) && Level(x) >= EQUALITY
    case Paren(x) => Readable(x)
    case Case(ifs, default) => ReadableIfs(ifs) && (default.Some? ==> Readable(default.value))
    case _ =>
      && Readable(e.left) && Readable(e.right) && Level(e.left) >= Level(e) && Level(e.right) > Level(e)
      && (OpenNot(e.left) ==> Level(e) < EQUALITY) && !(e.Is? && e.right.Not?)
  }

  predicate ReadableIfs(ifs: seq<If>)
    decreases ifs, 0
  {
    ifs != [] ==> ReadableIf(ifs[0]) && ReadableIfs(ifs[1..])
  }

  predicate ReadableIf(i: If)
    decreases i, 0
  {
    Readable(i.cond) && Readable(i.result)
  }

  /** What is read is readable, up to an operator that binds less. */
  ghost predicate ReadWell(n: nat, ts: seq<Token>, e: Expr, rest: seq<Token>) {
    Readable(e) && Level(e) >= n && NextLevel(rest) < n && Fits(e, rest) && (e.Not? ==> Starts(ts, KeyNot))
  }

  /** Operators from level `n` on, from left to right. */
  function Read(n: nat, ts: seq<Token>): (r: Parsed<Expr>)
    requires n <= LEVELS
    ensures r.Got? ==> |r.rest| < |ts| && ReadWell(n, ts, r.value, r.rest)
    decreases |ts|, LEVELS - n, 1
  {
    if n == LEVELS then ReadPrimary(ts)
    else match Read(n + 1, ts)
      case Got(e, rest) => More(n, e, rest)
      case Fail => Fail
  }

  function More(n: nat, l: Expr, ts: seq<Token>): (r: Parsed<Expr>)
    requires n < LEVELS
    ensures r.Got? ==> |r.rest| <= |ts| && (r.value.Not? ==> r.value == l)
    ensures r.Got? && Readable(l) && Level(l) >= n && NextLevel(ts) <= n && Fits(l, ts) ==>
              Readable(r.value) && Level(r.value) >= n && NextLevel(r.rest) < n && Fits(r.value, r.rest)
    decreases |ts|, LEVELS - n, 0
  {
    if NextLevel(ts) != n then Got(l, ts)
    else if ts[0] == KeyIs && Starts(ts[1..], KeyNot) then Fail
    else match Read(n + 1, ts[1..])
      case Got(e, rest) => More(n, Binary(ts[0], l, e), rest)
      case Fail => Fail
  }

  function ReadPrimary(ts: seq<Token>): (r: Parsed<Expr>)
    ensures r.Got? ==> |r.rest| < |ts| && ReadWell(LEVELS, ts, r.value, r.rest)
    decreases |ts|, 0, 0
  {
    if ts == [] then Fail
    else match ts[0]
      case Number(n) => Got(Literal(n), ts[1..])
      case KeyNull => Got(Null, ts[1..])
      case Name(text) => Got(Column(text), ts[1..])
      case KeyNot =>
        (match Read(EQUALITY, ts[1..])
         case Got(e, rest) => Got(Not(e), rest)
         case Fail => Fail)
      case Open =>
        (match Read(0, ts[1..])
         case Got(e, rest) => if Starts(rest, Close) then Got(Paren(e), rest[1..]) else Fail
         case Fail => Fail)
      case KeyCase =>
        (match ReadIfs(ts[1..])
         case Got(ifs, rest) => ReadElse(ifs, rest)
         case Fail => Fail)
      case _ => Fail
  }

  function ReadIfs(ts: seq<Token>): (r: Parsed<seq<If>>)
    ensures r.Got? ==> |r.rest| <= |ts| && ReadableIfs(r.value)
    decreases |ts|, LEVELS + 1, 0
  {
    if !Starts(ts, KeyWhen) then Got([], ts)
    else match Read(0, ts[1..])
      case Fail => Fail
      case Got(cond, rest) =>
        if !Starts(rest, KeyThen) then Fail
        else match Read(0, rest[1..])
          case Fail => Fail
          case Got(result, rest') =>
            match ReadIfs(rest')
            case Got(ifs, rest'') => Got([If(cond, result)] + ifs, rest'')
            case Fail => Fail
  }

  function ReadElse(ifs: seq<If>, ts: seq<Token>): (r: Parsed<Expr>)
    requires ReadableIfs(ifs)
    ensures r.Got? ==> |r.rest| < |ts| && Readable(r.value) && r.value.Case?
    decreases |ts|, LEVELS + 1, 1
  {
    if Starts(ts, KeyEnd) then Got(Case(ifs, None), ts[1..])
    else if !Starts(ts, KeyElse) then Fail
    else match Read(0, ts[1..])
      case Got(e, rest) => if Starts(rest, KeyEnd) then Got(Case(ifs, Some(e)), rest[1..]) else Fail
      case Fail => Fail
  }

  // ---- Reading what was printed ----

  /** The tokens of a tree are read up to its end, where the reader of level `n` goes on with what it has. */
  lemma {:induction false} Reads(n: nat, e: Expr, rest: seq<Token>)
    requires n < LEVELS && Readable(e) && Level(e) >= n && NextLevel(rest) <= n && Fits(e, rest)
    ensures Read(n, Tokens(e) + rest) == More(n, e, rest)
    decreases e, 1, 2 * (LEVELS - n)
  {
    if Level(e) > n {
      ReadsAbove(n, e, rest);
    } else {
      hide *;
      var after := Parts(e, rest);
      Reads(n, e.left, after);
      ReadsAbove(n, e.right, rest);
      OneMore(n, e.left, after, e.right, rest);
    }
  }

  /** What follows the left operand. */
  lemma {:induction false} Parts(e: Expr, rest: seq<Token>) returns (after: seq<Token>)
    requires Readable(e) && e.IsBinary() && Fits(e, rest) && NextLevel(rest) <= Level(e)
    ensures Readable(e.left) && Level(e.left) >= Level(e) && Fits(e.left, after)
    ensures Readable(e.right) && Level(e.right) > Level(e) && Fits(e.right, rest)
    ensures Tokens(e) + rest == Tokens(e.left) + after && after != [] && after[1..] == Tokens(e.right) + rest
    ensures NextLevel(after) == OpLevel(after[0]) == Level(e) && Binary(after[0], e.left, e.right) == e
    ensures after[0] == KeyIs ==> !Starts(after[1..], KeyNot)
  {
    hide Readable, Tokens, OpenNot, Binary;
    TokensOf(e);
    OperandsOf(e);
    after := [OpOf(e)] + (Tokens(e.right) + rest);
    assert NextLevel(after) == Level(e);
    assert Tokens(e) + rest == Tokens(e.left) + after;
    StartsWithNot(e.right, rest);
  }

  lemma {:induction false} TokensOf(e: Expr)
    requires e.IsBinary()
    ensures Tokens(e) == Tokens(e.left) + [OpOf(e)] + Tokens(e.right) && Binary(OpOf(e), e.left, e.right) == e
    ensures OpOf(e) == KeyIs <==> e.Is?
  {
  }

  lemma {:induction false} OperandsOf(e: Expr)
    requires Readable(e) && e.IsBinary()
    ensures Readable(e.left) && Level(e.left) >= Level(e) && (OpenNot(e.left) ==> Level(e) < EQUALITY)
    ensures Readable(e.right) && Level(e.right) > Level(e) && (e.Is? ==> !e.right.Not?)
    ensures OpenNot(e.right) ==> OpenNot(e)
  {
  }

  lemma {:induction false} OneMore(n: nat, l: Expr, after: seq<Token>, r: Expr, rest: seq<Token>)
    requires n < LEVELS && after != [] && NextLevel(after) == OpLevel(after[0]) == n
    requires Read(n + 1, after[1..]) == Got(r, rest)
    requires after[0] == KeyIs ==> !Starts(after[1..], KeyNot)
    ensures More(n, l, after) == More(n, Binary(after[0], l, r), rest)
  {
    hide Read, Binary;
  }

  lemma {:induction false} StartsWithNot(e: Expr, rest: seq<Token>)
    requires Readable(e)
    ensures Starts(Tokens(e) + rest, KeyNot) && Level(e) >= EQUALITY ==> e.Not?
  {
    if e.IsBinary() {
      hide Readable, Tokens;
      OperandsOf(e);
      TokensOf(e);
      var after := [OpOf(e)] + Tokens(e.right) + rest;
      assert Tokens(e) + rest == Tokens(e.left) + after;
      StartsWithNot(e.left, after);
      NotIsOpen(e.left);
    }
  }

  lemma {:induction false} NotIsOpen(e: Expr)
    ensures e.Not? ==> OpenNot(e)
  {
  }

  /** Nothing at the levels above `n` comes behind the tree. */
  lemma {:induction false} ReadsAbove(n: nat, e: Expr, rest: seq<Token>)
    requires n < LEVELS && Readable(e) && Level(e) > n && NextLevel(rest) <= n && Fits(e, rest)
    ensures Read(n + 1, Tokens(e) + rest) == Got(e, rest)
    decreases e, 1, 2 * (LEVELS - n) - 1
  {
    if n + 1 == LEVELS {
      ReadsPrimary(e, rest);
    } else {
      Reads(n + 1, e, rest);
    }
  }

  lemma {:induction false} ReadsWhole(e: Expr, rest: seq<Token>)
    requires Readable(e) && NextLevel(rest) == -1
    ensures Read(0, Tokens(e) + rest) == Got(e, rest)
    decreases e, 2, 0
  {
    Reads(0, e, rest);
  }

  lemma {:induction false} ReadsPrimary(e: Expr, rest: seq<Token>)
    requires Readable(e) && !e.IsBinary() && Fits(e, rest)
    ensures ReadPrimary(Tokens(e) + rest) == Got(e, rest)
    decreases e, 1, 0
  {
    if e.Not? {
      hide *;
      var ts := NotParts(e, rest);
      ReadsAbove(1, e.inner, rest);
      NotRead(ts, e.inner, rest);
    } else if e.Paren? {
      hide *;
      var ts, after := ParenParts(e, rest);
      ReadsWhole(e.inner, after);
      ParenRead(ts, e.inner, after);
    } else if e.Case? {
      ReadsCase(e.ifs, e.default, rest);
    } else {
      assert (Tokens(e) + rest)[1..] == rest;
    }
  }

  lemma {:induction false} NotParts(e: Expr, rest: seq<Token>) returns (ts: seq<Token>)
    requires Readable(e) && e.Not? && Fits(e, rest)
    ensures ts == Tokens(e) + rest && Starts(ts, KeyNot) && ts != [] && ts[1..] == Tokens(e.inner) + rest
    ensures Readable(e.inner) && 1 < Level(e.inner) && NextLevel(rest) <= 1 && Fits(e.inner, rest) && 1 < LEVELS
    ensures e == Not(e.inner)
  {
    hide Read;
    ts := Tokens(e) + rest;
  }

  lemma {:induction false} NotRead(ts: seq<Token>, e: Expr, rest: seq<Token>)
    requires Starts(ts, KeyNot) && ts != [] && Read(2, ts[1..]) == Got(e, rest)
    ensures ReadPrimary(ts) == Got(Not(e), rest)
  {
    hide Read;
  }

  lemma {:induction false} ParenParts(e: Expr, rest: seq<Token>) returns (ts: seq<Token>, after: seq<Token>)
    requires Readable(e) && e.Paren?
    ensures ts == Tokens(e) + rest && Starts(ts, Open) && ts != [] && ts[1..] == Tokens(e.inner) + after
    ensures Readable(e.inner) && NextLevel(after) == -1 && Starts(after, Close) && after != [] && after[1..] == rest
    ensures e == Paren(e.inner)
  {
    hide Read;
    ts, after := Tokens(e) + rest, [Close] + rest;
  }

  lemma {:induction false} ParenRead(ts: seq<Token>, e: Expr, after: seq<Token>)
    requires Starts(ts, Open) && Starts(after, Close) && ts != [] && after != [] && Read(0, ts[1..]) == Got(e, after)
    ensures ReadPrimary(ts) == Got(Paren(e), after[1..])
  {
    hide Read;
  }

  lemma {:induction false} ReadsCase(ifs: seq<If>, default: Option<Expr>, rest: seq<Token>)
    requires ReadableIfs(ifs) && (default.Some? ==> Readable(default.value))
    ensures ReadPrimary(Tokens(Case(ifs, default)) + rest) == Got(Case(ifs, default), rest)
    decreases Case(ifs, default), 0, 0
  {
    hide *;
    var ts, after := CaseParts(ifs, default, rest);
    ReadsIfs(ifs, after);
    ReadsDefault(ifs, default, rest);
    CaseRead(ts, ifs, after);
  }

  function ElseTokens(default: Option<Expr>): seq<Token> {
    (if default.Some? then [KeyElse] + Tokens(default.value) else []) + [KeyEnd]
  }

  lemma {:induction false} CaseParts(ifs: seq<If>, default: Option<Expr>, rest: seq<Token>)
    returns (ts: seq<Token>, after: seq<Token>)
    ensures ts == Tokens(Case(ifs, default)) + rest && Starts(ts, KeyCase) && ts != []
    ensures ts[1..] == IfTokens(ifs) + after && after == ElseTokens(default) + rest
    ensures !Starts(after, KeyWhen) && NextLevel(after) == -1
  {
    hide IfTokens;
    ts, after := Tokens(Case(ifs, default)) + rest, ElseTokens(default) + rest;
  }

  lemma {:induction false} CaseRead(ts: seq<Token>, ifs: seq<If>, after: seq<Token>)
    requires Starts(ts, KeyCase) && ts != [] && ReadIfs(ts[1..]) == Got(ifs, after)
    ensures ReadPrimary(ts) == ReadElse(ifs, after)
  {
    hide ReadIfs, ReadElse, Read;
  }

  lemma {:induction false} ReadsDefault(ifs: seq<If>, default: Option<Expr>, rest: seq<Token>)
    requires ReadableIfs(ifs) && (default.Some? ==> Readable(default.value))
    ensures ReadElse(ifs, ElseTokens(default) + rest) == Got(Case(ifs, default), rest)
    decreases default, 3, 0
  {
    hide Readable, Read, Tokens;
    var ts, end := ElseTokens(default) + rest, [KeyEnd] + rest;
    assert end[1..] == rest;
    if default.Some? {
      assert ts[1..] == Tokens(default.value) + end;
      ReadsWhole(default.value, end);
    } else {
      assert ts == end;
    }
  }

  lemma {:induction false} ReadsIfs(ifs: seq<If>, rest: seq<Token>)
    requires ReadableIfs(ifs) && !Starts(rest, KeyWhen) && NextLevel(rest) == -1
    ensures ReadIfs(IfTokens(ifs) + rest) == Got(ifs, rest)
    decreases ifs, 0, 0
  {
    hide *;
    if ifs == [] {
      NoIfs(rest);
    } else {
      IfParts(ifs, rest);
      IfsStart(ifs[1..], rest);
      ReadsIfs(ifs[1..], rest);
      ReadsBranch(ifs[0], IfTokens(ifs[1..]) + rest);
      assert ifs == [ifs[0]] + ifs[1..];
    }
  }

  lemma {:induction false} NoIfs(rest: seq<Token>)
    requires !Starts(rest, KeyWhen)
    ensures ReadIfs(IfTokens([]) + rest) == Got([], rest)
  {
    hide Read;
    assert IfTokens([]) + rest == rest;
  }

  lemma {:induction false} IfParts(ifs: seq<If>, rest: seq<Token>)
    requires ifs != [] && ReadableIfs(ifs)
    ensures ReadableIf(ifs[0]) && ReadableIfs(ifs[1..])
    ensures IfTokens(ifs) + rest == BranchTokens(ifs[0]) + (IfTokens(ifs[1..]) + rest)
  {
    hide ReadableIf, BranchTokens;
  }

  lemma {:induction false} IfsStart(ifs: seq<If>, rest: seq<Token>)
    requires NextLevel(rest) == -1
    ensures NextLevel(IfTokens(ifs) + rest) == -1
  {
    if ifs == [] {
      assert IfTokens(ifs) + rest == rest;
    }
  }

  lemma {:induction false} ReadsBranch(i: If, more: seq<Token>)
    requires ReadableIf(i) && NextLevel(more) == -1
    ensures ReadIfs(BranchTokens(i) + more) ==
            match ReadIfs(more) case Got(ifs, rest) => Got([i] + ifs, rest) case Fail => Fail
    decreases i, 3, 0
  {
    hide Readable, Read, Tokens, ReadIfs;
    var ts := BranchTokens(i) + more;
    var after := [KeyThen] + (Tokens(i.result) + more);
    assert ts[1..] == Tokens(i.cond) + after && after[1..] == Tokens(i.result) + more;
    BranchParts(i);
    ReadsWhole(i.cond, after);
    ReadsWhole(i.result, more);
    IfStep(ts, i.cond, after, i.result, more);
  }

  lemma {:induction false} BranchParts(i: If)
    requires ReadableIf(i)
    ensures Readable(i.cond) && Readable(i.result) && i == If(i.cond, i.result)
  {
  }

  lemma {:induction false} IfStep(ts: seq<Token>, cond: Expr, after: seq<Token>, result: Expr, more: seq<Token>)
    requires Starts(ts, KeyWhen) && Read(0, ts[1..]) == Got(cond, after)
    requires Starts(after, KeyThen) && Read(0, after[1..]) == Got(result, more)
    ensures ReadIfs(ts) ==
              match ReadIfs(more) case Got(ifs, rest) => Got([If(cond, result)] + ifs, rest) case Fail => Fail
  {
    hide Readable, Read;
  }

  /** The reader gets a tree back exactly when every operand that needs parentheses has them. */
  lemma {:induction false} ReadBack(e: Expr)
    ensures Read(0, Tokens(e)) == Got(e, []) <==> Readable(e)
  {
    if Readable(e) {
      assert Tokens(e) + [] == Tokens(e);
      ReadsWhole(e, []);
    }
  }

  // ---- When the rewrite is read back ----

  /** What the rewrite leaves without parentheses holds no NOT that reads on over what is put behind it: neither the
      compared expression nor the search value is a NOT, and none ends in one that it has to leave open, an equation in
      front of `=`, and an IS in front of another IS. */
  predicate Survives(e: Expr, search: Expr) {
    && !e.Not? && !search.Not?
    && (e.Eq? && !search.Null? ==> !OpenNot(e))
    && (e.Is? && !search.Literal? ==> !OpenNot(e))
  }

  lemma {:induction false} WrapReadable(e: Expr)
    requires Readable(e)
    ensures Readable(Wrap(e)) && Level(Wrap(e)) == LEVELS && (OpenNot(Wrap(e)) <==> e.Not?)
  {
  }

  /** An equation on the left needs no parentheses; what is searched for is no equation. */
  lemma {:induction false} EqReadable(e: Expr, s: Expr)
    requires Readable(e) && Readable(s) && !s.IsBinary()
    ensures Readable(EqOf(e, s)) <==> !e.Not? && (e.Eq? ==> !OpenNot(e))
  {
    WrapReadable(e);
    WrapReadable(s);
  }

  /** Neither does an IS. */
  lemma {:induction false} IsNullReadable(e: Expr)
    requires Readable(e)
    ensures Level(IsNull(e)) == 3 && !OpenNot(IsNull(e))
    ensures Readable(IsNull(e)) <==> !e.Not? && (e.Is? ==> !OpenNot(e))
  {
    WrapReadable(e);
    assert Readable(Null) && Level(Null) == LEVELS;
  }

  lemma {:induction false} ConditionReadable(e: Expr, search: Expr)
    requires Readable(e) && Readable(search)
    ensures Readable(Condition(e, search)) <==> Survives(e, search)
  {
    var s := if search.IsBinary() then Paren(search) else search;
    assert Readable(s);
    hide EqOf, IsNull, Readable, OpenNot;
    EqReadable(e, s);
    IsNullReadable(e);
    IsNullReadable(s);
    BothReadable(EqOf(e, s), IsNull(e), IsNull(s));
  }

  lemma {:induction false} BothReadable(eq: Expr, l: Expr, r: Expr)
    requires eq.Eq? && l.Is? && r.Is?
    ensures Readable(Or(eq, Paren(And(l, r)))) <==> Readable(eq) && Readable(l) && Readable(r)
  {
    assert Readable(Paren(And(l, r))) <==> Readable(And(l, r));
  }

  lemma {:induction false} IfsReadable(e: Expr, rest: seq<Expr>)
    requires Readable(e) && forall x :: x in rest ==> Readable(x)
    ensures ReadableIfs(IfsOf(e, rest)) <==> forall i :: 0 <= i < |rest| - 1 && i % 2 == 0 ==> Survives(e, rest[i])
    decreases |rest|
  {
    if |rest| >= 2 {
      hide Condition, Readable, Survives;
      ConditionReadable(e, rest[0]);
      var others := rest[2..];
      IfsReadable(e, others);
      assert IfsOf(e, rest)[1..] == IfsOf(e, others);
      assert Readable(rest[1]);
      var first := IfsOf(e, rest)[0];
      assert ReadableIf(first) <==> Readable(first.cond);
      assert forall i :: 0 <= i < |others| ==> others[i] == rest[i + 2];
      assert forall i :: 2 <= i < |rest| ==> rest[i] == others[i - 2];
    }
  }

  lemma {:induction false} CaseReadable(args: seq<Expr>)
    requires args != [] && forall x :: x in args ==> Readable(x)
    ensures Readable(CaseOf(args)) <==> ReadableIfs(IfsOf(args[0], args[1..]))
  {
    hide IfsOf;
  }

  /** The tokens of the rewritten call are read back as its tree exactly if every search value that has a result
      survives. A call of fewer than three arguments has none. */
  lemma {:induction false} RewriteReadBack(args: seq<Expr>)
    requires args != [] && forall x :: x in args ==> Readable(x)
    ensures Read(0, Tokens(CaseOf(args))) == Got(CaseOf(args), []) <==>
            forall i :: 0 < i < |args| - 1 && i % 2 == 1 ==> Survives(args[0], args[i])
  {
    hide Readable, Survives, Tokens, Read, IfsOf;
    var rest := args[1..];
    IfsReadable(args[0], rest);
    CaseReadable(args);
    ReadBack(CaseOf(args));
    assert forall i :: 0 <= i < |rest| ==> rest[i] == args[i + 1];
    assert forall i :: 0 < i < |args| ==> args[i] == rest[i - 1];
  }

  /** `DECODE(NOT a, b, 1)` is printed as `CASE WHEN NOT a = b OR (NOT a IS NULL AND b IS NULL) THEN 1 END`, where each
      NOT reads on over the `=` or IS behind it: the value is another one if both columns are null. */
  lemma {:induction false} NotIsMisread(apply: (string, Value, Value) -> Value)
    ensures
      var a, b := Column("a"), Column("b");
      var printed := CaseOf([Not(a), b, Literal(1)]);
      var reread := Case([If(Or(Not(Eq(a, b)), Paren(And(Not(Is(a, Null)), Is(b, Null)))), Literal(1))], None);
      var env := Env(name => NULL, apply);
      && Read(0, Tokens(printed)) == Got(reread, [])
      && Eval(printed, env) == Num(1) && Eval(reread, env) == NULL
  {
    var a, b, env := Column("a"), Column("b"), Env(name => NULL, apply);
    var cond := Or(Eq(Not(a), b), Paren(And(Is(Not(a), Null), Is(b, Null))));
    var cond' := Or(Not(Eq(a, b)), Paren(And(Not(Is(a, Null)), Is(b, Null))));
    Printed("a", "b", Literal(1));
    Values(env);
    hide Eval, Tokens, Read, Readable, CaseOf, EvalIfs;
    OneBranch(cond, cond', Literal(1));
    ReadBack(Case([If(cond', Literal(1))], None));
    OneBranchMeans(cond, Literal(1), env);
    OneBranchMeans(cond', Literal(1), env);
  }

  lemma {:induction false} Printed(a: string, b: string, result: Expr)
    ensures
      var x, y := Column(a), Column(b);
      var cond := Or(Eq(Not(x), y), Paren(And(Is(Not(x), Null), Is(y, Null))));
      var cond' := Or(Not(Eq(x, y)), Paren(And(Not(Is(x, Null)), Is(y, Null))));
      && CaseOf([Not(x), y, result]) == Case([If(cond, result)], None)
      && Tokens(cond) == Tokens(cond') && Readable(cond')
  {
    var x, y := Column(a), Column(b);
    hide *;
    OnePair(Not(x), y, result);
    ConditionOfNot(x, y);
    MovedNot(Eq(Not(x), y), Eq(x, y));
    MovedNot(Is(Not(x), Null), Is(x, Null));
    ConnectedReadable(Eq(x, y), Is(x, Null), Is(y, Null));
    SameTokens(Is(Not(x), Null), Not(Is(x, Null)), Is(y, Null), Eq(Not(x), y), Not(Eq(x, y)));
  }

  lemma {:induction false} ConditionOfNot(x: Expr, y: Expr)
    requires x.Column? && y.Column?
    ensures Condition(Not(x), y) == Or(Eq(Not(x), y), Paren(And(Is(Not(x), Null), Is(y, Null))))
  {
  }

  /** The same text: NOT in front of the left operand, or of the whole. */
  lemma {:induction false} MovedNot(e: Expr, inner: Expr)
    requires (e.Eq? && inner.Eq?) || (e.Is? && inner.Is?)
    requires e.left == Not(inner.left) && e.right == inner.right
    ensures Tokens(e) == Tokens(Not(inner))
  {
    hide *;
    SameOp(e, inner);
    TokensOf(e);
    TokensOf(inner);
    NotTokens(inner);
    NotTokens(inner.left);
  }

  lemma {:induction false} SameOp(e: Expr, f: Expr)
    requires (e.Eq? && f.Eq?) || (e.Is? && f.Is?)
    ensures e.IsBinary() && f.IsBinary() && OpOf(e) == OpOf(f)
  {
  }

  lemma {:induction false} NotTokens(e: Expr)
    ensures Tokens(Not(e)) == [KeyNot] + Tokens(e)
  {
  }

  lemma {:induction false} OnePair(e: Expr, search: Expr, result: Expr)
    ensures CaseOf([e, search, result]) == Case([If(Condition(e, search), result)], None)
  {
    hide Condition;
    var args := [e, search, result];
    var rest := args[1..];
    assert rest == [search, result] && rest[2..] == [];
    assert IfsOf(e, rest) == [If(Condition(e, search), result)] + IfsOf(e, []);
  }

  lemma {:induction false} ConnectedReadable(e: Expr, i: Expr, j: Expr)
    requires e.Eq? && i.Is? && j.Is? && e.left.Column? && e.right.Column?
    requires i.left.Column? && j.left.Column? && i.right.Null? && j.right.Null?
    ensures Readable(Or(Not(e), Paren(And(Not(i), j))))
  {
    assert Readable(e.left) && Readable(e.right) && Readable(i.left) && Readable(i.right) && Readable(j.left)
      && Readable(j.right);
    assert Readable(e) && Readable(i) && Readable(j);
    assert Readable(Not(e)) && Readable(Not(i));
    assert Readable(And(Not(i), j));
    assert Readable(Paren(And(Not(i), j)));
  }

  lemma {:induction false} SameTokens(i: Expr, i': Expr, j: Expr, e: Expr, e': Expr)
    requires Tokens(i) == Tokens(i') && Tokens(e) == Tokens(e')
    ensures Tokens(Or(e, Paren(And(i, j)))) == Tokens(Or(e', Paren(And(i', j))))
  {
    assert Tokens(And(i, j)) == Tokens(And(i', j));
    assert Tokens(Paren(And(i, j))) == Tokens(Paren(And(i', j)));
  }

  lemma {:induction false} Values(env: Env)
    requires env.row("a") == NULL && env.row("b") == NULL
    ensures
      var a, b := Column("a"), Column("b");
      && Eval(Or(Eq(Not(a), b), Paren(And(Is(Not(a), Null), Is(b, Null)))), env) == Bool(true)
      && Eval(Or(Not(Eq(a, b)), Paren(And(Not(Is(a, Null)), Is(b, Null)))), env) == NULL
      && Eval(Literal(1), env) == Num(1)
  {
    var a, b := Column("a"), Column("b");
    assert Eval(Not(a), env) == NULL && Eval(Eq(Not(a), b), env) == NULL && Eval(Not(Eq(a, b)), env) == NULL;
    assert Eval(Is(Not(a), Null), env) == Bool(true) && Eval(Is(b, Null), env) == Bool(true);
    assert Eval(Not(Is(a, Null)), env) == Bool(false);
    assert Eval(Paren(And(Is(Not(a), Null), Is(b, Null))), env) == Bool(true);
    assert Eval(Paren(And(Not(Is(a, Null)), Is(b, Null))), env) == Bool(false);
  }

  lemma {:induction false} OneBranch(c: Expr, d: Expr, result: Expr)
    requires Tokens(c) == Tokens(d)
    ensures Tokens(Case([If(c, result)], None)) == Tokens(Case([If(d, result)], None))
    ensures Readable(d) && Readable(result) ==> Readable(Case([If(d, result)], None))
  {
    var x, y := [If(c, result)], [If(d, result)];
    assert x[1..] == [] && y[1..] == [];
    assert IfTokens(x) == BranchTokens(x[0]) + IfTokens([]) && IfTokens(y) == BranchTokens(y[0]) + IfTokens([]);
  }

  lemma {:induction false} OneBranchMeans(c: Expr, result: Expr, env: Env)
    ensures Eval(Case([If(c, result)], None), env) == if TruthOf(Eval(c, env)) == True then Eval(result, env) else NULL
  {
    var ifs := [If(c, result)];
    assert ifs[1..] == [] && EvalIfs([], env) == None;
    assert EvalIfs(ifs, env) == if Chosen(ifs[0], env) then Some(ResultOf(ifs[0], env)) else EvalIfs([], env);
  }
}
