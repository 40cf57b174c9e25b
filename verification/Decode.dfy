/** DECODE rewritten to CASE (sqlglot/generator.py, `decodecase_sql`; sqlglot/expressions.py, `_binop`). */
module Decode {
  import opened Collections
  import opened Logic

  datatype Value = NULL | Num(n: int) | Bool(b: bool)

  /** Literals are never null. `Other` is any binary operator but the ones that the rewrite builds. NOT is unary. */
  datatype Expr =
    | Literal(n: int)
    | Null
    | Column(name: string)
    | Other(op: string, left: Expr, right: Expr)
    | Eq(left: Expr, right: Expr)
    | Is(left: Expr, right: Expr)
    | And(left: Expr, right: Expr)
    | Or(left: Expr, right: Expr)
    | Not(inner: Expr)
    | Paren(inner: Expr)
    | Case(ifs: seq<If>, default: Option<Expr>)
  {
    predicate IsBinary() { Other? || Eq? || Is? || And? || Or? }
    predicate IsConnector() { And? || Or? }
  }

  datatype If = If(cond: Expr, result: Expr)

  // ---- Meaning ----

  /** A row, and what the other operators compute. */
  datatype Env = Env(row: string -> Value, apply: (string, Value, Value) -> Value)

  function TruthOf(v: Value): Truth {
    match v
    case NULL => Unknown
    case Num(n) => if n != 0 then True else False
    case Bool(b) => if b then True else False
  }

  function ValueOf(t: Truth): Value {
    match t
    case True => Bool(true)
    case False => Bool(false)
    case Unknown => NULL
  }

  /** `=` is unknown next to a null; `IS` compares nulls, too. */
  function Eval(e: Expr, env: Env): Value
    decreases e, 1
  {
    match e
    case Literal(n) => Num(n)
    case Null => NULL
    case Column(name) => env.row(name)
    case Other(op, l, r) => env.apply(op, Eval(l, env), Eval(r, env))
    case Eq(l, r) => if Eval(l, env) == NULL || Eval(r, env) == NULL then NULL else Bool(Eval(l, env) == Eval(r, env))
    case Is(l, r) => Bool(Eval(l, env) == Eval(r, env))
    case And(l, r) => ValueOf(And3(TruthOf(Eval(l, env)), TruthOf(Eval(r, env))))
    case Or(l, r) => ValueOf(Or3(TruthOf(Eval(l, env)), TruthOf(Eval(r, env))))
    case Not(x) => ValueOf(Not3(TruthOf(Eval(x, env))))
    case Paren(x) => Eval(x, env)
    case Case(ifs, default) =>
      match EvalIfs(ifs, env)
      case Some(v) => v
      case None => if default.Some? then Eval(default.value, env) else NULL
  }

  /** The first condition that is true decides; unknown is not enough. */
  function EvalIfs(ifs: seq<If>, env: Env): Option<Value>
    decreases ifs, 0
  {
    if ifs == [] then None
    else if Chosen(ifs[0], env) then Some(ResultOf(ifs[0], env))
    else EvalIfs(ifs[1..], env)
  }

  predicate Chosen(i: If, env: Env)
    decreases i, 0
  {
    TruthOf(Eval(i.cond, env)) == True
  }

  function ResultOf(i: If, env: Env): Value
    decreases i, 0
  {
    Eval(i.result, env)
  }

  // ---- The rewrite ----

  /** `_wrap(e, Binary)` */
  function Wrap(e: Expr): Expr {
    if e.IsBinary() then Paren(e) else e
  }

  /** `e.eq(other)` leaves out the parentheses if either side is an equation already. */
  function EqOf(e: Expr, other: Expr): Expr {
    if !e.Eq? && !other.Eq? then Eq(Wrap(e), Wrap(other)) else Eq(e, other)
  }

  /** `e.is_(NULL)` */
  function IsNull(e: Expr): Expr {
    if !e.Is? then Is(Wrap(e), Null) else Is(e, Null)
  }

  /** `or_(a, and_(b, c))` */
  function EqualOrBothNull(e: Expr, search: Expr): Expr {
    Or(EqOf(e, search), Paren(And(IsNull(e), IsNull(search))))
  }

  function Condition(e: Expr, search: Expr): Expr {
    if search.Literal? then EqOf(e, search)
    else if search.Null? then IsNull(e)
    else EqualOrBothNull(e, if search.IsBinary() then Paren(search) else search)
  }

  /** The search values and results come in pairs; an odd one at the end is the default. */
  function IfsOf(e: Expr, rest: seq<Expr>): seq<If> {
    if |rest| < 2 then [] else [If(Condition(e, rest[0]), rest[1])] + IfsOf(e, rest[2..])
  }

  /** The rewritten call. */
  function CaseOf(args: seq<Expr>): Expr
    requires args != []
  {
    Case(IfsOf(args[0], args[1..]), if |args| % 2 == 0 then Some(args[|args| - 1]) else None)
  }

  /** `decodecase_sql`, up to printing. None is the error for a call without arguments. */
  method DecodeCase(args: seq<Expr>) returns (r: Option<Expr>)
    ensures r.None? <==> args == []
    ensures args != [] ==>
              r == Some(CaseOf(args)) && forall env: Env ::
                Eval(r.value, env) == FirstMatch(Eval(args[0], env), args[1..], env)
  {
    if args == [] {
      return None;
    }
    hide *;
    var expression, expressions := args[0], args[1..];
    var ifs := [];
    var i := 0;
    while i + 1 < |expressions|
      invariant 0 <= i <= |expressions| && i % 2 == 0
      invariant ifs + IfsOf(expression, expressions[i..]) == IfsOf(expression, expressions)
    {
      hide *;
      IfsStep(expression, expressions, i);
      ifs := ifs + [If(Condition(expression, expressions[i]), expressions[i + 1])];
      i := i + 2;
    }
    IfsEnd(expression, expressions[i..]);
    var default := if |expressions| % 2 == 1 then Some(expressions[|expressions| - 1]) else None;
    r := Some(Case(ifs, default));
    assert ifs + [] == ifs;
    CaseIs(args);
    forall env: Env ensures Eval(r.value, env) == FirstMatch(Eval(args[0], env), args[1..], env) {
      CaseMeans(args, env);
    }
  }

  lemma {:induction false} IfsStep(e: Expr, rest: seq<Expr>, i: nat)
    requires i + 1 < |rest|
    ensures IfsOf(e, rest[i..]) == [If(Condition(e, rest[i]), rest[i + 1])] + IfsOf(e, rest[i + 2..])
  {
    hide Condition;
    assert rest[i..][2..] == rest[i + 2..];
  }

  lemma {:induction false} IfsEnd(e: Expr, rest: seq<Expr>)
    requires |rest| < 2
    ensures IfsOf(e, rest) == []
  {
  }

  lemma {:induction false} CaseIs(args: seq<Expr>)
    requires args != []
    ensures var rest := args[1..];
      CaseOf(args) == Case(IfsOf(args[0], rest), if |rest| % 2 == 1 then Some(rest[|rest| - 1]) else None)
  {
    hide IfsOf;
  }

  lemma {:induction false} CaseMeans(args: seq<Expr>, env: Env)
    requires args != []
    ensures Eval(CaseOf(args), env) == FirstMatch(Eval(args[0], env), args[1..], env)
  {
    hide Eval, EvalIfs, FirstMatch, IfsOf, CaseOf;
    var rest := args[1..];
    CaseIs(args);
    PairsMatch(args[0], rest, env);
    CaseEval(IfsOf(args[0], rest), if |rest| % 2 == 1 then Some(rest[|rest| - 1]) else None, env);
  }

  lemma {:induction false} CaseEval(ifs: seq<If>, default: Option<Expr>, env: Env)
    ensures Eval(Case(ifs, default), env) ==
            match EvalIfs(ifs, env)
            case Some(v) => v
            case None => if default.Some? then Eval(default.value, env) else NULL
  {
  }

  // ---- What DECODE means ----

  /** The result after the first search value that is the same, counting null as the same as null. */
  function FirstMatch(v: Value, rest: seq<Expr>, env: Env): Value {
    if rest == [] then NULL
    else if |rest| == 1 then Eval(rest[0], env)
    else if v == Eval(rest[0], env) then Eval(rest[1], env)
    else FirstMatch(v, rest[2..], env)
  }

  lemma {:induction false} WrapMeans(e: Expr, env: Env)
    ensures Eval(Wrap(e), env) == Eval(e, env)
  {
  }

  lemma {:induction false} EqMeans(e: Expr, other: Expr, env: Env)
    ensures Eval(EqOf(e, other), env) ==
            if Eval(e, env) == NULL || Eval(other, env) == NULL then NULL else Bool(Eval(e, env) == Eval(other, env))
  {
    hide Eval, Wrap;
    WrapMeans(e, env);
    WrapMeans(other, env);
    EqEval(Wrap(e), Wrap(other), env);
    EqEval(e, other, env);
  }

  lemma {:induction false} EqEval(l: Expr, r: Expr, env: Env)
    ensures Eval(Eq(l, r), env) ==
              if Eval(l, env) == NULL || Eval(r, env) == NULL then NULL
              else Bool(Eval(l, env) == Eval(r, env))
  {
  }

  lemma {:induction false} IsNullMeans(e: Expr, env: Env)
    ensures Eval(IsNull(e), env) == Bool(Eval(e, env) == NULL)
  {
    WrapMeans(e, env);
  }

  /** The condition for a search value is true exactly when the two values are the same, null or not. */
  lemma {:induction false} ConditionHolds(e: Expr, search: Expr, env: Env)
    ensures TruthOf(Eval(Condition(e, search), env)) == True <==> Eval(e, env) == Eval(search, env)
  {
    var s := if search.IsBinary() then Paren(search) else search;
    assert Eval(s, env) == Eval(search, env);
    EqMeans(e, s, env);
    IsNullMeans(e, env);
    IsNullMeans(s, env);
    assert Eval(search, env) == NULL || !search.Null?;
    BothMean(e, s, env);
  }

  lemma {:induction false} BothMean(e: Expr, s: Expr, env: Env)
    ensures TruthOf(Eval(EqualOrBothNull(e, s), env)) == True <==>
            TruthOf(Eval(EqOf(e, s), env)) == True || (Eval(e, env) == NULL && Eval(s, env) == NULL)
  {
    hide EqOf, IsNull;
    IsNullMeans(e, env);
    IsNullMeans(s, env);
    var both := And(IsNull(e), IsNull(s));
    assert Eval(Paren(both), env) == Eval(both, env);
    assert Eval(both, env) == ValueOf(And3(TruthOf(Eval(IsNull(e), env)), TruthOf(Eval(IsNull(s), env))));
  }

  lemma {:induction false} PairsMatch(e: Expr, rest: seq<Expr>, env: Env)
    ensures FirstMatch(Eval(e, env), rest, env) ==
            match EvalIfs(IfsOf(e, rest), env)
            case Some(v) => v
            case None => if |rest| % 2 == 1 then Eval(rest[|rest| - 1], env) else NULL
    decreases |rest|
  {
    if |rest| >= 2 {
      hide Eval, Condition;
      ConditionHolds(e, rest[0], env);
      PairsMatch(e, rest[2..], env);
      assert IfsOf(e, rest)[1..] == IfsOf(e, rest[2..]);
    }
  }
}
