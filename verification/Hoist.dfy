/** Operands of aggregate functions are hoisted into named columns (sqlglot/planner.py,
    `extract_agg_operands` and `set_ops_and_aggs`; sqlglot/expressions.py, `unnest_operands`). */
module Hoist {
  import opened Collections
  import opened Numerals

  /** `Agg` is an aggregate function, `Fun` any other expression over its parts. `op` stands for the class with its
      flags, `text` for the argument that is a raw text, such as the name of an anonymous function or the key in a
      JSON path; it is empty for a class without one. */
  datatype Expr =
    | Column(table: string, name: string)
    | Literal(text: string)
    | Paren(inner: Expr)
    | Fun(op: string, text: string, args: seq<Expr>)
    | Agg(op: string, text: string, args: seq<Expr>)

  /** The i-th name of `name_sequence("_a_")` */
  function OperandName(i: nat): string {
    "_a_" + TextOf(i)
  }

  lemma {:induction false} NamesDiffer(i: nat, j: nat)
    requires OperandName(i) == OperandName(j)
    ensures i == j
  {
    NumberRoundTrip(i);
    NumberRoundTrip(j);
    assert OperandName(i)[3..] == TextOf(i) && OperandName(j)[3..] == TextOf(j);
  }

  /** `unnest` */
  function Unnest(e: Expr): Expr {
    if e.Paren? then Unnest(e.inner) else e
  }

  // ---- The rewritten expression ----

  /** What `__eq__` and `hash` look at: raw texts count without case, literals and identifiers as they are. */
  function Normal(e: Expr): Expr
    decreases e, 1
  {
    match e
    case Column(_, _) => e
    case Literal(_) => e
    case Paren(x) => Paren(Normal(x))
    case Fun(op, text, args) => Fun(op, Lower(text), NormalAll(args))
    case Agg(op, text, args) => Agg(op, Lower(text), NormalAll(args))
  }

  function NormalAll(es: seq<Expr>): (r: seq<Expr>)
    ensures |r| == |es|
    decreases es, 0
  {
    if es == [] then [] else [Normal(es[0])] + NormalAll(es[1..])
  }

  /** The same constructors, columns, literals and classes everywhere, and the same raw texts up to case. */
  predicate Alike(a: Expr, b: Expr)
    decreases a, 1
  {
    match a
    case Column(t, c) => b == Column(t, c)
    case Literal(text) => b == Literal(text)
    case Paren(x) => b.Paren? && Alike(x, b.inner)
    case Fun(op, text, args) => b.Fun? && b.op == op && SameText(text, b.text) && AllAlike(args, b.args)
    case Agg(op, text, args) => b.Agg? && b.op == op && SameText(text, b.text) && AllAlike(args, b.args)
  }

  predicate AllAlike(es: seq<Expr>, fs: seq<Expr>)
    decreases es, 0
  {
    |es| == |fs| && forall i :: 0 <= i < |es| ==> Alike(es[i], fs[i])
  }

  /** Equality tells exactly those expressions apart that are not alike. */
  lemma {:induction false} EqualIffAlike(a: Expr, b: Expr)
    ensures Normal(a) == Normal(b) <==> Alike(a, b)
    decreases a, 1
  {
    if a.Paren? && b.Paren? {
      EqualIffAlike(a.inner, b.inner);
    } else if (a.Fun? && b.Fun?) || (a.Agg? && b.Agg?) {
      LowerIff(a.text, b.text);
      AllEqualIffAlike(a.args, b.args);
    }
  }

  lemma {:induction false} AllEqualIffAlike(es: seq<Expr>, fs: seq<Expr>)
    ensures NormalAll(es) == NormalAll(fs) <==> AllAlike(es, fs)
    decreases es, 0
  {
    if |es| == |fs| {
      hide Normal, Alike;
      forall i | 0 <= i < |es| ensures NormalAll(es)[i] == NormalAll(fs)[i] <==> Alike(es[i], fs[i]) {
        NormalAt(es, i);
        NormalAt(fs, i);
        EqualIffAlike(es[i], fs[i]);
      }
    }
  }

  lemma {:induction false} NormalAt(es: seq<Expr>, i: nat)
    requires i < |es|
    ensures NormalAll(es)[i] == Normal(es[i])
    decreases |es|
  {
    if i > 0 { NormalAt(es[1..], i - 1); }
  }

  /** The dictionary `operands`: its keys are the normal forms of the operands. */
  type Names = map<Expr, string>

  /** `operand.replace(column(name))`: parentheses around the operand stay. */
  function ReplaceOperand(e: Expr, names: Names): Expr {
    if e.Paren? then Paren(ReplaceOperand(e.inner, names))
    else if !e.Column? && Normal(e) in names then Column("", names[Normal(e)])
    else e
  }

  function ReplaceOperands(es: seq<Expr>, names: Names): seq<Expr> {
    if es == [] then [] else [ReplaceOperand(es[0], names)] + ReplaceOperands(es[1..], names)
  }

  function Rewrite(e: Expr, names: Names): Expr
    decreases e, 1
  {
    match e
    case Column(_, _) => e
    case Literal(_) => e
    case Paren(x) => Paren(Rewrite(x, names))
    case Fun(op, text, args) => Fun(op, text, RewriteAll(args, names))
    case Agg(op, text, args) => Agg(op, text, ReplaceOperands(args, names))
  }

  function RewriteAll(es: seq<Expr>, names: Names): seq<Expr>
    decreases es, 0
  {
    if es == [] then [] else [Rewrite(es[0], names)] + RewriteAll(es[1..], names)
  }

  // ---- Meaning ----

  /** What functions compute is left open; `group` gives columns outside aggregates their value in the group. */
  datatype Env<!V> = Env(literal: string -> V, apply: (string, string, seq<V>) -> V,
      aggregate: (string, string, seq<seq<V>>) -> V, group: (string, string) -> V)

  type Row<!V> = (string, string) -> V

  /** In a single row. */
  function EvalRow<V>(e: Expr, row: Row<V>, env: Env<V>): V
    decreases e, 1
  {
    match e
    case Column(t, c) => row(t, c)
    case Literal(n) => env.literal(n)
    case Paren(x) => EvalRow(x, row, env)
    case Fun(op, text, args) => env.apply(op, text, EvalRowAll(args, row, env))
    case Agg(op, text, args) => env.aggregate(op, text, [EvalRowAll(args, row, env)])
  }

  function EvalRowAll<V>(es: seq<Expr>, row: Row<V>, env: Env<V>): seq<V>
    decreases es, 0
  {
    if es == [] then [] else [EvalRow(es[0], row, env)] + EvalRowAll(es[1..], row, env)
  }

  /** The operands of an aggregate, row by row. */
  function Operands<V>(args: seq<Expr>, rows: seq<Row<V>>, env: Env<V>): seq<seq<V>>
    decreases |rows|
  {
    if rows == [] then [] else [EvalRowAll(args, rows[0], env)] + Operands(args, rows[1..], env)
  }

  /** Over a group of rows. */
  function Eval<V>(e: Expr, rows: seq<Row<V>>, env: Env<V>): V
    decreases e, 1
  {
    match e
    case Column(t, c) => env.group(t, c)
    case Literal(n) => env.literal(n)
    case Paren(x) => Eval(x, rows, env)
    case Fun(op, text, args) => env.apply(op, text, EvalAll(args, rows, env))
    case Agg(op, text, args) => env.aggregate(op, text, Operands(args, rows, env))
  }

  function EvalAll<V>(es: seq<Expr>, rows: seq<Row<V>>, env: Env<V>): seq<V>
    decreases es, 0
  {
    if es == [] then [] else [Eval(es[0], rows, env)] + EvalAll(es[1..], rows, env)
  }

  /** A row with a column for each operand, under its name. */
  ghost function Extended<V>(row: Row<V>, order: seq<Expr>, env: Env<V>): Row<V>
    decreases |order|
  {
    if order == [] then row
    else
      var last := |order| - 1;
      var before := Extended(row, order[..last], env);
      (t, c) => if t == "" && c == OperandName(last) then EvalRow(order[last], row, env) else before(t, c)
  }

  ghost function ExtendedAll<V>(rows: seq<Row<V>>, order: seq<Expr>, env: Env<V>): seq<Row<V>> {
    if rows == [] then [] else [Extended(rows[0], order, env)] + ExtendedAll(rows[1..], order, env)
  }

  // ---- What is required of expressions ----

  /** No column has the name of an operand: columns of the query are qualified with their table. */
  ghost predicate Clean(e: Expr)
    decreases e, 1
  {
    match e
    case Column(t, c) => forall i: nat :: !(t == "" && c == OperandName(i))
    case Literal(_) => true
    case Paren(x) => Clean(x)
    case Fun(_, _, args) => CleanAll(args)
    case Agg(_, _, args) => CleanAll(args)
  }

  ghost predicate CleanAll(es: seq<Expr>)
    decreases es, 0
  {
    es != [] ==> Clean(es[0]) && CleanAll(es[1..])
  }

  /** The operands of one aggregate that get a name: those that are not columns. */
  function OperandsOf(args: seq<Expr>): set<Expr> {
    set a | a in args && !Unnest(a).Column? :: Unnest(a)
  }

  function Hoisted(e: Expr): set<Expr>
    decreases e, 1
  {
    match e
    case Column(_, _) => {}
    case Literal(_) => {}
    case Paren(x) => Hoisted(x)
    case Fun(_, _, args) => HoistedAll(args)
    case Agg(_, _, args) => OperandsOf(args)
  }

  function HoistedAll(es: seq<Expr>): set<Expr>
    decreases es, 0
  {
    if es == [] then {} else Hoisted(es[0]) + HoistedAll(es[1..])
  }

  ghost predicate Covered(operands: set<Expr>, names: Names) {
    forall a :: a in operands ==> Normal(a) in names
  }

  /** The first operand for each name, in the order of the names. */
  ghost predicate Named(order: seq<Expr>, names: Names) {
    && (forall i, j :: 0 <= i < j < |order| ==> Normal(order[i]) != Normal(order[j]))
    && (forall e :: e in names ==> exists i :: 0 <= i < |order| && Normal(order[i]) == e)
    && (forall i :: 0 <= i < |order| ==> Normal(order[i]) in names && names[Normal(order[i])] == OperandName(i))
  }

  /** The operand that was given the name of `a`. */
  lemma {:induction false} FirstOf(a: Expr, order: seq<Expr>, names: Names) returns (i: nat)
    requires Named(order, names) && (Normal(a) in names || a in order)
    ensures i < |order| && Normal(order[i]) == Normal(a) && Normal(a) in names && names[Normal(a)] == OperandName(i)
    ensures order[i] == a <==> a in order
  {
    if a in order {
      i :| 0 <= i < |order| && order[i] == a;
    } else {
      i :| 0 <= i < |order| && Normal(order[i]) == Normal(a);
    }
  }

  /** Two operands are replaced by the same column exactly if they are alike. */
  lemma {:induction false} NamesAreDistinct(order: seq<Expr>, names: Names, a: Expr, b: Expr)
    requires Named(order, names) && Covered({a, b}, names)
    requires !a.Column? && !a.Paren? && !b.Column? && !b.Paren?
    ensures ReplaceOperand(a, names).Column? && ReplaceOperand(b, names).Column?
    ensures ReplaceOperand(a, names) == ReplaceOperand(b, names) <==> Alike(a, b)
  {
    hide Normal, Alike;
    var i := FirstOf(a, order, names);
    var j := FirstOf(b, order, names);
    EqualIffAlike(a, b);
    if names[Normal(a)] == names[Normal(b)] { NamesDiffer(i, j); }
  }

  // ---- Hoisting keeps the meaning ----

  lemma {:induction false} ExtendedAt<V>(row: Row<V>, order: seq<Expr>, env: Env<V>, i: nat)
    requires i < |order|
    ensures Extended(row, order, env)("", OperandName(i)) == EvalRow(order[i], row, env)
    decreases |order|
  {
    var last := |order| - 1;
    if i < last {
      if OperandName(i) == OperandName(last) { NamesDiffer(i, last); }
      ExtendedAt(row, order[..last], env, i);
    }
  }

  lemma {:induction false} ExtendedElsewhere<V>(row: Row<V>, order: seq<Expr>, env: Env<V>, t: string, c: string)
    requires forall i: nat :: !(t == "" && c == OperandName(i))
    ensures Extended(row, order, env)(t, c) == row(t, c)
    decreases |order|
  {
    if order != [] { ExtendedElsewhere(row, order[..|order| - 1], env, t, c); }
  }

  lemma {:induction false} OperandMeans<V>(a: Expr, order: seq<Expr>, names: Names, row: Row<V>, env: Env<V>)
    requires Named(order, names) && Clean(a) && (Unnest(a).Column? || Unnest(a) in order)
    ensures EvalRow(ReplaceOperand(a, names), Extended(row, order, env), env) == EvalRow(a, row, env)
  {
    if a.Paren? {
      OperandMeans(a.inner, order, names, row, env);
    } else if a.Column? {
      ExtendedElsewhere(row, order, env, a.table, a.name);
    } else {
      var i := FirstOf(a, order, names);
      ExtendedAt(row, order, env, i);
    }
  }

  /** All operands are what their names stand for. */
  ghost predicate Own(operands: set<Expr>, order: seq<Expr>) {
    forall a :: a in operands ==> a in order
  }

  lemma {:induction false} OperandsMean<V>(args: seq<Expr>, order: seq<Expr>, names: Names, row: Row<V>, env: Env<V>)
    requires Named(order, names) && CleanAll(args) && Own(OperandsOf(args), order)
    ensures EvalRowAll(ReplaceOperands(args, names), Extended(row, order, env), env) == EvalRowAll(args, row, env)
    decreases |args|
  {
    if args != [] {
      hide Extended, EvalRow, Unnest, ReplaceOperand, Named;
      assert args[0] in args && OperandsOf(args[1..]) <= OperandsOf(args);
      OperandMeans(args[0], order, names, row, env);
      OperandsMean(args[1..], order, names, row, env);
      var rs := ReplaceOperands(args, names);
      assert rs[0] == ReplaceOperand(args[0], names) && rs[1..] == ReplaceOperands(args[1..], names);
    }
  }

  lemma {:induction false} RowsMean<V>(args: seq<Expr>, order: seq<Expr>, names: Names, rows: seq<Row<V>>, env: Env<V>)
    requires Named(order, names) && CleanAll(args) && Own(OperandsOf(args), order)
    ensures Operands(ReplaceOperands(args, names), ExtendedAll(rows, order, env), env) == Operands(args, rows, env)
    decreases |rows|
  {
    if rows != [] {
      hide Extended, EvalRowAll, OperandsOf, ReplaceOperands, Named, CleanAll;
      OperandsMean(args, order, names, rows[0], env);
      RowsMean(args, order, names, rows[1..], env);
      var all := ExtendedAll(rows, order, env);
      assert all[0] == Extended(rows[0], order, env) && all[1..] == ExtendedAll(rows[1..], order, env);
    }
  }

  /** Over any group of rows, the rewritten expression on the rows with the named operands has the value of
      the original on the rows as they were, if each operand is the one that its name was given to. */
  lemma {:induction false} HoistingMeans<V>(e: Expr, order: seq<Expr>, names: Names, rows: seq<Row<V>>, env: Env<V>)
    requires Named(order, names) && Clean(e) && Own(Hoisted(e), order)
    ensures Eval(Rewrite(e, names), ExtendedAll(rows, order, env), env) == Eval(e, rows, env)
    decreases e, 1
  {
    match e {
      case Column(_, _) =>
      case Literal(_) =>
      case Paren(x) => HoistingMeans(x, order, names, rows, env);
      case Fun(_, _, args) => AllMean(args, order, names, rows, env);
      case Agg(_, _, args) => RowsMean(args, order, names, rows, env);
    }
  }

  lemma {:induction false} AllMean<V>(es: seq<Expr>, order: seq<Expr>, names: Names, rows: seq<Row<V>>, env: Env<V>)
    requires Named(order, names) && CleanAll(es) && Own(HoistedAll(es), order)
    ensures EvalAll(RewriteAll(es, names), ExtendedAll(rows, order, env), env) == EvalAll(es, rows, env)
    decreases es, 0
  {
    if es != [] {
      hide ExtendedAll, Named;
      HoistingMeans(es[0], order, names, rows, env);
      AllMean(es[1..], order, names, rows, env);
      var rs := RewriteAll(es, names);
      assert rs[0] == Rewrite(es[0], names) && rs[1..] == RewriteAll(es[1..], names);
    }
  }

  // ---- A row and functions that tell all expressions apart ----

  datatype Term =
    | Cell(table: string, name: string)
    | Text(text: string)
    | Applied(op: string, text: string, args: seq<Term>)
    | Aggregated(op: string, text: string, rows: seq<seq<Term>>)

  const CELLS: Row<Term> := (t, c) => Cell(t, c)

  const TERMS: Env<Term> :=
    Env(text => Text(text), (op, text, vs) => Applied(op, text, vs), (op, text, vs) => Aggregated(op, text, vs),
        (t, c) => Cell(t, c))

  /** Expressions that are equal up to case are told apart by their values. */
  lemma {:induction false} TellsApart(a: Expr, b: Expr)
    requires Normal(a) == Normal(b) && EvalRow(a, CELLS, TERMS) == EvalRow(b, CELLS, TERMS)
    ensures a == b
    decreases a, 1
  {
    match a {
      case Column(_, _) =>
      case Literal(_) =>
      case Paren(x) => TellsApart(x, b.inner);
      case Fun(_, _, args) => TellsAllApart(args, b.args);
      case Agg(_, _, args) =>
        var vs, ws := EvalRowAll(args, CELLS, TERMS), EvalRowAll(b.args, CELLS, TERMS);
        assert [vs][0] == [ws][0];
        TellsAllApart(args, b.args);
    }
  }

  lemma {:induction false} TellsAllApart(es: seq<Expr>, fs: seq<Expr>)
    requires NormalAll(es) == NormalAll(fs) && EvalRowAll(es, CELLS, TERMS) == EvalRowAll(fs, CELLS, TERMS)
    ensures es == fs
    decreases es, 0
  {
    if es != [] {
      NormalParts(es);
      NormalParts(fs);
      var vs, ws := EvalRowAll(es, CELLS, TERMS), EvalRowAll(fs, CELLS, TERMS);
      assert vs[0] == EvalRow(es[0], CELLS, TERMS) && ws[0] == EvalRow(fs[0], CELLS, TERMS);
      TellsApart(es[0], fs[0]);
      assert vs[1..] == EvalRowAll(es[1..], CELLS, TERMS) && ws[1..] == EvalRowAll(fs[1..], CELLS, TERMS);
      TellsAllApart(es[1..], fs[1..]);
      assert es == [es[0]] + es[1..] && fs == [fs[0]] + fs[1..];
    }
  }

  lemma {:induction false} OperandIsOwn(a: Expr, order: seq<Expr>, names: Names)
    requires Named(order, names) && (Unnest(a).Column? || Normal(Unnest(a)) in names)
    requires EvalRow(ReplaceOperand(a, names), Extended(CELLS, order, TERMS), TERMS) == EvalRow(a, CELLS, TERMS)
    ensures Unnest(a).Column? || Unnest(a) in order
  {
    if a.Paren? {
      OperandIsOwn(a.inner, order, names);
    } else if !a.Column? {
      var i := FirstOf(a, order, names);
      ExtendedAt(CELLS, order, TERMS, i);
      TellsApart(order[i], a);
    }
  }

  lemma {:induction false} OperandsAreOwn(args: seq<Expr>, order: seq<Expr>, names: Names)
    requires Named(order, names) && Covered(OperandsOf(args), names)
    requires EvalRowAll(ReplaceOperands(args, names), Extended(CELLS, order, TERMS), TERMS)
             == EvalRowAll(args, CELLS, TERMS)
    ensures Own(OperandsOf(args), order)
    decreases |args|
  {
    if args != [] {
      hide Extended, EvalRow, Unnest, ReplaceOperand, Named;
      assert args[0] in args && OperandsOf(args[1..]) <= OperandsOf(args);
      var rs, row := ReplaceOperands(args, names), Extended(CELLS, order, TERMS);
      assert rs[0] == ReplaceOperand(args[0], names) && rs[1..] == ReplaceOperands(args[1..], names);
      var vs, ws := EvalRowAll(rs, row, TERMS), EvalRowAll(args, CELLS, TERMS);
      assert vs[0] == EvalRow(rs[0], row, TERMS) && ws[0] == EvalRow(args[0], CELLS, TERMS);
      assert vs[1..] == EvalRowAll(rs[1..], row, TERMS) && ws[1..] == EvalRowAll(args[1..], CELLS, TERMS);
      OperandIsOwn(args[0], order, names);
      OperandsAreOwn(args[1..], order, names);
      assert args == [args[0]] + args[1..];
    }
  }

  /** An expression that keeps its value on that row has no operand but those that the names were given to. */
  lemma {:induction false} MeansOwn(e: Expr, order: seq<Expr>, names: Names)
    requires Named(order, names) && Covered(Hoisted(e), names)
    requires Eval(Rewrite(e, names), ExtendedAll([CELLS], order, TERMS), TERMS) == Eval(e, [CELLS], TERMS)
    ensures Own(Hoisted(e), order)
    decreases e, 1
  {
    match e {
      case Column(_, _) =>
      case Literal(_) =>
      case Paren(x) => MeansOwn(x, order, names);
      case Fun(_, _, args) => AllMeanOwn(args, order, names);
      case Agg(_, _, args) =>
        var row := Extended(CELLS, order, TERMS);
        OneRow(args, CELLS);
        OneRow(ReplaceOperands(args, names), row);
        assert ExtendedAll([CELLS], order, TERMS) == [row];
        assert Operands(args, [CELLS], TERMS)[0] == Operands(ReplaceOperands(args, names), [row], TERMS)[0];
        OperandsAreOwn(args, order, names);
    }
  }

  lemma {:induction false} OneRow(args: seq<Expr>, row: Row<Term>)
    ensures Operands(args, [row], TERMS) == [EvalRowAll(args, row, TERMS)]
  {
    assert Operands(args, [], TERMS) == [];
  }

  lemma {:induction false} AllMeanOwn(es: seq<Expr>, order: seq<Expr>, names: Names)
    requires Named(order, names) && Covered(HoistedAll(es), names)
    requires EvalAll(RewriteAll(es, names), ExtendedAll([CELLS], order, TERMS), TERMS) == EvalAll(es, [CELLS], TERMS)
    ensures Own(HoistedAll(es), order)
    decreases es, 0
  {
    if es != [] {
      hide ExtendedAll, Named;
      var rs, rows := RewriteAll(es, names), ExtendedAll([CELLS], order, TERMS);
      assert rs[0] == Rewrite(es[0], names) && rs[1..] == RewriteAll(es[1..], names);
      var vs, ws := EvalAll(rs, rows, TERMS), EvalAll(es, [CELLS], TERMS);
      assert vs[0] == Eval(rs[0], rows, TERMS) && ws[0] == Eval(es[0], [CELLS], TERMS);
      assert vs[1..] == EvalAll(rs[1..], rows, TERMS) && ws[1..] == EvalAll(es[1..], [CELLS], TERMS);
      MeansOwn(es[0], order, names);
      AllMeanOwn(es[1..], order, names);
    }
  }

  /** The value is kept for all groups of rows and all functions. */
  ghost predicate KeepsMeaning(e: Expr, rewritten: Expr, order: seq<Expr>) {
    forall rows: seq<Row<Term>>, env: Env<Term> ::
      Eval(rewritten, ExtendedAll(rows, order, env), env) == Eval(e, rows, env)
  }

  /** Hoisting keeps the value of an expression exactly if each of its operands is the one that its name was given to,
      and does not only equal it up to case. */
  lemma {:induction false} HoistingKeepsMeaning(e: Expr, order: seq<Expr>, names: Names)
    requires Named(order, names) && Clean(e) && Covered(Hoisted(e), names)
    ensures KeepsMeaning(e, Rewrite(e, names), order) <==> Own(Hoisted(e), order)
  {
    hide Eval, Named, ExtendedAll, Hoisted, Clean, Rewrite;
    if Own(Hoisted(e), order) {
      forall rows: seq<Row<Term>>, env: Env<Term>
        ensures Eval(Rewrite(e, names), ExtendedAll(rows, order, env), env) == Eval(e, rows, env)
      {
        HoistingMeans(e, order, names, rows, env);
      }
    }
    if KeepsMeaning(e, Rewrite(e, names), order) {
      MeansOwn(e, order, names);
    }
  }

  /** Two keys of a JSON path that differ in case are equal, so that the second operand gets the name of the first, and
      its aggregate the values of the first. */
  lemma {:induction false} SharedName()
    ensures
      var upper := Fun("JSON_EXTRACT", "", [Column("x", "j"), Fun("JSONPathKey", "A", [])]);
      var lower := Fun("JSON_EXTRACT", "", [Column("x", "j"), Fun("JSONPathKey", "a", [])]);
      var names := map[Normal(upper) := OperandName(0)];
      && Named([upper], names) && Normal(lower) in names
      && !KeepsMeaning(Agg("SUM", "", [lower]), Rewrite(Agg("SUM", "", [lower]), names), [upper])
  {
    var upper, lower := Fun("JSONPathKey", "A", []), Fun("JSONPathKey", "a", []);
    var first := Fun("JSON_EXTRACT", "", [Column("x", "j"), upper]);
    var second := Fun("JSON_EXTRACT", "", [Column("x", "j"), lower]);
    assert Lower("A") == "a" && Lower("a") == "a";
    assert Normal(upper) == Normal(lower);
    assert [Column("x", "j"), upper][1..] == [upper] && [Column("x", "j"), lower][1..] == [lower];
    assert NormalAll([upper]) == [Normal(upper)] && NormalAll([lower]) == [Normal(lower)];
    assert Normal(first) == Normal(second);
    assert first.args[1].text == "A" && second.args[1].text == "a";
    var sum := Agg("SUM", "", [second]);
    var names := map[Normal(first) := OperandName(0)];
    assert Named([first], names) by { assert [first][0] == first; }
    OperandsSplit([second]);
    assert [second][1..] == [] && OperandsOf([]) == {};
    assert Hoisted(sum) == {second};
    NoNames(lower, "x", "j");
    HoistingKeepsMeaning(sum, [first], names);
  }

  lemma {:induction false} NoNames(key: Expr, t: string, c: string)
    requires Clean(key) && t != ""
    ensures Clean(Agg("SUM", "", [Fun("JSON_EXTRACT", "", [Column(t, c), key])]))
  {
    var args := [Column(t, c), key];
    assert args[1..] == [key] && [key][1..] == [];
    assert CleanAll([key]);
    assert CleanAll(args);
    var f := Fun("JSON_EXTRACT", "", args);
    assert [f][1..] == [] && CleanAll([f]);
  }

  // ---- Later calls add names, and change nothing in what was rewritten before ----

  ghost predicate Extends(names: Names, names': Names) {
    forall e :: e in names ==> e in names' && names'[e] == names[e]
  }

  lemma {:induction false} OperandStays(a: Expr, names: Names, names': Names)
    requires Extends(names, names') && (Unnest(a).Column? || Normal(Unnest(a)) in names)
    ensures ReplaceOperand(a, names) == ReplaceOperand(a, names')
  {
    if a.Paren? { OperandStays(a.inner, names, names'); }
  }

  lemma {:induction false} OperandsStay(args: seq<Expr>, names: Names, names': Names)
    requires Extends(names, names') && Covered(OperandsOf(args), names)
    ensures ReplaceOperands(args, names) == ReplaceOperands(args, names')
    decreases |args|
  {
    if args != [] {
      assert args[0] in args && OperandsOf(args[1..]) <= OperandsOf(args);
      OperandStays(args[0], names, names');
      OperandsStay(args[1..], names, names');
    }
  }

  lemma {:induction false} RewriteStays(e: Expr, names: Names, names': Names)
    requires Extends(names, names') && Covered(Hoisted(e), names)
    ensures Rewrite(e, names) == Rewrite(e, names') && Covered(Hoisted(e), names')
    decreases e, 1
  {
    match e {
      case Column(_, _) =>
      case Literal(_) =>
      case Paren(x) => RewriteStays(x, names, names');
      case Fun(_, _, args) => RewriteAllStays(args, names, names');
      case Agg(_, _, args) => OperandsStay(args, names, names');
    }
  }

  lemma {:induction false} RewriteAllStays(es: seq<Expr>, names: Names, names': Names)
    requires Extends(names, names') && Covered(HoistedAll(es), names)
    ensures RewriteAll(es, names) == RewriteAll(es, names') && Covered(HoistedAll(es), names')
    decreases es, 0
  {
    if es != [] {
      RewriteStays(es[0], names, names');
      RewriteAllStays(es[1..], names, names');
    }
  }

  // ---- What is left as it was ----

  /** An expression that is equal to its rewritten form had nothing to be named. */
  lemma {:induction false} Unwritten(e: Expr, names: Names)
    requires Covered(Hoisted(e), names) && Normal(Rewrite(e, names)) == Normal(e)
    ensures Hoisted(e) == {}
    decreases e, 1
  {
    match e {
      case Column(_, _) =>
      case Literal(_) =>
      case Paren(x) => Unwritten(x, names);
      case Fun(_, _, args) => AllUnwritten(args, names);
      case Agg(_, _, args) => OperandsUnwritten(args, names);
    }
  }

  lemma {:induction false} AllUnwritten(es: seq<Expr>, names: Names)
    requires Covered(HoistedAll(es), names) && NormalAll(RewriteAll(es, names)) == NormalAll(es)
    ensures HoistedAll(es) == {}
    decreases es, 0
  {
    if es != [] {
      var rs := RewriteAll(es, names);
      assert rs[0] == Rewrite(es[0], names) && rs[1..] == RewriteAll(es[1..], names);
      NormalParts(rs);
      NormalParts(es);
      Unwritten(es[0], names);
      AllUnwritten(es[1..], names);
    }
  }

  lemma {:induction false} NormalParts(es: seq<Expr>)
    requires es != []
    ensures NormalAll(es)[0] == Normal(es[0]) && NormalAll(es)[1..] == NormalAll(es[1..])
  {
  }

  lemma {:induction false} OperandsUnwritten(args: seq<Expr>, names: Names)
    requires Covered(OperandsOf(args), names) && NormalAll(ReplaceOperands(args, names)) == NormalAll(args)
    ensures OperandsOf(args) == {}
    decreases |args|
  {
    if args != [] {
      hide Normal, Unnest, ReplaceOperand;
      assert args[0] in args && OperandsOf(args[1..]) <= OperandsOf(args);
      var rs := ReplaceOperands(args, names);
      assert rs[0] == ReplaceOperand(args[0], names) && rs[1..] == ReplaceOperands(args[1..], names);
      NormalParts(rs);
      NormalParts(args);
      OperandUnwritten(args[0], names);
      OperandsUnwritten(args[1..], names);
      OperandsSplit(args);
    }
  }

  lemma {:induction false} OperandsSplit(args: seq<Expr>)
    requires args != []
    ensures OperandsOf(args) == (if Unnest(args[0]).Column? then {} else {Unnest(args[0])}) + OperandsOf(args[1..])
  {
    assert args == [args[0]] + args[1..];
  }

  lemma {:induction false} OperandUnwritten(a: Expr, names: Names)
    requires Unnest(a).Column? || Normal(Unnest(a)) in names
    requires Normal(ReplaceOperand(a, names)) == Normal(a)
    ensures Unnest(a).Column?
  {
    if a.Paren? { OperandUnwritten(a.inner, names); }
  }

  lemma {:induction false} LeftAlone(e: Expr, names: Names)
    requires Hoisted(e) == {}
    ensures Rewrite(e, names) == e
    decreases e, 1
  {
    match e {
      case Column(_, _) =>
      case Literal(_) =>
      case Paren(x) => LeftAlone(x, names);
      case Fun(_, _, args) => AllLeftAlone(args, names);
      case Agg(_, _, args) => OperandsLeftAlone(args, names);
    }
  }

  lemma {:induction false} AllLeftAlone(es: seq<Expr>, names: Names)
    requires HoistedAll(es) == {}
    ensures RewriteAll(es, names) == es
    decreases es, 0
  {
    if es != [] {
      LeftAlone(es[0], names);
      AllLeftAlone(es[1..], names);
    }
  }

  lemma {:induction false} OperandsLeftAlone(args: seq<Expr>, names: Names)
    requires OperandsOf(args) == {}
    ensures ReplaceOperands(args, names) == args
    decreases |args|
  {
    if args != [] {
      hide OperandsOf, ReplaceOperand, Unnest;
      OperandsSplit(args);
      OperandLeftAlone(args[0], names);
      OperandsLeftAlone(args[1..], names);
    }
  }

  lemma {:induction false} OperandLeftAlone(a: Expr, names: Names)
    requires Unnest(a).Column?
    ensures ReplaceOperand(a, names) == a
  {
    if a.Paren? { OperandLeftAlone(a.inner, names); }
  }

  lemma {:induction false} NothingToName(a: Expr, b: Expr)
    requires Normal(a) == Normal(b) && Hoisted(a) == {}
    ensures Hoisted(b) == {}
    decreases a, 1
  {
    match a {
      case Column(_, _) =>
      case Literal(_) =>
      case Paren(x) => NothingToName(x, b.inner);
      case Fun(_, _, args) => NothingToNameIn(args, b.args);
      case Agg(_, _, args) => NoOperands(args, b.args);
    }
  }

  lemma {:induction false} NothingToNameIn(es: seq<Expr>, fs: seq<Expr>)
    requires NormalAll(es) == NormalAll(fs) && HoistedAll(es) == {}
    ensures HoistedAll(fs) == {}
    decreases es, 0
  {
    if es != [] {
      NormalParts(es);
      NormalParts(fs);
      NothingToName(es[0], fs[0]);
      NothingToNameIn(es[1..], fs[1..]);
    }
  }

  lemma {:induction false} NoOperands(es: seq<Expr>, fs: seq<Expr>)
    requires NormalAll(es) == NormalAll(fs) && OperandsOf(es) == {}
    ensures OperandsOf(fs) == {}
    decreases |es|
  {
    if es != [] {
      hide Normal, Unnest, OperandsOf;
      NormalParts(es);
      NormalParts(fs);
      OperandsSplit(es);
      OperandsSplit(fs);
      StillColumn(es[0], fs[0]);
      NoOperands(es[1..], fs[1..]);
    } else {
      assert fs == [];
    }
  }

  lemma {:induction false} StillColumn(a: Expr, b: Expr)
    requires Normal(a) == Normal(b)
    ensures Unnest(a).Column? <==> Unnest(b).Column?
  {
    if a.Paren? { StillColumn(a.inner, b.inner); }
  }

  lemma {:induction false} HoistedAt(es: seq<Expr>, k: nat)
    requires k < |es|
    ensures Hoisted(es[k]) <= HoistedAll(es) && (CleanAll(es) ==> Clean(es[k]))
    decreases |es|
  {
    if k > 0 { HoistedAt(es[1..], k - 1); }
  }

  lemma {:induction false} HoistedLast(es: seq<Expr>, e: Expr)
    ensures HoistedAll(es + [e]) == HoistedAll(es) + Hoisted(e)
    decreases |es|
  {
    if es == [] {
      assert [] + [e] == [e] && [e][1..] == [];
    } else {
      assert (es + [e])[1..] == es[1..] + [e];
      HoistedLast(es[1..], e);
    }
  }

  lemma {:induction false} HoistedFrom(es: seq<Expr>, a: Expr) returns (k: nat)
    requires a in HoistedAll(es)
    ensures k < |es| && a in Hoisted(es[k])
    decreases |es|
  {
    if a in Hoisted(es[0]) {
      k := 0;
    } else {
      k := HoistedFrom(es[1..], a);
      k := k + 1;
    }
  }

  // ---- When all aggregations keep their meaning ----

  /** No two operands are alike and different. */
  ghost predicate ClearOperands(es: seq<Expr>) {
    forall a, b :: a in HoistedAll(es) && b in HoistedAll(es) && Alike(a, b) ==> a == b
  }

  /** Nor are two expressions in which nothing is named. */
  ghost predicate ClearAggregates(es: seq<Expr>) {
    forall i, j :: 0 <= i < |es| && 0 <= j < |es| && Hoisted(es[i]) == {} && Alike(es[i], es[j]) ==>
      es[i] == es[j]
  }

  lemma {:induction false} OwnIfClear(es: seq<Expr>, order: seq<Expr>, names: Names)
    requires Named(order, names) && Covered(HoistedAll(es), names) && forall a :: a in order ==> a in HoistedAll(es)
    ensures Own(HoistedAll(es), order) <==> ClearOperands(es)
  {
    hide Normal, Alike, HoistedAll;
    if Own(HoistedAll(es), order) {
      forall a, b | a in HoistedAll(es) && b in HoistedAll(es) && Alike(a, b) ensures a == b {
        EqualIffAlike(a, b);
        var i := FirstOf(a, order, names);
        var j := FirstOf(b, order, names);
        assert i == j;
      }
    }
    if ClearOperands(es) {
      forall a | a in HoistedAll(es) ensures a in order {
        var i := FirstOf(a, order, names);
        EqualIffAlike(order[i], a);
        assert order[i] in order;
      }
    }
  }

  lemma {:induction false} GroupOfOne(e: Expr)
    ensures Eval(e, [CELLS], TERMS) == EvalRow(e, CELLS, TERMS)
    decreases e, 1
  {
    match e {
      case Column(_, _) =>
      case Literal(_) =>
      case Paren(x) => GroupOfOne(x);
      case Fun(_, _, args) => GroupOfOneAll(args);
      case Agg(_, _, args) => OneRow(args, CELLS);
    }
  }

  lemma {:induction false} GroupOfOneAll(es: seq<Expr>)
    ensures EvalAll(es, [CELLS], TERMS) == EvalRowAll(es, CELLS, TERMS)
    decreases es, 0
  {
    if es != [] {
      GroupOfOne(es[0]);
      GroupOfOneAll(es[1..]);
    }
  }

  /** One value for two expressions that are equal up to case: they are the same. */
  lemma {:induction false} OneAnswer(a: Expr, b: Expr, answer: Expr, order: seq<Expr>)
    requires Normal(a) == Normal(b) && KeepsMeaning(a, answer, order) && KeepsMeaning(b, answer, order)
    ensures a == b
  {
    hide Eval, EvalRow, Normal, ExtendedAll;
    GroupOfOne(a);
    GroupOfOne(b);
    assert Eval(a, [CELLS], TERMS) == Eval(answer, ExtendedAll([CELLS], order, TERMS), TERMS);
    assert Eval(b, [CELLS], TERMS) == Eval(answer, ExtendedAll([CELLS], order, TERMS), TERMS);
    TellsApart(a, b);
  }

  // ---- Finding the aggregates ----

  function Children(e: Expr): seq<Expr> {
    match e
    case Column(_, _) => []
    case Literal(_) => []
    case Paren(x) => [x]
    case Fun(_, _, args) => args
    case Agg(_, _, args) => args
  }

  /** The aggregates of an expression, without what may be inside them. */
  function TopAggs(e: Expr): set<Expr>
    decreases e, 1
  {
    match e
    case Column(_, _) => {}
    case Literal(_) => {}
    case Paren(x) => TopAggs(x)
    case Fun(_, _, args) => TopAggsAll(args)
    case Agg(_, _, _) => {e}
  }

  function TopAggsAll(es: seq<Expr>): set<Expr>
    decreases es, 0
  {
    if es == [] then {} else TopAggs(es[0]) + TopAggsAll(es[1..])
  }

  /** `x` is `e` or stands in it. */
  predicate Within(x: Expr, e: Expr)
    decreases e, 1
  {
    x == e ||
    match e
    case Column(_, _) => false
    case Literal(_) => false
    case Paren(y) => Within(x, y)
    case Fun(_, _, args) => WithinAny(x, args)
    case Agg(_, _, args) => WithinAny(x, args)
  }

  predicate WithinAny(x: Expr, es: seq<Expr>)
    decreases es, 0
  {
    exists i :: 0 <= i < |es| && Within(x, es[i])
  }

  /** No aggregate inside an aggregate. */
  predicate Flat(e: Expr)
    decreases e, 1
  {
    match e
    case Column(_, _) => true
    case Literal(_) => true
    case Paren(x) => Flat(x)
    case Fun(_, _, args) => FlatAll(args)
    case Agg(_, _, args) => FlatAll(args) && TopAggsAll(args) == {}
  }

  predicate FlatAll(es: seq<Expr>)
    decreases es, 0
  {
    es != [] ==> Flat(es[0]) && FlatAll(es[1..])
  }

  function Size(e: Expr): nat
    decreases e, 1
  {
    match e
    case Column(_, _) => 1
    case Literal(_) => 1
    case Paren(x) => 1 + Size(x)
    case Fun(_, _, args) => 1 + SizeAll(args)
    case Agg(_, _, args) => 1 + SizeAll(args)
  }

  function SizeAll(es: seq<Expr>): nat
    decreases es, 0
  {
    if es == [] then 0 else Size(es[0]) + SizeAll(es[1..])
  }

  lemma {:induction false} QueueConcat(xs: seq<Expr>, ys: seq<Expr>)
    ensures TopAggsAll(xs + ys) == TopAggsAll(xs) + TopAggsAll(ys)
    ensures SizeAll(xs + ys) == SizeAll(xs) + SizeAll(ys)
    ensures FlatAll(xs) && FlatAll(ys) ==> FlatAll(xs + ys)
    decreases |xs|
  {
    if xs == [] {
      assert xs + ys == ys;
    } else {
      assert (xs + ys)[1..] == xs[1..] + ys;
      QueueConcat(xs[1..], ys);
    }
  }

  lemma {:induction false} ChildrenOf(e: Expr)
    requires Flat(e)
    ensures FlatAll(Children(e)) && SizeAll(Children(e)) < Size(e)
    ensures TopAggs(e) == (if e.Agg? then {e} else {}) + TopAggsAll(Children(e))
  {
    if e.Paren? {
      assert [e.inner][1..] == [];
      assert TopAggsAll([e.inner]) == TopAggs(e.inner) + TopAggsAll([]);
      assert SizeAll([e.inner]) == Size(e.inner) + SizeAll([]);
    }
  }

  lemma {:induction false} AggsWithin(e: Expr, x: Expr)
    requires Flat(e)
    ensures x in TopAggs(e) <==> x.Agg? && Within(x, e)
    decreases e, 1
  {
    match e {
      case Column(_, _) =>
      case Literal(_) =>
      case Paren(y) => AggsWithin(y, x);
      case Fun(_, _, args) => AggsWithinAny(args, x);
      case Agg(_, _, args) => AggsWithinAny(args, x);
    }
  }

  lemma {:induction false} AggsWithinAny(es: seq<Expr>, x: Expr)
    requires FlatAll(es)
    ensures x in TopAggsAll(es) <==> x.Agg? && WithinAny(x, es)
    decreases es, 0
  {
    if es != [] {
      hide TopAggs, Within, Flat;
      var rest := es[1..];
      AggsWithin(es[0], x);
      AggsWithinAny(rest, x);
      assert forall i :: 0 <= i < |rest| ==> rest[i] == es[i + 1];
      if i :| 0 <= i < |es| && Within(x, es[i]) {
        if i > 0 { assert Within(x, rest[i - 1]); }
      }
    }
  }

  /** `x` is `a` in any number of parentheses. */
  predicate Wraps(x: Expr, a: Expr) {
    x == a || (x.Paren? && Wraps(x.inner, a))
  }

  lemma {:induction false} UnnestIff(x: Expr, a: Expr)
    ensures Unnest(x) == a <==> Wraps(x, a) && !a.Paren?
  {
    if x.Paren? { UnnestIff(x.inner, a); }
  }

  /** `a` is an operand of one of the aggregates. */
  ghost predicate OperandIn(aggs: set<Expr>, a: Expr) {
    !a.Column? && !a.Paren? && exists g, x :: g in aggs && g.Agg? && x in g.args && Wraps(x, a)
  }

  lemma {:induction false} HoistedByTop(e: Expr, a: Expr)
    ensures a in Hoisted(e) <==> OperandIn(TopAggs(e), a)
    decreases e, 1
  {
    match e {
      case Column(_, _) =>
      case Literal(_) =>
      case Paren(y) => HoistedByTop(y, a);
      case Fun(_, _, args) => AllHoistedByTop(args, a);
      case Agg(_, _, args) =>
        forall x | x in args ensures Unnest(x) == a <==> Wraps(x, a) && !a.Paren? { UnnestIff(x, a); }
        assert TopAggs(e) == {e};
        if x :| x in args && !Unnest(x).Column? && Unnest(x) == a { NotParen(x); }
    }
  }

  lemma {:induction false} NotParen(x: Expr)
    ensures !Unnest(x).Paren?
  {
    if x.Paren? { NotParen(x.inner); }
  }

  lemma {:induction false} AllHoistedByTop(es: seq<Expr>, a: Expr)
    ensures a in HoistedAll(es) <==> OperandIn(TopAggsAll(es), a)
    decreases es, 0
  {
    if es != [] {
      hide TopAggs, Hoisted, Wraps;
      HoistedByTop(es[0], a);
      AllHoistedByTop(es[1..], a);
      assert TopAggsAll(es) == TopAggs(es[0]) + TopAggsAll(es[1..]);
    }
  }

  /** `a` is, out of its parentheses, what an aggregate in `e` is of. */
  ghost predicate IsOperand(e: Expr, a: Expr) {
    exists g, x :: Within(g, e) && g.Agg? && x in g.args && Wraps(x, a)
  }

  /** The operands that get names are what the aggregates are of, out of their parentheses, but for columns. */
  lemma {:induction false} HoistedIff(e: Expr, a: Expr)
    requires Flat(e)
    ensures a in Hoisted(e) <==> IsOperand(e, a) && !a.Column? && !a.Paren?
  {
    hide Hoisted, TopAggs, Within, Wraps;
    HoistedByTop(e, a);
    if a in Hoisted(e) {
      var g, x :| g in TopAggs(e) && g.Agg? && x in g.args && Wraps(x, a);
      AggsWithin(e, g);
      assert Within(g, e) && g.Agg? && x in g.args && Wraps(x, a);
    }
    if IsOperand(e, a) {
      var g, x :| Within(g, e) && g.Agg? && x in g.args && Wraps(x, a);
      AggsWithin(e, g);
    }
  }

  /** `find_all(AggFunc)`, breadth first */
  method FindAggs(e: Expr) returns (aggs: seq<Expr>)
    requires Flat(e)
    ensures forall a :: a in aggs <==> a in TopAggs(e)
    ensures forall a :: a in aggs <==> a.Agg? && Within(a, e)
    ensures aggs == [] <==> TopAggs(e) == {}
    ensures forall a :: a in aggs ==> a.Agg?
  {
    aggs := [];
    var queue := [e];
    assert [e][1..] == [];
    while queue != []
      invariant FlatAll(queue) && (set a | a in aggs) + TopAggsAll(queue) == TopAggs(e)
      invariant forall a :: a in aggs ==> a.Agg?
      decreases SizeAll(queue)
    {
      hide Flat, TopAggs, Children, SizeAll;
      var node, rest := queue[0], queue[1..];
      ChildrenOf(node);
      QueueConcat(rest, Children(node));
      ghost var before := aggs;
      if node.Agg? {
        aggs := aggs + [node];
        assert (set a | a in aggs) == (set a | a in before) + {node};
      }
      queue := rest + Children(node);
    }
    ghost var found := set a | a in aggs;
    assert found == TopAggs(e);
    if aggs != [] { assert aggs[0] in found; }
    forall a ensures a in aggs <==> a.Agg? && Within(a, e) {
      AggsWithin(e, a);
      assert a in aggs <==> a in found;
    }
  }

  lemma {:induction false} HoistedByAggs(e: Expr, names: Names)
    requires forall a :: a in TopAggs(e) ==> Covered(Hoisted(a), names)
    ensures Covered(Hoisted(e), names)
    decreases e, 1
  {
    match e {
      case Column(_, _) =>
      case Literal(_) =>
      case Paren(x) => HoistedByAggs(x, names);
      case Fun(_, _, args) => AllHoistedByAggs(args, names);
      case Agg(_, _, _) => assert e in TopAggs(e);
    }
  }

  lemma {:induction false} AllHoistedByAggs(es: seq<Expr>, names: Names)
    requires forall a :: a in TopAggsAll(es) ==> Covered(Hoisted(a), names)
    ensures Covered(HoistedAll(es), names)
    decreases es, 0
  {
    if es != [] {
      HoistedByAggs(es[0], names);
      AllHoistedByAggs(es[1..], names);
    }
  }

  lemma {:induction false} AggsHoist(e: Expr, agg: Expr)
    requires agg in TopAggs(e)
    ensures Hoisted(agg) <= Hoisted(e)
    decreases e, 1
  {
    match e {
      case Column(_, _) =>
      case Literal(_) =>
      case Paren(x) => AggsHoist(x, agg);
      case Fun(_, _, args) => AllAggsHoist(args, agg);
      case Agg(_, _, _) =>
    }
  }

  lemma {:induction false} AllAggsHoist(es: seq<Expr>, agg: Expr)
    requires agg in TopAggsAll(es)
    ensures Hoisted(agg) <= HoistedAll(es)
    decreases es, 0
  {
    if agg in TopAggs(es[0]) { AggsHoist(es[0], agg); } else { AllAggsHoist(es[1..], agg); }
  }

  lemma {:induction false} NothingHoisted(e: Expr)
    requires TopAggs(e) == {}
    ensures Hoisted(e) == {}
    decreases e, 1
  {
    match e {
      case Column(_, _) =>
      case Literal(_) =>
      case Paren(x) => NothingHoisted(x);
      case Fun(_, _, args) => NothingHoistedIn(args);
      case Agg(_, _, _) =>
    }
  }

  lemma {:induction false} NothingHoistedIn(es: seq<Expr>)
    requires TopAggsAll(es) == {}
    ensures HoistedAll(es) == {}
    decreases es, 0
  {
    if es != [] {
      NothingHoisted(es[0]);
      NothingHoistedIn(es[1..]);
    }
  }

  lemma {:induction false} FlatAt(es: seq<Expr>, k: nat)
    requires k < |es| && FlatAll(es)
    ensures Flat(es[k])
    decreases |es|
  {
    if k > 0 { FlatAt(es[1..], k - 1); }
  }

  // ---- The operands and aggregations of one query ----

  /** Every aggregation is the rewritten form of what it was when it was hashed. */
  ghost predicate Recorded(hashed: seq<Expr>, aggregations: seq<Expr>, names: Names) {
    |hashed| == |aggregations| && forall k :: 0 <= k < |hashed| ==>
      Covered(Hoisted(hashed[k]), names) && aggregations[k] == Rewrite(hashed[k], names)
  }

  /** An expression in which nothing is named stays the key that it was. */
  ghost predicate OneKeyEach(hashed: seq<Expr>) {
    forall k, l :: 0 <= k < l < |hashed| && Hoisted(hashed[k]) == {} ==> Normal(hashed[k]) != Normal(hashed[l])
  }

  /** Each expression that was asked for is an aggregation, or equal up to case to one in which nothing is named. */
  ghost predicate Serves(asked: seq<Expr>, served: seq<nat>, hashed: seq<Expr>) {
    |asked| == |served| && forall j :: 0 <= j < |asked| ==> served[j] < |hashed| && Serve(hashed[served[j]], asked[j])
  }

  ghost predicate Serve(key: Expr, e: Expr) {
    key == e || (Normal(key) == Normal(e) && Hoisted(key) == {} && Hoisted(e) == {})
  }

  /** A dictionary finds a key that hashed the same then and is equal now. */
  predicate IsKey(hashed: seq<Expr>, aggregations: seq<Expr>, k: nat, e: Expr)
    requires k < |hashed| == |aggregations|
  {
    Normal(hashed[k]) == Normal(e) && Normal(aggregations[k]) == Normal(e)
  }

  ghost predicate HasKey(hashed: seq<Expr>, aggregations: seq<Expr>, e: Expr)
    requires |hashed| == |aggregations|
  {
    exists k :: 0 <= k < |hashed| && Alike(hashed[k], e) && Alike(aggregations[k], e)
  }

  lemma {:induction false} KeyIfAlike(hashed: seq<Expr>, aggregations: seq<Expr>, e: Expr)
    requires |hashed| == |aggregations|
    ensures HasKey(hashed, aggregations, e) <==> exists k :: 0 <= k < |hashed| && IsKey(hashed, aggregations, k, e)
  {
    hide Normal, Alike;
    forall k | 0 <= k < |hashed|
      ensures IsKey(hashed, aggregations, k, e) <==> Alike(hashed[k], e) && Alike(aggregations[k], e)
    {
      EqualIffAlike(hashed[k], e);
      EqualIffAlike(aggregations[k], e);
    }
    if k :| 0 <= k < |hashed| && Alike(hashed[k], e) && Alike(aggregations[k], e) {
      assert IsKey(hashed, aggregations, k, e);
    }
  }

  lemma {:induction false} HasKeyIff(hashed: seq<Expr>, aggregations: seq<Expr>, names: Names, k: nat, e: Expr)
    requires Recorded(hashed, aggregations, names) && k < |hashed|
    ensures IsKey(hashed, aggregations, k, e) ==> Serve(hashed[k], e)
    ensures Normal(hashed[k]) == Normal(e) && Hoisted(hashed[k]) == {} ==> IsKey(hashed, aggregations, k, e)
  {
    hide Normal, Hoisted, Rewrite, Named;
    if IsKey(hashed, aggregations, k, e) {
      Unwritten(hashed[k], names);
      NothingToName(hashed[k], e);
    }
    if Hoisted(hashed[k]) == {} {
      LeftAlone(hashed[k], names);
    }
  }

  lemma {:induction false} RecordedStays(hashed: seq<Expr>, aggregations: seq<Expr>, names: Names, names': Names)
    requires Recorded(hashed, aggregations, names) && Extends(names, names')
    ensures Recorded(hashed, aggregations, names')
  {
    hide Hoisted, Rewrite, Covered, Extends;
    forall k | 0 <= k < |hashed|
      ensures Covered(Hoisted(hashed[k]), names') && aggregations[k] == Rewrite(hashed[k], names')
    {
      RewriteStays(hashed[k], names, names');
    }
  }

  lemma {:induction false} KeyAdded(hashed: seq<Expr>, aggregations: seq<Expr>, names: Names, e: Expr)
    requires Recorded(hashed, aggregations, names) && OneKeyEach(hashed) && Covered(Hoisted(e), names)
    requires !HasKey(hashed, aggregations, e)
    ensures Recorded(hashed + [e], aggregations + [Rewrite(e, names)], names) && OneKeyEach(hashed + [e])
  {
    hide Normal, Hoisted, Rewrite, Covered, IsKey, HasKey;
    KeyIfAlike(hashed, aggregations, e);
    forall k | 0 <= k < |hashed| && Hoisted(hashed[k]) == {} ensures Normal(hashed[k]) != Normal(e) {
      HasKeyIff(hashed, aggregations, names, k, e);
    }
  }

  lemma {:induction false} NameAdded(order: seq<Expr>, names: Names, operand: Expr)
    requires Named(order, names) && Normal(operand) !in names
    ensures Named(order + [operand], names[Normal(operand) := OperandName(|order|)])
  {
    hide Normal, OperandName;
    var more, names' := order + [operand], names[Normal(operand) := OperandName(|order|)];
    forall e | e in names' ensures exists i :: 0 <= i < |more| && Normal(more[i]) == e {
      if e == Normal(operand) {
        assert more[|order|] == operand;
      } else {
        var i :| 0 <= i < |order| && Normal(order[i]) == e;
        assert more[i] == order[i];
      }
    }
  }

  /** The dictionary has the key of an operand exactly if an operand before it is alike. */
  lemma {:induction false} NamedIfAlike(order: seq<Expr>, names: Names, operand: Expr)
    requires Named(order, names)
    ensures Normal(operand) in names <==> exists x :: x in order && Alike(x, operand)
  {
    hide Normal, Alike, OperandName;
    if Normal(operand) in names {
      var i := FirstOf(operand, order, names);
      EqualIffAlike(order[i], operand);
    }
    if x :| x in order && Alike(x, operand) {
      EqualIffAlike(x, operand);
      var i := FirstOf(x, order, names);
    }
  }

  /** One more operand of an aggregate. */
  lemma {:induction false} OperandsLast(args: seq<Expr>, i: nat)
    requires i < |args|
    ensures OperandsOf(args[..i + 1]) ==
            OperandsOf(args[..i]) + if Unnest(args[i]).Column? then {} else {Unnest(args[i])}
  {
    assert args[..i + 1] == args[..i] + [args[i]];
  }

  /** The expressions that hold an aggregate. */
  function Aggregating(es: seq<Expr>): seq<Expr> {
    if es == [] then []
    else Aggregating(es[..|es| - 1]) + if TopAggs(es[|es| - 1]) != {} then [es[|es| - 1]] else []
  }

  ghost predicate AreRewritten(es: seq<Expr>, rs: seq<Expr>, names: Names) {
    |rs| == |es| && forall k :: 0 <= k < |es| ==> Covered(Hoisted(es[k]), names) && rs[k] == Rewrite(es[k], names)
  }

  lemma {:induction false} NoneRewritten(names: Names)
    ensures AreRewritten([], [], names) && Aggregating([]) == []
  {
  }

  lemma {:induction false} AggregatingLast(es: seq<Expr>, i: nat)
    requires i < |es|
    ensures Aggregating(es[..i + 1]) == Aggregating(es[..i]) + if TopAggs(es[i]) != {} then [es[i]] else []
  {
    assert es[..i + 1][..i] == es[..i];
  }

  lemma {:induction false} MoreRewritten(es: seq<Expr>, i: nat, rs: seq<Expr>, names: Names, names': Names)
    requires i < |es| && AreRewritten(es[..i], rs, names) && Extends(names, names') && Covered(Hoisted(es[i]), names')
    ensures AreRewritten(es[..i + 1], rs + [Rewrite(es[i], names')], names')
  {
    hide Covered, Hoisted, Rewrite, Extends;
    var before := es[..i];
    forall k | 0 <= k < i ensures Covered(Hoisted(es[k]), names') && rs[k] == Rewrite(es[k], names') {
      assert es[k] == before[k];
      RewriteStays(es[k], names, names');
    }
  }

  class Hoister {
    var operands: Names
    /** The keys of `operands` in insertion order. */
    var order: seq<Expr>
    /** The keys of the dictionary `aggregations`: the expressions as they are now, and as they were when they
        were hashed. */
    var aggregations: seq<Expr>
    var hashed: seq<Expr>
    /** The expressions with aggregates that were given so far, and the place of the key that each has. */
    ghost var asked: seq<Expr>
    ghost var served: seq<nat>

    ghost predicate Valid()
      reads this
    {
      && Named(order, operands) && (forall a :: a in order ==> a in HoistedAll(asked))
      && Recorded(hashed, aggregations, operands) && OneKeyEach(hashed)
      && Serves(asked, served, hashed) && forall h :: h in hashed ==> h in asked
    }

    constructor ()
      ensures Valid() && order == [] && aggregations == [] && asked == []
    {
      operands, order, aggregations, hashed := map[], [], [], [];
      asked, served := [], [];
    }

    /** `operands[operand] = next_operand_name()`, unless the operand, or one that is equal up to case, has a name */
    method NameOperand(operand: Expr)
      requires Named(order, operands)
      modifies this`operands, this`order
      ensures Named(order, operands) && Extends(old(operands), operands) && Normal(operand) in operands
      ensures order == old(order) + if exists x :: x in old(order) && Alike(x, operand) then [] else [operand]
    {
      hide Named, Normal, OperandName, Alike;
      NamedIfAlike(order, operands, operand);
      if Normal(operand) !in operands {
        NameAdded(order, operands, operand);
        operands := operands[Normal(operand) := OperandName(|order|)];
        order := order + [operand];
      }
    }

    /** The operands of one aggregate. */
    method NameOperands(agg: Expr)
      requires Named(order, operands) && agg.Agg?
      modifies this`operands, this`order
      ensures Named(order, operands) && Extends(old(operands), operands) && Covered(Hoisted(agg), operands)
      ensures forall a :: a in order ==> a in old(order) || a in Hoisted(agg)
    {
      hide Named, Normal, Unnest;
      assert OperandsOf(agg.args[..0]) == {};
      for i := 0 to |agg.args|
        invariant Named(order, operands) && Extends(old(operands), operands)
        invariant Covered(OperandsOf(agg.args[..i]), operands)
        invariant forall a :: a in order ==> a in old(order) || a in OperandsOf(agg.args[..i])
      {
        hide Named, Normal, Unnest, OperandsOf;
        OperandsLast(agg.args, i);
        var operand := Unnest(agg.args[i]);
        if !operand.Column? {
          NameOperand(operand);
        }
      }
      assert agg.args[..|agg.args|] == agg.args;
    }

    /** `extract_agg_operands`: the result is the expression as it is afterwards. What was rewritten in earlier
        calls stays as it is, although the names it uses are shared with the new operands. */
    method ExtractAggOperands(e: Expr) returns (rewritten: Expr, found: bool)
      requires Valid() && Flat(e)
      modifies this
      ensures Valid() && Extends(old(operands), operands)
      ensures found <==> TopAggs(e) != {}
      ensures Covered(Hoisted(e), operands) && rewritten == Rewrite(e, operands)
      ensures asked == old(asked) + if found then [e] else []
      ensures if found && !HasKey(old(hashed), old(aggregations), e)
              then hashed == old(hashed) + [e] && aggregations == old(aggregations) + [rewritten]
              else hashed == old(hashed) && aggregations == old(aggregations)
    {
      hide Named, Hoisted, HoistedAll, OneKeyEach, Serves, Flat, TopAggs, Rewrite, Recorded, HasKey;
      var aggs := FindAggs(e);
      found := aggs != [];
      ghost var names := operands;
      for i := 0 to |aggs|
        invariant Named(order, operands) && Extends(names, operands)
        invariant aggregations == old(aggregations) && hashed == old(hashed)
        invariant asked == old(asked) && served == old(served)
        invariant forall j :: 0 <= j < i ==> Covered(Hoisted(aggs[j]), operands)
        invariant forall a :: a in order ==> a in old(order) || a in Hoisted(e)
      {
        hide Named, Hoisted, HoistedAll, OneKeyEach, Serves, Flat, TopAggs, Rewrite, Recorded, HasKey;
        ghost var before := operands;
        NameOperands(aggs[i]);
        AggsHoist(e, aggs[i]);
        forall j | 0 <= j < i ensures Covered(Hoisted(aggs[j]), operands) {
          RewriteStays(aggs[j], before, operands);
        }
      }
      HoistedByAggs(e, operands);
      rewritten := Rewrite(e, operands);
      RecordedStays(hashed, aggregations, names, operands);
      HoistedLast(asked, e);
      if found {
        AddAggregation(e, rewritten);
      } else {
        NothingHoisted(e);
        assert asked + [] == asked;
      }
    }

    /** `aggregations[expression] = None` */
    method AddAggregation(e: Expr, rewritten: Expr)
      requires Recorded(hashed, aggregations, operands) && OneKeyEach(hashed) && Serves(asked, served, hashed)
      requires Covered(Hoisted(e), operands) && rewritten == Rewrite(e, operands)
      modifies this`aggregations, this`hashed, this`asked, this`served
      ensures Recorded(hashed, aggregations, operands) && OneKeyEach(hashed) && Serves(asked, served, hashed)
      ensures asked == old(asked) + [e]
      ensures if HasKey(old(hashed), old(aggregations), e)
              then hashed == old(hashed) && aggregations == old(aggregations)
              else hashed == old(hashed) + [e] && aggregations == old(aggregations) + [rewritten]
    {
      hide Hoisted, Rewrite, OneKeyEach, IsKey, HasKey, Normal, Covered;
      KeyIfAlike(hashed, aggregations, e);
      var place := |hashed|;
      for k := 0 to |hashed|
        invariant place == |hashed| && forall l :: 0 <= l < k ==> !IsKey(hashed, aggregations, l, e)
      {
        if IsKey(hashed, aggregations, k, e) {
          HasKeyIff(hashed, aggregations, operands, k, e);
          place := k;
          break;
        }
      }
      if place == |hashed| {
        KeyAdded(hashed, aggregations, operands, e);
        hashed := hashed + [e];
        aggregations := aggregations + [rewritten];
      }
      asked, served := asked + [e], served + [place];
    }

    /** Any number of calls. */
    method Run(es: seq<Expr>) returns (rewritten: seq<Expr>)
      requires Valid() && FlatAll(es)
      modifies this
      ensures Valid() && asked == old(asked) + Aggregating(es)
      ensures AreRewritten(es, rewritten, operands)
    {
      hide Flat, FlatAll, TopAggs, HasKey, AreRewritten, Covered;
      NoneRewritten(operands);
      rewritten := [];
      assert es[..0] == [] && old(asked) + [] == old(asked);
      for i := 0 to |es|
        invariant Valid() && asked == old(asked) + Aggregating(es[..i])
        invariant AreRewritten(es[..i], rewritten, operands)
      {
        hide *;
        FlatAt(es, i);
        AggregatingLast(es, i);
        ghost var names := operands;
        var r, _ := ExtractAggOperands(es[i]);
        MoreRewritten(es, i, rewritten, names, operands);
        rewritten := rewritten + [r];
      }
      assert es[..|es|] == es;
    }

    /** After any number of calls, every aggregation computed from the named operands has the value of what was hashed,
        over all rows and for all functions, exactly if no two operands are equal up to case and different. */
    lemma {:induction false} AggregationsKeepMeaning()
      requires Valid() && CleanAll(asked)
      ensures ClearOperands(asked) <==>
              forall k :: 0 <= k < |hashed| ==> KeepsMeaning(hashed[k], aggregations[k], order)
    {
      hide KeepsMeaning, Hoisted, HoistedAll, Named, Rewrite, ClearOperands, OneKeyEach, CleanAll;
      AskedCovered();
      OwnIfClear(asked, order, operands);
      forall k | 0 <= k < |hashed|
        ensures KeepsMeaning(hashed[k], aggregations[k], order) <==> Own(Hoisted(hashed[k]), order)
        ensures Hoisted(hashed[k]) <= HoistedAll(asked)
      {
        assert hashed[k] in hashed;
        var j :| 0 <= j < |asked| && asked[j] == hashed[k];
        HoistedAt(asked, j);
        HoistingKeepsMeaning(hashed[k], order, operands);
      }
      if forall k :: 0 <= k < |hashed| ==> KeepsMeaning(hashed[k], aggregations[k], order) {
        forall a | a in HoistedAll(asked) ensures a in order {
          var j := HoistedFrom(asked, a);
          assert Own(Hoisted(hashed[served[j]]), order);
        }
      }
    }

    /** The values can be of any type. */
    lemma {:induction false} AggregationMeans<V>(k: nat, rows: seq<Row<V>>, env: Env<V>)
      requires Valid() && CleanAll(asked) && ClearOperands(asked) && k < |hashed|
      ensures Eval(aggregations[k], ExtendedAll(rows, order, env), env) == Eval(hashed[k], rows, env)
    {
      hide Hoisted, HoistedAll, Named, Rewrite, ClearOperands, OneKeyEach, CleanAll, Eval;
      AskedCovered();
      OwnIfClear(asked, order, operands);
      assert hashed[k] in hashed;
      var j :| 0 <= j < |asked| && asked[j] == hashed[k];
      HoistedAt(asked, j);
      HoistingMeans(hashed[k], order, operands, rows, env);
    }

    lemma {:induction false} AskedCovered()
      requires Valid()
      ensures Covered(HoistedAll(asked), operands)
    {
      hide Hoisted, HoistedAll, Named, Rewrite, OneKeyEach;
      forall a | a in HoistedAll(asked) ensures Normal(a) in operands {
        var j := HoistedFrom(asked, a);
        assert Covered(Hoisted(hashed[served[j]]), operands);
      }
    }

    /** Every expression that was asked for gets its own value exactly if, besides, no two expressions in which nothing
        is named are equal up to case and different: they are one key of `aggregations`. */
    lemma {:induction false} AnswersKeepMeaning()
      requires Valid() && CleanAll(asked)
      ensures ClearOperands(asked) && ClearAggregates(asked) <==>
              forall j :: 0 <= j < |asked| ==> KeepsMeaning(asked[j], aggregations[served[j]], order)
    {
      hide KeepsMeaning, Hoisted, HoistedAll, Named, Rewrite, ClearOperands, OneKeyEach, CleanAll, Normal, Alike;
      AggregationsKeepMeaning();
      if forall j :: 0 <= j < |asked| ==> KeepsMeaning(asked[j], aggregations[served[j]], order) {
        forall i, j | 0 <= i < |asked| && 0 <= j < |asked| && Hoisted(asked[i]) == {} &&
                      Alike(asked[i], asked[j])
          ensures asked[i] == asked[j]
        {
          EqualIffAlike(asked[i], asked[j]);
          SameKey(i, j);
          OneAnswer(asked[i], asked[j], aggregations[served[i]], order);
        }
        forall k | 0 <= k < |hashed| ensures KeepsMeaning(hashed[k], aggregations[k], order) {
          KeyKeepsMeaning(k);
        }
      }
      if ClearOperands(asked) && ClearAggregates(asked) {
        forall j | 0 <= j < |asked| ensures KeepsMeaning(asked[j], aggregations[served[j]], order) {
          assert hashed[served[j]] in hashed;
          var i :| 0 <= i < |asked| && asked[i] == hashed[served[j]];
          EqualIffAlike(asked[j], asked[i]);
        }
      }
    }

    lemma {:induction false} SameKey(i: nat, j: nat)
      requires Valid() && i < |asked| && j < |asked| && Hoisted(asked[i]) == {} && Normal(asked[i]) == Normal(asked[j])
      ensures served[i] == served[j]
    {
      hide Hoisted, HoistedAll, Named, Rewrite, Recorded, Normal;
      NothingToName(asked[i], asked[j]);
    }

    /** A key that is asked for under another one has no operands. */
    lemma {:induction false} KeyKeepsMeaning(k: nat)
      requires Valid() && CleanAll(asked) && k < |hashed|
      requires forall j :: 0 <= j < |asked| ==> KeepsMeaning(asked[j], aggregations[served[j]], order)
      ensures KeepsMeaning(hashed[k], aggregations[k], order)
    {
      hide KeepsMeaning, Hoisted, HoistedAll, Named, Rewrite, OneKeyEach, CleanAll, Normal;
      assert hashed[k] in hashed;
      var j :| 0 <= j < |asked| && asked[j] == hashed[k];
      HoistedAt(asked, j);
      HoistingKeepsMeaning(hashed[k], order, operands);
    }
  }
}
