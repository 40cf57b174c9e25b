/** Plans: the graph of steps that a query is turned into, and its enumeration with a worklist that
    remembers nothing of the steps it has seen (sqlglot/planner.py). */
module PlanDag {
  import opened Collections

  datatype Kind = SCAN | JOIN | AGGREGATE | SORT | SET_OPERATION

  /** What `from_expression` looks at in a query. */
  datatype Query = Query(ctes: seq<Cte>, body: Body, joins: seq<Source>, aggregated: bool, ordered: bool,
      distinct: bool)

  datatype Cte = Cte(alias: string, query: Query)

  datatype Body = From(source: Source) | SetOp(left: Query, right: Query) | Static

  datatype Source = Table(name: string, alias: string) | Derived(query: Query, alias: string)

  class Step {
    const kind: Kind
    var name: Option<string>
    var dependencies: set<Step>
    var dependents: set<Step>

    constructor (kind: Kind, name: Option<string>)
      ensures this.kind == kind && this.name == name && dependencies == {} && dependents == {}
    {
      this.kind, this.name := kind, name;
      dependencies, dependents := {}, {};
    }

    /** `add_dependency` */
    method AddDependency(d: Step)
      modifies this`dependencies, d`dependents
      ensures dependencies == old(dependencies) + {d}
      ensures d.dependents == old(d.dependents) + {this}
    {
      dependencies := dependencies + {d};
      d.dependents := d.dependents + {this};
    }
  }

  /** The steps so far: a step in `order` depends on steps before it only, so there is no cycle; a step in
      `open` is still collecting its dependencies. `dependents` says the same as `dependencies` from the other end. */
  ghost predicate Graph(order: seq<Step>, open: set<Step>)
    reads order`dependencies, order`dependents, open`dependencies, open`dependents
  {
    && Distinct(order) && open !! Elems(order)
    && (forall i :: 0 <= i < |order| ==> order[i].dependencies <= Elems(order[..i]))
    && (forall s :: s in open ==> s.dependencies <= Elems(order) && s.dependents == {})
    && (forall s, d :: s in Elems(order) + open && d in order ==> (d in s.dependencies <==> s in d.dependents))
    && (forall d :: d in order ==> d.dependents <= Elems(order) + open)
  }

  /** A new step. */
  method Open(kind: Kind, name: Option<string>, ghost order: seq<Step>, ghost open: set<Step>) returns (s: Step)
    requires Graph(order, open)
    ensures fresh(s) && s.kind == kind && s.name == name && s.dependencies == {} && Graph(order, open + {s})
  {
    s := new Step(kind, name);
    assert forall d :: d in order ==> d.dependencies <= Elems(order) by { Inside(order, open); }
    assert s !in open && s !in order;
  }

  lemma {:induction false} Inside(order: seq<Step>, open: set<Step>)
    requires Graph(order, open)
    ensures forall d :: d in order ==> d.dependencies <= Elems(order)
  {
    forall d | d in order ensures d.dependencies <= Elems(order) {
      var i :| 0 <= i < |order| && order[i] == d;
      assert Elems(order[..i]) <= Elems(order);
    }
  }

  /** An open step gets one more dependency. */
  method Depend(s: Step, d: Step, ghost order: seq<Step>, ghost open: set<Step>)
    requires Graph(order, open) && s in open && d in order
    modifies s`dependencies, d`dependents
    ensures Graph(order, open) && s.dependencies == old(s.dependencies) + {d} && d.dependents == old(d.dependents) + {s}
  {
    s.AddDependency(d);
  }

  /** A step that has all its dependencies takes its place behind them. */
  lemma {:induction false} Close(s: Step, order: seq<Step>, open: set<Step>)
    requires Graph(order, open) && s in open
    ensures Graph(order + [s], open - {s})
  {
    var all := order + [s];
    assert Elems(all) == Elems(order) + {s} by {
      assert all[|order|] == s;
      assert forall i :: 0 <= i < |order| ==> all[i] == order[i];
    }
    forall i | 0 <= i < |all| ensures all[i].dependencies <= Elems(all[..i]) {
      if i < |order| { assert all[..i] == order[..i]; } else { assert all[..i] == order; }
    }
    Inside(order, open);
    forall x, d | x in Elems(all) + (open - {s}) && d in all ensures d in x.dependencies <==> x in d.dependents {
      if d == s {
        assert x in Elems(order) || x in open;
      }
    }
  }

  lemma {:induction false} CloseStep(s: Step, order: seq<Step>, open: set<Step>)
    requires Graph(order, open + {s}) && s !in open
    ensures Graph(order + [s], open) && Elems(order + [s]) == Elems(order) + {s} && s in order + [s]
  {
    Close(s, order, open + {s});
    assert open + {s} - {s} == open;
    assert (order + [s])[|order|] == s;
    assert forall i :: 0 <= i < |order| ==> (order + [s])[i] == order[i];
  }

  // ---- Which steps a query is turned into ----

  /** A step: its kind, its name, and the places of its dependencies among all steps. */
  datatype Row = Row(kind: Kind, name: Option<string>, deps: set<nat>)

  /** The steps of a query, if `base` steps are there already; `ctes` gives the places of the CTEs in scope.
      The last row is the step that stands for the query. */
  ghost function Rows(q: Query, ctes: map<string, nat>, base: nat): (rows: seq<Row>)
    ensures rows != []
    decreases q, 2
  {
    var (c, named) := RowsOfCtes(q.ctes, ctes, base);
    var b := RowsOfBody(q.body, named, base + |c|);
    var j :=
      if q.joins == [] then []
      else RowsOfJoins(q.joins, named, base + |c| + |b|, {}, Last(b).name, base + |c| + |b| - 1);
    Finished(c + b + j, q, base)
  }

  ghost function Last(rows: seq<Row>): Row
    requires rows != []
  {
    rows[|rows| - 1]
  }

  ghost function Renamed(rows: seq<Row>, name: string): (r: seq<Row>)
    requires rows != []
    ensures r != [] && |r| == |rows|
  {
    rows[|rows| - 1 := Last(rows).(name := Some(name))]
  }

  /** One more step that depends on the last one. */
  ghost function TopOf(needed: bool, kind: Kind, rows: seq<Row>, base: nat): (r: seq<Row>)
    requires rows != []
    ensures r != []
  {
    if needed then rows + [Row(kind, Last(rows).name, {base + |rows| - 1})] else rows
  }

  ghost function Finished(rows: seq<Row>, q: Query, base: nat): (r: seq<Row>)
    requires rows != []
    ensures r != []
  {
    TopOf(q.distinct &&
      !q.body.SetOp?, AGGREGATE, TopOf(q.ordered, SORT, TopOf(q.aggregated, AGGREGATE, rows, base), base), base)
  }

  /** Each CTE sees the ones before it. */
  ghost function RowsOfCtes(cs: seq<Cte>, ctes: map<string, nat>, base: nat): (seq<Row>, map<string, nat>)
    decreases cs, 0
  {
    if cs == [] then ([], ctes)
    else
      var r := RowsOfCte(cs[0], ctes, base);
      var rest := RowsOfCtes(cs[1..], ctes[cs[0].alias := base + |r| - 1], base + |r|);
      (r + rest.0, rest.1)
  }

  ghost function RowsOfCte(c: Cte, ctes: map<string, nat>, base: nat): (rows: seq<Row>)
    ensures rows != []
    decreases c, 0
  {
    Renamed(Rows(c.query, ctes, base), c.alias)
  }

  /** A scan of a table depends on the CTE of that name, if there is one. */
  ghost function RowsOfSource(source: Source, ctes: map<string, nat>, base: nat): (rows: seq<Row>)
    ensures rows != []
    decreases source, 0
  {
    match source
    case Table(name, alias) => [Row(SCAN, Some(alias), if name in ctes then {ctes[name]} else {})]
    case Derived(query, alias) => Renamed(Rows(query, ctes, base), alias)
  }

  /** The joined sources, and the join, which depends on them and on the step it starts from. */
  ghost function RowsOfJoins(joins: seq<Source>, ctes: map<string, nat>, base: nat, deps: set<nat>,
      name: Option<string>, first: nat): (rows: seq<Row>)
    ensures rows != []
    decreases joins, 0
  {
    if joins == [] then [Row(JOIN, name, deps + {first})]
    else
      var r := RowsOfSource(joins[0], ctes, base);
      r + RowsOfJoins(joins[1..], ctes, base + |r|, deps + {base + |r| - 1}, name, first)
  }

  /** Python's truth: no name, or an empty one. */
  predicate Nameless(name: Option<string>) {
    name == None || name == Some("")
  }

  ghost function RowsOfSide(q: Query, name: string, ctes: map<string, nat>, base: nat): (rows: seq<Row>)
    ensures rows != []
    decreases q, 3
  {
    var r := Rows(q, ctes, base);
    if Nameless(Last(r).name) then Renamed(r, name) else r
  }

  ghost function RowsOfBody(body: Body, ctes: map<string, nat>, base: nat): (rows: seq<Row>)
    ensures rows != []
    decreases body, 1
  {
    match body
    case From(source) => RowsOfSource(source, ctes, base)
    case Static => [Row(SCAN, None, {})]
    case SetOp(left, right) =>
      var l := RowsOfSide(left, "left", ctes, base);
      var r := RowsOfSide(right, "right", ctes, base + |l|);
      l + r + [Row(SET_OPERATION, None, {base + |l| - 1, base + |l| + |r| - 1})]
  }

  /** The dependencies `ds` of the n-th step are the earlier steps at the places `idx`. */
  ghost predicate DependsAt(order: seq<Step>, ds: set<Step>, idx: set<nat>, n: nat) {
    (forall d :: d in idx ==> d < n) && forall j :: 0 <= j < |order| ==> (order[j] in ds <==> j in idx)
  }

  /** The steps from `base` on are as the rows say. */
  ghost predicate Laid(order: seq<Step>, base: nat, rows: seq<Row>)
    reads order`dependencies, order`name
  {
    && base + |rows| <= |order|
    && forall i :: 0 <= i < |rows| ==> RowLaid(order, order[base + i], base + i, rows[i])
  }

  ghost predicate RowLaid(order: seq<Step>, s: Step, n: nat, row: Row)
    reads s`dependencies, s`name
  {
    s.kind == row.kind && s.name == row.name && DependsAt(order, s.dependencies, row.deps, n)
  }

  ghost predicate CtesAt(ctes: map<string, Step>, places: map<string, nat>, order: seq<Step>) {
    places.Keys == ctes.Keys && forall k :: k in ctes ==> places[k] < |order| && order[places[k]] == ctes[k]
  }

  lemma {:induction false} LaidGrows(order: seq<Step>, order': seq<Step>, base: nat, rows: seq<Row>, open: set<Step>)
    requires Laid(order, base, rows) && order <= order' && Graph(order', open)
    ensures Laid(order', base, rows)
  {
    forall i | 0 <= i < |rows| ensures RowLaid(order', order'[base + i], base + i, rows[i]) {
      assert RowLaid(order, order[base + i], base + i, rows[i]);
      forall j | |order| <= j < |order'| ensures order'[j] !in order'[base + i].dependencies {
        assert order'[j] !in order'[..base + i];
      }
    }
  }

  lemma {:induction false} LaidConcat(order: seq<Step>, base: nat, rows: seq<Row>, more: seq<Row>)
    requires Laid(order, base, rows) && Laid(order, base + |rows|, more)
    ensures Laid(order, base, rows + more)
  {
    forall i | 0 <= i < |rows + more| ensures RowLaid(order, order[base + i], base + i, (rows + more)[i]) {
      if i >= |rows| {
        assert RowLaid(order, order[base + |rows| + (i - |rows|)], base + |rows| + (i - |rows|), more[i - |rows|]);
      }
    }
  }

  /** A closed step is laid if its dependencies are. */
  lemma {:induction false} LastLaid(order: seq<Step>, s: Step, open: set<Step>, row: Row)
    requires Graph(order + [s], open) && s.kind == row.kind && s.name == row.name
    requires DependsAt(order, s.dependencies, row.deps, |order|)
    ensures Laid(order + [s], |order|, [row])
  {
    var all := order + [s];
    assert all[|order|].dependencies <= Elems(all[..|order|]) && all[..|order|] == order;
    assert all[|order|] == s && s !in order;
    assert RowLaid(all, s, |order|, row);
  }

  /** Naming the last step. */
  lemma {:induction false} RenamedLaid(order: seq<Step>, base: nat, rows: seq<Row>, name: string)
    requires rows != [] && |order| == base + |rows|
    requires forall i :: 0 <= i < |rows| - 1 ==> RowLaid(order, order[base + i], base + i, rows[i])
    requires RowLaid(order, order[base + |rows| - 1], base + |rows| - 1, Last(rows).(name := Some(name)))
    ensures Laid(order, base, Renamed(rows, name))
  {
  }

  // ---- What a query needs ----

  /** The names of tables that the sources of a query look up; those of a derived table or of a side of a set operation
      are what that query needs. */
  ghost function Named(q: Query): set<string>
    decreases q, 2
  {
    NamedInBody(q.body) + NamedInJoins(q.joins)
  }

  ghost function NamedInBody(body: Body): set<string>
    decreases body, 0
  {
    match body
    case From(source) => NamedInSource(source)
    case Static => {}
    case SetOp(left, right) => Needed(left) + Needed(right)
  }

  ghost function NamedInSource(source: Source): set<string>
    decreases source, 0
  {
    match source
    case Table(name, _) => {name}
    case Derived(query, _) => Needed(query)
  }

  ghost function NamedInJoins(joins: seq<Source>): set<string>
    decreases joins, 0
  {
    if joins == [] then {} else NamedInSource(joins[0]) + NamedInJoins(joins[1..])
  }

  /** The names that a query looks up outside of itself: what its sources look up, where a CTE of its own stands for
      what it needs in turn. */
  ghost function Needed(q: Query): set<string>
    decreases q, 3
  {
    Past(q.ctes, Named(q))
  }

  /** What is looked up in front of the CTEs if `names` are looked up behind them. */
  ghost function Past(cs: seq<Cte>, names: set<string>): set<string>
    decreases cs, 0
  {
    if cs == [] then names
    else
      var rest := Past(cs[1..], names);
      if cs[0].alias in rest then rest - {cs[0].alias} + Needed(cs[0].query) else rest
  }

  /** From the step at place `i` dependencies lead to the one at place `j`. */
  ghost predicate Leads(rows: seq<Row>, base: nat, i: nat, j: nat) {
    i == j ||
    (base <= i < base + |rows| && exists d: nat :: d in rows[i - base].deps && d < i && Leads(rows, base, d, j))
  }

  lemma {:induction false} LeadsOn(rows: seq<Row>, base: nat, i: nat, j: nat, k: nat)
    requires Leads(rows, base, i, j) && Leads(rows, base, j, k)
    ensures Leads(rows, base, i, k)
    decreases i
  {
    if i != j {
      var d: nat :| d in rows[i - base].deps && d < i && Leads(rows, base, d, j);
      LeadsOn(rows, base, d, j, k);
    }
  }

  /** The rows stand among others, with their dependencies. */
  ghost predicate Embedded(rows: seq<Row>, base: nat, all: seq<Row>, start: nat) {
    && start <= base && base + |rows| <= start + |all|
    && forall k :: 0 <= k < |rows| ==> all[base - start + k].deps == rows[k].deps
  }

  lemma {:induction false} InFront(rows: seq<Row>, more: seq<Row>, base: nat)
    ensures Embedded(rows, base, rows + more, base) && Embedded(more, base + |rows|, rows + more, base)
  {
  }

  lemma {:induction false} UnderName(rows: seq<Row>, name: string, base: nat)
    requires rows != []
    ensures Embedded(rows, base, Renamed(rows, name), base)
  {
  }

  lemma {:induction false} EmbeddedIn(rows: seq<Row>, base: nat, all: seq<Row>, start: nat, whole: seq<Row>, first: nat)
    requires Embedded(rows, base, all, start) && Embedded(all, start, whole, first)
    ensures Embedded(rows, base, whole, first)
  {
    forall k | 0 <= k < |rows| ensures whole[base - first + k].deps == rows[k].deps {
      assert whole[start - first + (base - start + k)].deps == all[base - start + k].deps;
    }
  }

  lemma {:induction false} LeadsWithin(rows: seq<Row>, base: nat, all: seq<Row>, start: nat, i: nat, j: nat)
    requires Leads(rows, base, i, j) && Embedded(rows, base, all, start)
    ensures Leads(all, start, i, j)
    decreases i
  {
    if i != j {
      var d: nat :| d in rows[i - base].deps && d < i && Leads(rows, base, d, j);
      LeadsWithin(rows, base, all, start, d, j);
      assert all[base - start + (i - base)].deps == rows[i - base].deps;
    }
  }

  lemma {:induction false} LeadsToItself(rows: seq<Row>, base: nat, i: nat)
    ensures Leads(rows, base, i, i)
  {
  }

  /** The step at `i` leads to what is visible under these names. */
  ghost predicate LeadsToAll(rows: seq<Row>, base: nat, i: nat, names: set<string>, ctes: map<string, nat>) {
    forall n :: n in names && n in ctes ==> Leads(rows, base, i, ctes[n])
  }

  lemma {:induction false} LeadsToBoth(rows: seq<Row>, base: nat, i: nat, names: set<string>, more: set<string>,
      ctes: map<string, nat>)
    requires LeadsToAll(rows, base, i, names, ctes) && LeadsToAll(rows, base, i, more, ctes)
    ensures LeadsToAll(rows, base, i, names + more, ctes)
  {
    hide Leads;
  }

  lemma {:induction false} LeadsToAllWithin(rows: seq<Row>, base: nat, all: seq<Row>, start: nat, top: nat, i: nat,
      names: set<string>, ctes: map<string, nat>)
    requires LeadsToAll(rows, base, i, names, ctes) && Embedded(rows, base, all, start) && Leads(all, start, top, i)
    ensures LeadsToAll(all, start, top, names, ctes)
  {
    hide Leads, Embedded;
    forall n | n in names && n in ctes ensures Leads(all, start, top, ctes[n]) {
      LeadsWithin(rows, base, all, start, i, ctes[n]);
      LeadsOn(all, start, top, i, ctes[n]);
    }
  }

  /** The last step, under another name. */
  lemma {:induction false} RenamedLeads(rows: seq<Row>, name: string, base: nat, names: set<string>,
      ctes: map<string, nat>)
    requires rows != [] && LeadsToAll(rows, base, base + |rows| - 1, names, ctes)
    ensures var r := Renamed(rows, name); LeadsToAll(r, base, base + |r| - 1, names, ctes)
  {
    hide Leads, LeadsToAll, Embedded;
    UnderName(rows, name, base);
    LeadsToItself(Renamed(rows, name), base, base + |rows| - 1);
    LeadsToAllWithin(rows, base, Renamed(rows, name), base, base + |rows| - 1, base + |rows| - 1, names, ctes);
  }

  lemma {:induction false} SourceLeads(source: Source, ctes: map<string, nat>, base: nat)
    requires Before(ctes, base)
    ensures var rows := RowsOfSource(source, ctes, base);
      LeadsToAll(rows, base, base + |rows| - 1, NamedInSource(source), ctes)
    decreases source, 0
  {
    match source {
      case Table(name, alias) => TableLeads(name, alias, ctes, base);
      case Derived(query, alias) =>
        QueryLeads(query, ctes, base);
        hide Leads, Rows, LeadsToAll;
        RenamedLeads(Rows(query, ctes, base), alias, base, Needed(query), ctes);
    }
  }

  lemma {:induction false} TableLeads(name: string, alias: string, ctes: map<string, nat>, base: nat)
    requires Before(ctes, base)
    ensures var rows := RowsOfSource(Table(name, alias), ctes, base);
      |rows| == 1 && LeadsToAll(rows, base, base, {name}, ctes)
  {
    var rows := RowsOfSource(Table(name, alias), ctes, base);
    if name in ctes {
      LeadsToItself(rows, base, ctes[name]);
      assert rows[base - base].deps == {ctes[name]};
    }
  }

  ghost predicate LeadsToSteps(rows: seq<Row>, base: nat, i: nat, ds: set<nat>) {
    forall d :: d in ds ==> Leads(rows, base, i, d)
  }

  lemma {:induction false} LeadsToStepsWithin(rows: seq<Row>, base: nat, all: seq<Row>, start: nat, i: nat,
      ds: set<nat>)
    requires LeadsToSteps(rows, base, i, ds) && Embedded(rows, base, all, start)
    ensures LeadsToSteps(all, start, i, ds)
  {
    hide Leads, Embedded;
    forall d | d in ds ensures Leads(all, start, i, d) { LeadsWithin(rows, base, all, start, i, d); }
  }

  /** The last of the rows for the joins leads to the step it starts from, to the joined sources so far and to all that
      the others look up. */
  lemma {:induction false} JoinsLead(joins: seq<Source>, ctes: map<string, nat>, base: nat, deps: set<nat>,
      name: Option<string>, first: nat)
    requires Before(ctes, base) && first < base && forall d :: d in deps ==> d < base
    ensures var rows := RowsOfJoins(joins, ctes, base, deps, name, first);
      var top := base + |rows| - 1;
      && LeadsToAll(rows, base, top, NamedInJoins(joins), ctes) && LeadsToSteps(rows, base, top, deps + {first})
    decreases joins, 0
  {
    hide *;
    if joins == [] {
      NoMoreJoins(ctes, base, deps, name, first);
    } else {
      var r, rows, rest, at, top := JoinRows(joins, ctes, base, deps, name, first);
      SourceLeads(joins[0], ctes, base);
      BeforeLater(ctes, base, |r|);
      JoinsLead(joins[1..], ctes, base + |r|, deps + {at}, name, first);
      InFront(r, rest, base);
      LeadsToStepsWithin(rest, base + |r|, rows, base, top, deps + {at} + {first});
      LeadsToSome(rows, base, top, deps + {at} + {first}, deps + {first}, at);
      LeadsToAllWithin(r, base, rows, base, top, at, NamedInSource(joins[0]), ctes);
      LeadsToItself(rows, base, top);
      LeadsToAllWithin(rest, base + |r|, rows, base, top, top, NamedInJoins(joins[1..]), ctes);
      LeadsToBoth(rows, base, top, NamedInSource(joins[0]), NamedInJoins(joins[1..]), ctes);
    }
  }

  lemma {:induction false} BeforeLater(ctes: map<string, nat>, base: nat, n: nat)
    requires Before(ctes, base)
    ensures Before(ctes, base + n)
  {
  }

  lemma {:induction false} NoMoreJoins(ctes: map<string, nat>, base: nat, deps: set<nat>, name: Option<string>,
      first: nat)
    requires first < base && forall d :: d in deps ==> d < base
    ensures var rows := RowsOfJoins([], ctes, base, deps, name, first);
      |rows| == 1 && LeadsToAll(rows, base, base, NamedInJoins([]), ctes) &&
      LeadsToSteps(rows, base, base, deps + {first})
  {
    var rows := RowsOfJoins([], ctes, base, deps, name, first);
    assert rows[base - base].deps == deps + {first};
    forall d: nat | d in deps + {first} ensures Leads(rows, base, base, d) { LeadsToItself(rows, base, d); }
  }

  lemma {:induction false} JoinRows(joins: seq<Source>, ctes: map<string, nat>, base: nat, deps: set<nat>,
      name: Option<string>, first: nat)
    returns (r: seq<Row>, rows: seq<Row>, rest: seq<Row>, at: nat, top: nat)
    requires joins != []
    ensures r == RowsOfSource(joins[0], ctes, base) && r != []
    ensures
      && rows == RowsOfJoins(joins, ctes, base, deps, name, first) == r + rest && at == base + |r| - 1
      && rest == RowsOfJoins(joins[1..], ctes, base + |r|, deps + {at}, name, first)
      && top == base + |rows| - 1 == base + |r| + |rest| - 1
    ensures NamedInJoins(joins) == NamedInSource(joins[0]) + NamedInJoins(joins[1..])
  {
    hide RowsOfSource, NamedInSource;
    r := RowsOfSource(joins[0], ctes, base);
    at := base + |r| - 1;
    rest := RowsOfJoins(joins[1..], ctes, base + |r|, deps + {at}, name, first);
    rows := r + rest;
    top := base + |rows| - 1;
  }

  lemma {:induction false} LeadsToSome(rows: seq<Row>, base: nat, i: nat, ds: set<nat>, some: set<nat>, d: nat)
    requires LeadsToSteps(rows, base, i, ds) && some <= ds && d in ds
    ensures LeadsToSteps(rows, base, i, some) && Leads(rows, base, i, d)
  {
    hide Leads;
  }

  lemma {:induction false} SideLeads(q: Query, name: string, ctes: map<string, nat>, base: nat)
    requires Before(ctes, base)
    ensures var rows := RowsOfSide(q, name, ctes, base);
      LeadsToAll(rows, base, base + |rows| - 1, Needed(q), ctes)
    decreases q, 3
  {
    QueryLeads(q, ctes, base);
    hide Leads, Rows, LeadsToAll;
    RenamedLeads(Rows(q, ctes, base), name, base, Needed(q), ctes);
  }

  lemma {:induction false} BodyLeads(body: Body, ctes: map<string, nat>, base: nat)
    requires Before(ctes, base)
    ensures var rows := RowsOfBody(body, ctes, base);
      LeadsToAll(rows, base, base + |rows| - 1, NamedInBody(body), ctes)
    decreases body, 1
  {
    match body {
      case From(source) => SourceLeads(source, ctes, base);
      case Static =>
      case SetOp(left, right) => SetOpLeads(left, right, ctes, base);
    }
  }

  lemma {:induction false} SetOpLeads(left: Query, right: Query, ctes: map<string, nat>, base: nat)
    requires Before(ctes, base)
    ensures var rows := RowsOfBody(SetOp(left, right), ctes, base);
      LeadsToAll(rows, base, base + |rows| - 1, NamedInBody(SetOp(left, right)), ctes)
    decreases SetOp(left, right), 0
  {
    hide *;
    var l, r, rows := SetOpRows(left, right, ctes, base);
    SideLeads(left, "left", ctes, base);
    BeforeLater(ctes, base, |l|);
    SideLeads(right, "right", ctes, base + |l|);
    SetRows(l, r, base);
    var top := base + |rows| - 1;
    LeadsToAllWithin(l, base, rows, base, top, base + |l| - 1, Needed(left), ctes);
    LeadsToAllWithin(r, base + |l|, rows, base, top, base + |l| + |r| - 1, Needed(right), ctes);
    LeadsToBoth(rows, base, top, Needed(left), Needed(right), ctes);
  }

  lemma {:induction false} SetOpRows(left: Query, right: Query, ctes: map<string, nat>, base: nat)
    returns (l: seq<Row>, r: seq<Row>, rows: seq<Row>)
    ensures l == RowsOfSide(left, "left", ctes, base) && r == RowsOfSide(right, "right", ctes, base + |l|)
    ensures l != [] && r != [] && rows == RowsOfBody(SetOp(left, right), ctes, base)
    ensures rows == l + r + [Row(SET_OPERATION, None, {base + |l| - 1, base + |l| + |r| - 1})]
    ensures NamedInBody(SetOp(left, right)) == Needed(left) + Needed(right)
  {
    hide RowsOfSide, Needed;
    l := RowsOfSide(left, "left", ctes, base);
    r := RowsOfSide(right, "right", ctes, base + |l|);
    rows := RowsOfBody(SetOp(left, right), ctes, base);
  }

  lemma {:induction false} SetRows(l: seq<Row>, r: seq<Row>, base: nat)
    requires l != [] && r != []
    ensures var i, j := base + |l| - 1, base + |l| + |r| - 1;
      var rows := l + r + [Row(SET_OPERATION, None, {i, j})];
      && Embedded(l, base, rows, base) && Embedded(r, base + |l|, rows, base)
      && Leads(rows, base, base + |rows| - 1, i) && Leads(rows, base, base + |rows| - 1, j)
  {
    var i, j := base + |l| - 1, base + |l| + |r| - 1;
    var rows := l + r + [Row(SET_OPERATION, None, {i, j})];
    InFront(l, r, base);
    InFront(l + r, [Row(SET_OPERATION, None, {i, j})], base);
    EmbeddedIn(l, base, l + r, base, rows, base);
    EmbeddedIn(r, base + |l|, l + r, base, rows, base);
    LeadsToItself(rows, base, i);
    LeadsToItself(rows, base, j);
    assert rows[|l| + |r|].deps == {i, j};
  }

  /** Something visible under one of the names leads to the step. */
  ghost predicate LedTo(rows: seq<Row>, base: nat, names: set<string>, visible: map<string, nat>, j: nat) {
    exists m :: m in names && m in visible && Leads(rows, base, visible[m], j)
  }

  lemma {:induction false} LedToWithin(rows: seq<Row>, base: nat, all: seq<Row>, start: nat, names: set<string>,
      visible: map<string, nat>, i: nat, j: nat)
    requires LedTo(rows, base, names, visible, i) && Embedded(rows, base, all, start) && Leads(all, start, i, j)
    ensures LedTo(all, start, names, visible, j)
  {
    hide Leads, Embedded;
    var m :| m in names && m in visible && Leads(rows, base, visible[m], i);
    LeadsWithin(rows, base, all, start, visible[m], i);
    LeadsOn(all, start, visible[m], i, j);
  }

  /** What is needed in front of the CTEs is led to from something that is looked up behind them. */
  lemma {:induction false} CtesLead(cs: seq<Cte>, ctes: map<string, nat>, base: nat, names: set<string>)
    requires Before(ctes, base)
    ensures var (rows, visible) := RowsOfCtes(cs, ctes, base);
      forall n :: n in Past(cs, names) && n in ctes ==> LedTo(rows, base, names, visible, ctes[n])
    decreases cs, 0
  {
    hide *;
    if cs == [] {
      NoCtesLead(ctes, base, names);
    } else {
      var r, rows, visible, rest, at := CteRows(cs, ctes, base, names);
      var more := ctes[cs[0].alias := at];
      CteLeads(cs[0], ctes, base);
      BeforeWith(ctes, base, cs[0].alias, |r|);
      CtesLead(cs[1..], more, base + |r|, names);
      InFront(r, rest, base);
      forall n | n in Past(cs, names) && n in ctes ensures LedTo(rows, base, names, visible, ctes[n]) {
        if n in Past(cs[1..], names) && n != cs[0].alias {
          LeadsToItself(rows, base, ctes[n]);
          LedToWithin(rest, base + |r|, rows, base, names, visible, ctes[n], ctes[n]);
        } else {
          OneLeads(r, base, at, Needed(cs[0].query), ctes, n);
          LeadsWithin(r, base, rows, base, at, ctes[n]);
          LedToWithin(rest, base + |r|, rows, base, names, visible, at, ctes[n]);
        }
      }
    }
  }

  lemma {:induction false} BeforeWith(ctes: map<string, nat>, base: nat, name: string, n: nat)
    requires Before(ctes, base) && n > 0
    ensures Before(ctes[name := base + n - 1], base + n)
  {
  }

  lemma {:induction false} OneLeads(rows: seq<Row>, base: nat, i: nat, names: set<string>, ctes: map<string, nat>,
      n: string)
    requires LeadsToAll(rows, base, i, names, ctes) && n in names && n in ctes
    ensures Leads(rows, base, i, ctes[n])
  {
    hide Leads;
  }

  lemma {:induction false} NoCtesLead(ctes: map<string, nat>, base: nat, names: set<string>)
    ensures RowsOfCtes([], ctes, base) == ([], ctes) && Past([], names) == names
    ensures forall n :: n in names && n in ctes ==> LedTo([], base, names, ctes, ctes[n])
  {
    forall n | n in names && n in ctes ensures LedTo([], base, names, ctes, ctes[n]) {
      LeadsToItself([], base, ctes[n]);
    }
  }

  lemma {:induction false} CteRows(cs: seq<Cte>, ctes: map<string, nat>, base: nat, names: set<string>)
    returns (r: seq<Row>, rows: seq<Row>, visible: map<string, nat>, rest: seq<Row>, at: nat)
    requires cs != []
    ensures r == RowsOfCte(cs[0], ctes, base) && r != []
    ensures
      && at == base + |r| - 1 && RowsOfCtes(cs, ctes, base) == (rows, visible) && rows == r + rest
      && RowsOfCtes(cs[1..], ctes[cs[0].alias := at], base + |r|) == (rest, visible)
    ensures var past := Past(cs[1..], names);
      Past(cs, names) ==
      if cs[0].alias in past then past - {cs[0].alias} + Needed(cs[0].query) else past
  {
    hide RowsOfCte, Needed;
    r := RowsOfCte(cs[0], ctes, base);
    at := base + |r| - 1;
    var more := RowsOfCtes(cs[1..], ctes[cs[0].alias := at], base + |r|);
    rest, visible := more.0, more.1;
    rows := r + rest;
  }

  lemma {:induction false} CteLeads(c: Cte, ctes: map<string, nat>, base: nat)
    requires Before(ctes, base)
    ensures var rows := RowsOfCte(c, ctes, base);
      LeadsToAll(rows, base, base + |rows| - 1, Needed(c.query), ctes)
    decreases c, 0
  {
    QueryLeads(c.query, ctes, base);
    hide Leads, Rows, LeadsToAll;
    RenamedLeads(Rows(c.query, ctes, base), c.alias, base, Needed(c.query), ctes);
  }

  lemma {:induction false} TopLeads(needed: bool, kind: Kind, rows: seq<Row>, base: nat, j: nat)
    requires rows != [] && Leads(rows, base, base + |rows| - 1, j)
    ensures var top := TopOf(needed, kind, rows, base); Leads(top, base, base + |top| - 1, j)
  {
    if needed {
      var top := TopOf(needed, kind, rows, base);
      InFront(rows, [Row(kind, Last(rows).name, {base + |rows| - 1})], base);
      LeadsWithin(rows, base, top, base, base + |rows| - 1, j);
      assert top[|rows|].deps == {base + |rows| - 1};
    }
  }

  lemma {:induction false} FinishedLeads(rows: seq<Row>, q: Query, base: nat, j: nat)
    requires rows != [] && Leads(rows, base, base + |rows| - 1, j)
    ensures var all := Finished(rows, q, base); Leads(all, base, base + |all| - 1, j)
  {
    hide Leads, TopOf;
    TopLeads(q.aggregated, AGGREGATE, rows, base, j);
    var grouped := TopOf(q.aggregated, AGGREGATE, rows, base);
    TopLeads(q.ordered, SORT, grouped, base, j);
    TopLeads(q.distinct && !q.body.SetOp?, AGGREGATE, TopOf(q.ordered, SORT, grouped, base), base, j);
  }

  /** The body and the joins lead to all that the sources look up. */
  lemma {:induction false} SelectLeads(q: Query, ctes: map<string, nat>, base: nat)
    requires Before(ctes, base)
    ensures var rows := RowsOfSelect(q, ctes, base);
      LeadsToAll(rows, base, base + |rows| - 1, Named(q), ctes)
    decreases q, 1
  {
    hide *;
    NeededPast(q);
    SelectRows(q, ctes, base, []);
    BodyLeads(q.body, ctes, base);
    var b := RowsOfBody(q.body, ctes, base);
    assert [] + b == b && [] + RowsOfSelect(q, ctes, base) == RowsOfSelect(q, ctes, base);
    if q.joins == [] {
      assert b + [] == b && NamedInBody(q.body) + {} == NamedInBody(q.body);
    } else {
      var first := base + |b| - 1;
      BeforeLater(ctes, base, |b|);
      JoinsLead(q.joins, ctes, base + |b|, {}, Last(b).name, first);
      var j := RowsOfJoins(q.joins, ctes, base + |b|, {}, Last(b).name, first);
      JoinedLead(b, j, base, NamedInBody(q.body), NamedInJoins(q.joins), ctes);
    }
  }

  lemma {:induction false} JoinedLead(b: seq<Row>, j: seq<Row>, base: nat, names: set<string>, more: set<string>,
      ctes: map<string, nat>)
    requires b != [] && j != [] && LeadsToAll(b, base, base + |b| - 1, names, ctes)
    requires var top := base + |b| + |j| - 1;
      LeadsToAll(j, base + |b|, top, more, ctes) && LeadsToSteps(j, base + |b|, top, {} + {base + |b| - 1})
    ensures LeadsToAll(b + j, base, base + |b + j| - 1, names + more, ctes)
  {
    hide Leads, LeadsToAll, Embedded, LeadsToSteps;
    var rows, first, top := b + j, base + |b| - 1, base + |b| + |j| - 1;
    InFront(b, j, base);
    LeadsToStepsWithin(j, base + |b|, rows, base, top, {} + {first});
    LeadsToSome(rows, base, top, {} + {first}, {}, first);
    LeadsToItself(rows, base, top);
    LeadsToAllWithin(b, base, rows, base, top, first, names, ctes);
    LeadsToAllWithin(j, base + |b|, rows, base, top, top, more, ctes);
    LeadsToBoth(rows, base, top, names, more, ctes);
  }

  /** The step of a query leads to every CTE that its sources see and name, and to all that it needs from outside. */
  lemma {:induction false} QueryLeads(q: Query, ctes: map<string, nat>, base: nat)
    requires Before(ctes, base)
    ensures var rows := Rows(q, ctes, base);
      var top := base + |rows| - 1;
      && LeadsToAll(rows, base, top, Needed(q), ctes)
      && LeadsToAll(rows, base, top, Named(q), RowsOfCtes(q.ctes, ctes, base).1)
    decreases q, 2
  {
    hide *;
    var (c, visible) := RowsOfCtes(q.ctes, ctes, base);
    CtesOk(q.ctes, ctes, base);
    CtesLead(q.ctes, ctes, base, Named(q));
    SelectLeads(q, visible, base + |c|);
    RowsOfQuery(q, ctes, base);
    NeededPast(q);
    PlanLeads(c, RowsOfSelect(q, visible, base + |c|), q, base, Named(q), visible, Needed(q), ctes);
  }

  lemma {:induction false} NeededPast(q: Query)
    ensures Needed(q) == Past(q.ctes, Named(q)) && Named(q) == NamedInBody(q.body) + NamedInJoins(q.joins)
    ensures NamedInJoins([]) == {}
  {
    hide Past, NamedInBody;
  }

  lemma {:induction false} PlanLeads(c: seq<Row>, s: seq<Row>, q: Query, base: nat, names: set<string>,
      visible: map<string, nat>, needed: set<string>, ctes: map<string, nat>)
    requires s != [] && LeadsToAll(s, base + |c|, base + |c| + |s| - 1, names, visible)
    requires forall n :: n in needed && n in ctes ==> LedTo(c, base, names, visible, ctes[n])
    ensures var all := Finished(c + s, q, base);
      var top := base + |all| - 1;
      LeadsToAll(all, base, top, names, visible) && LeadsToAll(all, base, top, needed, ctes)
  {
    hide Leads, Finished, Embedded;
    var rows, all := c + s, Finished(c + s, q, base);
    var last, top := base + |rows| - 1, base + |all| - 1;
    InFront(c, s, base);
    LeadsToItself(rows, base, last);
    LeadsToAllWithin(s, base + |c|, rows, base, last, last, names, visible);
    forall n | n in names && n in visible ensures Leads(all, base, top, visible[n]) {
      FinishedLeads(rows, q, base, visible[n]);
    }
    FinishedStarts(rows, q, base);
    EmbeddedIn(c, base, rows, base, all, base);
    forall n | n in needed && n in ctes ensures Leads(all, base, top, ctes[n]) {
      var m :| m in names && m in visible && Leads(c, base, visible[m], ctes[n]);
      LeadsWithin(c, base, all, base, visible[m], ctes[n]);
      LeadsOn(all, base, top, visible[m], ctes[n]);
    }
  }

  lemma {:induction false} FinishedStarts(rows: seq<Row>, q: Query, base: nat)
    requires rows != []
    ensures Embedded(rows, base, Finished(rows, q, base), base)
  {
  }

  // ---- What each step stands for ----

  /** The step of a source: the scan of a table depends on the CTE that is visible under the name of the table, and on
      nothing if there is none. */
  ghost predicate OfSource(s: Step, source: Source, visible: map<string, Step>)
    reads s`name, s`dependencies
  {
    match source
    case Table(name, alias) =>
      && s.kind == SCAN && s.name == Some(alias)
      && (name in visible ==> s.dependencies == {visible[name]}) && (name !in visible ==> s.dependencies == {})
    case Derived(_, alias) => s.name == Some(alias)
  }

  ghost predicate OfBody(s: Step, body: Body, visible: map<string, Step>)
    reads s`name, s`dependencies
  {
    match body
    case From(source) => OfSource(s, source, visible)
    case Static => s.kind == SCAN && s.name == None && s.dependencies == {}
    case SetOp(_, _) => s.kind == SET_OPERATION && s.name == None
  }

  ghost predicate IsOnTop(needed: bool, kind: Kind, below: Step, top: Step)
    reads top`dependencies
  {
    if needed then top.kind == kind && top.dependencies == {below} else top == below
  }

  /** The steps of a query but for its CTEs, from the bottom up. */
  datatype Parts = Parts(base: Step, sources: seq<Step>, joined: Step, grouped: Step, sorted: Step)

  ghost predicate PartsIn(p: Parts, order: seq<Step>) {
    && p.base in order && (forall i :: 0 <= i < |p.sources| ==> p.sources[i] in order) && p.joined in order &&
         p.grouped in order
    && p.sorted in order
  }

  /** A join of the body and all joined sources, if there are any; on top of it grouping, sorting and DISTINCT, each if
      it is needed. */
  ghost predicate IsSelectOf(q: Query, visible: map<string, Step>, p: Parts, step: Step)
    reads p.base`name, p.base`dependencies, p.sources`name, p.sources`dependencies, p.joined`name, p.joined`dependencies
    reads p.grouped`dependencies, p.sorted`dependencies, step`dependencies
  {
    && OfBody(p.base, q.body, visible)
    && AreSources(p.sources, q.joins, visible)
    && (if q.joins == [] then p.joined == p.base else IsJoin(p.joined, p.base, p.sources))
    && IsOnTop(q.aggregated, AGGREGATE, p.joined, p.grouped)
    && IsOnTop(q.ordered, SORT, p.grouped, p.sorted)
    && IsOnTop(q.distinct && !q.body.SetOp?, AGGREGATE, p.sorted, step)
  }

  ghost predicate AreSources(steps: seq<Step>, joins: seq<Source>, visible: map<string, Step>)
    reads steps`name, steps`dependencies
  {
    |steps| == |joins| && forall k :: 0 <= k < |joins| ==> OfSource(steps[k], joins[k], visible)
  }

  ghost predicate IsJoin(join: Step, base: Step, sources: seq<Step>)
    reads join`name, join`dependencies, base`name
  {
    join.kind == JOIN && join.name == base.name && join.dependencies == Elems(sources) + {base}
  }

  /** Visible is the last CTE of each name, and of the names that the query does not give, what was visible before. */
  ghost predicate SeesCtes(cs: seq<Cte>, outside: map<string, Step>, made: seq<Step>, visible: map<string, Step>)
    reads made`name
  {
    && |made| == |cs| && (forall i :: 0 <= i < |cs| ==> made[i].name == Some(cs[i].alias))
    && (forall i :: 0 <= i < |cs| && IsLast(cs, i) ==> cs[i].alias in visible && visible[cs[i].alias] == made[i])
    && (forall k :: !Gives(cs, k) ==>
         (k in visible <==> k in outside) && (k in outside ==> visible[k] == outside[k]))
  }

  /** No later CTE has the same name. */
  predicate IsLast(cs: seq<Cte>, i: nat)
    requires i < |cs|
  {
    forall j :: i < j < |cs| ==> cs[j].alias != cs[i].alias
  }

  predicate Gives(cs: seq<Cte>, name: string) { exists i :: 0 <= i < |cs| && cs[i].alias == name }

  /** The steps of the CTEs of a query, the CTEs that its sources see, and the other steps. */
  datatype Steps = Steps(made: seq<Step>, visible: map<string, Step>, parts: Parts)

  /** `step` is the plan of the query, and these are its steps. */
  ghost predicate IsPlan(q: Query, outside: map<string, Step>, of: Steps, step: Step, order: seq<Step>)
    reads order`name, order`dependencies
  {
    && (forall i :: 0 <= i < |of.made| ==> of.made[i] in order) && PartsIn(of.parts, order) && step in order
    && SeesCtes(q.ctes, outside, of.made, of.visible) && IsSelectOf(q, of.visible, of.parts, step)
  }

  lemma {:induction false} MakesPlan(q: Query, outside: map<string, Step>, of: Steps, step: Step, order: seq<Step>)
    requires Elems(of.made) <= Elems(order) && PartsIn(of.parts, order) && step in order
    requires SeesCtes(q.ctes, outside, of.made, of.visible) && IsSelectOf(q, of.visible, of.parts, step)
    ensures IsPlan(q, outside, of, step, order)
  {
    hide SeesCtes, IsSelectOf;
    forall i | 0 <= i < |of.made| ensures of.made[i] in order { assert of.made[i] in Elems(of.made); }
  }

  lemma {:induction false} SeesMore(cs: seq<Cte>, i: nat, outside: map<string, Step>, made: seq<Step>,
      visible: map<string, Step>, s: Step)
    requires i < |cs| && SeesCtes(cs[..i], outside, made, visible) && s.name == Some(cs[i].alias)
    ensures SeesCtes(cs[..i + 1], outside, made + [s], visible[cs[i].alias := s])
  {
    hide IsLast, Gives;
    var was, now, more := cs[..i], cs[..i + 1], made + [s];
    assert now == was + [cs[i]] && forall j :: 0 <= j < i ==> now[j] == was[j] && more[j] == made[j];
    assert now[i] == cs[i] && more[i] == s;
    forall j | 0 <= j < |now| && IsLast(now, j)
      ensures var seen := visible[cs[i].alias := s]; now[j].alias in seen && seen[now[j].alias] == more[j]
    {
      if j < i { LastBefore(was, cs[i], j); }
    }
    forall k | !Gives(now, k) ensures k != cs[i].alias && !Gives(was, k) { GivesMore(was, cs[i], k); }
  }

  lemma {:induction false} LastBefore(cs: seq<Cte>, c: Cte, j: nat)
    requires j < |cs| && IsLast(cs + [c], j)
    ensures IsLast(cs, j) && cs[j].alias != c.alias
  {
    var more := cs + [c];
    assert more[|cs|] == c && more[j] == cs[j];
    forall l | j < l < |cs| ensures cs[l].alias != cs[j].alias { assert more[l] == cs[l]; }
  }

  lemma {:induction false} GivesMore(cs: seq<Cte>, c: Cte, k: string)
    ensures Gives(cs + [c], k) <==> Gives(cs, k) || c.alias == k
  {
    var more := cs + [c];
    assert more[|cs|] == c && forall j :: 0 <= j < |cs| ==> more[j] == cs[j];
  }

  // ---- Building ----

  /** The outcome: `order` has grown by the steps that the rows describe, and `step` is the last of them. */
  ghost predicate Grown(order: seq<Step>, order': seq<Step>, open: set<Step>, step: Step, rows: seq<Row>)
    reads order'`dependencies, order'`dependents, order'`name, open`dependencies, open`dependents
  {
    && Graph(order', open) && order <= order' && order' != [] && step == order'[|order'| - 1] && step !in order
    && |order'| == |order| + |rows| && Laid(order', |order|, rows)
  }

  lemma {:induction false} LastOnly(order: seq<Step>, open: set<Step>)
    requires Graph(order, open)
    ensures forall i :: 0 <= i < |order| - 1 ==> order[i] != order[|order| - 1]
  {
  }

  /** `step.name = name`, for the step that stands for a query */
  method Rename(step: Step, name: string, ghost order: seq<Step>, ghost order': seq<Step>, ghost open: set<Step>,
      ghost rows: seq<Row>)
    requires rows != [] && Grown(order, order', open, step, rows)
    modifies step`name
    ensures Grown(order, order', open, step, Renamed(rows, name)) && step.name == Some(name)
  {
    LastOnly(order', open);
    hide DependsAt, Distinct;
    step.name := Some(name);
    forall i | 0 <= i < |rows| - 1 ensures RowLaid(order', order'[|order| + i], |order| + i, rows[i]) {
      assert old(RowLaid(order', order'[|order| + i], |order| + i, rows[i]));
      assert order'[|order| + i] != step;
    }
    assert old(RowLaid(order', order'[|order| + (|rows| - 1)], |order| + (|rows| - 1), rows[|rows| - 1]));
    RenamedLaid(order', |order|, rows, name);
  }

  /** `Scan.from_expression` */
  method FromSource(source: Source, ctes: map<string, Step>, ghost places: map<string, nat>, ghost order: seq<Step>,
      ghost open: set<Step>)
    returns (step: Step, ghost order': seq<Step>)
    requires Graph(order, open) && CtesAt(ctes, places, order)
    modifies order`dependents
    ensures Grown(order, order', open, step, RowsOfSource(source, places, |order|))
    ensures fresh(Elems(order') - Elems(order)) && OfSource(step, source, ctes)
    decreases source, 0
  {
    match source {
      case Derived(query, alias) =>
        ghost var of;
        step, order', of := FromQuery(query, ctes, places, order, open);
        Rename(step, alias, order, order', open, Rows(query, places, |order|));
      case Table(name, alias) =>
        step, order' := FromTable(name, alias, ctes, places, order, open);
    }
  }

  method FromTable(name: string, alias: string, ctes: map<string, Step>, ghost places: map<string, nat>,
      ghost order: seq<Step>, ghost open: set<Step>)
    returns (step: Step, ghost order': seq<Step>)
    requires Graph(order, open) && CtesAt(ctes, places, order)
    modifies order`dependents
    ensures Grown(order, order', open, step, RowsOfSource(Table(name, alias), places, |order|))
    ensures fresh(Elems(order') - Elems(order)) && OfSource(step, Table(name, alias), ctes)
  {
    hide Graph, DependsAt, RowLaid, Laid, Grown, RowsOfSource;
    ghost var row := TableRow(name, alias, places, |order|);
    TableDepends(order, open, name, ctes, places);
    step := Open(SCAN, Some(alias), order, open);
    if name in ctes {
      Depend(step, ctes[name], order, open + {step});
      assert step.dependencies == {ctes[name]} && row.deps == {places[name]};
    } else {
      assert step.dependencies == {} && row.deps == {};
    }
    order' := order + [step];
    GrowBy(order, order, open, [], step, row);
    assert forall s :: s in order' ==> s in order || s == step;
  }

  lemma {:induction false} TableRow(name: string, alias: string, places: map<string, nat>, base: nat) returns (row: Row)
    ensures [] + [row] == RowsOfSource(Table(name, alias), places, base)
    ensures row.kind == SCAN && row.name == Some(alias)
    ensures row.deps == if name in places then {places[name]} else {}
  {
    row := Row(SCAN, Some(alias), if name in places then {places[name]} else {});
  }

  lemma {:induction false} TableDepends(order: seq<Step>, open: set<Step>, name: string, ctes: map<string, Step>,
      places: map<string, nat>)
    requires Graph(order, open) && CtesAt(ctes, places, order)
    ensures name in ctes <==> name in places
    ensures name in ctes ==>
              places[name] < |order| && ctes[name] == order[places[name]] &&
                DependsAt(order, {ctes[name]}, {places[name]}, |order|)
    ensures DependsAt(order, {}, {}, |order|) && Laid(order, |order|, [])
  {
    if name in ctes { DependsOn(order, open, places[name]); }
  }

  lemma {:induction false} DependsGrows(order: seq<Step>, order': seq<Step>, ds: set<Step>, idx: set<nat>, n: nat)
    requires DependsAt(order, ds, idx, n) && n <= |order| && order <= order' && Distinct(order') && ds <= Elems(order)
    ensures DependsAt(order', ds, idx, n)
  {
    forall j, i | |order| <= j < |order'| && 0 <= i < |order| ensures order'[j] != order[i] {}
    assert forall s :: s in ds ==> s in order;
  }

  /** One more dependency. */
  lemma {:induction false} DependsMore(order: seq<Step>, ds: set<Step>, idx: set<nat>, n: nat, i: nat, open: set<Step>)
    requires DependsAt(order, ds, idx, n) && i < n == |order| && Graph(order, open)
    ensures DependsAt(order, ds + {order[i]}, idx + {i}, n)
  {
  }

  /** A step that has all its dependencies goes behind the others. */
  lemma {:induction false} GrowBy(start: seq<Step>, order: seq<Step>, open: set<Step>, rows: seq<Row>, s: Step,
      row: Row)
    requires Graph(order, open + {s}) && s !in open && start <= order && |order| == |start| + |rows|
    requires Laid(order, |start|, rows)
    requires s.kind == row.kind && s.name == row.name && DependsAt(order, s.dependencies, row.deps, |order|)
    ensures Grown(start, order + [s], open, s, rows + [row])
  {
    hide Graph, Laid, DependsAt, Elems;
    Apart(order, open + {s}, s);
    CloseStep(s, order, open);
    LastLaid(order, s, open, row);
    AddedLaid(start, order, order + [s], open, rows, row);
    NotBefore(start, order, s);
  }

  lemma {:induction false} AddedLaid(start: seq<Step>, order: seq<Step>, order': seq<Step>, open: set<Step>,
      rows: seq<Row>, row: Row)
    requires |order| == |start| + |rows| && Laid(order, |start|, rows) && order <= order' && Graph(order', open)
    requires Laid(order', |order|, [row])
    ensures Laid(order', |start|, rows + [row])
  {
    hide Graph, Laid;
    LaidGrows(order, order', |start|, rows, open);
    LaidConcat(order', |start|, rows, [row]);
  }

  lemma {:induction false} NotBefore(start: seq<Step>, order: seq<Step>, s: Step)
    requires start <= order && s !in order
    ensures s !in start && start <= order + [s]
  {
    forall i | 0 <= i < |start| ensures start[i] == order[i] {}
  }

  /** The steps that a part adds follow the ones that are there. */
  lemma {:induction false} GrownMore(start: seq<Step>, order: seq<Step>, order': seq<Step>, open: set<Step>,
      step: Step, rows: seq<Row>, more: seq<Row>)
    requires start <= order && |order| == |start| + |rows| && Laid(order, |start|, rows)
    requires Grown(order, order', open, step, more)
    ensures Grown(start, order', open, step, rows + more)
  {
    hide Graph, Laid;
    LaidGrows(order, order', |start|, rows, open);
    LaidConcat(order', |start|, rows, more);
  }

  lemma {:induction false} Apart(order: seq<Step>, open: set<Step>, s: Step)
    requires Graph(order, open) && s in open
    ensures s !in order
  {
  }

  /** The last step has the name in the last row. */
  lemma {:induction false} LastName(start: seq<Step>, order: seq<Step>, open: set<Step>, step: Step, rows: seq<Row>)
    requires rows != [] && Grown(start, order, open, step, rows)
    ensures step.name == Last(rows).name && step == order[|order| - 1]
  {
    assert RowLaid(order, order[|start| + (|rows| - 1)], |start| + (|rows| - 1), rows[|rows| - 1]);
  }

  lemma {:induction false} DependsOn(order: seq<Step>, open: set<Step>, i: nat)
    requires Graph(order, open) && i < |order|
    ensures DependsAt(order, {order[i]}, {i}, |order|)
  {
  }

  lemma {:induction false} DependsOnBoth(order: seq<Step>, open: set<Step>, i: nat, j: nat)
    requires Graph(order, open) && i < |order| && j < |order|
    ensures DependsAt(order, {order[i], order[j]}, {i, j}, |order|)
  {
  }

  /** `Join.from_joins`: the join is there before the steps it depends on. */
  method FromJoins(joins: seq<Source>, ctes: map<string, Step>, ghost places: map<string, nat>, ghost order: seq<Step>,
      ghost open: set<Step>,
                   ghost name: Option<string>, ghost first: nat)
    returns (join: Step, ghost order': seq<Step>, ghost rows: seq<Row>, ghost deps: set<nat>, ghost sources: seq<Step>)
    requires Graph(order, open) && CtesAt(ctes, places, order)
    modifies order`dependents
    ensures fresh(join) && join !in open && Graph(order', open + {join}) && order <= order'
    ensures fresh(Elems(order') - Elems(order))
    ensures join.kind == JOIN && |order'| == |order| + |rows| && Laid(order', |order|, rows)
    ensures DependsAt(order', join.dependencies, deps, |order'|)
    ensures RowsOfJoins(joins, places, |order|, {}, name, first) == rows + [Row(JOIN, name, deps + {first})]
    ensures AreSources(sources, joins, ctes) && join.dependencies == Elems(sources) <= Elems(order')
    decreases joins, 0
  {
    hide Graph, RowLaid, RowsOfJoins, Distinct, DependsAt, RowsOfSource, AreSources;
    join := Open(JOIN, None, order, open);
    order', rows, deps, sources := order, [], {}, [];
    NoJoins(order, joins, places, name, first);
    NoSources(joins, ctes);
    for i := 0 to |joins|
      invariant Graph(order', open + {join}) && order <= order' && fresh(Elems(order') - Elems(order)) && fresh(join)
      invariant |order'| == |order| + |rows| && Laid(order', |order|, rows)
      invariant DependsAt(order', join.dependencies, deps, |order'|)
      invariant RowsOfJoins(joins, places, |order|, {}, name, first) == rows +
                  RowsOfJoins(joins[i..], places, |order'|, deps, name, first)
      invariant AreSources(sources, joins[..i], ctes) && join.dependencies == Elems(sources) <= Elems(order')
    {
      hide Graph, RowLaid, RowsOfJoins, Distinct, DependsAt, RowsOfSource, AreSources;
      MoreJoins(joins, i, places, |order'|, deps, name, first, rows);
      ghost var r := RowsOfSource(joins[i], places, |order'|);
      order', sources := NextSource(join, joins, i, ctes, places, order', order, open, rows, deps, sources);
      rows, deps := rows + r, deps + {|order'| - 1};
    }
    assert joins[..|joins|] == joins;
    LastJoin(places, |order'|, deps, name, first);
    assert joins[|joins|..] == [];
  }

  lemma {:induction false} NoSources(joins: seq<Source>, ctes: map<string, Step>)
    ensures AreSources([], joins[..0], ctes) && Elems<Step>([]) == {}
  {
  }

  method NextSource(join: Step, joins: seq<Source>, i: nat, ctes: map<string, Step>, ghost places: map<string, nat>,
      ghost order: seq<Step>, ghost start: seq<Step>, ghost open: set<Step>, ghost rows: seq<Row>, ghost deps: set<nat>,
      ghost sources: seq<Step>)
    returns (ghost order': seq<Step>, ghost sources': seq<Step>)
    requires i < |joins| && AreSources(sources, joins[..i], ctes) && join.dependencies == Elems(sources) <= Elems(order)
    requires Graph(order, open + {join}) && start <= order && CtesAt(ctes, places, start) && |order| == |start| + |rows|
    requires Laid(order, |start|, rows) && DependsAt(order, join.dependencies, deps, |order|)
    modifies order`dependents, join`dependencies
    ensures Graph(order', open + {join}) && order <= order' && fresh(Elems(order') - Elems(order))
    ensures var r := RowsOfSource(joins[i], places, |order|);
      && |order'| == |order| + |r| && Laid(order', |start|, rows + r)
      && DependsAt(order', join.dependencies, deps + {|order'| - 1}, |order'|)
    ensures AreSources(sources', joins[..i + 1], ctes) && join.dependencies == Elems(sources') <= Elems(order')
    decreases joins[i], 2
  {
    hide RowLaid, DependsAt, Laid, RowsOfSource, CtesAt;
    Apart(order, open + {join}, join);
    hide Graph;
    ghost var s;
    order', s := JoinSource(join, joins[i], ctes, places, order, start, open, rows, deps);
    OneMoreSource(sources, joins, i, ctes, s);
    InLonger(order, order');
    sources' := sources + [s];
  }

  lemma {:induction false} OneMoreSource(sources: seq<Step>, joins: seq<Source>, i: nat, ctes: map<string, Step>,
      s: Step)
    requires i < |joins| && AreSources(sources, joins[..i], ctes) && OfSource(s, joins[i], ctes)
    ensures AreSources(sources + [s], joins[..i + 1], ctes) && Elems(sources + [s]) == Elems(sources) + {s}
  {
    hide OfSource;
    var more := sources + [s];
    assert more[|sources|] == s;
    assert forall k :: 0 <= k < i ==> joins[..i][k] == joins[..i + 1][k];
  }

  lemma {:induction false} NotAmong(steps: seq<Step>, order: seq<Step>, s: Step)
    requires Elems(steps) <= Elems(order) && s !in order
    ensures s !in steps
  {
    assert forall x :: x in steps ==> x in Elems(steps);
  }

  lemma {:induction false} InLonger(order: seq<Step>, order': seq<Step>)
    requires order <= order'
    ensures Elems(order) <= Elems(order')
  {
  }

  lemma {:induction false} NoJoins(order: seq<Step>, joins: seq<Source>, places: map<string, nat>,
      name: Option<string>, first: nat)
    ensures Laid(order, |order|, []) && DependsAt(order, {}, {}, |order|)
    ensures RowsOfJoins(joins, places, |order|, {}, name, first) == [] +
              RowsOfJoins(joins[0..], places, |order|, {}, name, first)
  {
    hide RowsOfJoins;
    assert joins[0..] == joins;
  }

  lemma {:induction false} MoreJoins(joins: seq<Source>, i: nat, places: map<string, nat>, base: nat, deps: set<nat>,
      name: Option<string>, first: nat, rows: seq<Row>)
    requires i < |joins|
    ensures var r := RowsOfSource(joins[i], places, base);
      rows + RowsOfJoins(joins[i..], places, base, deps, name, first) ==
      rows + r + RowsOfJoins(joins[i + 1..], places, base + |r|, deps + {base + |r| - 1}, name, first)
  {
    hide RowsOfSource;
    assert joins[i..][0] == joins[i] && joins[i..][1..] == joins[i + 1..];
    var r := RowsOfSource(joins[i], places, base);
    var rest := RowsOfJoins(joins[i + 1..], places, base + |r|, deps + {base + |r| - 1}, name, first);
    assert RowsOfJoins(joins[i..], places, base, deps, name, first) == r + rest;
    assert rows + (r + rest) == rows + r + rest;
  }

  lemma {:induction false} LastJoin(places: map<string, nat>, base: nat, deps: set<nat>, name: Option<string>,
      first: nat)
    ensures RowsOfJoins([], places, base, deps, name, first) == [Row(JOIN, name, deps + {first})]
  {
  }

  /** One joined source. */
  method JoinSource(join: Step, source: Source, ctes: map<string, Step>, ghost places: map<string, nat>,
                    ghost order: seq<Step>, ghost start: seq<Step>, ghost open: set<Step>, ghost rows: seq<Row>,
                      ghost deps: set<nat>)
    returns (ghost order': seq<Step>, ghost step: Step)
    requires Graph(order, open + {join}) && start <= order && CtesAt(ctes, places, start) && |order| == |start| + |rows|
    requires Laid(order, |start|, rows) && DependsAt(order, join.dependencies, deps, |order|)
    modifies order`dependents, join`dependencies
    ensures Graph(order', open + {join}) && order <= order' && fresh(Elems(order') - Elems(order))
    ensures var r := RowsOfSource(source, places, |order|);
      && |order'| == |order| + |r| && Laid(order', |start|, rows + r)
      && DependsAt(order', join.dependencies, deps + {|order'| - 1}, |order'|)
    ensures OfSource(step, source, ctes) && join.dependencies == old(join.dependencies) + {step} && step in order'
    decreases source, 1
  {
    hide RowLaid, DependsAt, Distinct, RowsOfSource;
    Apart(order, open + {join}, join);
    ghost var was := join.dependencies;
    assert was <= Elems(order);
    var s;
    s, order' := FromSource(source, ctes, places, order, open + {join});
    SourceLaid(join, source, places, order, order', start, open, rows, deps, s);
    Apart(order', open + {join}, join);
    Depend(join, s, order', open + {join});
    step := s;
  }

  lemma {:induction false} SourceLaid(join: Step, source: Source, places: map<string, nat>, order: seq<Step>,
      order': seq<Step>, start: seq<Step>,
                                      open: set<Step>, rows: seq<Row>, deps: set<nat>, step: Step)
    requires start <= order && |order| == |start| + |rows| && Laid(order, |start|, rows)
    requires DependsAt(order, join.dependencies, deps, |order|) && join.dependencies <= Elems(order)
    requires Grown(order, order', open + {join}, step, RowsOfSource(source, places, |order|))
    ensures Laid(order', |start|, rows + RowsOfSource(source, places, |order|))
    ensures DependsAt(order', join.dependencies + {step}, deps + {|order'| - 1}, |order'|)
  {
    hide RowLaid, DependsAt, RowsOfSource;
    LaidGrows(order, order', |start|, rows, open + {join});
    LaidConcat(order', |start|, rows, RowsOfSource(source, places, |order|));
    DependsGrows(order, order', join.dependencies, deps, |order|);
    DependsLater(order', join.dependencies, deps, |order|, |order'|);
    DependsMore(order', join.dependencies, deps, |order'|, |order'| - 1, open + {join});
  }

  lemma {:induction false} DependsLater(order: seq<Step>, ds: set<Step>, idx: set<nat>, n: nat, m: nat)
    requires DependsAt(order, ds, idx, n) && n <= m
    ensures DependsAt(order, ds, idx, m)
  {
  }

  /** The joins of a query, on top of the step they start from. */
  method JoinOn(step: Step, joins: seq<Source>, ctes: map<string, Step>, ghost places: map<string, nat>,
                ghost start: seq<Step>, ghost order: seq<Step>, ghost open: set<Step>, ghost rows: seq<Row>)
    returns (join: Step, ghost order': seq<Step>, ghost steps: seq<Step>)
    requires rows != [] && Grown(start, order, open, step, rows) && CtesAt(ctes, places, order)
    modifies order`dependents
    ensures Grown(start, order', open, join,
              rows + RowsOfJoins(joins, places, |order|, {}, Last(rows).name, |order| - 1))
    ensures order <= order' && fresh(Elems(order') - Elems(order))
    ensures AreSources(steps, joins, ctes) && Elems(steps) <= Elems(order') && IsJoin(join, step, steps)
    decreases joins, 1
  {
    hide Graph, RowLaid, RowsOfJoins, Distinct, DependsAt;
    ghost var sources, deps;
    ghost var name, first := Last(rows).name, |order| - 1;
    LastName(start, order, open, step, rows);
    join, order', sources, deps, steps := FromJoins(joins, ctes, places, order, open, name, first);
    BothLaid(start, order, order', open + {join}, rows, sources);
    Apart(order', open + {join}, join);
    NotAmong(steps, order', join);
    ghost var was := order';
    order' := CloseJoin(join, step, start, order', open, rows + sources, deps, first, name);
    InLonger(was, order');
    assert rows + sources + [Row(JOIN, name, deps + {first})] == rows + (sources + [Row(JOIN, name, deps + {first})]);
  }

  lemma {:induction false} BothLaid(start: seq<Step>, order: seq<Step>, order': seq<Step>, open: set<Step>,
      rows: seq<Row>, more: seq<Row>)
    requires |order| == |start| + |rows| && Laid(order, |start|, rows) && order <= order' && Graph(order', open)
    requires Laid(order', |order|, more)
    ensures Laid(order', |start|, rows + more)
  {
    hide Graph, Laid;
    LaidGrows(order, order', |start|, rows, open);
    LaidConcat(order', |start|, rows, more);
  }

  method CloseJoin(join: Step, step: Step, ghost start: seq<Step>, ghost order: seq<Step>, ghost open: set<Step>,
                   ghost rows: seq<Row>, ghost deps: set<nat>, ghost first: nat, ghost name: Option<string>)
    returns (ghost order': seq<Step>)
    requires Graph(order, open + {join}) && join !in open && start <= order && |order| == |start| + |rows|
    requires Laid(order, |start|, rows)
    requires DependsAt(order, join.dependencies, deps, |order|) && first < |order| && step == order[first]
    requires step.name == name && join.kind == JOIN
    modifies step`dependents, join`dependencies, join`name
    ensures Grown(start, order', open, join, rows + [Row(JOIN, name, deps + {first})]) && order' == order + [join]
    ensures join.dependencies == old(join.dependencies) + {step} && join.name == step.name
  {
    hide RowLaid, DependsAt, Distinct, Grown;
    Apart(order, open + {join}, join);
    DependsMore(order, join.dependencies, deps, |order|, first, open + {join});
    join.name := step.name;
    Depend(join, step, order, open + {join});
    order' := order + [join];
    GrowBy(start, order, open, rows, join, Row(JOIN, name, deps + {first}));
  }

  /** A step on top of another, if it is needed. */
  method OnTop(needed: bool, kind: Kind, first: Step, ghost start: seq<Step>, ghost order: seq<Step>,
      ghost open: set<Step>, ghost rows: seq<Row>)
    returns (step: Step, ghost order': seq<Step>)
    requires rows != [] && Grown(start, order, open, first, rows)
    modifies first`dependents
    ensures Grown(start, order', open, step, TopOf(needed, kind, rows, |start|)) && order <= order'
    ensures fresh(Elems(order') - Elems(order))
    ensures if needed then fresh(step) else step == first
    ensures IsOnTop(needed, kind, first, step)
  {
    step, order' := first, order;
    if needed {
      hide RowLaid, DependsAt, Distinct, Graph;
      LastName(start, order, open, first, rows);
      DependsOn(order, open, |order| - 1);
      step := Open(kind, first.name, order, open);
      Depend(step, first, order, open + {step});
      order' := order + [step];
      GrowBy(start, order, open, rows, step, Row(kind, Last(rows).name, {|start| + |rows| - 1}));
    }
  }

  /** Grouping, ordering and DISTINCT each put a step on top. */
  method Finish(first: Step, q: Query, ghost start: seq<Step>, ghost order: seq<Step>, ghost open: set<Step>,
      ghost rows: seq<Row>)
    returns (step: Step, ghost order': seq<Step>, ghost grouped: Step, ghost sorted: Step)
    requires rows != [] && Grown(start, order, open, first, rows)
    modifies first`dependents
    ensures Grown(start, order', open, step, Finished(rows, q, |start|)) && order <= order'
    ensures fresh(Elems(order') - Elems(order)) && grouped in order' && sorted in order'
    ensures IsOnTop(q.aggregated, AGGREGATE, first, grouped) && IsOnTop(q.ordered, SORT, grouped, sorted)
    ensures IsOnTop(q.distinct && !q.body.SetOp?, AGGREGATE, sorted, step)
  {
    hide TopOf;
    step, order' := OnTop(q.aggregated, AGGREGATE, first, start, order, open, rows);
    grouped := step;
    ghost var was := order';
    hide Grown;
    step, order', sorted := FinishOrdered(step, q, start, order', open, TopOf(q.aggregated, AGGREGATE, rows, |start|));
    InLonger(was, order');
  }

  method FinishOrdered(first: Step, q: Query, ghost start: seq<Step>, ghost order: seq<Step>, ghost open: set<Step>,
      ghost rows: seq<Row>)
    returns (step: Step, ghost order': seq<Step>, ghost sorted: Step)
    requires rows != [] && Grown(start, order, open, first, rows)
    modifies first`dependents
    ensures Grown(start, order', open, step,
              TopOf(q.distinct && !q.body.SetOp?, AGGREGATE, TopOf(q.ordered, SORT, rows, |start|), |start|))
    ensures order <= order' && fresh(Elems(order') - Elems(order)) && sorted in order'
    ensures IsOnTop(q.ordered, SORT, first, sorted) && IsOnTop(q.distinct && !q.body.SetOp?, AGGREGATE, sorted, step)
  {
    hide TopOf;
    step, order' := OnTop(q.ordered, SORT, first, start, order, open, rows);
    sorted := step;
    assert sorted in order';
    hide Grown;
    step, order' := OnTop(q.distinct &&
      !q.body.SetOp?, AGGREGATE, step, start, order', open, TopOf(q.ordered, SORT, rows, |start|));
  }

  /** `Step.from_expression` */
  method FromQuery(q: Query, ctes: map<string, Step>, ghost places: map<string, nat>, ghost order: seq<Step>,
      ghost open: set<Step>)
    returns (step: Step, ghost order': seq<Step>, ghost of: Steps)
    requires Graph(order, open) && CtesAt(ctes, places, order)
    modifies order`dependents
    ensures Grown(order, order', open, step, Rows(q, places, |order|)) && fresh(Elems(order') - Elems(order))
    ensures IsPlan(q, ctes, of, step, order')
    ensures ReachesAll(order', step, Named(q), of.visible) && ReachesAll(order', step, Needed(q), ctes)
    decreases q, 2
  {
    hide Laid, Graph, Rows, RowsOfCtes, RowsOfBody, RowsOfJoins, Finished, IsPlan, SeesCtes, IsSelectOf;
    var named;
    ghost var made, parts;
    named, order', made := FromCtes(q.ctes, ctes, places, order, open);
    ghost var (c, at) := RowsOfCtes(q.ctes, places, |order|);
    RowsOfQuery(q, places, |order|);
    ghost var was := order';
    step, order', parts := FromSelect(q, named, at, order, order', open, c);
    InLonger(was, order');
    of := Steps(made, named, parts);
    MakesPlan(q, ctes, of, step, order');
    CtesLater(named, at, was, order');
    hide *;
    QueryReaches(q, ctes, places, named, order, order', open, step);
  }

  lemma {:induction false} RowsOfQuery(q: Query, ctes: map<string, nat>, base: nat)
    ensures var (c, named) := RowsOfCtes(q.ctes, ctes, base);
      Rows(q, ctes, base) == Finished(c + RowsOfSelect(q, named, base + |c|), q, base)
  {
    hide RowsOfCtes, RowsOfBody, RowsOfJoins, Finished;
    var (c, named) := RowsOfCtes(q.ctes, ctes, base);
    var b := RowsOfBody(q.body, named, base + |c|);
    var j :=
      if q.joins == [] then []
      else RowsOfJoins(q.joins, named, base + |c| + |b|, {}, Last(b).name, base + |c| + |b| - 1);
    assert c + b + j == c + (b + j);
  }

  /** The steps of the body and the joins. */
  ghost function RowsOfSelect(q: Query, ctes: map<string, nat>, base: nat): (rows: seq<Row>)
    ensures rows != []
  {
    var b := RowsOfBody(q.body, ctes, base);
    b + if q.joins == [] then [] else RowsOfJoins(q.joins, ctes, base + |b|, {}, Last(b).name, base + |b| - 1)
  }

  /** The rest of `from_expression`, once the CTEs are there. */
  method FromSelect(q: Query, ctes: map<string, Step>, ghost places: map<string, nat>, ghost start: seq<Step>,
      ghost order: seq<Step>,
                    ghost open: set<Step>, ghost rows: seq<Row>)
    returns (step: Step, ghost order': seq<Step>, ghost parts: Parts)
    requires Graph(order, open) && CtesAt(ctes, places, order) && start <= order && |order| == |start| + |rows|
    requires Laid(order, |start|, rows)
    modifies order`dependents
    ensures Grown(start, order', open, step, Finished(rows + RowsOfSelect(q, places, |order|), q, |start|))
    ensures fresh(Elems(order') - Elems(order)) && order <= order'
    ensures PartsIn(parts, order') && IsSelectOf(q, ctes, parts, step)
    decreases q, 1
  {
    hide Graph, RowLaid, RowsOfBody, RowsOfJoins, RowsOfSelect, Finished, Distinct;
    step, order' := FromBody(q.body, ctes, places, order, open);
    ghost var b := RowsOfBody(q.body, places, |order|);
    GrownMore(start, order, order', open, step, rows, b);
    SelectRows(q, places, |order|, rows);
    step, order', parts :=
      FromBase(step, q, ctes, places, start, order', open, rows + b, rows + RowsOfSelect(q, places, |order|));
  }

  /** What comes on top of the body. */
  method FromBase(base: Step, q: Query, ctes: map<string, Step>, ghost places: map<string, nat>, ghost start: seq<Step>,
      ghost order: seq<Step>, ghost open: set<Step>, ghost rows: seq<Row>, ghost rows': seq<Row>)
    returns (step: Step, ghost order': seq<Step>, ghost parts: Parts)
    requires rows != [] && Grown(start, order, open, base, rows) && CtesAt(ctes, places, order)
    requires OfBody(base, q.body, ctes)
    requires rows' == rows + if q.joins == [] then []
                             else RowsOfJoins(q.joins, places, |order|, {}, Last(rows).name, |order| - 1)
    modifies order`dependents
    ensures Grown(start, order', open, step, Finished(rows', q, |start|))
    ensures fresh(Elems(order') - Elems(order)) && order <= order'
    ensures PartsIn(parts, order') && IsSelectOf(q, ctes, parts, step)
    decreases q, 0
  {
    hide RowsOfJoins, Finished, Graph, Laid, CtesAt, PartsIn, IsSelectOf, Grown;
    GrownEnds(start, order, open, base, rows);
    var joined;
    ghost var sources, grouped, sorted, all;
    joined, all, sources := FromJoined(base, q.joins, ctes, places, start, order, open, rows);
    GrownEnds(start, all, open, joined, rows');
    assert joined in order || fresh(joined);
    step, order', grouped, sorted := Finish(joined, q, start, all, open, rows');
    parts := Parts(base, sources, joined, grouped, sorted);
    InOrder(parts, order, all, order');
    MakesSelect(q, ctes, parts, step);
  }

  lemma {:induction false} GrownEnds(start: seq<Step>, order: seq<Step>, open: set<Step>, step: Step, rows: seq<Row>)
    requires Grown(start, order, open, step, rows)
    ensures step in order
  {
    hide Graph, Laid;
  }

  lemma {:induction false} MakesSelect(q: Query, visible: map<string, Step>, p: Parts, step: Step)
    requires OfBody(p.base, q.body, visible) && AreSources(p.sources, q.joins, visible)
    requires if q.joins == [] then p.joined == p.base else IsJoin(p.joined, p.base, p.sources)
    requires IsOnTop(q.aggregated, AGGREGATE, p.joined, p.grouped) && IsOnTop(q.ordered, SORT, p.grouped, p.sorted)
    requires IsOnTop(q.distinct && !q.body.SetOp?, AGGREGATE, p.sorted, step)
    ensures IsSelectOf(q, visible, p, step)
  {
    hide OfBody, AreSources, IsJoin, IsOnTop;
  }

  lemma {:induction false} InOrder(p: Parts, first: seq<Step>, second: seq<Step>, order: seq<Step>)
    requires first <= second <= order && p.base in first && p.joined in second && Elems(p.sources) <= Elems(second)
    requires p.grouped in order && p.sorted in order
    ensures PartsIn(p, order)
  {
    InLonger(first, second);
    InLonger(second, order);
    forall i | 0 <= i < |p.sources| ensures p.sources[i] in order { assert p.sources[i] in Elems(p.sources); }
    assert p.base in Elems(first) && p.joined in Elems(second);
  }

  lemma {:induction false} SelectRows(q: Query, places: map<string, nat>, base: nat, rows: seq<Row>)
    ensures var b := RowsOfBody(q.body, places, base);
      && Last(rows + b) == Last(b)
      && rows + RowsOfSelect(q, places, base) ==
           rows + b +
             if q.joins == [] then []
             else RowsOfJoins(q.joins, places, base + |b|, {}, Last(b).name, base + |b| - 1)
  {
    hide RowsOfBody, RowsOfJoins;
  }

  method FromJoined(first: Step, joins: seq<Source>, ctes: map<string, Step>, ghost places: map<string, nat>,
                    ghost start: seq<Step>, ghost order: seq<Step>, ghost open: set<Step>, ghost rows: seq<Row>)
    returns (step: Step, ghost order': seq<Step>, ghost sources: seq<Step>)
    requires rows != [] && Grown(start, order, open, first, rows) && CtesAt(ctes, places, order)
    modifies order`dependents
    ensures Grown(start, order', open, step, rows +
              if joins == [] then []
              else RowsOfJoins(joins, places, |order|, {}, Last(rows).name, |order| - 1))
    ensures order <= order' && fresh(Elems(order') - Elems(order))
    ensures AreSources(sources, joins, ctes) && Elems(sources) <= Elems(order')
    ensures if joins == [] then step == first else IsJoin(step, first, sources)
    decreases joins, 2
  {
    step, order', sources := first, order, [];
    if joins != [] {
      step, order', sources := JoinOn(step, joins, ctes, places, start, order, open, rows);
    } else {
      assert rows + [] == rows;
    }
  }

  method FromBody(body: Body, ctes: map<string, Step>, ghost places: map<string, nat>, ghost order: seq<Step>,
      ghost open: set<Step>)
    returns (step: Step, ghost order': seq<Step>)
    requires Graph(order, open) && CtesAt(ctes, places, order)
    modifies order`dependents
    ensures Grown(order, order', open, step, RowsOfBody(body, places, |order|)) && fresh(Elems(order') - Elems(order))
    ensures OfBody(step, body, ctes)
    decreases body, 1
  {
    match body {
      case From(source) => step, order' := FromSource(source, ctes, places, order, open);
      case Static =>
        step := Open(SCAN, None, order, open);
        CloseStep(step, order, open);
        order' := order + [step];
        LastLaid(order, step, open, Row(SCAN, None, {}));
      case SetOp(left, right) => step, order' := FromSetOperation(body, ctes, places, order, open);
    }
  }

  /** `SetOperation.from_expression` */
  method FromSetOperation(body: Body, ctes: map<string, Step>, ghost places: map<string, nat>, ghost order: seq<Step>,
      ghost open: set<Step>)
    returns (step: Step, ghost order': seq<Step>)
    requires Graph(order, open) && CtesAt(ctes, places, order) && body.SetOp?
    modifies order`dependents
    ensures Grown(order, order', open, step, RowsOfBody(body, places, |order|)) && fresh(Elems(order') - Elems(order))
    ensures OfBody(step, body, ctes) && forall d :: d in step.dependencies ==> !Nameless(d.name)
    decreases body, 0
  {
    hide Graph, RowLaid, RowsOfSide, Distinct, CtesAt;
    var l;
    ghost var mid;
    ghost var lefts := RowsOfSide(body.left, "left", places, |order|);
    l, mid := NamedQuery(body.left, "left", ctes, places, order, open);
    CtesLater(ctes, places, order, mid);
    step, order' := FromRight(l, body.right, ctes, places, order, mid, open, lefts);
  }

  /** The other side, and the set operation on top of both. */
  method FromRight(l: Step, right: Query, ctes: map<string, Step>, ghost places: map<string, nat>,
                   ghost start: seq<Step>, ghost order: seq<Step>, ghost open: set<Step>, ghost lefts: seq<Row>)
    returns (step: Step, ghost order': seq<Step>)
    requires lefts != [] && Grown(start, order, open, l, lefts) && CtesAt(ctes, places, order) && !Nameless(l.name)
    modifies order`dependents
    ensures order <= order' && fresh(Elems(order') - Elems(order))
    ensures var rights := RowsOfSide(right, "right", places, |order|);
      Grown(start, order', open, step,
        lefts + rights + [Row(SET_OPERATION, None, {|order| - 1, |order| + |rights| - 1})])
    ensures step.kind == SET_OPERATION && step.name == None
    ensures forall d :: d in step.dependencies ==> !Nameless(d.name)
    decreases right, 4
  {
    hide Graph, RowLaid, RowsOfSide, Distinct, CtesAt;
    var r;
    ghost var both;
    ghost var rights := RowsOfSide(right, "right", places, |order|);
    r, both := NamedQuery(right, "right", ctes, places, order, open);
    GrownMore(start, order, both, open, r, lefts, rights);
    step, order' := OnBoth(l, r, |order| - 1, |both| - 1, start, both, open, lefts + rights);
  }

  lemma {:induction false} CtesLater(ctes: map<string, Step>, places: map<string, nat>, order: seq<Step>,
      order': seq<Step>)
    requires CtesAt(ctes, places, order) && order <= order'
    ensures CtesAt(ctes, places, order')
  {
  }

  method OnBoth(l: Step, r: Step, ghost i: nat, ghost j: nat, ghost start: seq<Step>, ghost order: seq<Step>,
      ghost open: set<Step>, ghost rows: seq<Row>)
    returns (step: Step, ghost order': seq<Step>)
    requires Graph(order, open) && i < |order| && j < |order| && l == order[i] && r == order[j]
    requires start <= order && |order| == |start| + |rows| && Laid(order, |start|, rows)
    modifies l`dependents, r`dependents
    ensures fresh(step) && order' == order + [step] && step.kind == SET_OPERATION && step.name == None
    ensures step.dependencies == {l, r}
    ensures Grown(start, order', open, step, rows + [Row(SET_OPERATION, None, {i, j})])
  {
    hide RowLaid, DependsAt, Distinct, Graph;
    DependsOnBoth(order, open, i, j);
    step := Open(SET_OPERATION, None, order, open);
    Depend(step, l, order, open + {step});
    Depend(step, r, order, open + {step});
    assert step.dependencies == {l, r};
    order' := order + [step];
    GrowBy(start, order, open, rows, step, Row(SET_OPERATION, None, {i, j}));
  }

  /** A side of a set operation; it gets a name if it has none. */
  method NamedQuery(q: Query, name: string, ctes: map<string, Step>, ghost places: map<string, nat>,
      ghost order: seq<Step>, ghost open: set<Step>)
    returns (step: Step, ghost order': seq<Step>)
    requires Graph(order, open) && CtesAt(ctes, places, order)
    modifies order`dependents
    ensures Grown(order, order', open, step, RowsOfSide(q, name, places, |order|))
    ensures fresh(Elems(order') - Elems(order)) && (name != "" ==> !Nameless(step.name))
    decreases q, 3
  {
    hide IsPlan, ReachesAll, Graph, Laid, Rows, CtesAt;
    ghost var of;
    step, order', of := FromQuery(q, ctes, places, order, open);
    ghost var rows := Rows(q, places, |order|);
    LastName(order, order', open, step, rows);
    if Nameless(step.name) {
      Rename(step, name, order, order', open, rows);
    }
  }

  /** Each CTE sees the ones before it. */
  method FromCtes(cs: seq<Cte>, ctes: map<string, Step>, ghost places: map<string, nat>, ghost order: seq<Step>,
      ghost open: set<Step>)
    returns (named: map<string, Step>, ghost order': seq<Step>, ghost made: seq<Step>)
    requires Graph(order, open) && CtesAt(ctes, places, order)
    modifies order`dependents
    ensures Graph(order', open) && order <= order' && fresh(Elems(order') - Elems(order))
    ensures Elems(made) <= Elems(order') && SeesCtes(cs, ctes, made, named)
    ensures var (rows, at) := RowsOfCtes(cs, places, |order|);
      CtesAt(named, at, order') && |order'| == |order| + |rows| && Laid(order', |order|, rows)
    decreases cs, 0
  {
    hide Graph, Laid, RowsOfCte, RowsOfCtes, CtesAt, SeesCtes;
    named, order', made := ctes, order, [];
    SeesNone(cs, ctes);
    ghost var at: map<string, nat>, rows: seq<Row> := places, [];
    NoCtes(order, cs, places);
    for i := 0 to |cs|
      invariant Graph(order', open) && order <= order' && fresh(Elems(order') - Elems(order))
      invariant CtesAt(named, at, order') && |order'| == |order| + |rows| && Laid(order', |order|, rows)
      invariant RowsOfCtes(cs, places, |order|) ==
                  (rows + RowsOfCtes(cs[i..], at, |order'|).0, RowsOfCtes(cs[i..], at, |order'|).1)
      invariant Elems(made) <= Elems(order') && SeesCtes(cs[..i], ctes, made, named)
    {
      hide Graph, Laid, RowsOfCte, RowsOfCtes, CtesAt, SeesCtes;
      ghost var r := RowsOfCte(cs[i], at, |order'|);
      MoreCtes(cs, i, at, |order'|, rows);
      ghost var at' := at[cs[i].alias := |order'| + |r| - 1];
      named, order', made := NextCte(cs, i, ctes, named, made, at, order, order', open, rows);
      at, rows := at', rows + r;
    }
    assert cs[|cs|..] == [] && cs[..|cs|] == cs;
    LastCte(at, |order'|, rows);
  }

  lemma {:induction false} SeesNone(cs: seq<Cte>, outside: map<string, Step>)
    ensures SeesCtes(cs[..0], outside, [], outside)
  {
  }

  method NextCte(cs: seq<Cte>, i: nat, ghost outside: map<string, Step>, ctes: map<string, Step>, ghost made: seq<Step>,
      ghost places: map<string, nat>, ghost start: seq<Step>, ghost order: seq<Step>, ghost open: set<Step>,
      ghost rows: seq<Row>)
    returns (named: map<string, Step>, ghost order': seq<Step>, ghost made': seq<Step>)
    requires i < |cs| && Elems(made) <= Elems(order) && SeesCtes(cs[..i], outside, made, ctes)
    requires Graph(order, open) && CtesAt(ctes, places, order) && start <= order && |order| == |start| + |rows|
    requires Laid(order, |start|, rows)
    modifies order`dependents
    ensures Graph(order', open) && order <= order' && fresh(Elems(order') - Elems(order))
    ensures var r := RowsOfCte(cs[i], places, |order|);
      && |order'| == |order| + |r| && Laid(order', |start|, rows + r)
      && CtesAt(named, places[cs[i].alias := |order'| - 1], order')
    ensures Elems(made') <= Elems(order') && SeesCtes(cs[..i + 1], outside, made', named)
    decreases cs[i], 2
  {
    hide Graph, Laid, RowsOfCte, CtesAt;
    ghost var s;
    named, order', s := AddCte(cs[i], ctes, places, start, order, open, rows);
    SeesMore(cs, i, outside, made, ctes, s);
    InLonger(order, order');
    assert forall x :: x in made + [s] ==> x in made || x == s;
    made' := made + [s];
  }

  lemma {:induction false} NoCtes(order: seq<Step>, cs: seq<Cte>, at: map<string, nat>)
    ensures Laid(order, |order|, [])
    ensures RowsOfCtes(cs, at, |order|) == ([] + RowsOfCtes(cs[0..], at, |order|).0, RowsOfCtes(cs[0..], at, |order|).1)
  {
    hide RowsOfCtes;
    assert cs[0..] == cs;
    assert [] + RowsOfCtes(cs, at, |order|).0 == RowsOfCtes(cs, at, |order|).0;
  }

  lemma {:induction false} MoreCtes(cs: seq<Cte>, i: nat, at: map<string, nat>, base: nat, rows: seq<Row>)
    requires i < |cs|
    ensures var r := RowsOfCte(cs[i], at, base);
      var rest := RowsOfCtes(cs[i + 1..], at[cs[i].alias := base + |r| - 1], base + |r|);
      (rows + RowsOfCtes(cs[i..], at, base).0, RowsOfCtes(cs[i..], at, base).1) == (rows + r + rest.0, rest.1)
  {
    hide RowsOfCte;
    assert cs[i..][0] == cs[i] && cs[i..][1..] == cs[i + 1..];
    var r := RowsOfCte(cs[i], at, base);
    var rest := RowsOfCtes(cs[i + 1..], at[cs[i].alias := base + |r| - 1], base + |r|);
    assert RowsOfCtes(cs[i..], at, base) == (r + rest.0, rest.1);
    assert rows + (r + rest.0) == rows + r + rest.0;
  }

  lemma {:induction false} LastCte(at: map<string, nat>, base: nat, rows: seq<Row>)
    ensures (rows + RowsOfCtes([], at, base).0, RowsOfCtes([], at, base).1) == (rows, at)
  {
    assert rows + [] == rows;
  }

  method AddCte(c: Cte, ctes: map<string, Step>, ghost places: map<string, nat>, ghost start: seq<Step>,
      ghost order: seq<Step>, ghost open: set<Step>, ghost rows: seq<Row>)
    returns (named: map<string, Step>, ghost order': seq<Step>, ghost made: Step)
    requires Graph(order, open) && CtesAt(ctes, places, order) && start <= order && |order| == |start| + |rows|
    requires Laid(order, |start|, rows)
    modifies order`dependents
    ensures Graph(order', open) && order <= order' && fresh(Elems(order') - Elems(order))
    ensures var r := RowsOfCte(c, places, |order|);
      && |order'| == |order| + |r| && Laid(order', |start|, rows + r)
      && CtesAt(named, places[c.alias := |order'| - 1], order')
    ensures made in order' && made.name == Some(c.alias) && named == ctes[c.alias := made]
    decreases c, 1
  {
    hide Graph, RowLaid, RowsOfCte, Distinct;
    var step;
    step, order' := FromCte(c, ctes, places, order, open);
    GrownMore(start, order, order', open, step, rows, RowsOfCte(c, places, |order|));
    named := ctes[c.alias := step];
    made := step;
  }

  method FromCte(c: Cte, ctes: map<string, Step>, ghost places: map<string, nat>, ghost order: seq<Step>,
      ghost open: set<Step>)
    returns (step: Step, ghost order': seq<Step>)
    requires Graph(order, open) && CtesAt(ctes, places, order)
    modifies order`dependents
    ensures Grown(order, order', open, step, RowsOfCte(c, places, |order|)) && fresh(Elems(order') - Elems(order))
    ensures step.name == Some(c.alias)
    decreases c, 0
  {
    hide Graph, Laid, Rows, Renamed;
    ghost var of;
    step, order', of := FromQuery(c.query, ctes, places, order, open);
    Rename(step, c.alias, order, order', open, Rows(c.query, places, |order|));
  }

  // ---- Enumerating the graph ----

  /** A walk along dependencies, as positions in `order`. */
  ghost predicate Walk(order: seq<Step>, p: seq<nat>)
    reads order`dependencies
  {
    && p != [] && (forall i :: 0 <= i < |p| ==> p[i] < |order|)
    && forall i, j {:trigger p[i], p[j]} :: 0 <= i && j == i + 1 && j < |p| ==> order[p[j]] in order[p[i]].dependencies
  }

  ghost predicate Reachable(order: seq<Step>, root: Step, s: Step)
    reads order`dependencies
  {
    exists p {:trigger Walk(order, p)} :: Walk(order, p) && order[p[0]] == root && order[p[|p| - 1]] == s
  }

  lemma {:induction false} RootReachable(order: seq<Step>, root: Step)
    requires root in order
    ensures Reachable(order, root, root)
  {
    var i :| 0 <= i < |order| && order[i] == root;
    assert Walk(order, [i]);
  }

  lemma {:induction false} NextReachable(order: seq<Step>, root: Step, s: Step, d: Step)
    requires Reachable(order, root, s) && d in s.dependencies && d in order
    ensures Reachable(order, root, d)
  {
    var p: seq<nat> :| Walk(order, p) && order[p[0]] == root && order[p[|p| - 1]] == s;
    var i :| 0 <= i < |order| && order[i] == d;
    var q: seq<nat> := p + [i];
    assert Walk(order, q);
    assert q[0] == p[0] && q[|q| - 1] == i;
  }

  /** A set that holds the root and the dependencies of all its members holds every reachable step. */
  lemma {:induction false} ClosedHoldsAll(order: seq<Step>, root: Step, all: set<Step>, p: seq<nat>, n: nat)
    requires Walk(order, p) && order[p[0]] == root && root in all && n < |p|
    requires forall s :: s in all ==> s in order && s.dependencies <= all
    ensures order[p[n]] in all
  {
    if n > 0 {
      ClosedHoldsAll(order, root, all, p, n - 1);
      assert order[p[n]] in order[p[n - 1]].dependencies;
    }
  }

  /** One more step in front of a walk. */
  lemma {:induction false} ReachableBefore(order: seq<Step>, i: nat, d: Step, s: Step)
    requires i < |order| && d in order[i].dependencies && Reachable(order, d, s)
    ensures Reachable(order, order[i], s)
  {
    var p: seq<nat> :| Walk(order, p) && order[p[0]] == d && order[p[|p| - 1]] == s;
    var q: seq<nat> := [i] + p;
    forall j, k {:trigger q[j], q[k]} | 0 <= j && k == j + 1 && k < |q|
      ensures order[q[k]] in order[q[j]].dependencies
    {
      if j > 0 { assert q[j] == p[j - 1] && q[k] == p[k - 1]; }
    }
    assert Walk(order, q);
    assert q[0] == i && q[|q| - 1] == p[|p| - 1];
  }

  /** Where rows lead, the steps laid by them do. */
  lemma {:induction false} LedReachable(order: seq<Step>, base: nat, rows: seq<Row>, i: nat, j: nat)
    requires Laid(order, base, rows) && Leads(rows, base, i, j) && i < |order| && j < |order|
    ensures Reachable(order, order[i], order[j])
    decreases i
  {
    if i == j {
      RootReachable(order, order[i]);
    } else {
      hide Reachable;
      var d: nat :| d in rows[i - base].deps && d < i && Leads(rows, base, d, j);
      assert RowLaid(order, order[base + (i - base)], base + (i - base), rows[i - base]);
      LedReachable(order, base, rows, d, j);
      ReachableBefore(order, i, order[d], order[j]);
    }
  }

  /** Every step that is visible under these names can be reached. */
  ghost predicate ReachesAll(order: seq<Step>, root: Step, names: set<string>, visible: map<string, Step>)
    reads order`dependencies
  {
    forall n :: n in names && n in visible ==> visible[n] in order && Reachable(order, root, visible[n])
  }

  lemma {:induction false} AllReached(order: seq<Step>, base: nat, rows: seq<Row>, names: set<string>,
      places: map<string, nat>, visible: map<string, Step>)
    requires Laid(order, base, rows) && rows != [] && |order| == base + |rows| && CtesAt(visible, places, order)
    requires LeadsToAll(rows, base, base + |rows| - 1, names, places)
    ensures ReachesAll(order, order[|order| - 1], names, visible)
  {
    hide Laid, Leads, Reachable;
    forall n | n in names && n in visible
      ensures visible[n] in order && Reachable(order, order[|order| - 1], visible[n])
    {
      LedReachable(order, base, rows, base + |rows| - 1, places[n]);
    }
  }

  /** The step of a query reaches the CTEs that its sources name, and all that it needs from outside. */
  lemma {:induction false} QueryReaches(q: Query, outside: map<string, Step>, places: map<string, nat>,
      visible: map<string, Step>, start: seq<Step>, order: seq<Step>, open: set<Step>, step: Step)
    requires CtesAt(outside, places, start) && Grown(start, order, open, step, Rows(q, places, |start|))
    requires CtesAt(visible, RowsOfCtes(q.ctes, places, |start|).1, order)
    ensures ReachesAll(order, step, Named(q), visible) && ReachesAll(order, step, Needed(q), outside)
  {
    hide Graph, Laid, LeadsToAll, ReachesAll, Rows, RowsOfCtes, Named, Needed;
    assert Before(places, |start|);
    CtesLater(outside, places, start, order);
    QueryLeads(q, places, |start|);
    var rows := Rows(q, places, |start|);
    AllReached(order, |start|, rows, Named(q), RowsOfCtes(q.ctes, places, |start|).1, visible);
    AllReached(order, |start|, rows, Needed(q), places, outside);
  }

  ghost function Pow2(n: nat): nat { if n == 0 then 1 else 2 * Pow2(n - 1) }

  /** The worklist, read as a binary number: later steps count more than all earlier ones together. */
  ghost function Weight(nodes: set<Step>, order: seq<Step>, n: nat): nat
    requires n <= |order|
  {
    if n == 0 then 0 else Weight(nodes, order, n - 1) + if order[n - 1] in nodes then Pow2(n - 1) else 0
  }

  lemma {:induction false} WeightBound(nodes: set<Step>, order: seq<Step>, n: nat)
    requires n <= |order|
    ensures Weight(nodes, order, n) < Pow2(n)
  {
    if n > 0 { WeightBound(nodes, order, n - 1); }
  }

  lemma {:induction false} WeightDrops(nodes: set<Step>, nodes': set<Step>, order: seq<Step>, i: nat, n: nat)
    requires i < n <= |order| && order[i] in nodes && order[i] !in nodes'
    requires forall j :: i < j < n && order[j] in nodes' ==> order[j] in nodes
    ensures Weight(nodes', order, n) < Weight(nodes, order, n)
  {
    if n == i + 1 {
      WeightBound(nodes', order, i);
    } else {
      WeightDrops(nodes, nodes', order, i, n - 1);
    }
  }

  /** The dependencies of a step weigh less than the step. */
  lemma {:induction false} StepDrops(nodes: set<Step>, s: Step, order: seq<Step>)
    requires Graph(order, {}) && s in order && s in nodes
    ensures s.dependencies <= Elems(order)
    ensures Weight(nodes - {s} + s.dependencies, order, |order|) < Weight(nodes, order, |order|)
  {
    Inside(order, {});
    var i :| 0 <= i < |order| && order[i] == s;
    var nodes' := nodes - {s} + s.dependencies;
    forall j | i <= j < |order| ensures order[j] !in s.dependencies {
      assert order[j] !in order[..i];
    }
    WeightDrops(nodes, nodes', order, i, |order|);
  }

  /** The steps found so far have their dependencies recorded, and found or waiting. */
  ghost predicate Enumerating(dag: map<Step, set<Step>>, nodes: set<Step>, order: seq<Step>, root: Step)
    reads order`dependencies
  {
    && root in dag.Keys + nodes && dag.Keys + nodes <= Elems(order)
    && (forall s :: s in dag.Keys + nodes ==> Reachable(order, root, s))
    && (forall s :: s in dag ==> s in order && dag[s] == s.dependencies && dag[s] <= dag.Keys + nodes)
  }

  /** Exactly the reachable steps, with exactly their dependencies. */
  ghost predicate IsDag(dag: map<Step, set<Step>>, order: seq<Step>, root: Step)
    reads order`dependencies
  {
    && (forall s :: s in order ==> (s in dag <==> Reachable(order, root, s)))
    && (forall s :: s in dag ==> s in order && dag[s] == s.dependencies)
  }

  lemma {:induction false} Enumerated(dag: map<Step, set<Step>>, order: seq<Step>, root: Step)
    requires Enumerating(dag, {}, order, root)
    ensures IsDag(dag, order, root)
  {
    forall s | s in order && Reachable(order, root, s) ensures s in dag {
      var p: seq<nat> :| Walk(order, p) && order[p[0]] == root && order[p[|p| - 1]] == s;
      ClosedHoldsAll(order, root, dag.Keys, p, |p| - 1);
    }
  }

  lemma {:induction false} EnumeratedMore(dag: map<Step, set<Step>>, nodes: set<Step>, order: seq<Step>, root: Step,
      s: Step)
    requires Graph(order, {}) && Enumerating(dag, nodes, order, root) && s in nodes
    ensures Enumerating(dag[s := s.dependencies], nodes - {s} + s.dependencies, order, root)
  {
    Inside(order, {});
    forall d | d in s.dependencies ensures Reachable(order, root, d) {
      NextReachable(order, root, s, d);
    }
  }

  /** One turn of the worklist: the step's dependencies are recorded, and all of them wait again. */
  method VisitStep(node: Step, dag: map<Step, set<Step>>, nodes: set<Step>)
    returns (dag': map<Step, set<Step>>, nodes': set<Step>)
    requires node in nodes
    ensures dag' == dag[node := node.dependencies] && nodes' == nodes - {node} + node.dependencies
  {
    nodes', dag' := nodes - {node}, dag[node := {}];
    var rest := node.dependencies;
    assert rest - rest == {};
    while rest != {}
      invariant rest <= node.dependencies
      invariant dag' == dag[node := node.dependencies - rest] && nodes' == nodes - {node} + (node.dependencies - rest)
    {
      var dep := Pick(rest);
      assert node.dependencies - rest + {dep} == node.dependencies - (rest - {dep});
      dag', nodes', rest := dag'[node := dag'[node] + {dep}], nodes' + {dep}, rest - {dep};
    }
    assert node.dependencies - rest == node.dependencies;
  }

  /** The worklist loop. Nothing keeps a step from coming back after it has been seen; it ends nevertheless. */
  method Enumerate(root: Step, ghost order: seq<Step>) returns (dag: map<Step, set<Step>>)
    requires Graph(order, {}) && root in order
    ensures IsDag(dag, order, root)
  {
    hide Enumerating, Graph, Weight, IsDag;
    dag := map[];
    var nodes := {root};
    RootEnumerated(order, root);
    while nodes != {}
      invariant Enumerating(dag, nodes, order, root)
      decreases Weight(nodes, order, |order|)
    {
      hide Enumerating, Graph, Weight, IsDag;
      var node := Pick(nodes);
      NodeInside(dag, nodes, order, root, node);
      StepDrops(nodes, node, order);
      EnumeratedMore(dag, nodes, order, root, node);
      dag, nodes := VisitStep(node, dag, nodes);
    }
    Enumerated(dag, order, root);
  }

  lemma {:induction false} RootEnumerated(order: seq<Step>, root: Step)
    requires root in order
    ensures Enumerating(map[], {root}, order, root)
  {
    RootReachable(order, root);
  }

  lemma {:induction false} NodeInside(dag: map<Step, set<Step>>, nodes: set<Step>, order: seq<Step>, root: Step,
      s: Step)
    requires Enumerating(dag, nodes, order, root) && s in nodes
    ensures s in order
  {
  }

  lemma {:induction false} NoDependency(order: seq<Step>, idx: set<nat>, n: nat)
    requires DependsAt(order, {}, idx, n) && n <= |order|
    ensures idx == {}
  {
    assert forall j :: j in idx ==> j < n && order[j] in {};
  }

  lemma {:induction false} EmptyGraph()
    ensures Graph([], {}) && CtesAt(map[], map[], [])
  {
  }

  class Plan {
    const root: Step
    var dagCache: map<Step, set<Step>>
    ghost const order: seq<Step>
    ghost const query: Query
    ghost const of: Steps

    ghost predicate Valid()
      reads this, order
    {
      && |order| == |Rows(query, map[], 0)| && Laid(order, 0, Rows(query, map[], 0))
      && Graph(order, {}) && order != [] && root == order[|order| - 1]
      && IsPlan(query, map[], of, root, order) && ReachesAll(order, root, Named(query), of.visible)
      && (dagCache == map[] || IsDag(dagCache, order, root))
    }

    constructor (q: Query)
      ensures Valid() && query == q && fresh(Elems(order))
    {
      hide IsPlan, Laid, Graph, Rows, ReachesAll;
      EmptyGraph();
      var r;
      ghost var steps;
      ghost var built;
      r, steps, built := FromQuery(q, map[], map[], [], {});
      root, order, query, of := r, steps, q, built;
      dagCache := map[];
    }

    /** A step without dependencies, which is what `leaves` yields, is a scan. */
    lemma {:induction false} LeavesAreScans(s: Step)
      requires Valid() && s in order && s.dependencies == {}
      ensures s.kind == SCAN
    {
      hide IsPlan, Rows, Graph, ReachesAll;
      var rows := Rows(query, map[], 0);
      QueryOk(query, map[], 0);
      var i :| 0 <= i < |order| && order[i] == s;
      assert RowLaid(order, order[0 + i], 0 + i, rows[i]) && RowOk(rows[i], 0 + i);
      NoDependency(order, rows[i].deps, i);
    }

    /** The graph holds every CTE that a source of the query sees and names. */
    lemma {:induction false} NamedCtesInDag(dag: map<Step, set<Step>>, name: string)
      requires Valid() && IsDag(dag, order, root) && name in Named(query) && name in of.visible
      ensures of.visible[name] in dag
    {
      hide IsPlan, Rows, Graph, Laid;
    }

    /** `dag`, computed once. */
    method Dag() returns (dag: map<Step, set<Step>>)
      requires Valid()
      modifies this`dagCache
      ensures Valid() && dag == dagCache && IsDag(dag, order, root)
    {
      hide IsPlan, Laid, Graph, ReachesAll;
      if dagCache == map[] {
        dag := Enumerate(root, order);
        dagCache := dag;
      }
      dag := dagCache;
    }
  }

  // ---- What the steps look like ----

  /** A step comes after its dependencies. Sorting and grouping depend on one step, a set operation on two,
      a join on at least one, and only a scan may depend on none. */
  ghost predicate RowOk(row: Row, n: nat) {
    && (forall d :: d in row.deps ==> d < n)
    && (match row.kind
        case SCAN => |row.deps| <= 1
        case JOIN => row.deps != {}
        case AGGREGATE => |row.deps| == 1
        case SORT => |row.deps| == 1
        case SET_OPERATION => |row.deps| == 2)
  }

  ghost predicate RowsOk(rows: seq<Row>, base: nat) {
    forall i :: 0 <= i < |rows| ==> RowOk(rows[i], base + i)
  }

  ghost predicate Before(ctes: map<string, nat>, base: nat) {
    forall k :: k in ctes ==> ctes[k] < base
  }

  lemma {:induction false} ConcatOk(rows: seq<Row>, more: seq<Row>, base: nat)
    requires RowsOk(rows, base) && RowsOk(more, base + |rows|)
    ensures RowsOk(rows + more, base)
  {
    forall i | |rows| <= i < |rows + more| ensures RowOk((rows + more)[i], base + i) {
      assert RowOk(more[i - |rows|], base + |rows| + (i - |rows|));
    }
  }

  lemma {:induction false} TopOk(needed: bool, kind: Kind, rows: seq<Row>, base: nat)
    requires rows != [] && RowsOk(rows, base) && (kind == AGGREGATE || kind == SORT)
    ensures RowsOk(TopOf(needed, kind, rows, base), base)
  {
  }

  lemma {:induction false} QueryOk(q: Query, ctes: map<string, nat>, base: nat)
    requires Before(ctes, base)
    ensures RowsOk(Rows(q, ctes, base), base)
    decreases q, 2
  {
    hide RowOk, RowsOfCtes, RowsOfBody, RowsOfJoins, TopOf;
    var (c, named) := RowsOfCtes(q.ctes, ctes, base);
    CtesOk(q.ctes, ctes, base);
    var b := RowsOfBody(q.body, named, base + |c|);
    BodyOk(q.body, named, base + |c|);
    ConcatOk(c, b, base);
    var rows := c + b;
    if q.joins != [] {
      var j := RowsOfJoins(q.joins, named, base + |c| + |b|, {}, Last(b).name, base + |c| + |b| - 1);
      JoinsOk(q.joins, named, base + |c| + |b|, {}, Last(b).name, base + |c| + |b| - 1);
      ConcatOk(rows, j, base);
      rows := rows + j;
    } else {
      assert rows + [] == rows;
    }
    TopOk(q.aggregated, AGGREGATE, rows, base);
    TopOk(q.ordered, SORT, TopOf(q.aggregated, AGGREGATE, rows, base), base);
    TopOk(q.distinct &&
      !q.body.SetOp?, AGGREGATE, TopOf(q.ordered, SORT, TopOf(q.aggregated, AGGREGATE, rows, base), base), base);
  }

  lemma {:induction false} RenamedOk(rows: seq<Row>, name: string, base: nat)
    requires rows != [] && RowsOk(rows, base)
    ensures RowsOk(Renamed(rows, name), base)
  {
  }

  lemma {:induction false} CtesOk(cs: seq<Cte>, ctes: map<string, nat>, base: nat)
    requires Before(ctes, base)
    ensures var (rows, named) := RowsOfCtes(cs, ctes, base); RowsOk(rows, base) && Before(named, base + |rows|)
    decreases cs, 0
  {
    if cs != [] {
      hide RowOk, RowsOfCte;
      var r := RowsOfCte(cs[0], ctes, base);
      CteOk(cs[0], ctes, base);
      var at := ctes[cs[0].alias := base + |r| - 1];
      CtesOk(cs[1..], at, base + |r|);
      ConcatOk(r, RowsOfCtes(cs[1..], at, base + |r|).0, base);
    }
  }

  lemma {:induction false} CteOk(c: Cte, ctes: map<string, nat>, base: nat)
    requires Before(ctes, base)
    ensures RowsOk(RowsOfCte(c, ctes, base), base)
    decreases c, 0
  {
    QueryOk(c.query, ctes, base);
    RenamedOk(Rows(c.query, ctes, base), c.alias, base);
  }

  lemma {:induction false} SourceOk(source: Source, ctes: map<string, nat>, base: nat)
    requires Before(ctes, base)
    ensures RowsOk(RowsOfSource(source, ctes, base), base)
    decreases source, 0
  {
    match source {
      case Table(_, _) =>
      case Derived(query, alias) =>
        QueryOk(query, ctes, base);
        RenamedOk(Rows(query, ctes, base), alias, base);
    }
  }

  lemma {:induction false} JoinsOk(joins: seq<Source>, ctes: map<string, nat>, base: nat, deps: set<nat>,
      name: Option<string>, first: nat)
    requires Before(ctes, base) && first < base && forall d :: d in deps ==> d < base
    ensures RowsOk(RowsOfJoins(joins, ctes, base, deps, name, first), base)
    decreases joins, 0
  {
    hide RowOk, RowsOk, RowsOfSource;
    if joins == [] {
      JoinOk(deps, first, base, name);
    } else {
      var r := RowsOfSource(joins[0], ctes, base);
      SourceOk(joins[0], ctes, base);
      JoinsOk(joins[1..], ctes, base + |r|, deps + {base + |r| - 1}, name, first);
      ConcatOk(r, RowsOfJoins(joins[1..], ctes, base + |r|, deps + {base + |r| - 1}, name, first), base);
    }
  }

  lemma {:induction false} JoinOk(deps: set<nat>, first: nat, n: nat, name: Option<string>)
    requires first < n && forall d :: d in deps ==> d < n
    ensures RowsOk([Row(JOIN, name, deps + {first})], n)
  {
    assert first in deps + {first};
  }

  lemma {:induction false} SideOk(q: Query, name: string, ctes: map<string, nat>, base: nat)
    requires Before(ctes, base)
    ensures RowsOk(RowsOfSide(q, name, ctes, base), base)
    decreases q, 3
  {
    QueryOk(q, ctes, base);
    RenamedOk(Rows(q, ctes, base), name, base);
  }

  lemma {:induction false} BodyOk(body: Body, ctes: map<string, nat>, base: nat)
    requires Before(ctes, base)
    ensures RowsOk(RowsOfBody(body, ctes, base), base)
    decreases body, 1
  {
    match body {
      case From(source) => SourceOk(source, ctes, base);
      case Static =>
      case SetOp(left, right) =>
        hide RowsOfSide;
        var l := RowsOfSide(left, "left", ctes, base);
        SideOk(left, "left", ctes, base);
        var r := RowsOfSide(right, "right", ctes, base + |l|);
        SideOk(right, "right", ctes, base + |l|);
        ConcatOk(l, r, base);
        BothOk(base + |l| - 1, base + |l| + |r| - 1, base + |l| + |r|);
        ConcatOk(l + r, [Row(SET_OPERATION, None, {base + |l| - 1, base + |l| + |r| - 1})], base);
    }
  }

  lemma {:induction false} BothOk(i: nat, j: nat, n: nat)
    requires i < j < n
    ensures RowsOk([Row(SET_OPERATION, None, {i, j})], n)
  {
  }
}
