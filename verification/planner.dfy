/**
 * The plan compiler `plan` (planner.go): it turns an expression into a tree
 * of plan nodes, recognising the `count` aggregate and the `select` form
 * with its `columns`, `table`, `where` and `group` clauses.
 *
 * The Go code builds one ScanNode and updates its fields clause by clause;
 * a GroupNode it creates points at that same ScanNode, so later clauses
 * still change the group's source. Only the returned node is observable
 * afterwards, so the model carries the scan's fields through the clause
 * loop and builds the Group around the scan's final state at the end.
 */
module Planner {

  import opened Wrappers
  import opened Expressions

  datatype Filter = Filter(operator: string, arguments: seq<Node>)

  datatype Node =
    | Const(value: Expression)
    | SymbolRef(symbol: string)
    | Table(tableName: string)
    /** `count`; an argument that plans to nil is kept as None. */
    | Aggregate(functionName: string, arguments: seq<Option<Node>>)
    | Scan(source: Option<Node>, columns: seq<Node>, filters: seq<Filter>)
    | Join
    /** `groupSource` and `keys` are the GroupNode's Source and Group fields. */
    | Group(groupSource: Node, keys: seq<Node>, columns: seq<Node>)

  /** The Go panics `plan` can raise, one per cause. */
  datatype PlanFailure =
    | EmptyList                              // listExp[0] on ()
    | ClauseNotList(clause: Expression)      // nextExp.(List)
    | EmptyClause                            // nextExpList[0] on ()
    | TableWithoutArgument                   // nextExpList[1] on (table)
    | WhereEntryNotList(entry: Expression)   // whereExp.(List)
    | EmptyWhereEntry                        // whereExpList[0] on ()
    | OperatorNotSymbol(operator: Expression) // whereExpList[0].(Symbol)
    | UnplannableColumn(column: Expression)  // panic(columnExp.ExprToStr())
    | UnplannableGroupKey(key: Expression)   // the same panic for a group key

  /** What `plan` does: return a node, return nil, or panic. */
  datatype PlanResult = Planned(node: Node) | NoPlan | PlanPanic(failure: PlanFailure)

  /** A fold step either continues with a value or stops with a panic. */
  datatype Step<T> = Continue(value: T) | Abort(failure: PlanFailure)

  /** What `result` is: the scan itself, or a GroupNode over it. */
  datatype Shape = ScanItself | GroupOf(columns: seq<Node>, keys: seq<Node>)

  /** The variables of the clause loop: the scan's three fields, the
      `columns` slice, the two flags and the shape of `result`. */
  datatype SelectState = SelectState(
    source: Option<Node>, scanColumns: seq<Node>, filters: seq<Filter>,
    columns: seq<Node>, hasGroup: bool, hasAggregate: bool, result: Shape)

  const Initial := SelectState(None, [], [], [], false, false, ScanItself)

  /** The node the loop's variables stand for once the loop is over. */
  function Finish(st: SelectState): Node {
    var scan := Scan(st.source, st.scanColumns, st.filters);
    match st.result
    case ScanItself => scan
    case GroupOf(columns, keys) => Group(scan, keys, columns)
  }

  /** plan */
  function PlanOf(e: Expression): PlanResult
    decreases e, 3
  {
    match e
    case Symbol(name) => Planned(SymbolRef(name))
    case String(_) => Planned(Const(e))
    case Number(_) => Planned(Const(e))
    case Bool(_) => Planned(Const(e))
    case List(xs) =>
      if |xs| == 0 then PlanPanic(EmptyList)
      else if xs[0] == Symbol("count") then
        match PlanCountArguments(e, 1, [])
        case Abort(f) => PlanPanic(f)
        case Continue(args) => Planned(Aggregate("count", args))
      else if xs[0] == Symbol("select") then
        match PlanClauses(e, 1, Initial)
        case Abort(f) => PlanPanic(f)
        case Continue(st) => Planned(Finish(st))
      else NoPlan
    case _ => NoPlan
  }

  /** The argument loop of `count`, from the i-th element of `e` on. */
  function PlanCountArguments(e: Expression, i: nat, args: seq<Option<Node>>): Step<seq<Option<Node>>>
    requires e.List? && 1 <= i <= |e.items|
    decreases e, 0, |e.items| - i
  {
    if i == |e.items| then Continue(args)
    else match PlanOf(e.items[i])
      case PlanPanic(f) => Abort(f)
      case NoPlan => PlanCountArguments(e, i + 1, args + [None])
      case Planned(n) => PlanCountArguments(e, i + 1, args + [Some(n)])
  }

  /** The clause loop of `select`, from the i-th element of `e` on. */
  function PlanClauses(e: Expression, i: nat, st: SelectState): Step<SelectState>
    requires e.List? && 1 <= i <= |e.items|
    decreases e, 2, |e.items| - i
  {
    if i == |e.items| then Continue(st)
    else match PlanClause(e.items[i], st)
      case Abort(f) => Abort(f)
      case Continue(st') => PlanClauses(e, i + 1, st')
  }

  /** One pass of the clause loop: the clause itself, then the flag checks. */
  function PlanClause(c: Expression, st: SelectState): Step<SelectState>
    decreases c, 1
  {
    if !c.List? then Abort(ClauseNotList(c))
    else if |c.items| == 0 then Abort(EmptyClause)
    else
      var head := c.items[0];
      var r :=
        if head == Symbol("columns") then PlanColumns(c, 1, st)
        else if head == Symbol("table") then
          if |c.items| < 2 then Abort(TableWithoutArgument)
          else match PlanOf(c.items[1])
            case PlanPanic(f) => Abort(f)
            case NoPlan => Continue(st.(source := None))
            case Planned(n) => Continue(st.(source := Some(TableSource(n))))
        else if head == Symbol("where") then PlanWhere(c, 1, st)
        else if head == Symbol("group") then
          match PlanKeys(c, 1, [])
          case Abort(f) => Abort(f)
          case Continue(keys) => Continue(st.(result := GroupOf(st.columns, keys)))
        else Continue(st);
      match r
      case Abort(f) => Abort(f)
      case Continue(st') => Continue(AfterClause(st'))
  }

  /** A bare symbol in `table` position reads a table instead of a symbol. */
  function TableSource(n: Node): Node {
    if n.SymbolRef? then Table(n.symbol) else n
  }

  /** The end of each clause pass: the first aggregate makes the result a
      key-less GroupNode, and while no such group exists the scan's columns
      are reassigned the columns collected so far. */
  function AfterClause(st: SelectState): SelectState {
    var st' := if st.hasAggregate && !st.hasGroup
      then st.(hasGroup := true, result := GroupOf(st.columns, []))
      else st;
    if !st'.hasGroup then st'.(scanColumns := st'.columns) else st'
  }

  /** The entry loop of a `columns` clause `c`, from entry j on. */
  function PlanColumns(c: Expression, j: nat, st: SelectState): Step<SelectState>
    requires c.List? && 1 <= j <= |c.items|
    decreases c, 0, |c.items| - j
  {
    if j == |c.items| then Continue(st)
    else match PlanOf(c.items[j])
      case PlanPanic(f) => Abort(f)
      case NoPlan => Abort(UnplannableColumn(c.items[j]))
      case Planned(n) =>
        PlanColumns(c, j + 1, st.(columns := st.columns + [n], hasAggregate := st.hasAggregate || n.Aggregate?))
  }

  /** The key loop of a `group` clause `c`, from entry j on. */
  function PlanKeys(c: Expression, j: nat, keys: seq<Node>): Step<seq<Node>>
    requires c.List? && 1 <= j <= |c.items|
    decreases c, 0, |c.items| - j
  {
    if j == |c.items| then Continue(keys)
    else match PlanOf(c.items[j])
      case PlanPanic(f) => Abort(f)
      case NoPlan => Abort(UnplannableGroupKey(c.items[j]))
      case Planned(n) => PlanKeys(c, j + 1, keys + [n])
  }

  /** The entry loop of a `where` clause `c`, from entry j on. */
  function PlanWhere(c: Expression, j: nat, st: SelectState): Step<SelectState>
    requires c.List? && 1 <= j <= |c.items|
    decreases c, 0, |c.items| - j
  {
    if j == |c.items| then Continue(st)
    else
      var w := c.items[j];
      if !w.List? then Abort(WhereEntryNotList(w))
      else if |w.items| == 0 then Abort(EmptyWhereEntry)
      else if !w.items[0].Symbol? then Abort(OperatorNotSymbol(w.items[0]))
      else match PlanFilterArguments(w, 1, [])
        case Abort(f) => Abort(f)
        case Continue(args) =>
          PlanWhere(c, j + 1, st.(filters := st.filters + [Filter(w.items[0].name, args)]))
  }

  /** The argument loop of one `where` entry `w`; nil arguments are dropped. */
  function PlanFilterArguments(w: Expression, k: nat, args: seq<Node>): Step<seq<Node>>
    requires w.List? && 1 <= k <= |w.items|
    decreases w, 0, |w.items| - k
  {
    if k == |w.items| then Continue(args)
    else match PlanOf(w.items[k])
      case PlanPanic(f) => Abort(f)
      case NoPlan => PlanFilterArguments(w, k + 1, args)
      case Planned(n) => PlanFilterArguments(w, k + 1, args + [n])
  }

  /** plan, as the Go code runs it: a recursive method whose loops update the
      scan's fields, the collected columns and the two flags in place. */
  method Plan(e: Expression) returns (r: PlanResult)
    ensures r == PlanOf(e)
    decreases e
  {
    match e {
      case Symbol(name) => return Planned(SymbolRef(name));
      case String(_) => return Planned(Const(e));
      case Number(_) => return Planned(Const(e));
      case Bool(_) => return Planned(Const(e));
      case Nil => return NoPlan;
      case Error(_) => return NoPlan;
      case List(xs) =>
        if |xs| == 0 {
          return PlanPanic(EmptyList);
        }
        if xs[0] == Symbol("count") {
          var args: seq<Option<Node>> := [];
          var i := 1;
          while i < |xs|
            invariant 1 <= i <= |xs|
            invariant PlanCountArguments(e, i, args) == PlanCountArguments(e, 1, [])
          {
            var arg := Plan(xs[i]);
            if arg.PlanPanic? {
              return arg;
            }
            args := args + [if arg.Planned? then Some(arg.node) else None];
            i := i + 1;
          }
          return Planned(Aggregate("count", args));
        }
        if xs[0] != Symbol("select") {
          return NoPlan;
        }
        var source: Option<Node> := None;
        var scanColumns: seq<Node> := [];
        var filters: seq<Filter> := [];
        var columns: seq<Node> := [];
        var hasGroup, hasAggregate := false, false;
        var result := ScanItself;
        var i := 1;
        while i < |xs|
          invariant 1 <= i <= |xs|
          invariant PlanClauses(e, i, SelectState(source, scanColumns, filters, columns, hasGroup, hasAggregate, result))
                 == PlanClauses(e, 1, Initial)
        {
          var next := xs[i];
          ghost var before := SelectState(source, scanColumns, filters, columns, hasGroup, hasAggregate, result);
          if !next.List? {
            return PlanPanic(ClauseNotList(next));
          }
          if |next.items| == 0 {
            return PlanPanic(EmptyClause);
          }
          var head := next.items[0];
          if head == Symbol("columns") {
            var j := 1;
            while j < |next.items|
              invariant 1 <= j <= |next.items|
              invariant PlanColumns(next, j, SelectState(source, scanColumns, filters, columns, hasGroup, hasAggregate, result))
                     == PlanColumns(next, 1, before)
            {
              var column := Plan(next.items[j]);
              if column.PlanPanic? {
                return column;
              }
              if column.NoPlan? {
                return PlanPanic(UnplannableColumn(next.items[j]));
              }
              if column.node.Aggregate? {
                hasAggregate := true;
              }
              columns := columns + [column.node];
              j := j + 1;
            }
          } else if head == Symbol("table") {
            if |next.items| < 2 {
              return PlanPanic(TableWithoutArgument);
            }
            var table := Plan(next.items[1]);
            if table.PlanPanic? {
              return table;
            }
            source := if table.Planned? then Some(TableSource(table.node)) else None;
          } else if head == Symbol("where") {
            var j := 1;
            while j < |next.items|
              invariant 1 <= j <= |next.items|
              invariant PlanWhere(next, j, SelectState(source, scanColumns, filters, columns, hasGroup, hasAggregate, result))
                     == PlanWhere(next, 1, before)
            {
              var w := next.items[j];
              if !w.List? {
                return PlanPanic(WhereEntryNotList(w));
              }
              if |w.items| == 0 {
                return PlanPanic(EmptyWhereEntry);
              }
              if !w.items[0].Symbol? {
                return PlanPanic(OperatorNotSymbol(w.items[0]));
              }
              var arguments: seq<Node> := [];
              var k := 1;
              while k < |w.items|
                invariant 1 <= k <= |w.items|
                invariant PlanFilterArguments(w, k, arguments) == PlanFilterArguments(w, 1, [])
              {
                var argument := Plan(w.items[k]);
                if argument.PlanPanic? {
                  return argument;
                }
                if argument.Planned? {
                  arguments := arguments + [argument.node];
                }
                k := k + 1;
              }
              filters := filters + [Filter(w.items[0].name, arguments)];
              j := j + 1;
            }
          } else if head == Symbol("group") {
            var keys: seq<Node> := [];
            var j := 1;
            while j < |next.items|
              invariant 1 <= j <= |next.items|
              invariant PlanKeys(next, j, keys) == PlanKeys(next, 1, [])
            {
              var key := Plan(next.items[j]);
              if key.PlanPanic? {
                return key;
              }
              if key.NoPlan? {
                return PlanPanic(UnplannableGroupKey(next.items[j]));
              }
              keys := keys + [key.node];
              j := j + 1;
            }
            result := GroupOf(columns, keys);
          }
          if hasAggregate {
            if !hasGroup {
              hasGroup := true;
              result := GroupOf(columns, []);
            }
          }
          if !hasGroup {
            scanColumns := columns;
          }
          i := i + 1;
        }
        return Planned(Finish(SelectState(source, scanColumns, filters, columns, hasGroup, hasAggregate, result)));
    }
  }

  // ---------------------------------------------------------------------
  // Reference descriptions of a select's clauses, and what plan makes of them

  /** `c` is a clause list headed by the symbol `name`. */
  predicate IsClause(c: Expression, name: string) {
    c.List? && |c.items| > 0 && c.items[0] == Symbol(name)
  }

  /** `x` is a `(count ...)` form. */
  predicate IsCount(x: Expression) {
    IsClause(x, "count")
  }

  /** The entries of `c` if it is a clause named `name`, else none. */
  function EntriesOf(c: Expression, name: string): seq<Expression> {
    if IsClause(c, name) then c.items[1..] else []
  }

  /** The plans of those expressions that plan to a node, in order. */
  function KeptPlans(es: seq<Expression>): seq<Node> {
    if es == [] then []
    else (if PlanOf(es[0]).Planned? then [PlanOf(es[0]).node] else []) + KeptPlans(es[1..])
  }

  /** Each expression's plan, with None where it plans to nil. */
  function OptionalPlans(es: seq<Expression>): seq<Option<Node>> {
    seq(|es|, k requires 0 <= k < |es| => if PlanOf(es[k]).Planned? then Some(PlanOf(es[k]).node) else None)
  }

  /** Every `columns` entry of the clauses, in clause order. */
  function ColumnEntries(cs: seq<Expression>): seq<Expression> {
    if cs == [] then [] else EntriesOf(cs[0], "columns") + ColumnEntries(cs[1..])
  }

  /** Every `where` entry of the clauses, in clause order. */
  function WhereEntries(cs: seq<Expression>): seq<Expression> {
    if cs == [] then [] else EntriesOf(cs[0], "where") + WhereEntries(cs[1..])
  }

  /** The argument of the last `table` clause, if there is one. */
  function LastTableArgument(cs: seq<Expression>): Option<Expression> {
    if cs == [] then None
    else match LastTableArgument(cs[1..])
      case Some(a) => Some(a)
      case None => if IsClause(cs[0], "table") && |cs[0].items| >= 2 then Some(cs[0].items[1]) else None
  }

  /** The Filter a where entry `(op arg...)` stands for. */
  function FilterOf(w: Expression): Filter {
    if w.List? && |w.items| > 0 && w.items[0].Symbol? then Filter(w.items[0].name, KeptPlans(w.items[1..]))
    else Filter("", [])
  }

  function FiltersOf(ws: seq<Expression>): seq<Filter> {
    seq(|ws|, k requires 0 <= k < |ws| => FilterOf(ws[k]))
  }

  /** The scan Source a table argument gives. */
  function SourceOf(a: Expression): Option<Node> {
    if PlanOf(a).Planned? then Some(TableSource(PlanOf(a).node)) else None
  }

  lemma {:induction false} KeptPlansAppend(a: seq<Expression>, b: seq<Expression>)
    ensures KeptPlans(a + b) == KeptPlans(a) + KeptPlans(b)
  {
    if a == [] {
      assert a + b == b;
    } else {
      assert (a + b)[0] == a[0];
      assert (a + b)[1..] == a[1..] + b;
      KeptPlansAppend(a[1..], b);
      var h := if PlanOf(a[0]).Planned? then [PlanOf(a[0]).node] else [];
      assert KeptPlans(a + b) == h + (KeptPlans(a[1..]) + KeptPlans(b));
      assert h + (KeptPlans(a[1..]) + KeptPlans(b)) == (h + KeptPlans(a[1..])) + KeptPlans(b);
    }
  }

  lemma FiltersOfAppend(a: seq<Expression>, b: seq<Expression>)
    ensures FiltersOf(a + b) == FiltersOf(a) + FiltersOf(b)
  {
  }

  /** Only a `(count ...)` form plans to an AggregateNode. */
  lemma PlannedAggregateIsCount(x: Expression)
    requires PlanOf(x).Planned? && PlanOf(x).node.Aggregate?
    ensures IsCount(x)
  {
  }

  /** A `(count ...)` form that does not panic plans to an AggregateNode. */
  lemma CountPlansAggregate(x: Expression)
    requires IsCount(x) && !PlanOf(x).PlanPanic?
    ensures PlanOf(x).Planned? && PlanOf(x).node.Aggregate?
  {
  }

  /** The columns loop appends the plan of every entry, in order, and changes
      nothing else but the aggregate flag, which it raises exactly when one of
      the entries is a count form; it succeeds only if every entry plans to a
      node. */
  lemma {:induction false} PlanColumnsAppends(c: Expression, j: nat, st: SelectState)
    requires c.List? && 1 <= j <= |c.items| && PlanColumns(c, j, st).Continue?
    ensures var st' := PlanColumns(c, j, st).value;
      && st'.columns == st.columns + KeptPlans(c.items[j..])
      && |KeptPlans(c.items[j..])| == |c.items| - j
      && st' == st.(columns := st'.columns, hasAggregate := st'.hasAggregate)
      && (st'.hasAggregate <==> st.hasAggregate || exists x | x in c.items[j..] :: IsCount(x))
    decreases |c.items| - j
  {
    if j < |c.items| {
      var n := PlanOf(c.items[j]).node;
      assert c.items[j..] == [c.items[j]] + c.items[j + 1..];
      var st1 := st.(columns := st.columns + [n], hasAggregate := st.hasAggregate || n.Aggregate?);
      PlanColumnsAppends(c, j + 1, st1);
      if n.Aggregate? {
        PlannedAggregateIsCount(c.items[j]);
      } else if IsCount(c.items[j]) {
        CountPlansAggregate(c.items[j]);
      }
    }
  }

  /** The argument loop of a where entry keeps exactly the arguments that plan
      to a node: one planning to nil is dropped silently. */
  lemma {:induction false} PlanFilterArgumentsKeeps(w: Expression, k: nat, args: seq<Node>)
    requires w.List? && 1 <= k <= |w.items| && PlanFilterArguments(w, k, args).Continue?
    ensures PlanFilterArguments(w, k, args).value == args + KeptPlans(w.items[k..])
    decreases |w.items| - k
  {
    if k < |w.items| {
      assert w.items[k..] == [w.items[k]] + w.items[k + 1..];
      var r := PlanOf(w.items[k]);
      PlanFilterArgumentsKeeps(w, k + 1, if r.Planned? then args + [r.node] else args);
    }
  }

  /** The where loop appends one Filter per entry, in order, and nothing else. */
  lemma {:induction false} PlanWhereAppends(c: Expression, j: nat, st: SelectState)
    requires c.List? && 1 <= j <= |c.items| && PlanWhere(c, j, st).Continue?
    ensures PlanWhere(c, j, st).value == st.(filters := st.filters + FiltersOf(c.items[j..]))
    decreases |c.items| - j
  {
    if j < |c.items| {
      var w := c.items[j];
      var args := PlanFilterArguments(w, 1, []).value;
      PlanFilterArgumentsKeeps(w, 1, []);
      var f := Filter(w.items[0].name, args);
      assert f == FilterOf(w);
      var st1 := st.(filters := st.filters + [f]);
      assert PlanWhere(c, j, st) == PlanWhere(c, j + 1, st1);
      PlanWhereAppends(c, j + 1, st1);
      var rest := c.items[j + 1..];
      assert c.items[j..] == [w] + rest;
      FiltersOfAppend([w], rest);
      assert FiltersOf([w]) == [f];
      AppendTwice(st.filters, st1.filters, st1.filters + FiltersOf(rest), [f], FiltersOf(rest));
    } else {
      assert st.filters + FiltersOf(c.items[j..]) == st.filters;
    }
  }

  /** The key loop of a group clause plans every key, in order. */
  lemma {:induction false} PlanKeysAppends(c: Expression, j: nat, keys: seq<Node>)
    requires c.List? && 1 <= j <= |c.items| && PlanKeys(c, j, keys).Continue?
    ensures PlanKeys(c, j, keys).value == keys + KeptPlans(c.items[j..])
    ensures |KeptPlans(c.items[j..])| == |c.items| - j
    decreases |c.items| - j
  {
    if j < |c.items| {
      assert c.items[j..] == [c.items[j]] + c.items[j + 1..];
      PlanKeysAppends(c, j + 1, keys + [PlanOf(c.items[j]).node]);
    }
  }

  /** The argument loop of count keeps every argument, nil ones as None. */
  lemma {:induction false} PlanCountArgumentsKeeps(e: Expression, i: nat, args: seq<Option<Node>>)
    requires e.List? && 1 <= i <= |e.items|
    requires forall x | x in e.items[i..] :: !PlanOf(x).PlanPanic?
    ensures PlanCountArguments(e, i, args) == Continue(args + OptionalPlans(e.items[i..]))
    decreases |e.items| - i
  {
    if i == |e.items| {
      assert e.items[i..] == [];
      assert args + OptionalPlans(e.items[i..]) == args;
    } else {
      var x := e.items[i];
      assert e.items[i..] == [x] + e.items[i + 1..];
      assert !PlanOf(x).PlanPanic?;
      var a := if PlanOf(x).Planned? then Some(PlanOf(x).node) else None;
      assert PlanCountArguments(e, i, args) == PlanCountArguments(e, i + 1, args + [a]);
      PlanCountArgumentsKeeps(e, i + 1, args + [a]);
      assert OptionalPlans(e.items[i..]) == [a] + OptionalPlans(e.items[i + 1..]);
      assert args + [a] + OptionalPlans(e.items[i + 1..]) == args + OptionalPlans(e.items[i..]);
    }
  }

  /** `(count e1 ... en)` plans to an AggregateNode "count" with n arguments
      in order, an argument that plans to nil kept as None, unless planning an
      argument panics. */
  lemma PlanCount(e: Expression)
    requires IsCount(e)
    requires forall x | x in e.items[1..] :: !PlanOf(x).PlanPanic?
    ensures PlanOf(e) == Planned(Aggregate("count", OptionalPlans(e.items[1..])))
    ensures |OptionalPlans(e.items[1..])| == |e.items| - 1
  {
    PlanCountArgumentsKeeps(e, 1, []);
    assert [] + OptionalPlans(e.items[1..]) == OptionalPlans(e.items[1..]);
  }

  /** Neither a group nor an aggregate so far: the result is the scan. */
  predicate Ungrouped(st: SelectState) {
    st.result == ScanItself && !st.hasGroup && !st.hasAggregate && st.scanColumns == st.columns
  }

  /** `st'` is `st` after the clauses `cs` of a select without grouping:
      every columns entry planned and appended, one Filter per where entry,
      and the Source from the last table clause. */
  predicate CollectedUngrouped(st: SelectState, cs: seq<Expression>, st': SelectState) {
    && Ungrouped(st')
    && st'.columns == st.columns + KeptPlans(ColumnEntries(cs))
    && |KeptPlans(ColumnEntries(cs))| == |ColumnEntries(cs)|
    && CollectedScanInputs(st, cs, st')
  }

  /** `st'` has one more Filter per where entry of `cs`, in order, and the
      Source from the last table clause of `cs` if there is one. */
  predicate CollectedScanInputs(st: SelectState, cs: seq<Expression>, st': SelectState) {
    && st'.filters == st.filters + FiltersOf(WhereEntries(cs))
    && st'.source == (if LastTableArgument(cs).Some? then SourceOf(LastTableArgument(cs).value) else st.source)
  }

  lemma ColumnEntriesCons(c: Expression, rest: seq<Expression>)
    ensures ColumnEntries([c] + rest) == ColumnEntries([c]) + ColumnEntries(rest)
    ensures KeptPlans(ColumnEntries([c]) + ColumnEntries(rest)) == KeptPlans(ColumnEntries([c])) + KeptPlans(ColumnEntries(rest))
  {
    assert ([c] + rest)[0] == c && ([c] + rest)[1..] == rest && [c][1..] == [];
    KeptPlansAppend(ColumnEntries([c]), ColumnEntries(rest));
  }

  lemma WhereEntriesCons(c: Expression, rest: seq<Expression>)
    ensures WhereEntries([c] + rest) == WhereEntries([c]) + WhereEntries(rest)
    ensures FiltersOf(WhereEntries([c] + rest)) == FiltersOf(WhereEntries([c])) + FiltersOf(WhereEntries(rest))
  {
    assert ([c] + rest)[0] == c && ([c] + rest)[1..] == rest && [c][1..] == [];
    FiltersOfAppend(WhereEntries([c]), WhereEntries(rest));
  }

  lemma LastTableArgumentCons(c: Expression, rest: seq<Expression>)
    ensures LastTableArgument([c] + rest) == if LastTableArgument(rest).Some? then LastTableArgument(rest) else LastTableArgument([c])
  {
    assert ([c] + rest)[0] == c && ([c] + rest)[1..] == rest && [c][1..] == [];
  }

  lemma ComposeColumns(c: Expression, rest: seq<Expression>, c0: seq<Node>, c1: seq<Node>, c2: seq<Node>)
    requires c1 == c0 + KeptPlans(ColumnEntries([c])) && |KeptPlans(ColumnEntries([c]))| == |ColumnEntries([c])|
    requires c2 == c1 + KeptPlans(ColumnEntries(rest)) && |KeptPlans(ColumnEntries(rest))| == |ColumnEntries(rest)|
    ensures c2 == c0 + KeptPlans(ColumnEntries([c] + rest))
    ensures |KeptPlans(ColumnEntries([c] + rest))| == |ColumnEntries([c] + rest)|
  {
    ColumnEntriesCons(c, rest);
    var x, y := ColumnEntries([c]), ColumnEntries(rest);
    AppendTwice(c0, c1, c2, KeptPlans(x), KeptPlans(y));
    assert KeptPlans(ColumnEntries([c] + rest)) == KeptPlans(x) + KeptPlans(y);
  }

  /** Appending `a` and then `b` is appending `a + b`. */
  lemma AppendTwice<T>(p0: seq<T>, p1: seq<T>, p2: seq<T>, a: seq<T>, b: seq<T>)
    requires p1 == p0 + a && p2 == p1 + b
    ensures p2 == p0 + (a + b) && |a + b| == |a| + |b|
  {
  }

  lemma ComposeFilters(c: Expression, rest: seq<Expression>, f0: seq<Filter>, f1: seq<Filter>, f2: seq<Filter>)
    requires f1 == f0 + FiltersOf(WhereEntries([c]))
    requires f2 == f1 + FiltersOf(WhereEntries(rest))
    ensures f2 == f0 + FiltersOf(WhereEntries([c] + rest))
  {
    WhereEntriesCons(c, rest);
    var x, y := FiltersOf(WhereEntries([c])), FiltersOf(WhereEntries(rest));
    AppendTwice(f0, f1, f2, x, y);
  }

  lemma ComposeSource(c: Expression, rest: seq<Expression>, s0: Option<Node>, s1: Option<Node>, s2: Option<Node>)
    requires s1 == (if LastTableArgument([c]).Some? then SourceOf(LastTableArgument([c]).value) else s0)
    requires s2 == (if LastTableArgument(rest).Some? then SourceOf(LastTableArgument(rest).value) else s1)
    ensures s2 == (if LastTableArgument([c] + rest).Some? then SourceOf(LastTableArgument([c] + rest).value) else s0)
  {
    LastTableArgumentCons(c, rest);
  }

  lemma CollectedUngroupedCompose(st: SelectState, c: Expression, st1: SelectState, rest: seq<Expression>, st2: SelectState)
    requires CollectedUngrouped(st, [c], st1) && CollectedUngrouped(st1, rest, st2)
    ensures CollectedUngrouped(st, [c] + rest, st2)
  {
    ComposeColumns(c, rest, st.columns, st1.columns, st2.columns);
    ComposeFilters(c, rest, st.filters, st1.filters, st2.filters);
    ComposeSource(c, rest, st.source, st1.source, st2.source);
  }

  /** One clause pass of a select without grouping, for a clause that is
      not `group` and has no count column. */
  lemma PlanClauseUngrouped(c: Expression, st: SelectState)
    requires Ungrouped(st) && !IsClause(c, "group")
    requires forall x | x in EntriesOf(c, "columns") :: !IsCount(x)
    requires PlanClause(c, st).Continue?
    ensures CollectedUngrouped(st, [c], PlanClause(c, st).value)
  {
    assert [c][0] == c && [c][1..] == [];
    assert ColumnEntries([c]) == EntriesOf(c, "columns");
    assert WhereEntries([c]) == EntriesOf(c, "where");
    if IsClause(c, "columns") {
      PlanColumnsAppends(c, 1, st);
    } else if IsClause(c, "where") {
      PlanWhereAppends(c, 1, st);
    }
  }

  /** The clause loop over clauses without `group` and without count columns
      collects every columns entry, every where entry and the last table. */
  lemma {:induction false} PlanClausesUngrouped(e: Expression, i: nat, st: SelectState)
    requires e.List? && 1 <= i <= |e.items| && Ungrouped(st)
    requires forall c | c in e.items[i..] :: !IsClause(c, "group")
    requires forall x | x in ColumnEntries(e.items[i..]) :: !IsCount(x)
    requires PlanClauses(e, i, st).Continue?
    ensures CollectedUngrouped(st, e.items[i..], PlanClauses(e, i, st).value)
    decreases |e.items| - i
  {
    if i == |e.items| {
      assert e.items[i..] == [];
    } else {
      var c := e.items[i];
      var rest := e.items[i + 1..];
      assert e.items[i..] == [c] + rest;
      assert ColumnEntries(e.items[i..]) == EntriesOf(c, "columns") + ColumnEntries(rest);
      PlanClauseUngrouped(c, st);
      var st1 := PlanClause(c, st).value;
      PlanClausesUngrouped(e, i + 1, st1);
      CollectedUngroupedCompose(st, c, st1, rest, PlanClauses(e, i + 1, st1).value);
    }
  }

  /** A select with no `group` clause and no count column plans to the Scan
      itself: its Columns are the plans of all columns entries in clause order
      (every one of them plans to a node), one Filter per where entry in
      order, and the Source comes from the last table clause, a bare symbol
      there becoming a TableNode. */
  lemma SelectWithoutGroupingIsScan(e: Expression)
    requires IsClause(e, "select")
    requires forall c | c in e.items[1..] :: !IsClause(c, "group")
    requires forall x | x in ColumnEntries(e.items[1..]) :: !IsCount(x)
    requires PlanOf(e).Planned?
    ensures var cs := e.items[1..];
      && PlanOf(e).node == Scan(
           if LastTableArgument(cs).Some? then SourceOf(LastTableArgument(cs).value) else None,
           KeptPlans(ColumnEntries(cs)),
           FiltersOf(WhereEntries(cs)))
      && |KeptPlans(ColumnEntries(cs))| == |ColumnEntries(cs)|
  {
    PlanClausesUngrouped(e, 1, Initial);
  }

  /** Whatever the grouping, one clause pass adds the Filters of a where
      clause and takes the Source of a table clause, and keeps both otherwise. */
  lemma PlanClauseScanInputs(c: Expression, st: SelectState)
    requires PlanClause(c, st).Continue?
    ensures CollectedScanInputs(st, [c], PlanClause(c, st).value)
  {
    assert [c][0] == c && [c][1..] == [];
    assert WhereEntries([c]) == EntriesOf(c, "where");
    if IsClause(c, "columns") {
      PlanColumnsAppends(c, 1, st);
    } else if IsClause(c, "where") {
      PlanWhereAppends(c, 1, st);
    }
  }

  /** The whole clause loop collects every where entry as a Filter and the
      Source of the last table clause, whatever the grouping. */
  lemma {:induction false} PlanClausesScanInputs(e: Expression, i: nat, st: SelectState)
    requires e.List? && 1 <= i <= |e.items| && PlanClauses(e, i, st).Continue?
    ensures CollectedScanInputs(st, e.items[i..], PlanClauses(e, i, st).value)
    decreases |e.items| - i
  {
    if i == |e.items| {
      assert e.items[i..] == [];
    } else {
      var c := e.items[i];
      var rest := e.items[i + 1..];
      assert e.items[i..] == [c] + rest;
      PlanClauseScanInputs(c, st);
      var st1 := PlanClause(c, st).value;
      PlanClausesScanInputs(e, i + 1, st1);
      var st2 := PlanClauses(e, i + 1, st1).value;
      ComposeFilters(c, rest, st.filters, st1.filters, st2.filters);
      ComposeSource(c, rest, st.source, st1.source, st2.source);
    }
  }

  /** The clause loop over the first k elements of `e`, then the rest of `e`:
      running it from i on `e` is running it to k on the prefix and from k
      on `e`. */
  lemma {:induction false} PlanClausesSplit(e: Expression, k: nat, i: nat, st: SelectState)
    requires e.List? && 1 <= i <= k <= |e.items|
    ensures PlanClauses(e, i, st) == match PlanClauses(List(e.items[..k]), i, st)
      case Abort(f) => Abort(f)
      case Continue(st') => PlanClauses(e, k, st')
    decreases k - i
  {
    var p := List(e.items[..k]);
    if i < k {
      assert p.items[i] == e.items[i];
      match PlanClause(e.items[i], st)
      case Abort(_) =>
      case Continue(st1) => PlanClausesSplit(e, k, i + 1, st1);
    }
  }

  // ---------------------------------------------------------------------
  // Groups: the first aggregate, explicit group clauses, and frozen columns

  /** Every pass keeps the flags in step: an aggregate implies a group, and a
      group, once there, stays and freezes the scan's columns and, unless the
      pass is a `group` clause, the result; a pass that is not `columns`
      leaves the columns and the aggregate flag alone. */
  lemma PlanClauseFlags(c: Expression, st: SelectState)
    requires PlanClause(c, st).Continue?
    ensures var st' := PlanClause(c, st).value;
      && (st'.hasAggregate ==> st'.hasGroup)
      && (st.hasGroup ==> st'.hasGroup && st'.scanColumns == st.scanColumns)
      && (st.hasGroup && !IsClause(c, "group") ==> st'.result == st.result)
      && (!st'.hasGroup ==> st'.scanColumns == st'.columns)
      && (!IsClause(c, "columns") ==> st'.columns == st.columns && st'.hasAggregate == st.hasAggregate)
  {
    if IsClause(c, "columns") {
      PlanColumnsAppends(c, 1, st);
    } else if IsClause(c, "where") {
      PlanWhereAppends(c, 1, st);
    }
  }

  /** The clause pass that first brings an aggregate column makes the result
      a GroupNode with no keys over the columns collected through that clause,
      and leaves the scan's Columns as they were before the clause. */
  lemma FirstAggregateStartsGroup(c: Expression, st: SelectState)
    requires !st.hasGroup && !st.hasAggregate
    requires PlanClause(c, st).Continue? && PlanClause(c, st).value.hasAggregate
    ensures var st' := PlanClause(c, st).value;
      && IsClause(c, "columns") && (exists x | x in c.items[1..] :: IsCount(x))
      && st'.hasGroup && st'.result == GroupOf(st'.columns, [])
      && st'.scanColumns == st.scanColumns
      && st'.columns == st.columns + KeptPlans(c.items[1..])
      && |KeptPlans(c.items[1..])| == |c.items| - 1
  {
    PlanClauseFlags(c, st);
    if IsClause(c, "columns") {
      PlanColumnsAppends(c, 1, st);
    }
  }

  /** From the first grouped state on, the scan's Columns are never
      reassigned again and the group stays; without a later group clause the
      result stays too. */
  lemma {:induction false} GroupFreezesScanColumns(e: Expression, i: nat, st: SelectState)
    requires e.List? && 1 <= i <= |e.items| && st.hasGroup && PlanClauses(e, i, st).Continue?
    ensures PlanClauses(e, i, st).value.hasGroup
    ensures PlanClauses(e, i, st).value.scanColumns == st.scanColumns
    ensures (forall c | c in e.items[i..] :: !IsClause(c, "group")) ==> PlanClauses(e, i, st).value.result == st.result
    decreases |e.items| - i
  {
    if i < |e.items| {
      PlanClauseFlags(e.items[i], st);
      assert e.items[i..] == [e.items[i]] + e.items[i + 1..];
      GroupFreezesScanColumns(e, i + 1, PlanClause(e.items[i], st).value);
    }
  }

  /** The clauses before k of a select with no group clause and no count
      column leave the loop ungrouped, with the plans of their columns. */
  lemma UngroupedPrefix(e: Expression, k: nat) returns (stk: SelectState)
    requires e.List? && 1 <= k <= |e.items|
    requires forall c | c in e.items[1..k] :: !IsClause(c, "group")
    requires forall x | x in ColumnEntries(e.items[1..k]) :: !IsCount(x)
    requires PlanClauses(e, 1, Initial).Continue?
    ensures PlanClauses(e, 1, Initial) == PlanClauses(e, k, stk)
    ensures Ungrouped(stk) && stk.columns == KeptPlans(ColumnEntries(e.items[1..k]))
    ensures |KeptPlans(ColumnEntries(e.items[1..k]))| == |ColumnEntries(e.items[1..k])|
  {
    var p := List(e.items[..k]);
    PlanClausesSplit(e, k, 1, Initial);
    assert p.items[1..] == e.items[1..k];
    PlanClausesUngrouped(p, 1, Initial);
    stk := PlanClauses(p, 1, Initial).value;
  }

  /** The clause loop of a select with no `group` clause whose first count
      column is in clause k ends grouped: the result is a GroupNode with no
      keys over the columns entries through clause k, and the scan's Columns
      are those before clause k. */
  lemma FirstCountFreezesGroup(e: Expression, k: nat)
    requires e.List? && 1 <= k < |e.items|
    requires forall c | c in e.items[1..] :: !IsClause(c, "group")
    requires forall x | x in ColumnEntries(e.items[1..k]) :: !IsCount(x)
    requires exists x | x in EntriesOf(e.items[k], "columns") :: IsCount(x)
    requires PlanClauses(e, 1, Initial).Continue?
    ensures var st := PlanClauses(e, 1, Initial).value;
      var grouped := ColumnEntries(e.items[1..k]) + e.items[k].items[1..];
      && st.result == GroupOf(KeptPlans(grouped), [])
      && st.scanColumns == KeptPlans(ColumnEntries(e.items[1..k]))
      && |KeptPlans(grouped)| == |grouped|
  {
    assert forall c | c in e.items[1..k] :: c in e.items[1..];
    var stk := UngroupedPrefix(e, k);
    var c := e.items[k];
    var st1 := FirstCountStep(c, stk);
    assert PlanClauses(e, k, stk) == PlanClauses(e, k + 1, st1);
    assert forall c' | c' in e.items[k + 1..] :: c' in e.items[1..];
    GroupFreezesScanColumns(e, k + 1, st1);
    KeptPlansAppend(ColumnEntries(e.items[1..k]), c.items[1..]);
  }

  /** The columns clause that brings the first count column into an
      ungrouped loop starts the group over the columns through it. */
  lemma FirstCountStep(c: Expression, st: SelectState) returns (st': SelectState)
    requires Ungrouped(st) && exists x | x in EntriesOf(c, "columns") :: IsCount(x)
    requires PlanClause(c, st).Continue?
    ensures PlanClause(c, st) == Continue(st')
    ensures st'.hasGroup && st'.scanColumns == st.columns
    ensures st'.result == GroupOf(st.columns + KeptPlans(c.items[1..]), [])
    ensures |KeptPlans(c.items[1..])| == |c.items| - 1
  {
    PlanColumnsAppends(c, 1, st);
    FirstAggregateStartsGroup(c, st);
    st' := PlanClause(c, st).value;
  }

  /** A select with no `group` clause whose first count column is in clause k
      plans to a GroupNode with no keys over the Scan: the group's Columns are
      the plans of the columns entries through clause k, the scan's Columns
      only those before clause k, and the scan's Filters and Source are
      collected from all clauses, later ones included. */
  lemma SelectWithFirstCountIsGroup(e: Expression, k: nat)
    requires IsClause(e, "select") && 1 <= k < |e.items|
    requires forall c | c in e.items[1..] :: !IsClause(c, "group")
    requires forall x | x in ColumnEntries(e.items[1..k]) :: !IsCount(x)
    requires exists x | x in EntriesOf(e.items[k], "columns") :: IsCount(x)
    requires PlanOf(e).Planned?
    ensures var cs := e.items[1..];
      var grouped := ColumnEntries(e.items[1..k]) + e.items[k].items[1..];
      && PlanOf(e).node == Group(
           Scan(
             if LastTableArgument(cs).Some? then SourceOf(LastTableArgument(cs).value) else None,
             KeptPlans(ColumnEntries(e.items[1..k])),
             FiltersOf(WhereEntries(cs))),
           [],
           KeptPlans(grouped))
      && |KeptPlans(grouped)| == |grouped|
  {
    FirstCountFreezesGroup(e, k);
    PlanClausesScanInputs(e, 1, Initial);
    var st := PlanClauses(e, 1, Initial).value;
    assert PlanOf(e) == Planned(Finish(st));
    var cs := e.items[1..];
    assert st.filters == FiltersOf(WhereEntries(cs));
    assert st.source == if LastTableArgument(cs).Some? then SourceOf(LastTableArgument(cs).value) else None;
  }

  /** An explicit group clause makes the result a GroupNode over the columns
      collected before it, with its keys planned in order; it does not set the
      group flag, so without an aggregate the scan's Columns are still
      reassigned, and it changes nothing else. */
  lemma ExplicitGroupClause(c: Expression, st: SelectState)
    requires IsClause(c, "group") && (st.hasAggregate ==> st.hasGroup)
    requires PlanClause(c, st).Continue?
    ensures var st' := PlanClause(c, st).value;
      && st'.result == GroupOf(st.columns, KeptPlans(c.items[1..]))
      && |KeptPlans(c.items[1..])| == |c.items| - 1
      && st'.hasGroup == st.hasGroup && st'.hasAggregate == st.hasAggregate
      && st'.columns == st.columns && st'.source == st.source && st'.filters == st.filters
      && st'.scanColumns == if st.hasGroup then st.scanColumns else st.columns
  {
    PlanKeysAppends(c, 1, []);
  }

  /** The columns loop stops at entry k when it plans to nil and every
      entry from j up to it plans to a node. */
  lemma {:induction false} PlanColumnsStopsAt(c: Expression, j: nat, k: nat, st: SelectState)
    requires c.List? && 1 <= j <= k < |c.items|
    requires forall i | j <= i < k :: PlanOf(c.items[i]).Planned?
    requires PlanOf(c.items[k]).NoPlan?
    ensures PlanColumns(c, j, st) == Abort(UnplannableColumn(c.items[k]))
    decreases k - j
  {
    if j < k {
      var n := PlanOf(c.items[j]).node;
      PlanColumnsStopsAt(c, j + 1, k, st.(columns := st.columns + [n], hasAggregate := st.hasAggregate || n.Aggregate?));
    }
  }

  /** The first columns entry that plans to nil, after entries that all plan
      to a node, makes plan panic with that entry. */
  lemma UnplannableColumnPanics(c: Expression, k: nat, st: SelectState)
    requires IsClause(c, "columns") && 1 <= k < |c.items|
    requires forall i | 1 <= i < k :: PlanOf(c.items[i]).Planned?
    requires PlanOf(c.items[k]).NoPlan?
    ensures PlanClause(c, st) == Abort(UnplannableColumn(c.items[k]))
  {
    PlanColumnsStopsAt(c, 1, k, st);
  }

  /** The key loop stops at key k when it plans to nil and every key from j
      up to it plans to a node. */
  lemma {:induction false} PlanKeysStopsAt(c: Expression, j: nat, k: nat, keys: seq<Node>)
    requires c.List? && 1 <= j <= k < |c.items|
    requires forall i | j <= i < k :: PlanOf(c.items[i]).Planned?
    requires PlanOf(c.items[k]).NoPlan?
    ensures PlanKeys(c, j, keys) == Abort(UnplannableGroupKey(c.items[k]))
    decreases k - j
  {
    if j < k {
      PlanKeysStopsAt(c, j + 1, k, keys + [PlanOf(c.items[j]).node]);
    }
  }

  /** The first group key that plans to nil, after keys that all plan to a
      node, makes plan panic with that key. */
  lemma UnplannableGroupKeyPanics(c: Expression, k: nat, st: SelectState)
    requires IsClause(c, "group") && 1 <= k < |c.items|
    requires forall i | 1 <= i < k :: PlanOf(c.items[i]).Planned?
    requires PlanOf(c.items[k]).NoPlan?
    ensures PlanClause(c, st) == Abort(UnplannableGroupKey(c.items[k]))
  {
    PlanKeysStopsAt(c, 1, k, []);
  }

  /** A table argument that plans to nil clears the scan's Source. */
  lemma UnplannableTableClearsSource(c: Expression, st: SelectState)
    requires IsClause(c, "table") && |c.items| >= 2 && PlanOf(c.items[1]).NoPlan?
    ensures PlanClause(c, st) == Continue(AfterClause(st.(source := None)))
  {
  }

  /** Atoms: a symbol plans to a symbol lookup of the same name, a string,
      number or boolean to a constant holding exactly that value, nil and an
      error to nothing; the empty list panics. */
  lemma PlanAtoms(e: Expression)
    ensures e.Symbol? ==> PlanOf(e) == Planned(SymbolRef(e.name))
    ensures e.String? || e.Number? || e.Bool? ==> PlanOf(e) == Planned(Const(e))
    ensures e.Nil? || e.Error? ==> PlanOf(e) == NoPlan
    ensures e == List([]) ==> PlanOf(e) == PlanPanic(EmptyList)
    ensures e.List? && |e.items| > 0 && e.items[0] != Symbol("select") && e.items[0] != Symbol("count") ==> PlanOf(e) == NoPlan
  {
  }
}
