/**
 * The queries of the repository's own test, read, planned and evaluated
 * against a `users` table holding one row {id: 1, name: "bob"}, plus the
 * inputs on which `plan` and `compile` part ways.
 */
module Scenarios {

  import opened Wrappers
  import opened Expressions
  import opened Reader
  import opened Planner
  import opened Environments
  import opened Evaluator
  import Compiler

  /** strconv.ParseFloat on the only numeric literal the queries use. */
  function ParseLiteral(token: string): Option<bv64> {
    if token == "1" then Some(One) else None
  }

  /** strconv.FormatFloat on the same literal. */
  function FormatLiteral(bits: bv64): string {
    if bits == One then "1" else "?"
  }

  const SelectOne := List([Symbol("select"), List([Symbol("columns"), Number(One)])])

  const SelectOneFromUsers :=
    List([Symbol("select"), List([Symbol("columns"), Number(One)]), List([Symbol("table"), Symbol("users")])])

  const SelectIdFromUsers :=
    List([Symbol("select"), List([Symbol("columns"), Symbol("id")]), List([Symbol("table"), Symbol("users")])])

  const BobRow: RowValues := map["id" := Number(One), "name" := String("bob")]

  /** `(columns 1)` prints to four tokens and reads back from them. */
  lemma ColumnsOneTokens(c: Expression)
    requires c == List([Symbol("columns"), Number(One)])
    ensures ReadsBack(c, ParseLiteral, FormatLiteral)
    ensures Tokens(c, FormatLiteral) == ["(", "columns", "1", ")"]
  {
    AtomReadsBackSymbol("columns", ParseLiteral, FormatLiteral);
    var parts := seq(|c.items|, i requires 0 <= i < |c.items| => Tokens(c.items[i], FormatLiteral));
    assert parts == [["columns"], ["1"]];
    assert Concat(parts) == ["columns", "1"] by {
      assert Concat(parts[1..]) == ["1"] by { assert parts[1..][1..] == []; }
    }
  }

  /** `(select (columns 1))` prints to the seven tokens of the test's query
      and reads back from them. */
  lemma SelectOneTokens(e: Expression)
    requires e == SelectOne
    ensures ReadsBack(e, ParseLiteral, FormatLiteral)
    ensures Tokens(e, FormatLiteral) == ["(", "select", "(", "columns", "1", ")", ")"]
  {
    ColumnsOneTokens(e.items[1]);
    AtomReadsBackSymbol("select", ParseLiteral, FormatLiteral);
    var parts := seq(|e.items|, i requires 0 <= i < |e.items| => Tokens(e.items[i], FormatLiteral));
    assert parts == [["select"], ["(", "columns", "1", ")"]];
    assert Concat(parts) == ["select", "(", "columns", "1", ")"] by {
      assert Concat(parts[1..]) == ["(", "columns", "1", ")"] by { assert parts[1..][1..] == []; }
    }
  }

  /** `(select (columns 1))` reads to its list, consuming every token. */
  lemma ReadSelectOne(t: seq<string>)
    requires t == ["(", "select", "(", "columns", "1", ")", ")"]
    ensures NonEmptyTokens(t) && Read(t, ParseLiteral) == Reading(Parsed(SelectOne), [])
  {
    SelectOneTokens(SelectOne);
    ReadTokens(SelectOne, [], ParseLiteral, FormatLiteral);
    assert Tokens(SelectOne, FormatLiteral) + [] == t;
  }

  /** `(select (columns 1))` plans to a bare Scan with one constant column. */
  lemma PlanSelectOne()
    ensures PlanOf(SelectOne) == Planned(Scan(None, [Const(Number(One))], []))
  {
    var columns := List([Symbol("columns"), Number(One)]);
    var st := Initial.(columns := [Const(Number(One))]);
    assert PlanColumns(columns, 2, st) == Continue(st);
    assert columns.items[1] == Number(One) && PlanOf(Number(One)) == Planned(Const(Number(One)));
    assert [] + [Const(Number(One))] == [Const(Number(One))];
    assert PlanColumns(columns, 1, Initial) == Continue(st);
    assert PlanClause(columns, Initial) == Continue(st.(scanColumns := [Const(Number(One))]));
    assert PlanClauses(SelectOne, 2, st.(scanColumns := [Const(Number(One))]))
        == Continue(st.(scanColumns := [Const(Number(One))]));
  }

  /** `(select (columns 1) (table users))` plans to a Scan of TableNode users. */
  lemma PlanSelectOneFromUsers()
    ensures PlanOf(SelectOneFromUsers) == Planned(Scan(Some(Table("users")), [Const(Number(One))], []))
  {
    var columns := List([Symbol("columns"), Number(One)]);
    var st0 := Initial.(columns := [Const(Number(One))]);
    var st := st0.(scanColumns := [Const(Number(One))]);
    var st' := st.(source := Some(Table("users")));
    assert PlanColumns(columns, 2, st0) == Continue(st0);
    assert columns.items[1] == Number(One) && PlanOf(Number(One)) == Planned(Const(Number(One)));
    assert [] + [Const(Number(One))] == [Const(Number(One))];
    assert PlanColumns(columns, 1, Initial) == Continue(st0);
    assert PlanClause(columns, Initial) == Continue(st);
    assert PlanOf(Symbol("users")) == Planned(SymbolRef("users"));
    assert PlanClause(List([Symbol("table"), Symbol("users")]), st) == Continue(st');
    assert PlanClauses(SelectOneFromUsers, 3, st') == Continue(st');
    assert PlanClauses(SelectOneFromUsers, 2, st) == Continue(st');
  }

  /** `(columns id)` from the initial state: one symbol column, kept for
      the scan as well. */
  lemma PlanColumnsId()
    ensures PlanClause(List([Symbol("columns"), Symbol("id")]), Initial)
         == Continue(Initial.(columns := [SymbolRef("id")], scanColumns := [SymbolRef("id")]))
  {
    var columns := List([Symbol("columns"), Symbol("id")]);
    var st0 := Initial.(columns := [SymbolRef("id")]);
    assert PlanColumns(columns, 2, st0) == Continue(st0);
    assert columns.items[1] == Symbol("id") && PlanOf(Symbol("id")) == Planned(SymbolRef("id"));
    assert [] + [SymbolRef("id")] == [SymbolRef("id")];
    assert PlanColumns(columns, 1, Initial) == Continue(st0);
  }

  /** The entries of `(where (= name "bob"))` append one Filter to a state
      without any. */
  lemma PlanWhereBob(st: SelectState)
    requires st.filters == []
    ensures PlanWhere(List([Symbol("where"), List([Symbol("="), Symbol("name"), String("bob")])]), 1, st)
         == Continue(st.(filters := [Filter("=", [SymbolRef("name"), Const(String("bob"))])]))
  {
    var w := List([Symbol("="), Symbol("name"), String("bob")]);
    var where := List([Symbol("where"), w]);
    var args := [SymbolRef("name"), Const(String("bob"))];
    assert PlanFilterArguments(w, 3, args) == Continue(args);
    assert w.items[2] == String("bob") && PlanOf(String("bob")) == Planned(Const(String("bob")));
    assert [SymbolRef("name")] + [Const(String("bob"))] == args;
    assert PlanFilterArguments(w, 2, [SymbolRef("name")]) == Continue(args);
    assert w.items[1] == Symbol("name") && PlanOf(Symbol("name")) == Planned(SymbolRef("name"));
    assert [] + [SymbolRef("name")] == [SymbolRef("name")];
    assert PlanFilterArguments(w, 1, []) == Continue(args);
    var st3 := st.(filters := [Filter("=", args)]);
    assert PlanWhere(where, 2, st3) == Continue(st3);
    assert st.filters + [Filter("=", args)] == [Filter("=", args)];
    assert PlanWhere(where, 1, st) == Continue(st3);
  }

  /** `(select (columns id) (table users) (where (= name "bob")))` plans to a
      Scan of users with one Filter "=" over the symbol and the constant. */
  lemma PlanSelectWhere()
    ensures PlanOf(List([Symbol("select"), List([Symbol("columns"), Symbol("id")]),
                         List([Symbol("table"), Symbol("users")]),
                         List([Symbol("where"), List([Symbol("="), Symbol("name"), String("bob")])])]))
         == Planned(Scan(Some(Table("users")), [SymbolRef("id")],
                         [Filter("=", [SymbolRef("name"), Const(String("bob"))])]))
  {
    var columns := List([Symbol("columns"), Symbol("id")]);
    var table := List([Symbol("table"), Symbol("users")]);
    var where := List([Symbol("where"), List([Symbol("="), Symbol("name"), String("bob")])]);
    var query := List([Symbol("select"), columns, table, where]);
    var st1 := Initial.(columns := [SymbolRef("id")], scanColumns := [SymbolRef("id")]);
    PlanColumnsId();
    var st2 := st1.(source := Some(Table("users")));
    assert PlanOf(Symbol("users")) == Planned(SymbolRef("users"));
    assert PlanClause(table, st1) == Continue(st2);
    var st3 := st2.(filters := [Filter("=", [SymbolRef("name"), Const(String("bob"))])]);
    PlanWhereBob(st2);
    assert PlanClause(where, st2) == Continue(st3);
    assert PlanClauses(query, 4, st3) == Continue(st3);
    assert PlanClauses(query, 3, st2) == Continue(st3);
    assert PlanClauses(query, 2, st1) == Continue(st3);
  }

  /** A count column after which a table clause still changes the group's
      scan: the GroupNode's Source is the same scan the later clause edits,
      and the scan's own Columns stay empty. */
  lemma PlanCountThenTable()
    ensures PlanOf(List([Symbol("select"), List([Symbol("columns"), List([Symbol("count"), Symbol("x")])]),
                         List([Symbol("table"), Symbol("users")])]))
         == Planned(Group(Scan(Some(Table("users")), [], []), [], [Aggregate("count", [Some(SymbolRef("x"))])]))
  {
    var count := List([Symbol("count"), Symbol("x")]);
    var agg := Aggregate("count", [Some(SymbolRef("x"))]);
    var query := List([Symbol("select"), List([Symbol("columns"), count]), List([Symbol("table"), Symbol("users")])]);
    assert PlanCountArguments(count, 2, [Some(SymbolRef("x"))]) == Continue([Some(SymbolRef("x"))]);
    assert PlanOf(Symbol("x")) == Planned(SymbolRef("x"));
    assert [] + [Some(SymbolRef("x"))] == [Some(SymbolRef("x"))];
    assert PlanCountArguments(count, 1, []) == Continue([Some(SymbolRef("x"))]);
    assert PlanOf(count) == Planned(agg);
    var columns := List([Symbol("columns"), count]);
    var st0 := Initial.(columns := [agg], hasAggregate := true);
    assert PlanColumns(columns, 2, st0) == Continue(st0);
    assert [] + [agg] == [agg];
    assert PlanColumns(columns, 1, Initial) == Continue(st0);
    var st := st0.(hasGroup := true, result := GroupOf([agg], []));
    var st' := st.(source := Some(Table("users")));
    assert PlanClause(columns, Initial) == Continue(st);
    assert PlanOf(Symbol("users")) == Planned(SymbolRef("users"));
    assert PlanClause(List([Symbol("table"), Symbol("users")]), st) == Continue(st');
    assert PlanClauses(query, 3, st') == Continue(st');
    assert PlanClauses(query, 2, st) == Continue(st');
  }

  /** A nil column: `plan` panics, `compile` drops it. */
  lemma NilColumnPlanPanicsCompileDrops()
    ensures PlanOf(List([Symbol("select"), List([Symbol("columns"), Nil])])) == PlanPanic(UnplannableColumn(Nil))
    ensures Compiler.CompileOf(List([Symbol("select"), List([Symbol("columns"), Nil])]), FormatLiteral)
         == Compiler.Compiled(Compiler.EmptyNode)
  {
    var columns := List([Symbol("columns"), Nil]);
    assert PlanColumns(columns, 1, Initial) == Abort(UnplannableColumn(Nil));
    assert Compiler.CompileElements(columns, 1, [], FormatLiteral) == Compiler.Continue([]);
  }

  /** The heap of the test: one root Environment whose `users` table is the
      single seeded row {id: 1, name: "bob"}. */
  function UsersHeap(): (h: Heap)
    ensures WellFormed(h) && |h.scopes| == 1
  {
    Heap([Scope(None, map[], map["users" := [0]])], [BobRow])
  }

  /** Evaluating `(select (columns 1) (table users))` returns the seeded row
      itself, now holding "_" = 1 beside id and name, and leaves id and name
      bound in the root Environment. */
  lemma EvalSelectOneFromUsers()
    ensures var r := Eval(UsersHeap(), 0, Scan(Some(Table("users")), [Const(Number(One))], []));
      && r.outcome == Present(Stored(0))
      && r.heap.rows == [BobRow["_" := Number(One)]]
      && Get(r.heap.scopes, 0, "name") == (String("bob"), true)
  {
    var h := UsersHeap();
    TableScanWritesSeededRow(h, 0, "users", [Const(Number(One))], []);
    ScanBindsSourceRow(h, 0, Scan(Some(Table("users")), [Const(Number(One))], []));
  }

  /** `(select (columns id) (table users))` plans to a Scan of TableNode
      users with one symbol column. */
  lemma PlanSelectIdFromUsers()
    ensures PlanOf(SelectIdFromUsers) == Planned(Scan(Some(Table("users")), [SymbolRef("id")], []))
  {
    PlanColumnsId();
    var st := Initial.(columns := [SymbolRef("id")], scanColumns := [SymbolRef("id")]);
    var st' := st.(source := Some(Table("users")));
    assert PlanOf(Symbol("users")) == Planned(SymbolRef("users"));
    assert PlanClause(List([Symbol("table"), Symbol("users")]), st) == Continue(st');
    assert PlanClauses(SelectIdFromUsers, 3, st') == Continue(st');
    assert PlanClauses(SelectIdFromUsers, 2, st) == Continue(st');
  }

  /** Evaluating `(select (columns id) (table users))`: the column reads id
      from the seeded row's bindings, so the row itself is returned with
      "_" = 1 beside id and name. */
  lemma EvalSelectIdFromUsers()
    ensures var r := Eval(UsersHeap(), 0, Scan(Some(Table("users")), [SymbolRef("id")], []));
      && r.outcome == Present(Stored(0))
      && r.heap.rows == [BobRow["_" := Number(One)]]
  {
    var h := UsersHeap();
    TableScanWritesSeededRow(h, 0, "users", [SymbolRef("id")], []);
    var s := BindAll(h.scopes, 0, BobRow);
    assert Get(s, 0, "id") == (Number(One), true);
    assert LastColumnValue(s, 0, [SymbolRef("id")]) == Some(Number(One));
  }

  /** Evaluating `(select (columns id name) (table users))`: both columns
      write "_", so the row ends with the later one, "bob", under "_". */
  lemma EvalSelectIdNameFromUsers()
    ensures var r := Eval(UsersHeap(), 0, Scan(Some(Table("users")), [SymbolRef("id"), SymbolRef("name")], []));
      && r.outcome == Present(Stored(0))
      && r.heap.rows == [BobRow["_" := String("bob")]]
  {
    var h := UsersHeap();
    var columns := [SymbolRef("id"), SymbolRef("name")];
    TableScanWritesSeededRow(h, 0, "users", columns, []);
    var s := BindAll(h.scopes, 0, BobRow);
    assert Get(s, 0, "name") == (String("bob"), true);
    assert columns[1..] == [SymbolRef("name")];
    assert LastColumnValue(s, 0, [SymbolRef("name")]) == Some(String("bob"));
    assert LastColumnValue(s, 0, columns) == Some(String("bob"));
  }

  /** The sequence of steps of the repository's test for one query, written
      as a method over a Store: seed `users`, plan the query and evaluate it
      against a fresh root Environment. */
  method RunSelectOneFromUsers() returns (o: Evaluator.Outcome, row: RowValues)
    ensures o == Present(Stored(0))
    ensures row == map["id" := Number(One), "name" := String("bob"), "_" := Number(One)]
  {
    var store := new Store([BobRow]);
    var env := store.NewEnvironment(None);
    store.SeedTable(env, "users", [0]);
    assert store.State() == UsersHeap();
    var p := Plan(SelectOneFromUsers);
    PlanSelectOneFromUsers();
    o := Evaluate(store, env, p.node);
    EvalSelectOneFromUsers();
    row := store.rows[0];
  }
}
