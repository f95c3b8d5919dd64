/**
 * The tree-walking evaluator: `Evaluate` on every plan node (planner.go).
 *
 * A node evaluates against an Environment to a Row or to nil. A Row is
 * either a map made for the occasion or, for a TableNode, the first row of a
 * seeded table itself, shared by pointer; a Scan over such a row writes its
 * column results into the table's row. `RowRef` keeps the two apart: a
 * Fresh row carries its map, a Stored row names a row of the heap arena.
 *
 * `Eval` is the specification over the whole heap; `Evaluate` is the Go code's
 * shape over a `Store`, with its two loops, proved to agree with `Eval`.
 */
module Evaluator {

  import opened Wrappers
  import opened Expressions
  import opened Environments
  import opened Planner

  /** The *Row a node returns: a map of its own, or a seeded table row. */
  datatype RowRef = Fresh(values: RowValues) | Stored(id: RowId)

  /** The Go panics of evaluation. */
  datatype EvalFailure =
    | AbsentSource              // r.Values on the nil row of a Source
    | EmptyTable(name: string)  // table[0] on an empty table

  /** A present row, nil, or a panic. */
  datatype Outcome = Present(row: RowRef) | Absent | Crash(failure: EvalFailure)

  /** The heap after an evaluation, and what it returned. */
  datatype Evaluated = Evaluated(heap: Heap, outcome: Outcome)

  /** A row reference that points into the heap, if it points at all. */
  predicate RowIn(h: Heap, row: RowRef) {
    row.Stored? ==> row.id < |h.rows|
  }

  /** The Values map a row reference stands for in heap `h`. */
  function ValuesOf(h: Heap, row: RowRef): RowValues
    requires RowIn(h, row)
  {
    match row
    case Fresh(v) => v
    case Stored(id) => h.rows[id]
  }

  /** The heap and row after `r.Values[key] = val` for every entry of `m`:
      a Fresh map grows, a Stored row is updated in the heap. */
  function MergeInto(h: Heap, row: RowRef, m: RowValues): (r: Evaluated)
    requires RowIn(h, row)
    ensures r.outcome == Present(if row.Fresh? then Fresh(row.values + m) else row)
    ensures r.heap.scopes == h.scopes && |r.heap.rows| == |h.rows|
    ensures forall id | 0 <= id < |h.rows| && (row.Fresh? || id != row.id) :: r.heap.rows[id] == h.rows[id]
    ensures row.Stored? ==> r.heap.rows[row.id] == h.rows[row.id] + m
  {
    match row
    case Fresh(v) => Evaluated(h, Present(Fresh(v + m)))
    case Stored(id) => Evaluated(h.(rows := h.rows[id := h.rows[id] + m]), Present(row))
  }

  /** The heap with a fresh child scope of `env` appended (NewEnvironment). */
  function Allocate(h: Heap, env: Env): (h': Heap)
    ensures |h'.scopes| == |h.scopes| + 1 && h'.rows == h.rows
  {
    h.(scopes := h.scopes + [NewScope(Some(env))])
  }

  /** `h'` is a later state of `h` in which the existing scopes other than
      `env` are untouched, `env` only gained bindings, no row disappeared
      and no row lost a key. Tables and outer links never change. */
  ghost predicate Extends(h: Heap, h': Heap, env: Env) {
    && |h.scopes| <= |h'.scopes| && |h'.rows| == |h.rows|
    && (forall i | 0 <= i < |h.scopes| && i != env :: h'.scopes[i] == h.scopes[i])
    && (env < |h.scopes| ==>
          && h'.scopes[env].outer == h.scopes[env].outer
          && h'.scopes[env].tables == h.scopes[env].tables
          && h.scopes[env].values.Keys <= h'.scopes[env].values.Keys)
    && (forall id | 0 <= id < |h.rows| :: h.rows[id].Keys <= h'.rows[id].Keys)
  }

  lemma ExtendsCompose(h: Heap, h1: Heap, h2: Heap, env: Env, env2: Env)
    requires Extends(h, h1, env) && Extends(h1, h2, env2)
    requires env2 == env || env2 >= |h.scopes|
    ensures Extends(h, h2, env)
  {
  }

  lemma AllocateKeepsWellFormed(h: Heap, env: Env)
    requires WellFormed(h) && env < |h.scopes|
    ensures WellFormed(Allocate(h, env)) && Extends(h, Allocate(h, env), env)
    ensures forall i | 0 <= i < |h.scopes| :: Allocate(h, env).scopes[i] == h.scopes[i]
  {
    var s := Allocate(h, env).scopes;
    assert forall i | 0 <= i < |h.scopes| :: s[i] == h.scopes[i];
    assert s[|h.scopes|] == NewScope(Some(env));
  }

  lemma BindAllKeepsWellFormed(h: Heap, env: Env, row: RowValues)
    requires WellFormed(h) && env < |h.scopes|
    ensures WellFormed(h.(scopes := BindAll(h.scopes, env, row)))
    ensures Extends(h, h.(scopes := BindAll(h.scopes, env, row)), env)
  {
  }

  lemma MergeKeepsWellFormed(h: Heap, row: RowRef, m: RowValues, env: Env)
    requires WellFormed(h) && RowIn(h, row)
    ensures WellFormed(MergeInto(h, row, m).heap) && Extends(h, MergeInto(h, row, m).heap, env)
  {
  }

  /** Evaluate, on every kind of node. */
  function Eval(h: Heap, env: Env, n: Node): (r: Evaluated)
    requires WellFormed(h) && env < |h.scopes|
    ensures WellFormed(r.heap) && Extends(h, r.heap, env)
    ensures r.outcome.Present? ==> RowIn(r.heap, r.outcome.row)
    ensures !n.Scan? ==> r.heap == h
    ensures n.Scan? ==> !r.outcome.Absent?
    decreases n, 1
  {
    match n
    case Const(v) => Evaluated(h, Present(Fresh(map["_" := v])))
    case SymbolRef(name) =>
      var (v, found) := Get(h.scopes, env, name);
      if found then Evaluated(h, Present(Fresh(map["_" := v]))) else Evaluated(h, Absent)
    case Table(name) =>
      (match GetTable(h.scopes, env, name)
       case None => Evaluated(h, Absent)
       case Some(t) =>
         if |t| == 0 then Evaluated(h, Crash(EmptyTable(name)))
         else
           GetTableRowsExist(h.scopes, env, name, |h.rows|);
           Evaluated(h, Present(Stored(t[0]))))
    case Aggregate(_, _) => Evaluated(h, Present(Fresh(map["_" := Number(One)])))
    case Join => Evaluated(h, Absent)
    case Group(_, _, _) => Evaluated(h, Absent)
    case Scan(source, _, _) =>
      if source.None? then EvalColumns(h, env, n, 0, Fresh(map[]))
      else
        var sr := Eval(h, env, source.value);
        match sr.outcome
        case Crash(f) => sr
        case Absent => Evaluated(sr.heap, Crash(AbsentSource))
        case Present(row) =>
          var h1 := sr.heap.(scopes := BindAll(sr.heap.scopes, env, ValuesOf(sr.heap, row)));
          BindAllKeepsWellFormed(sr.heap, env, ValuesOf(sr.heap, row));
          ExtendsCompose(h, sr.heap, h1, env, env);
          var cr := EvalColumns(h1, env, n, 0, row);
          ExtendsCompose(h, h1, cr.heap, env, env);
          cr
  }

  /** The column loop of a Scan, from column i on, merging into `row`: each
      column is evaluated in a fresh child of `env`, a nil result is skipped,
      and a present one is merged key by key, later keys overwriting. */
  function EvalColumns(h: Heap, env: Env, n: Node, i: nat, row: RowRef): (r: Evaluated)
    requires n.Scan? && i <= |n.columns| && WellFormed(h) && env < |h.scopes| && RowIn(h, row)
    ensures WellFormed(r.heap) && Extends(h, r.heap, env)
    ensures forall k | 0 <= k < |h.scopes| :: r.heap.scopes[k] == h.scopes[k]
    ensures r.outcome.Present? ==> RowIn(r.heap, r.outcome.row)
    ensures !r.outcome.Absent?
    ensures r.outcome.Present? && row.Stored? ==> r.outcome.row == row
    decreases n, 0, |n.columns| - i
  {
    if i == |n.columns| then Evaluated(h, Present(row))
    else
      var h1 := Allocate(h, env);
      AllocateKeepsWellFormed(h, env);
      var cr := Eval(h1, |h.scopes|, n.columns[i]);
      ExtendsCompose(h, h1, cr.heap, env, |h.scopes|);
      match cr.outcome
      case Crash(f) => Evaluated(cr.heap, Crash(f))
      case Absent =>
        var r := EvalColumns(cr.heap, env, n, i + 1, row);
        ExtendsCompose(h, cr.heap, r.heap, env, env);
        r
      case Present(c) =>
        var m := MergeInto(cr.heap, row, ValuesOf(cr.heap, c));
        MergeKeepsWellFormed(cr.heap, row, ValuesOf(cr.heap, c), env);
        ExtendsCompose(h, cr.heap, m.heap, env, env);
        var r := EvalColumns(m.heap, env, n, i + 1, m.outcome.row);
        ExtendsCompose(h, m.heap, r.heap, env, env);
        r
  }

  /** The entries of `m` whose keys are in `done`. */
  function Restrict(m: RowValues, done: set<string>): (r: RowValues)
    ensures r.Keys == m.Keys * done && forall k | k in r :: r[k] == m[k]
  {
    map k | k in m && k in done :: m[k]
  }

  lemma RestrictStep(m: RowValues, done: set<string>, k: string)
    requires k in m
    ensures Restrict(m, done + {k}) == Restrict(m, done)[k := m[k]]
  {
  }

  lemma RestrictEnds(m: RowValues)
    ensures Restrict(m, m.Keys) == m
    ensures Restrict(m, m.Keys - m.Keys) == map[]
  {
  }

  lemma BindAllNothing(scopes: seq<Scope>, env: Env)
    requires env < |scopes|
    ensures BindAll(scopes, env, map[]) == scopes
  {
    assert scopes[env].values + map[] == scopes[env].values;
  }

  lemma MergeNothing(h: Heap, row: RowRef)
    requires RowIn(h, row)
    ensures MergeInto(h, row, map[]) == Evaluated(h, Present(row))
  {
    if row.Fresh? {
      assert row.values + map[] == row.values;
    } else {
      assert h.rows[row.id] + map[] == h.rows[row.id];
      assert h.rows[row.id := h.rows[row.id]] == h.rows;
    }
  }

  lemma UnionUpdate(base: RowValues, part: RowValues, k: string, v: Expression)
    ensures base + part[k := v] == (base + part)[k := v]
  {
  }

  /** The first loop of ScanNode.Evaluate: Set every entry of the source row
      into the caller's environment, one key at a time. */
  method BindRow(store: Store, env: Env, values: RowValues)
    requires store.Valid() && env < |store.scopes|
    modifies store
    ensures store.Valid() && store.rows == old(store.rows)
    ensures store.scopes == BindAll(old(store.scopes), env, values)
  {
    ghost var s0 := store.scopes;
    var todo := values.Keys;
    RestrictEnds(values);
    BindAllNothing(s0, env);
    while todo != {}
      invariant todo <= values.Keys
      invariant store.Valid() && store.rows == old(store.rows) && |store.scopes| == |s0|
      invariant store.scopes == BindAll(s0, env, Restrict(values, values.Keys - todo))
      decreases todo
    {
      var k :| k in todo;
      store.Set(env, k, values[k]);
      RestrictStep(values, values.Keys - todo, k);
      UnionUpdate(s0[env].values, Restrict(values, values.Keys - todo), k, values[k]);
      assert values.Keys - (todo - {k}) == (values.Keys - todo) + {k};
      todo := todo - {k};
    }
    assert values.Keys - todo == values.Keys;
    RestrictEnds(values);
  }

  /** The merge loop of ScanNode.Evaluate: `r.Values[key] = val` for every
      entry of a column's row; a Stored row is written in the heap. */
  method MergeRow(store: Store, row: RowRef, m: RowValues) returns (merged: RowRef)
    requires store.Valid() && RowIn(store.State(), row)
    modifies store
    ensures store.Valid()
    ensures Evaluated(store.State(), Present(merged)) == MergeInto(old(store.State()), row, m)
  {
    ghost var h0 := store.State();
    merged := row;
    var todo := m.Keys;
    RestrictEnds(m);
    MergeNothing(h0, row);
    while todo != {}
      invariant todo <= m.Keys
      invariant store.Valid() && RowIn(store.State(), merged)
      invariant Evaluated(store.State(), Present(merged)) == MergeInto(h0, row, Restrict(m, m.Keys - todo))
      decreases todo
    {
      var k :| k in todo;
      RestrictStep(m, m.Keys - todo, k);
      if merged.Fresh? {
        UnionUpdate(row.values, Restrict(m, m.Keys - todo), k, m[k]);
        merged := Fresh(merged.values[k := m[k]]);
      } else {
        UnionUpdate(h0.rows[row.id], Restrict(m, m.Keys - todo), k, m[k]);
        store.WriteRow(merged.id, k, m[k]);
      }
      assert m.Keys - (todo - {k}) == (m.Keys - todo) + {k};
      todo := todo - {k};
    }
    assert m.Keys - todo == m.Keys;
    RestrictEnds(m);
  }

  /** Evaluate, as the Go methods run it against the Environment objects. */
  method Evaluate(store: Store, env: Env, n: Node) returns (o: Outcome)
    requires store.Valid() && env < |store.scopes|
    modifies store
    ensures store.Valid()
    ensures Evaluated(store.State(), o) == Eval(old(store.State()), env, n)
    decreases n, 3
  {
    match n {
      case Const(v) =>
        return Present(Fresh(map["_" := v]));
      case SymbolRef(name) =>
        var (v, found) := Get(store.scopes, env, name);
        if !found {
          return Absent;
        }
        return Present(Fresh(map["_" := v]));
      case Table(name) =>
        var table := GetTable(store.scopes, env, name);
        if table.None? {
          return Absent;
        }
        if |table.value| == 0 {
          return Crash(EmptyTable(name));
        }
        GetTableRowsExist(store.scopes, env, name, |store.rows|);
        return Present(Stored(table.value[0]));
      case Aggregate(_, _) =>
        return Present(Fresh(map["_" := Number(One)]));
      case Join =>
        return Absent;
      case Group(_, _, _) =>
        return Absent;
      case Scan(_, _, _) =>
        o := EvaluateScan(store, env, n);
    }
  }

  /** ScanNode.Evaluate: the source row, bound into `env`, then every column
      in a fresh child scope, merged into the row. */
  method EvaluateScan(store: Store, env: Env, n: Node) returns (o: Outcome)
    requires n.Scan? && store.Valid() && env < |store.scopes|
    modifies store
    ensures store.Valid()
    ensures Evaluated(store.State(), o) == Eval(old(store.State()), env, n)
    decreases n, 2
  {
    var row: RowRef := Fresh(map[]);
    if n.source.Some? {
      var s := Evaluate(store, env, n.source.value);
      if s.Crash? {
        return s;
      }
      if s.Absent? {
        return Crash(AbsentSource);
      }
      row := s.row;
      BindRow(store, env, ValuesOf(store.State(), row));
    }
    assert Eval(old(store.State()), env, n) == EvalColumns(store.State(), env, n, 0, row);
    o := EvaluateColumns(store, env, n, row);
  }

  /** The column loop of ScanNode.Evaluate: each column in a fresh child of
      `env`, its row merged into `row`. */
  method EvaluateColumns(store: Store, env: Env, n: Node, row: RowRef) returns (o: Outcome)
    requires n.Scan? && store.Valid() && env < |store.scopes| && RowIn(store.State(), row)
    modifies store
    ensures store.Valid()
    ensures Evaluated(store.State(), o) == EvalColumns(old(store.State()), env, n, 0, row)
    decreases n, 1
  {
    ghost var h0 := store.State();
    var merged := row;
    var i := 0;
    while i < |n.columns|
      invariant 0 <= i <= |n.columns|
      invariant store.Valid() && env < |store.scopes| && RowIn(store.State(), merged)
      invariant EvalColumns(store.State(), env, n, i, merged) == EvalColumns(h0, env, n, 0, row)
      decreases |n.columns| - i
    {
      var c;
      c, merged := EvaluateColumn(store, env, n, i, merged);
      if c.Crash? {
        return c;
      }
      i := i + 1;
    }
    return Present(merged);
  }

  /** One pass of the column loop: column `i` in a fresh child of `env`; a
      panic ends the loop, a row is merged into `row`, nil is skipped. */
  method EvaluateColumn(store: Store, env: Env, n: Node, i: nat, row: RowRef) returns (c: Outcome, merged: RowRef)
    requires n.Scan? && i < |n.columns|
    requires store.Valid() && env < |store.scopes| && RowIn(store.State(), row)
    modifies store
    ensures store.Valid() && env < |store.scopes| && RowIn(store.State(), merged)
    ensures c.Crash? ==> Evaluated(store.State(), c) == EvalColumns(old(store.State()), env, n, i, row)
    ensures !c.Crash? ==> EvalColumns(store.State(), env, n, i + 1, merged) == EvalColumns(old(store.State()), env, n, i, row)
    decreases n, 0
  {
    ghost var h := store.State();
    var child := store.NewEnvironment(Some(env));
    assert store.State() == Allocate(h, env) && child == |h.scopes|;
    c := Evaluate(store, child, n.columns[i]);
    merged := row;
    if c.Present? {
      merged := MergeRow(store, row, ValuesOf(store.State(), c.row));
    }
  }

  // ---------------------------------------------------------------------
  // Properties of evaluation

  /** A SymbolNode is absent exactly when no scope on the chain binds the
      name, and otherwise gives the nearest binding under "_". */
  lemma SymbolEvaluation(h: Heap, env: Env, name: string)
    requires WellFormed(h) && env < |h.scopes|
    ensures Eval(h, env, SymbolRef(name)).heap == h
    ensures Eval(h, env, SymbolRef(name)).outcome == match Owner(h.scopes, env, name)
      case None => Absent
      case Some(o) => Present(Fresh(map["_" := h.scopes[o].values[name]]))
  {
    GetIsOwnerBinding(h.scopes, env, name);
  }

  /** A TableNode is absent exactly when no scope on the chain has the table,
      panics on an empty table, and otherwise is the table's first row itself,
      not a copy. */
  lemma TableEvaluation(h: Heap, env: Env, name: string)
    requires WellFormed(h) && env < |h.scopes|
    ensures Eval(h, env, Table(name)).heap == h
    ensures Eval(h, env, Table(name)).outcome == match GetTable(h.scopes, env, name)
      case None => Absent
      case Some(t) => if t == [] then Crash(EmptyTable(name)) else Present(Stored(t[0]))
  {
  }

  /** Const and Aggregate always give a one-entry row under "_"; Group and
      Join are always nil; none of them touches the heap. */
  lemma ConstantLeaves(h: Heap, env: Env, v: Expression, f: string, args: seq<Option<Node>>, g: Node, keys: seq<Node>, cols: seq<Node>)
    requires WellFormed(h) && env < |h.scopes|
    ensures Eval(h, env, Const(v)) == Evaluated(h, Present(Fresh(map["_" := v])))
    ensures Eval(h, env, Aggregate(f, args)) == Evaluated(h, Present(Fresh(map["_" := Number(One)])))
    ensures Eval(h, env, Group(g, keys, cols)) == Evaluated(h, Absent)
    ensures Eval(h, env, Join) == Evaluated(h, Absent)
  {
  }

  /** The column loop never reads the Scan's Filters. */
  lemma {:induction false} EvalColumnsIgnoresFilters(h: Heap, env: Env, n1: Node, n2: Node, i: nat, row: RowRef)
    requires n1.Scan? && n2.Scan? && n1.columns == n2.columns
    requires i <= |n1.columns| && WellFormed(h) && env < |h.scopes| && RowIn(h, row)
    ensures EvalColumns(h, env, n1, i, row) == EvalColumns(h, env, n2, i, row)
    decreases |n1.columns| - i, 1
  {
    if i < |n1.columns| {
      var h1 := Allocate(h, env);
      AllocateKeepsWellFormed(h, env);
      var cr := Eval(h1, |h.scopes|, n1.columns[i]);
      if cr.outcome.Absent? {
        EvalColumnsIgnoresFilters(cr.heap, env, n1, n2, i + 1, row);
      } else if cr.outcome.Present? {
        PresentColumnIgnoresFilters(h, env, n1, n2, i, row);
      }
    }
  }

  /** The step of `EvalColumnsIgnoresFilters` for a column that is present. */
  lemma {:induction false} PresentColumnIgnoresFilters(h: Heap, env: Env, n1: Node, n2: Node, i: nat, row: RowRef)
    requires n1.Scan? && n2.Scan? && n1.columns == n2.columns
    requires i < |n1.columns| && WellFormed(h) && env < |h.scopes| && RowIn(h, row)
    requires WellFormed(Allocate(h, env)) && Eval(Allocate(h, env), |h.scopes|, n1.columns[i]).outcome.Present?
    ensures EvalColumns(h, env, n1, i, row) == EvalColumns(h, env, n2, i, row)
    decreases |n1.columns| - i, 0
  {
    var cr := Eval(Allocate(h, env), |h.scopes|, n1.columns[i]);
    var m := MergeInto(cr.heap, row, ValuesOf(cr.heap, cr.outcome.row));
    MergeKeepsWellFormed(cr.heap, row, ValuesOf(cr.heap, cr.outcome.row), env);
    EvalColumnsIgnoresFilters(m.heap, env, n1, n2, i + 1, m.outcome.row);
  }

  /** Evaluating a Scan never reads its Filters: any two filter lists give
      the same row and the same heap. */
  lemma ScanIgnoresFilters(h: Heap, env: Env, source: Option<Node>, columns: seq<Node>, f1: seq<Filter>, f2: seq<Filter>)
    requires WellFormed(h) && env < |h.scopes|
    ensures Eval(h, env, Scan(source, columns, f1)) == Eval(h, env, Scan(source, columns, f2))
  {
    var n1, n2 := Scan(source, columns, f1), Scan(source, columns, f2);
    if source.None? {
      EvalColumnsIgnoresFilters(h, env, n1, n2, 0, Fresh(map[]));
    } else {
      var sr := Eval(h, env, source.value);
      if sr.outcome.Present? {
        var row := sr.outcome.row;
        var h1 := sr.heap.(scopes := BindAll(sr.heap.scopes, env, ValuesOf(sr.heap, row)));
        BindAllKeepsWellFormed(sr.heap, env, ValuesOf(sr.heap, row));
        EvalColumnsIgnoresFilters(h1, env, n1, n2, 0, row);
      }
    }
  }

  /** A Scan whose Source is present leaves every key of the source row bound
      in the caller's own Environment, with the source row's value; the
      columns, evaluated in child scopes, do not change that scope. */
  lemma ScanBindsSourceRow(h: Heap, env: Env, n: Node)
    requires WellFormed(h) && env < |h.scopes| && n.Scan? && n.source.Some?
    requires Eval(h, env, n.source.value).outcome.Present?
    ensures var sr := Eval(h, env, n.source.value);
      var values := ValuesOf(sr.heap, sr.outcome.row);
      var r := Eval(h, env, n);
      && r.heap.scopes[env].values == sr.heap.scopes[env].values + values
      && forall k | k in values :: Get(r.heap.scopes, env, k) == (values[k], true)
  {
  }

  /** A Scan whose Source is nil, or a node that is not a row (a GroupNode or
      JoinNode, say), panics instead of returning a row. */
  lemma AbsentSourceCrashes(h: Heap, env: Env, n: Node)
    requires WellFormed(h) && env < |h.scopes| && n.Scan? && n.source.Some?
    requires Eval(h, env, n.source.value).outcome.Absent?
    ensures Eval(h, env, n).outcome == Crash(AbsentSource)
  {
  }

  /** A grouped select's plan cannot be a Scan's Source: evaluating such a
      Scan always panics. */
  lemma GroupSourceCrashes(h: Heap, env: Env, g: Node, keys: seq<Node>, gcols: seq<Node>, columns: seq<Node>, filters: seq<Filter>)
    requires WellFormed(h) && env < |h.scopes|
    ensures Eval(h, env, Scan(Some(Group(g, keys, gcols)), columns, filters)).outcome == Crash(AbsentSource)
  {
  }

  /** A column the loop evaluates without touching the heap: anything but a
      Scan or a TableNode. */
  predicate LeafColumn(c: Node) {
    !c.Scan? && !c.Table?
  }

  /** What a leaf column puts under "_" when evaluated in a child of `env`,
      or None when it is nil: a constant its value, a symbol its nearest
      binding if there is one, an aggregate 1, a group or join nothing. */
  function ColumnValue(scopes: seq<Scope>, env: Env, c: Node): Option<Expression>
    requires ChainsDescend(scopes) && env < |scopes| && LeafColumn(c)
  {
    match c
    case Const(v) => Some(v)
    case SymbolRef(name) => if Get(scopes, env, name).1 then Some(Get(scopes, env, name).0) else None
    case Aggregate(_, _) => Some(Number(One))
    case _ => None
  }

  /** The value of the last leaf column in `cols` that is not nil. */
  function LastColumnValue(scopes: seq<Scope>, env: Env, cols: seq<Node>): Option<Expression>
    requires ChainsDescend(scopes) && env < |scopes| && forall c | c in cols :: LeafColumn(c)
  {
    if cols == [] then None
    else match LastColumnValue(scopes, env, cols[1..])
      case Some(v) => Some(v)
      case None => ColumnValue(scopes, env, cols[0])
  }

  /** `values` with "_" set to `v`, if there is a value. */
  function Overwritten(values: RowValues, v: Option<Expression>): RowValues {
    if v.Some? then values["_" := v.value] else values
  }

  /** Overwriting "_" twice keeps the later value, if there is one. */
  lemma OverwrittenTwice(values: RowValues, a: Option<Expression>, b: Option<Expression>)
    ensures Overwritten(Overwritten(values, a), b) == Overwritten(values, if b.Some? then b else a)
  {
    if a.Some? && b.Some? {
      assert values["_" := a.value]["_" := b.value] == values["_" := b.value];
    }
  }

  /** Overwriting "_" of one row twice keeps the later value, and leaves the
      other rows alone. */
  lemma RowOverwrittenTwice(rows: seq<RowValues>, id: nat, a: Option<Expression>, b: Option<Expression>)
    requires id < |rows|
    ensures var once := rows[id := Overwritten(rows[id], a)];
      once[id := Overwritten(once[id], b)] == rows[id := Overwritten(rows[id], if b.Some? then b else a)]
  {
    OverwrittenTwice(rows[id], a, b);
  }

  /** A leaf column evaluated in a fresh child of `env` leaves the heap as it
      is and gives its value under "_", or nil. */
  lemma LeafColumnEvaluation(h: Heap, env: Env, c: Node, base: seq<Scope>)
    requires LeafColumn(c) && WellFormed(h) && base <= h.scopes && ChainsDescend(base) && env < |base|
    ensures WellFormed(Allocate(h, env))
    ensures Eval(Allocate(h, env), |h.scopes|, c) == Evaluated(Allocate(h, env),
      if ColumnValue(base, env, c).Some? then Present(Fresh(map["_" := ColumnValue(base, env, c).value])) else Absent)
  {
    AllocateKeepsWellFormed(h, env);
    if c.SymbolRef? {
      NewChildSeesParent(h.scopes, env, c.symbol);
      assert base + h.scopes[|base|..] == h.scopes;
      GetExtend(base, h.scopes[|base|..], env, c.symbol);
    }
  }

  /** One leaf column: the loop goes on from the next column with the row
      overwritten by the column's value, in place when the row is Stored.
      The column sees the scopes of `base`, which the loop only extends. */
  lemma LeafColumnStep(h: Heap, env: Env, n: Node, i: nat, row: RowRef, base: seq<Scope>) returns (h': Heap, row': RowRef)
    requires n.Scan? && i < |n.columns| && LeafColumn(n.columns[i])
    requires WellFormed(h) && RowIn(h, row) && base <= h.scopes && ChainsDescend(base) && env < |base|
    ensures WellFormed(h') && RowIn(h', row') && base <= h'.scopes
    ensures EvalColumns(h, env, n, i, row) == EvalColumns(h', env, n, i + 1, row')
    ensures var updated := Overwritten(ValuesOf(h, row), ColumnValue(base, env, n.columns[i]));
      && row' == (if row.Stored? then row else Fresh(updated))
      && h'.rows == if row.Stored? then h.rows[row.id := updated] else h.rows
  {
    var c := n.columns[i];
    var h1 := Allocate(h, env);
    AllocateKeepsWellFormed(h, env);
    LeafColumnEvaluation(h, env, c, base);
    var cr := Eval(h1, |h.scopes|, c);
    var before := ValuesOf(h, row);
    match cr.outcome {
      case Absent =>
        h', row' := h1, row;
      case Present(r) =>
        var v := ColumnValue(base, env, c).value;
        var m := MergeInto(h1, row, map["_" := v]);
        MergeKeepsWellFormed(h1, row, map["_" := v], env);
        h', row' := m.heap, m.outcome.row;
        assert before + map["_" := v] == before["_" := v];
    }
  }

  /** Leaf columns: a nil column is skipped and a present one overwrites "_",
      so the row ends with the last present column's value under "_" and its
      other keys untouched; a Stored row is changed in the heap, and no other
      row is. Every column sees the scopes of `base`. */
  lemma {:induction false} LeafColumnsMerge(h: Heap, env: Env, n: Node, i: nat, row: RowRef, base: seq<Scope>)
    requires n.Scan? && i <= |n.columns| && forall c | c in n.columns[i..] :: LeafColumn(c)
    requires WellFormed(h) && RowIn(h, row) && base <= h.scopes && ChainsDescend(base) && env < |base|
    ensures var r := EvalColumns(h, env, n, i, row);
      var updated := Overwritten(ValuesOf(h, row), LastColumnValue(base, env, n.columns[i..]));
      && r.outcome == Present(if row.Stored? then row else Fresh(updated))
      && r.heap.rows == if row.Stored? then h.rows[row.id := updated] else h.rows
    decreases |n.columns| - i
  {
    var cols := n.columns[i..];
    if i == |n.columns| {
      assert cols == [];
      if row.Stored? {
        assert h.rows[row.id := h.rows[row.id]] == h.rows;
      }
    } else {
      assert cols[0] == n.columns[i] && cols[1..] == n.columns[i + 1..];
      var h', row' := LeafColumnStep(h, env, n, i, row, base);
      LeafColumnsMerge(h', env, n, i + 1, row', base);
      var a := ColumnValue(base, env, n.columns[i]);
      var b := LastColumnValue(base, env, n.columns[i + 1..]);
      assert LastColumnValue(base, env, cols) == if b.Some? then b else a;
      OverwrittenTwice(ValuesOf(h, row), a, b);
      if row.Stored? {
        RowOverwrittenTwice(h.rows, row.id, a, b);
      }
    }
  }

  /** Constant columns end with the last constant under "_". */
  lemma {:induction false} ConstColumnsLast(scopes: seq<Scope>, env: Env, cols: seq<Node>)
    requires ChainsDescend(scopes) && env < |scopes| && cols != [] && forall c | c in cols :: c.Const?
    ensures LastColumnValue(scopes, env, cols) == Some(cols[|cols| - 1].value)
    decreases |cols|
  {
    if |cols| > 1 {
      assert cols[1..][|cols[1..]| - 1] == cols[|cols| - 1];
      ConstColumnsLast(scopes, env, cols[1..]);
    }
  }

  /** A Scan over a table, with leaf columns, returns the table's first row
      itself and writes "_" into that seeded row: the columns see the row's
      own keys bound in `env`, and the last one present gives "_". Evaluating
      the query changes the table. */
  lemma TableScanWritesSeededRow(h: Heap, env: Env, name: string, columns: seq<Node>, filters: seq<Filter>)
    requires WellFormed(h) && env < |h.scopes|
    requires GetTable(h.scopes, env, name).Some? && GetTable(h.scopes, env, name).value != []
    requires forall c | c in columns :: LeafColumn(c)
    ensures var id := GetTable(h.scopes, env, name).value[0];
      var r := Eval(h, env, Scan(Some(Table(name)), columns, filters));
      && id < |h.rows|
      && ChainsDescend(BindAll(h.scopes, env, h.rows[id]))
      && r.outcome == Present(Stored(id))
      && r.heap.rows == h.rows[id := Overwritten(h.rows[id], LastColumnValue(BindAll(h.scopes, env, h.rows[id]), env, columns))]
  {
    var n := Scan(Some(Table(name)), columns, filters);
    var id := GetTable(h.scopes, env, name).value[0];
    GetTableRowsExist(h.scopes, env, name, |h.rows|);
    var h1 := h.(scopes := BindAll(h.scopes, env, h.rows[id]));
    BindAllKeepsWellFormed(h, env, h.rows[id]);
    assert columns[0..] == columns;
    LeafColumnsMerge(h1, env, n, 0, Stored(id), h1.scopes);
  }

  /** A Scan with no Source and constant columns gives a fresh row holding
      only the last constant under "_". */
  lemma ConstantScan(h: Heap, env: Env, columns: seq<Node>, filters: seq<Filter>)
    requires WellFormed(h) && env < |h.scopes|
    requires columns != [] && forall c | c in columns :: c.Const?
    ensures Eval(h, env, Scan(None, columns, filters)).outcome
         == Present(Fresh(map["_" := columns[|columns| - 1].value]))
  {
    assert columns[0..] == columns;
    LeafColumnsMerge(h, env, Scan(None, columns, filters), 0, Fresh(map[]), h.scopes);
    ConstColumnsLast(h.scopes, env, columns);
    assert map[]["_" := columns[|columns| - 1].value] == map["_" := columns[|columns| - 1].value];
  }
}
