/**
 * The legacy compiler (compiler.go): `compile` translates an expression
 * into a planNode tree, and `string` renders such a tree as indented text.
 * It reads the same `select` grammar as `plan` with different policies:
 * columns and arguments that compile to nil are dropped, a `table` atom
 * that is neither a symbol nor a list is ignored, and every `group` entry
 * replaces the group, so the last one wins.
 *
 * The Go code fills `node.columns`, `node.filters` and `node.group` in
 * loops; no state outlives the call, so each loop is a fold here.
 */
module Compiler {

  import opened Wrappers
  import opened Expressions
  import Planner

  /** planNode: a symbol, a constant, or a select with its sections. */
  datatype PlanNode = PlanNode(
    symbol: string, constant: string, table: Option<PlanNode>,
    columns: seq<PlanNode>, filters: seq<FilterNode>, group: Option<GroupNode>)

  datatype FilterNode = FilterNode(operator: string, args: seq<PlanNode>)

  datatype GroupNode = GroupNode(args: seq<PlanNode>)

  /** The Go panics `compile` can raise, one per cause. */
  datatype CompileFailure =
    | ClauseNotList(clause: Expression)      // nextExp.(List)
    | EmptyClause                            // nextExpList[0] on ()
    | TableWithoutArgument                   // nextExpList[1] on (table)
    | WhereEntryNotList(entry: Expression)   // whereExp.(List)
    | EmptyWhereEntry                        // whereExpList[0] on ()
    | OperatorNotSymbol(operator: Expression) // whereExpList[0].(Symbol)
    | GroupEntryNotList(entry: Expression)   // groupExp.(List)

  /** What `compile` does: return a node, return nil, or panic. */
  datatype CompileResult = Compiled(node: PlanNode) | NotCompiled | CompilePanic(failure: CompileFailure)

  datatype Step<T> = Continue(value: T) | Abort(failure: CompileFailure)

  function SymbolNode(name: string): PlanNode {
    PlanNode(name, "", None, [], [], None)
  }

  function ConstantNode(text: string): PlanNode {
    PlanNode("", text, None, [], [], None)
  }

  const EmptyNode := PlanNode("", "", None, [], [], None)

  /** compile */
  function CompileOf(e: Expression, format: NumberFormat): CompileResult
    decreases e, 3
  {
    match e
    case Symbol(name) => Compiled(SymbolNode(name))
    case String(_) => Compiled(ConstantNode(ExprToStr(e, format)))
    case Number(_) => Compiled(ConstantNode(ExprToStr(e, format)))
    case Bool(_) => Compiled(ConstantNode(ExprToStr(e, format)))
    case List(xs) =>
      if |xs| == 0 || xs[0] != Symbol("select") then NotCompiled
      else
        (match CompileClauses(e, 1, EmptyNode, format)
         case Abort(f) => CompilePanic(f)
         case Continue(node) => Compiled(node))
    case _ => NotCompiled
  }

  /** The clause loop of `select`, from the i-th element of `e` on. */
  function CompileClauses(e: Expression, i: nat, node: PlanNode, format: NumberFormat): Step<PlanNode>
    requires e.List? && 1 <= i <= |e.items|
    decreases e, 2, |e.items| - i
  {
    if i == |e.items| then Continue(node)
    else match CompileClause(e.items[i], node, format)
      case Abort(f) => Abort(f)
      case Continue(node') => CompileClauses(e, i + 1, node', format)
  }

  /** One clause of a `select`. */
  function CompileClause(c: Expression, node: PlanNode, format: NumberFormat): Step<PlanNode>
    decreases c, 1
  {
    if !c.List? then Abort(ClauseNotList(c))
    else if |c.items| == 0 then Abort(EmptyClause)
    else
      var head := c.items[0];
      if head == Symbol("columns") then
        match CompileElements(c, 1, node.columns, format)
        case Abort(f) => Abort(f)
        case Continue(columns) => Continue(node.(columns := columns))
      else if head == Symbol("table") then
        if |c.items| < 2 then Abort(TableWithoutArgument)
        else
          var t := c.items[1];
          if t.Symbol? then Continue(node.(table := Some(SymbolNode(t.name))))
          else if t.List? then
            match CompileOf(t, format)
            case CompilePanic(f) => Abort(f)
            case NotCompiled => Continue(node)
            case Compiled(n) => Continue(node.(table := Some(n)))
          else Continue(node)
      else if head == Symbol("where") then CompileWhere(c, 1, node, format)
      else if head == Symbol("group") then CompileGroups(c, 1, node, format)
      else Continue(node)
  }

  /** Compiles the elements of the list `l` from the k-th on, appending the
      ones that compile to a node to `acc` and dropping the nil ones. */
  function CompileElements(l: Expression, k: nat, acc: seq<PlanNode>, format: NumberFormat): Step<seq<PlanNode>>
    requires l.List? && k <= |l.items|
    decreases l, 0, |l.items| - k
  {
    if k == |l.items| then Continue(acc)
    else match CompileOf(l.items[k], format)
      case CompilePanic(f) => Abort(f)
      case NotCompiled => CompileElements(l, k + 1, acc, format)
      case Compiled(n) => CompileElements(l, k + 1, acc + [n], format)
  }

  /** The entry loop of a `where` clause: one filterNode per entry. */
  function CompileWhere(c: Expression, j: nat, node: PlanNode, format: NumberFormat): Step<PlanNode>
    requires c.List? && 1 <= j <= |c.items|
    decreases c, 0, |c.items| - j
  {
    if j == |c.items| then Continue(node)
    else
      var w := c.items[j];
      if !w.List? then Abort(WhereEntryNotList(w))
      else if |w.items| == 0 then Abort(EmptyWhereEntry)
      else if !w.items[0].Symbol? then Abort(OperatorNotSymbol(w.items[0]))
      else match CompileElements(w, 1, [], format)
        case Abort(f) => Abort(f)
        case Continue(args) =>
          CompileWhere(c, j + 1, node.(filters := node.filters + [FilterNode(w.items[0].name, args)]), format)
  }

  /** The entry loop of a `group` clause: each entry, head included, becomes
      the group in turn. */
  function CompileGroups(c: Expression, j: nat, node: PlanNode, format: NumberFormat): Step<PlanNode>
    requires c.List? && 1 <= j <= |c.items|
    decreases c, 0, |c.items| - j
  {
    if j == |c.items| then Continue(node)
    else
      var g := c.items[j];
      if !g.List? then Abort(GroupEntryNotList(g))
      else match CompileElements(g, 0, [], format)
        case Abort(f) => Abort(f)
        case Continue(args) => CompileGroups(c, j + 1, node.(group := Some(GroupNode(args))), format)
  }

  // ---------------------------------------------------------------------
  // Rendering

  /** One header line (Fprintln of prefix+header) followed by a body. */
  function Section(prefix: string, header: string, body: string): string {
    prefix + header + "\n" + body
  }

  /** planNode.string */
  function Render(n: PlanNode, prefix: string): string
    decreases n, 1
  {
    if n.symbol != "" then prefix + n.symbol + "\n"
    else if n.constant != "" then prefix + n.constant + "\n"
    else RenderTable(n, prefix) + RenderColumns(n, 0, prefix) + RenderFilters(n, 0, prefix) + RenderGroupSection(n, prefix)
  }

  /** The Table section of `n`, if it has a table. */
  function RenderTable(n: PlanNode, prefix: string): string
    decreases n, 0
  {
    if n.table.Some? then Section(prefix, "Table", Render(n.table.value, prefix + "\t")) else ""
  }

  /** The Column sections of `n`, from the i-th column on. */
  function RenderColumns(n: PlanNode, i: nat, prefix: string): string
    requires i <= |n.columns|
    decreases n, 0, |n.columns| - i
  {
    if i == |n.columns| then ""
    else Section(prefix, "Column", Render(n.columns[i], prefix + "\t")) + RenderColumns(n, i + 1, prefix)
  }

  /** The Filter sections of `n`, from the i-th filter on. */
  function RenderFilters(n: PlanNode, i: nat, prefix: string): string
    requires i <= |n.filters|
    decreases n, 0, |n.filters| - i
  {
    if i == |n.filters| then ""
    else Section(prefix, "Filter", RenderFilter(n.filters[i], prefix + "\t")) + RenderFilters(n, i + 1, prefix)
  }

  /** The Group section of `n`, if it has a group. */
  function RenderGroupSection(n: PlanNode, prefix: string): string
    decreases n, 0
  {
    if n.group.Some? then Section(prefix, "Group", RenderGroup(n.group.value, 0, prefix + "\t")) else ""
  }

  /** filterNode.string; Fprintln puts a space between its two operands. */
  function RenderFilter(f: FilterNode, prefix: string): string
    decreases f, 1
  {
    prefix + "Operator " + f.operator + "\n" + RenderArgs(f, 0, prefix)
  }

  /** The Arg sections of a filterNode, from the k-th argument on. */
  function RenderArgs(f: FilterNode, k: nat, prefix: string): string
    requires k <= |f.args|
    decreases f, 0, |f.args| - k
  {
    if k == |f.args| then ""
    else Section(prefix, "Arg", Render(f.args[k], prefix + "\t")) + RenderArgs(f, k + 1, prefix)
  }

  /** groupNode.string, from the k-th argument on. */
  function RenderGroup(g: GroupNode, k: nat, prefix: string): string
    requires k <= |g.args|
    decreases g, |g.args| - k
  {
    if k == |g.args| then ""
    else Section(prefix, "Group arg", Render(g.args[k], prefix + "\t")) + RenderGroup(g, k + 1, prefix)
  }

  // ---------------------------------------------------------------------
  // What compile makes of a select's clauses

  /** The nodes of those expressions that compile to a node, in order. */
  function KeptNodes(es: seq<Expression>, format: NumberFormat): seq<PlanNode> {
    if es == [] then []
    else
      var first := CompileOf(es[0], format);
      (if first.Compiled? then [first.node] else []) + KeptNodes(es[1..], format)
  }

  /** The table a single clause sets, if it sets one. */
  function TableSetting(c: Expression, format: NumberFormat): Option<PlanNode> {
    if Planner.IsClause(c, "table") && |c.items| >= 2 then
      var t := c.items[1];
      if t.Symbol? then Some(SymbolNode(t.name))
      else if t.List? && CompileOf(t, format).Compiled? then Some(CompileOf(t, format).node)
      else None
    else None
  }

  /** The table set by the last clause that sets one. */
  function LastTable(cs: seq<Expression>, format: NumberFormat): Option<PlanNode> {
    if cs == [] then None
    else if LastTable(cs[1..], format).Some? then LastTable(cs[1..], format)
    else TableSetting(cs[0], format)
  }

  /** Every entry of every `group` clause, in clause order. */
  function GroupEntries(cs: seq<Expression>): seq<Expression> {
    if cs == [] then [] else Planner.EntriesOf(cs[0], "group") + GroupEntries(cs[1..])
  }

  /** The groupNode one group entry compiles to. */
  function GroupOfEntry(g: Expression, format: NumberFormat): GroupNode {
    GroupNode(if g.List? then KeptNodes(g.items, format) else [])
  }

  /** The filterNode one where entry compiles to. */
  function FilterOfEntry(w: Expression, format: NumberFormat): FilterNode {
    if w.List? && |w.items| > 0 && w.items[0].Symbol? then FilterNode(w.items[0].name, KeptNodes(w.items[1..], format))
    else FilterNode("", [])
  }

  function FiltersOfEntries(ws: seq<Expression>, format: NumberFormat): seq<FilterNode> {
    seq(|ws|, k requires 0 <= k < |ws| => FilterOfEntry(ws[k], format))
  }

  /** `node'` is `node` after the clauses `cs`: all columns entries that
      compile, one filterNode per where entry, the last table set and the
      last group entry. */
  predicate CollectedFrom(node: PlanNode, cs: seq<Expression>, node': PlanNode, format: NumberFormat) {
    && node'.symbol == node.symbol && node'.constant == node.constant
    && node'.columns == node.columns + KeptNodes(Planner.ColumnEntries(cs), format)
    && node'.filters == node.filters + FiltersOfEntries(Planner.WhereEntries(cs), format)
    && node'.table == (if LastTable(cs, format).Some? then LastTable(cs, format) else node.table)
    && node'.group == (if GroupEntries(cs) != [] then Some(GroupOfEntry(GroupEntries(cs)[|GroupEntries(cs)| - 1], format)) else node.group)
  }

  lemma {:induction false} KeptNodesAppend(a: seq<Expression>, b: seq<Expression>, format: NumberFormat)
    ensures KeptNodes(a + b, format) == KeptNodes(a, format) + KeptNodes(b, format)
  {
    if a == [] {
      assert a + b == b;
    } else {
      assert (a + b)[0] == a[0];
      assert (a + b)[1..] == a[1..] + b;
      KeptNodesAppend(a[1..], b, format);
      var h := if CompileOf(a[0], format).Compiled? then [CompileOf(a[0], format).node] else [];
      assert KeptNodes(a + b, format) == h + (KeptNodes(a[1..], format) + KeptNodes(b, format));
      assert h + (KeptNodes(a[1..], format) + KeptNodes(b, format)) == (h + KeptNodes(a[1..], format)) + KeptNodes(b, format);
    }
  }

  lemma FiltersOfEntriesAppend(a: seq<Expression>, b: seq<Expression>, format: NumberFormat)
    ensures FiltersOfEntries(a + b, format) == FiltersOfEntries(a, format) + FiltersOfEntries(b, format)
  {
  }

  /** The element loop succeeds exactly when no element panics, and then
      appends the nodes of the elements that compile, in order, dropping
      the nil ones. */
  lemma {:induction false} CompileElementsKeeps(l: Expression, k: nat, acc: seq<PlanNode>, format: NumberFormat)
    requires l.List? && k <= |l.items|
    ensures CompileElements(l, k, acc, format).Continue?
        <==> forall x | x in l.items[k..] :: !CompileOf(x, format).CompilePanic?
    ensures CompileElements(l, k, acc, format).Continue? ==>
      CompileElements(l, k, acc, format).value == acc + KeptNodes(l.items[k..], format)
    decreases |l.items| - k
  {
    if k == |l.items| {
      assert l.items[k..] == [];
    } else {
      var x, rest := l.items[k], l.items[k + 1..];
      assert l.items[k..] == [x] + rest;
      var r := CompileOf(x, format);
      var acc' := if r.Compiled? then acc + [r.node] else acc;
      CompileElementsKeeps(l, k + 1, acc', format);
      if r.CompilePanic? {
        assert x in l.items[k..];
      } else {
        assert CompileElements(l, k, acc, format) == CompileElements(l, k + 1, acc', format);
        assert KeptNodes([x] + rest, format) == (if r.Compiled? then [r.node] else []) + KeptNodes(rest, format);
      }
    }
  }

  /** The where loop appends one filterNode per entry, and nothing else. */
  lemma {:induction false} CompileWhereAppends(c: Expression, j: nat, node: PlanNode, format: NumberFormat)
    requires c.List? && 1 <= j <= |c.items| && CompileWhere(c, j, node, format).Continue?
    ensures CompileWhere(c, j, node, format).value
         == node.(filters := node.filters + FiltersOfEntries(c.items[j..], format))
    decreases |c.items| - j
  {
    if j < |c.items| {
      var w := c.items[j];
      CompileElementsKeeps(w, 1, [], format);
      var f := FilterNode(w.items[0].name, CompileElements(w, 1, [], format).value);
      assert f == FilterOfEntry(w, format);
      var node1 := node.(filters := node.filters + [f]);
      assert CompileWhere(c, j, node, format) == CompileWhere(c, j + 1, node1, format);
      CompileWhereAppends(c, j + 1, node1, format);
      assert c.items[j..] == [w] + c.items[j + 1..];
      FiltersOfEntriesAppend([w], c.items[j + 1..], format);
    }
  }

  /** The group loop replaces the group by each entry in turn: the last
      entry wins, and nothing else changes. */
  lemma {:induction false} CompileGroupsLastWins(c: Expression, j: nat, node: PlanNode, format: NumberFormat)
    requires c.List? && 1 <= j <= |c.items| && CompileGroups(c, j, node, format).Continue?
    ensures CompileGroups(c, j, node, format).value
         == node.(group := if j < |c.items| then Some(GroupOfEntry(c.items[|c.items| - 1], format)) else node.group)
    decreases |c.items| - j
  {
    if j < |c.items| {
      var g := c.items[j];
      CompileElementsKeeps(g, 0, [], format);
      assert g.items[0..] == g.items;
      assert [] + KeptNodes(g.items, format) == KeptNodes(g.items, format);
      var node1 := node.(group := Some(GroupOfEntry(g, format)));
      assert CompileGroups(c, j, node, format) == CompileGroups(c, j + 1, node1, format);
      CompileGroupsLastWins(c, j + 1, node1, format);
    }
  }

  /** One clause, on its own. */
  lemma CompileClauseCollects(c: Expression, node: PlanNode, format: NumberFormat)
    requires CompileClause(c, node, format).Continue?
    ensures CollectedFrom(node, [c], CompileClause(c, node, format).value, format)
  {
    assert [c][0] == c && [c][1..] == [];
    assert Planner.ColumnEntries([c]) == Planner.EntriesOf(c, "columns");
    assert Planner.WhereEntries([c]) == Planner.EntriesOf(c, "where");
    assert GroupEntries([c]) == Planner.EntriesOf(c, "group");
    assert LastTable([c], format) == TableSetting(c, format);
    if Planner.IsClause(c, "columns") {
      CompileElementsKeeps(c, 1, node.columns, format);
    } else if Planner.IsClause(c, "where") {
      CompileWhereAppends(c, 1, node, format);
    } else if Planner.IsClause(c, "group") {
      CompileGroupsLastWins(c, 1, node, format);
      if 1 < |c.items| {
        var es := Planner.EntriesOf(c, "group");
        assert es[|es| - 1] == c.items[|c.items| - 1];
      }
    }
  }

  lemma ColumnsCompose(c: Expression, rest: seq<Expression>, c0: seq<PlanNode>, c1: seq<PlanNode>, c2: seq<PlanNode>, format: NumberFormat)
    requires c1 == c0 + KeptNodes(Planner.ColumnEntries([c]), format)
    requires c2 == c1 + KeptNodes(Planner.ColumnEntries(rest), format)
    ensures c2 == c0 + KeptNodes(Planner.ColumnEntries([c] + rest), format)
  {
    var cs := [c] + rest;
    assert cs[0] == c && cs[1..] == rest && [c][1..] == [];
    var x, y := Planner.ColumnEntries([c]), Planner.ColumnEntries(rest);
    assert Planner.ColumnEntries(cs) == x + y;
    KeptNodesAppend(x, y, format);
    Planner.AppendTwice(c0, c1, c2, KeptNodes(x, format), KeptNodes(y, format));
  }

  lemma FiltersCompose(c: Expression, rest: seq<Expression>, f0: seq<FilterNode>, f1: seq<FilterNode>, f2: seq<FilterNode>, format: NumberFormat)
    requires f1 == f0 + FiltersOfEntries(Planner.WhereEntries([c]), format)
    requires f2 == f1 + FiltersOfEntries(Planner.WhereEntries(rest), format)
    ensures f2 == f0 + FiltersOfEntries(Planner.WhereEntries([c] + rest), format)
  {
    var cs := [c] + rest;
    assert cs[0] == c && cs[1..] == rest && [c][1..] == [];
    var x, y := Planner.WhereEntries([c]), Planner.WhereEntries(rest);
    assert Planner.WhereEntries(cs) == x + y;
    FiltersOfEntriesAppend(x, y, format);
    Planner.AppendTwice(f0, f1, f2, FiltersOfEntries(x, format), FiltersOfEntries(y, format));
  }

  lemma TableCompose(c: Expression, rest: seq<Expression>, t0: Option<PlanNode>, t1: Option<PlanNode>, t2: Option<PlanNode>, format: NumberFormat)
    requires t1 == (if LastTable([c], format).Some? then LastTable([c], format) else t0)
    requires t2 == (if LastTable(rest, format).Some? then LastTable(rest, format) else t1)
    ensures t2 == (if LastTable([c] + rest, format).Some? then LastTable([c] + rest, format) else t0)
  {
    var cs := [c] + rest;
    assert cs[0] == c && cs[1..] == rest && [c][1..] == [];
  }

  lemma GroupCompose(c: Expression, rest: seq<Expression>, g0: Option<GroupNode>, g1: Option<GroupNode>, g2: Option<GroupNode>, format: NumberFormat)
    requires var es := GroupEntries([c]); g1 == (if es != [] then Some(GroupOfEntry(es[|es| - 1], format)) else g0)
    requires var es := GroupEntries(rest); g2 == (if es != [] then Some(GroupOfEntry(es[|es| - 1], format)) else g1)
    ensures var es := GroupEntries([c] + rest);
      g2 == (if es != [] then Some(GroupOfEntry(es[|es| - 1], format)) else g0)
  {
    var x, y := GroupEntries([c]), GroupEntries(rest);
    var es := GroupEntries([c] + rest);
    GroupEntriesCons(c, rest);
    if y == [] {
      assert es == x;
      assert g2 == g1;
    } else {
      assert es[|es| - 1] == y[|y| - 1];
      assert g2 == Some(GroupOfEntry(es[|es| - 1], format));
    }
  }

  /** The group entries of a clause in front of more clauses. */
  lemma GroupEntriesCons(c: Expression, rest: seq<Expression>)
    ensures GroupEntries([c] + rest) == GroupEntries([c]) + GroupEntries(rest)
  {
    var cs := [c] + rest;
    assert cs[0] == c && cs[1..] == rest;
    AppendEmpty<Expression>([], Planner.EntriesOf(c, "group"));
    assert GroupEntries([c]) == Planner.EntriesOf(c, "group") + [];
    assert Planner.EntriesOf(c, "group") + [] == Planner.EntriesOf(c, "group");
  }

  /** The clause loop, from the i-th clause on. */
  lemma {:induction false} CompileClausesCollects(e: Expression, i: nat, node: PlanNode, format: NumberFormat)
    requires e.List? && 1 <= i <= |e.items| && CompileClauses(e, i, node, format).Continue?
    ensures CollectedFrom(node, e.items[i..], CompileClauses(e, i, node, format).value, format)
    decreases |e.items| - i
  {
    if i == |e.items| {
      assert e.items[i..] == [];
    } else {
      var c := e.items[i];
      var rest := e.items[i + 1..];
      assert e.items[i..] == [c] + rest;
      CompileClauseCollects(c, node, format);
      var node1 := CompileClause(c, node, format).value;
      CompileClausesCollects(e, i + 1, node1, format);
      CollectedCompose(node, c, node1, rest, CompileClauses(e, i + 1, node1, format).value, format);
    }
  }

  /** Collecting one clause and then the rest is collecting them all. */
  lemma CollectedCompose(node: PlanNode, c: Expression, node1: PlanNode, rest: seq<Expression>, node2: PlanNode, format: NumberFormat)
    requires CollectedFrom(node, [c], node1, format) && CollectedFrom(node1, rest, node2, format)
    ensures CollectedFrom(node, [c] + rest, node2, format)
  {
    ColumnsCompose(c, rest, node.columns, node1.columns, node2.columns, format);
    FiltersCompose(c, rest, node.filters, node1.filters, node2.filters, format);
    TableCompose(c, rest, node.table, node1.table, node2.table, format);
    GroupCompose(c, rest, node.group, node1.group, node2.group, format);
  }

  /** A select compiles, when it does not panic, to a node with no symbol
      and no constant whose columns are every columns entry that compiles
      (nil ones dropped) in clause order, with one filterNode per where
      entry, the table of the last clause that sets one, and the group of
      the last group entry. */
  lemma SelectCompiles(e: Expression, format: NumberFormat)
    requires Planner.IsClause(e, "select") && CompileOf(e, format).Compiled?
    ensures CollectedFrom(EmptyNode, e.items[1..], CompileOf(e, format).node, format)
  {
    CompileClausesCollects(e, 1, EmptyNode, format);
  }

  /** Atoms: a symbol gives a symbol node, a string, number or boolean a
      constant node holding its printed form; nil, an error, the empty list
      and a list not headed by `select` compile to nil. */
  lemma CompileAtoms(e: Expression, format: NumberFormat)
    ensures e.Symbol? ==> CompileOf(e, format) == Compiled(SymbolNode(e.name))
    ensures e.String? || e.Number? || e.Bool? ==> CompileOf(e, format) == Compiled(ConstantNode(ExprToStr(e, format)))
    ensures e.Nil? || e.Error? || e == List([]) ==> CompileOf(e, format) == NotCompiled
    ensures e.List? && |e.items| > 0 && e.items[0] != Symbol("select") ==> CompileOf(e, format) == NotCompiled
  {
  }

  // ---------------------------------------------------------------------
  // The rendering is a sequence of lines indented by the prefix

  /** The index of the first newline of `s`, or |s| when there is none. */
  function LineEnd(s: string): (k: nat)
    ensures k <= |s| && (k < |s| ==> s[k] == '\n')
    ensures forall i | 0 <= i < k :: s[i] != '\n'
  {
    if s == [] || s[0] == '\n' then 0 else 1 + LineEnd(s[1..])
  }

  /** `s` consists of whole lines, each ending in a newline and starting
      with `prefix`. */
  predicate Prefixed(s: string, prefix: string)
    decreases |s|
  {
    s == [] || (var k := LineEnd(s); k < |s| && prefix <= s[..k] && Prefixed(s[k + 1..], prefix))
  }

  /** No symbol, constant or operator of the tree contains a newline. */
  predicate SingleLine(n: PlanNode)
    decreases n, 1
  {
    && '\n' !in n.symbol && '\n' !in n.constant
    && (n.table.Some? ==> SingleLine(n.table.value))
    && (forall i | 0 <= i < |n.columns| :: SingleLine(n.columns[i]))
    && (forall i | 0 <= i < |n.filters| :: SingleLineFilter(n.filters[i]))
    && (n.group.Some? ==> SingleLineGroup(n.group.value))
  }

  predicate SingleLineGroup(g: GroupNode)
    decreases g, 0
  {
    forall i | 0 <= i < |g.args| :: SingleLine(g.args[i])
  }

  predicate SingleLineFilter(f: FilterNode)
    decreases f, 0
  {
    '\n' !in f.operator && forall i | 0 <= i < |f.args| :: SingleLine(f.args[i])
  }

  lemma {:induction false} LineEndAppend(a: string, b: string)
    requires LineEnd(a) < |a|
    ensures LineEnd(a + b) == LineEnd(a)
  {
    if a[0] != '\n' {
      assert (a + b)[1..] == a[1..] + b;
      LineEndAppend(a[1..], b);
    }
  }

  lemma {:induction false} PrefixedAppend(a: string, b: string, prefix: string)
    requires Prefixed(a, prefix) && Prefixed(b, prefix)
    ensures Prefixed(a + b, prefix)
    decreases |a|
  {
    if a == [] {
      assert a + b == b;
    } else {
      var k := LineEnd(a);
      assert k < |a| && prefix <= a[..k] && Prefixed(a[k + 1..], prefix);
      LineEndAppend(a, b);
      var s := a + b;
      SliceAppend(a, b, k);
      SliceAppend(a, b, k + 1);
      PrefixedAppend(a[k + 1..], b, prefix);
      PrefixedFirstLine(s, prefix, k);
    }
  }

  lemma SliceAppend<T>(a: seq<T>, b: seq<T>, i: nat)
    requires i <= |a|
    ensures (a + b)[..i] == a[..i] && (a + b)[i..] == a[i..] + b
  {
  }

  /** Prefixed text that is not empty: a terminated first line, then
      prefixed lines. */
  lemma PrefixedRest(s: string, prefix: string)
    requires s != [] && Prefixed(s, prefix)
    ensures LineEnd(s) < |s| && Prefixed(s[LineEnd(s) + 1..], prefix)
  {
  }

  /** A first line starting with `prefix`, followed by prefixed lines. */
  lemma PrefixedFirstLine(s: string, prefix: string, k: nat)
    requires k == LineEnd(s) && k < |s| && prefix <= s[..k] && Prefixed(s[k + 1..], prefix)
    ensures Prefixed(s, prefix)
  {
    assert s != [];
  }

  /** One line `prefix + text`, terminated, is prefixed. */
  lemma PrefixedLine(prefix: string, text: string)
    requires '\n' !in prefix && '\n' !in text
    ensures Prefixed(prefix + text + "\n", prefix)
  {
    var s := prefix + text + "\n";
    assert forall i | 0 <= i < |prefix + text| :: s[i] != '\n';
    assert s[|prefix + text|] == '\n';
    assert LineEnd(s) == |prefix + text|;
    assert s[..LineEnd(s)] == prefix + text;
    assert s[LineEnd(s) + 1..] == [];
  }

  /** Lines indented by `prefix + more` are indented by `prefix`. */
  lemma {:induction false} PrefixedWeaken(s: string, prefix: string, more: string)
    requires Prefixed(s, prefix + more)
    ensures Prefixed(s, prefix)
    decreases |s|
  {
    if s != [] {
      var k := LineEnd(s);
      assert prefix <= prefix + more;
      PrefixedWeaken(s[k + 1..], prefix, more);
    }
  }

  /** A header line followed by a body indented one tab deeper. */
  lemma PrefixedSection(prefix: string, header: string, body: string)
    requires '\n' !in prefix && '\n' !in header && Prefixed(body, prefix + "\t")
    ensures Prefixed(Section(prefix, header, body), prefix)
  {
    PrefixedLine(prefix, header);
    PrefixedWeaken(body, prefix, "\t");
    PrefixedAppend(prefix + header + "\n", body, prefix);
  }

  lemma NoNewlineIndent(prefix: string)
    requires '\n' !in prefix
    ensures '\n' !in prefix + "\t"
  {
  }

  /** The lines of `s` at depth `prefix`: those starting with `prefix` but not
      with `prefix` and a further tab, with the prefix taken off, in order. */
  function Headers(s: string, prefix: string): seq<string>
    decreases |s|
  {
    if s == [] then []
    else
      var k := LineEnd(s);
      LineHeader(s[..k], prefix) + (if k < |s| then Headers(s[k + 1..], prefix) else [])
  }

  /** The header of one line at depth `prefix`, if it is at that depth. */
  function LineHeader(line: string, prefix: string): seq<string> {
    if prefix <= line && !(prefix + "\t" <= line) then [line[|prefix|..]] else []
  }

  /** `count` copies of the header `h`. */
  function Repeat(h: string, count: nat): (r: seq<string>)
    ensures |r| == count && forall i | 0 <= i < count :: r[i] == h
  {
    seq(count, _ => h)
  }

  lemma {:induction false} HeadersAppend(a: string, b: string, prefix: string)
    requires Prefixed(a, prefix)
    ensures Headers(a + b, prefix) == Headers(a, prefix) + Headers(b, prefix)
    decreases |a|
  {
    if a == [] {
      HeadersEmptyAppend(b, prefix);
    } else {
      PrefixedRest(a, prefix);
      HeadersAppend(a[LineEnd(a) + 1..], b, prefix);
      HeadersAppendStep(a, b, prefix);
    }
  }

  /** No text in front adds no headers. */
  lemma HeadersEmptyAppend(b: string, prefix: string)
    ensures Headers([] + b, prefix) == Headers([], prefix) + Headers(b, prefix)
  {
    AppendEmpty([], b);
    AppendEmpty(Headers([], prefix), Headers(b, prefix));
  }

  /** One line of HeadersAppend: the first line of `a + b` is that of `a`. */
  lemma HeadersAppendStep(a: string, b: string, prefix: string)
    requires a != [] && LineEnd(a) < |a|
    requires Headers(a[LineEnd(a) + 1..] + b, prefix) == Headers(a[LineEnd(a) + 1..], prefix) + Headers(b, prefix)
    ensures Headers(a + b, prefix) == Headers(a, prefix) + Headers(b, prefix)
  {
    var k := LineEnd(a);
    LineEndAppend(a, b);
    SliceAppend(a, b, k);
    SliceAppend(a, b, k + 1);
    HeadersCons(a + b, prefix, k, a[..k], a[k + 1..] + b);
    HeadersCons(a, prefix, k, a[..k], a[k + 1..]);
    AppendAssociates(LineHeader(a[..k], prefix), Headers(a[k + 1..], prefix), Headers(b, prefix));
  }

  /** `HeadersFirstLine` with the first line and the rest named. */
  lemma HeadersCons(s: string, prefix: string, k: nat, line: string, rest: string)
    requires s != [] && k == LineEnd(s) && k < |s| && line == s[..k] && rest == s[k + 1..]
    ensures Headers(s, prefix) == LineHeader(line, prefix) + Headers(rest, prefix)
  {
    HeadersFirstLine(s, prefix);
  }

  lemma AppendEmpty<T>(x: seq<T>, y: seq<T>)
    requires x == []
    ensures x + y == y
  {
  }

  lemma AppendAssociates<T>(x: seq<T>, y: seq<T>, z: seq<T>)
    ensures x + (y + z) == (x + y) + z
  {
  }

  /** The headers of a text whose first line is terminated: that line's,
      then the rest's. */
  lemma HeadersFirstLine(s: string, prefix: string)
    requires s != [] && LineEnd(s) < |s|
    ensures Headers(s, prefix) == LineHeader(s[..LineEnd(s)], prefix) + Headers(s[LineEnd(s) + 1..], prefix)
  {
    assert s != [];
  }

  /** Lines one tab deeper have no header at `prefix`. */
  lemma {:induction false} HeadersDeeper(s: string, prefix: string)
    requires Prefixed(s, prefix + "\t")
    ensures Headers(s, prefix) == []
    decreases |s|
  {
    if s != [] {
      HeadersDeeper(s[LineEnd(s) + 1..], prefix);
    }
  }

  /** One line `prefix + text` whose text does not start with a tab is a
      line at depth `prefix`, with header `text`. */
  lemma HeadersLine(prefix: string, text: string)
    requires '\n' !in prefix && '\n' !in text && text != [] && text[0] != '\t'
    ensures Prefixed(prefix + text + "\n", prefix)
    ensures Headers(prefix + text + "\n", prefix) == [text]
  {
    var line := prefix + text + "\n";
    PrefixedLine(prefix, text);
    assert forall i | 0 <= i < |prefix + text| :: line[i] != '\n';
    assert LineEnd(line) == |prefix + text|;
    assert line[..LineEnd(line)] == prefix + text;
    assert (prefix + text)[|prefix|] == text[0];
    assert (prefix + text)[|prefix|..] == text;
    assert LineHeader(prefix + text, prefix) == [text];
    assert line[LineEnd(line) + 1..] == [];
    AppendEmpty(Headers([], prefix), []);
  }

  /** A header line followed by a body one tab deeper: prefixed lines, the
      header line first, and the header the only line at this depth. */
  lemma HeadersSection(prefix: string, header: string, body: string)
    requires '\n' !in prefix && '\n' !in header && header != [] && header[0] != '\t'
    requires Prefixed(body, prefix + "\t")
    ensures Prefixed(Section(prefix, header, body), prefix)
    ensures prefix + header + "\n" <= Section(prefix, header, body)
    ensures Headers(Section(prefix, header, body), prefix) == [header]
  {
    PrefixedSection(prefix, header, body);
    HeadersLine(prefix, header);
    HeadersAppend(prefix + header + "\n", body, prefix);
    HeadersDeeper(body, prefix);
    AppendEmpty([], [header]);
    assert [header] + [] == [header];
  }

  /** A section with header `h` in front of `count - 1` sections with the
      same header: `count` of them, and the text starts with its header line. */
  lemma SectionsCons(prefix: string, h: string, body: string, rest: string, count: nat)
    requires '\n' !in prefix && '\n' !in h && h != [] && h[0] != '\t'
    requires Prefixed(body, prefix + "\t") && Prefixed(rest, prefix)
    requires count > 0 && Headers(rest, prefix) == Repeat(h, count - 1)
    ensures Prefixed(Section(prefix, h, body) + rest, prefix)
    ensures Headers(Section(prefix, h, body) + rest, prefix) == Repeat(h, count)
    ensures prefix + h + "\n" <= Section(prefix, h, body) + rest
  {
    var sec := Section(prefix, h, body);
    HeadersSection(prefix, h, body);
    PrefixedAppend(sec, rest, prefix);
    HeadersAppend(sec, rest, prefix);
    RepeatCons(h, count - 1);
    StartsWithAppend(prefix + h + "\n", sec, rest);
  }

  /** No text, no sections. */
  lemma NoSections(prefix: string, h: string)
    ensures Prefixed([], prefix) && Headers([], prefix) == Repeat(h, 0)
  {
  }

  /** One more section with header `h` in front of `count` of them. */
  lemma RepeatCons(h: string, count: nat)
    ensures [h] + Repeat(h, count) == Repeat(h, count + 1)
  {
  }

  /** A text that starts with `x` still does after more is appended. */
  lemma StartsWithAppend(x: string, y: string, z: string)
    requires x <= y
    ensures x <= y + z
  {
    assert (y + z)[..|x|] == y[..|x|];
  }

  /** The sections `string` prints for a node that is neither a symbol nor a
      constant, by header and in order: Table, one Column per column, one
      Filter per filter, Group. */
  function NodeHeaders(n: PlanNode): seq<string> {
    (if n.table.Some? then ["Table"] else [])
      + Repeat("Column", |n.columns|) + Repeat("Filter", |n.filters|)
      + (if n.group.Some? then ["Group"] else [])
  }

  /** Every line that `string(prefix)` renders starts with `prefix`; the
      sections of a node sit one tab deeper. */
  lemma {:induction false} RenderIsPrefixed(n: PlanNode, prefix: string)
    requires SingleLine(n) && '\n' !in prefix
    ensures Prefixed(Render(n, prefix), prefix)
    ensures n.symbol == "" && n.constant == "" ==> Headers(Render(n, prefix), prefix) == NodeHeaders(n)
    decreases n, 1
  {
    if n.symbol != "" {
      PrefixedLine(prefix, n.symbol);
    } else if n.constant != "" {
      PrefixedLine(prefix, n.constant);
    } else {
      var t, c, f, g := RenderTable(n, prefix), RenderColumns(n, 0, prefix), RenderFilters(n, 0, prefix), RenderGroupSection(n, prefix);
      TableIsPrefixed(n, prefix);
      ColumnsArePrefixed(n, 0, prefix);
      FiltersArePrefixed(n, 0, prefix);
      GroupSectionIsPrefixed(n, prefix);
      PrefixedAppend(t, c, prefix);
      PrefixedAppend(t + c, f, prefix);
      PrefixedAppend(t + c + f, g, prefix);
      HeadersAppend(t, c, prefix);
      HeadersAppend(t + c, f, prefix);
      HeadersAppend(t + c + f, g, prefix);
    }
  }

  lemma {:induction false} TableIsPrefixed(n: PlanNode, prefix: string)
    requires SingleLine(n) && '\n' !in prefix
    ensures Prefixed(RenderTable(n, prefix), prefix)
    ensures Headers(RenderTable(n, prefix), prefix) == if n.table.Some? then ["Table"] else []
    ensures n.table.Some? ==> prefix + "Table" + "\n" <= RenderTable(n, prefix)
    decreases n, 0
  {
    if n.table.Some? {
      NoNewlineIndent(prefix);
      RenderIsPrefixed(n.table.value, prefix + "\t");
      HeadersSection(prefix, "Table", Render(n.table.value, prefix + "\t"));
    }
  }

  lemma {:induction false} GroupSectionIsPrefixed(n: PlanNode, prefix: string)
    requires SingleLine(n) && '\n' !in prefix
    ensures Prefixed(RenderGroupSection(n, prefix), prefix)
    ensures Headers(RenderGroupSection(n, prefix), prefix) == if n.group.Some? then ["Group"] else []
    ensures n.group.Some? ==> prefix + "Group" + "\n" <= RenderGroupSection(n, prefix)
    decreases n, 0
  {
    if n.group.Some? {
      NoNewlineIndent(prefix);
      GroupIsPrefixed(n.group.value, 0, prefix + "\t");
      HeadersSection(prefix, "Group", RenderGroup(n.group.value, 0, prefix + "\t"));
    }
  }

  lemma {:induction false} ColumnsArePrefixed(n: PlanNode, i: nat, prefix: string)
    requires i <= |n.columns| && SingleLine(n) && '\n' !in prefix
    ensures Prefixed(RenderColumns(n, i, prefix), prefix)
    ensures Headers(RenderColumns(n, i, prefix), prefix) == Repeat("Column", |n.columns| - i)
    ensures i < |n.columns| ==> prefix + "Column" + "\n" <= RenderColumns(n, i, prefix)
    decreases n, 0, |n.columns| - i
  {
    if i < |n.columns| {
      NoNewlineIndent(prefix);
      RenderIsPrefixed(n.columns[i], prefix + "\t");
      ColumnsArePrefixed(n, i + 1, prefix);
      ColumnSection(n, i, prefix);
    } else {
      NoSections(prefix, "Column");
    }
  }

  lemma {:induction false} FiltersArePrefixed(n: PlanNode, i: nat, prefix: string)
    requires i <= |n.filters| && SingleLine(n) && '\n' !in prefix
    ensures Prefixed(RenderFilters(n, i, prefix), prefix)
    ensures Headers(RenderFilters(n, i, prefix), prefix) == Repeat("Filter", |n.filters| - i)
    ensures i < |n.filters| ==> prefix + "Filter" + "\n" <= RenderFilters(n, i, prefix)
    decreases n, 0, |n.filters| - i
  {
    if i < |n.filters| {
      NoNewlineIndent(prefix);
      FilterIsPrefixed(n.filters[i], prefix + "\t");
      FiltersArePrefixed(n, i + 1, prefix);
      FilterSection(n, i, prefix);
    } else {
      NoSections(prefix, "Filter");
    }
  }

  lemma {:induction false} FilterIsPrefixed(f: FilterNode, prefix: string)
    requires SingleLineFilter(f) && '\n' !in prefix
    ensures Prefixed(RenderFilter(f, prefix), prefix)
    ensures Headers(RenderFilter(f, prefix), prefix) == ["Operator " + f.operator] + Repeat("Arg", |f.args|)
    ensures prefix + "Operator " + f.operator + "\n" <= RenderFilter(f, prefix)
    decreases f, 1
  {
    var text := "Operator " + f.operator;
    ArgsArePrefixed(f, 0, prefix);
    OperatorLine(f, prefix);
    LineThenSections(prefix, text, RenderArgs(f, 0, prefix));
  }

  /** The Operator line of a filter, its text a header `HeadersLine` accepts. */
  lemma OperatorLine(f: FilterNode, prefix: string)
    requires '\n' !in f.operator
    ensures var text := "Operator " + f.operator;
      && '\n' !in text && text != [] && text[0] != '\t'
      && prefix + "Operator " + f.operator + "\n" == prefix + text + "\n"
      && RenderFilter(f, prefix) == prefix + text + "\n" + RenderArgs(f, 0, prefix)
  {
    var text := "Operator " + f.operator;
    assert text[0] == 'O';
    assert prefix + "Operator " + f.operator == prefix + text;
  }

  /** A line at depth `prefix` in front of prefixed lines: its text is the
      first header, and the output starts with that line. */
  lemma LineThenSections(prefix: string, text: string, rest: string)
    requires '\n' !in prefix && '\n' !in text && text != [] && text[0] != '\t'
    requires Prefixed(rest, prefix)
    ensures Prefixed(prefix + text + "\n" + rest, prefix)
    ensures Headers(prefix + text + "\n" + rest, prefix) == [text] + Headers(rest, prefix)
    ensures prefix + text + "\n" <= prefix + text + "\n" + rest
  {
    var line := prefix + text + "\n";
    HeadersLine(prefix, text);
    PrefixedAppend(line, rest, prefix);
    HeadersAppend(line, rest, prefix);
    StartsWithAppend(line, line, rest);
  }

  lemma {:induction false} ArgsArePrefixed(f: FilterNode, k: nat, prefix: string)
    requires k <= |f.args| && SingleLineFilter(f) && '\n' !in prefix
    ensures Prefixed(RenderArgs(f, k, prefix), prefix)
    ensures Headers(RenderArgs(f, k, prefix), prefix) == Repeat("Arg", |f.args| - k)
    ensures k < |f.args| ==> prefix + "Arg" + "\n" <= RenderArgs(f, k, prefix)
    decreases f, 0, |f.args| - k
  {
    if k < |f.args| {
      NoNewlineIndent(prefix);
      RenderIsPrefixed(f.args[k], prefix + "\t");
      ArgsArePrefixed(f, k + 1, prefix);
      ArgSection(f, k, prefix);
    } else {
      NoSections(prefix, "Arg");
    }
  }

  lemma {:induction false} GroupIsPrefixed(g: GroupNode, k: nat, prefix: string)
    requires k <= |g.args| && '\n' !in prefix
    requires SingleLineGroup(g)
    ensures Prefixed(RenderGroup(g, k, prefix), prefix)
    ensures Headers(RenderGroup(g, k, prefix), prefix) == Repeat("Group arg", |g.args| - k)
    ensures k < |g.args| ==> prefix + "Group arg" + "\n" <= RenderGroup(g, k, prefix)
    decreases g, |g.args| - k
  {
    if k < |g.args| {
      NoNewlineIndent(prefix);
      RenderIsPrefixed(g.args[k], prefix + "\t");
      GroupIsPrefixed(g, k + 1, prefix);
      GroupArgSection(g, k, prefix);
    } else {
      NoSections(prefix, "Group arg");
    }
  }

  /** One `Group arg` section in front of the rest of them. */
  lemma GroupArgSection(g: GroupNode, k: nat, prefix: string)
    requires k < |g.args| && '\n' !in prefix
    requires Prefixed(Render(g.args[k], prefix + "\t"), prefix + "\t")
    requires Prefixed(RenderGroup(g, k + 1, prefix), prefix)
    requires Headers(RenderGroup(g, k + 1, prefix), prefix) == Repeat("Group arg", |g.args| - k - 1)
    ensures Prefixed(RenderGroup(g, k, prefix), prefix)
    ensures Headers(RenderGroup(g, k, prefix), prefix) == Repeat("Group arg", |g.args| - k)
    ensures prefix + "Group arg" + "\n" <= RenderGroup(g, k, prefix)
  {
    RenderGroupUnfold(g, k, prefix);
    PlainHeaders();
    SectionsCons(prefix, "Group arg", Render(g.args[k], prefix + "\t"), RenderGroup(g, k + 1, prefix), |g.args| - k);
  }

  /** One step of `RenderGroup`. */
  lemma RenderGroupUnfold(g: GroupNode, k: nat, prefix: string)
    requires k < |g.args|
    ensures RenderGroup(g, k, prefix) == Section(prefix, "Group arg", Render(g.args[k], prefix + "\t")) + RenderGroup(g, k + 1, prefix)
  {
  }

  /** One `Column` section in front of the rest of them. */
  lemma ColumnSection(n: PlanNode, i: nat, prefix: string)
    requires i < |n.columns| && '\n' !in prefix
    requires Prefixed(Render(n.columns[i], prefix + "\t"), prefix + "\t")
    requires Prefixed(RenderColumns(n, i + 1, prefix), prefix)
    requires Headers(RenderColumns(n, i + 1, prefix), prefix) == Repeat("Column", |n.columns| - i - 1)
    ensures Prefixed(RenderColumns(n, i, prefix), prefix)
    ensures Headers(RenderColumns(n, i, prefix), prefix) == Repeat("Column", |n.columns| - i)
    ensures prefix + "Column" + "\n" <= RenderColumns(n, i, prefix)
  {
    RenderColumnsUnfold(n, i, prefix);
    PlainHeaders();
    SectionsCons(prefix, "Column", Render(n.columns[i], prefix + "\t"), RenderColumns(n, i + 1, prefix), |n.columns| - i);
  }

  /** One step of `RenderColumns`. */
  lemma RenderColumnsUnfold(n: PlanNode, i: nat, prefix: string)
    requires i < |n.columns|
    ensures RenderColumns(n, i, prefix) == Section(prefix, "Column", Render(n.columns[i], prefix + "\t")) + RenderColumns(n, i + 1, prefix)
  {
  }

  /** One `Filter` section in front of the rest of them. */
  lemma FilterSection(n: PlanNode, i: nat, prefix: string)
    requires i < |n.filters| && '\n' !in prefix
    requires Prefixed(RenderFilter(n.filters[i], prefix + "\t"), prefix + "\t")
    requires Prefixed(RenderFilters(n, i + 1, prefix), prefix)
    requires Headers(RenderFilters(n, i + 1, prefix), prefix) == Repeat("Filter", |n.filters| - i - 1)
    ensures Prefixed(RenderFilters(n, i, prefix), prefix)
    ensures Headers(RenderFilters(n, i, prefix), prefix) == Repeat("Filter", |n.filters| - i)
    ensures prefix + "Filter" + "\n" <= RenderFilters(n, i, prefix)
  {
    RenderFiltersUnfold(n, i, prefix);
    PlainHeaders();
    SectionsCons(prefix, "Filter", RenderFilter(n.filters[i], prefix + "\t"), RenderFilters(n, i + 1, prefix), |n.filters| - i);
  }

  /** One step of `RenderFilters`. */
  lemma RenderFiltersUnfold(n: PlanNode, i: nat, prefix: string)
    requires i < |n.filters|
    ensures RenderFilters(n, i, prefix) == Section(prefix, "Filter", RenderFilter(n.filters[i], prefix + "\t")) + RenderFilters(n, i + 1, prefix)
  {
  }

  /** One `Arg` section in front of the rest of them. */
  lemma ArgSection(f: FilterNode, k: nat, prefix: string)
    requires k < |f.args| && '\n' !in prefix
    requires Prefixed(Render(f.args[k], prefix + "\t"), prefix + "\t")
    requires Prefixed(RenderArgs(f, k + 1, prefix), prefix)
    requires Headers(RenderArgs(f, k + 1, prefix), prefix) == Repeat("Arg", |f.args| - k - 1)
    ensures Prefixed(RenderArgs(f, k, prefix), prefix)
    ensures Headers(RenderArgs(f, k, prefix), prefix) == Repeat("Arg", |f.args| - k)
    ensures prefix + "Arg" + "\n" <= RenderArgs(f, k, prefix)
  {
    RenderArgsUnfold(f, k, prefix);
    PlainHeaders();
    SectionsCons(prefix, "Arg", Render(f.args[k], prefix + "\t"), RenderArgs(f, k + 1, prefix), |f.args| - k);
  }

  /** One step of `RenderArgs`. */
  lemma RenderArgsUnfold(f: FilterNode, k: nat, prefix: string)
    requires k < |f.args|
    ensures RenderArgs(f, k, prefix) == Section(prefix, "Arg", Render(f.args[k], prefix + "\t")) + RenderArgs(f, k + 1, prefix)
  {
  }

  /** The section headers are ones `SectionsCons` accepts: one line each,
      not starting with a tab. */
  lemma PlainHeaders()
    ensures '\n' !in "Column" && "Column" != [] && "Column"[0] != '\t'
    ensures '\n' !in "Filter" && "Filter" != [] && "Filter"[0] != '\t'
    ensures '\n' !in "Arg" && "Arg" != [] && "Arg"[0] != '\t'
    ensures '\n' !in "Group arg" && "Group arg" != [] && "Group arg"[0] != '\t'
  {
  }
}
