# querycompiler in Dafny

This project models the core of Preetam/querycompiler, a small compiler for
S-expression queries such as `(select (columns id name) (table users) (where (= name "bob")))`.
It covers four parts of the Go code.

- **Reader and printer** (`tokenize.go`), in `expression.dfy` and `reader.dfy`.
  - The `Expression` values.
  - Their printed form `ExprToStr`.
  - The token classifier `atom`.
  - The recursive-descent reader `readFromTokens`, which consumes a token slice in place through `pop`.
- **Environment scope chain** (`environment.go`), in `environment.dfy`.
  - Every Environment lives in one arena: the class `Store`.
  - A scope's `outer` link is the index of an older scope.
  - `Get` and `GetTable` walk the chain. `Set`, `SetOuter` and `NewEnvironment` are methods that change the store.
  - Seeded table rows live in a second arena. A Go `Row`'s `Values` map is shared by reference, and the arena keeps that sharing.
- **Planner and evaluator** (`planner.go`), in `planner.dfy` and `evaluator.dfy`.
  - `plan` turns an expression into a tree of Const, Symbol, Table, Aggregate, Scan, Group and Join nodes.
  - `Evaluate` runs that tree against an Environment.
  - Each is written twice: once as the Go loops (`Planner.Plan`, `Evaluator.Evaluate`), once as a specification function (`PlanOf`, `Eval`). The loops are proved to compute the specification.
  - The properties are proved about the specification.
- **Legacy compiler** (`compiler.go`), in `compiler.dfy`.
  - `compile` builds `planNode` trees. Its policies differ from `plan`: it drops nil, it ignores stray table atoms, and the last group entry wins.
  - The `string` printers render those trees as tab-indented lines.

`scenarios.dfy` states and proves what the model gives on the repository's test queries: read, plan, evaluate and compile.

Representation choices:

- Go panics are failure values (`PlanPanic`, `Crash`, `CompilePanic`), kept apart from a nil result (`NoPlan`, `Absent`, `NotCompiled`).
- A `Number` is the IEEE-754 bit pattern of the float64. `strconv.ParseFloat` and `strconv.FormatFloat` are function parameters (`NumberParser`, `NumberFormat`).
- The `*Row` a node returns is a `RowRef`: `Fresh(map)` for a row built for the occasion, `Stored(id)` for `&table[0]`. A Scan over a table therefore writes into the seeded row, as the Go code does.
- The Go `GroupNode.Source` points at the same `scanNode` that later clauses keep editing. The model builds the Group around the final state of the scan, which is all a caller of `plan` can observe. `Group.Columns` is the snapshot of `columns` taken when the group was made.

## Model

| member | source | states |
|---|---|---|
| Expressions.UnescapeEscape | tokenize.go:108 | Replacing `\"` by `"` undoes the printer's escaping of `"` for every string, backslashes included |
| Expressions.AtomReadsBackString | tokenize.go:107-109 | `atom` of the printed form of `String(s)` is `String(s)` for every s whose last character is not a double quote |
| Expressions.AtomLosesTrailingQuote | tokenize.go:108 | `strings.Trim` also strips an escaped final quote: `String("a\"")` prints as `"a\""` and reads back as `String("a\\")` |
| Expressions.AtomReadsBackLiterals | tokenize.go:99-106 | `#t`, `#f` and `nil` are classified before anything else, and `Bool` and `Nil` print as those tokens, so they read back as themselves |
| Expressions.AtomReadsBackSymbol | tokenize.go:110-114 | A token that is not a literal, does not start with a quote and does not parse as a float becomes the Symbol of that name, and that Symbol prints as the token |
| Expressions.AtomReadsErrorAsSymbol | tokenize.go:58-60 | An Error prints as `!{m}`, and `atom` reads that back as a Symbol rather than an Error |
| Expressions.TrimLeadingQuotes | tokenize.go:108 | The leading half of `strings.Trim(token, "\"")` never lengthens the token and leaves no double quote in front |
| Expressions.TrimTrailingQuotes | tokenize.go:108 | The trailing half of `strings.Trim` never lengthens the token and leaves no double quote at the end |
| Expressions.TrimWrapped | tokenize.go:108 | Trimming quotes from `"` + inner + `"` gives the inner text back when it neither starts nor ends with a double quote |
| Expressions.EscapeHead | tokenize.go:53 | The printer's escaping of a non-empty string never begins with a bare double quote |
| Expressions.EscapeLast | tokenize.go:53 | The escaped text ends with a double quote exactly when the original string does |
| Reader.Read | tokenize.go:117-146 | The reader only consumes a prefix of the tokens, and a successful read consumes at least one token |
| Reader.ReadItems | tokenize.go:127-140 | The list loop only consumes a prefix of its tokens, and a successful loop consumes at least the closing `)` |
| Reader.TokenStream.Pop | tokenize.go:76-80 | `pop` returns the first token and leaves exactly the rest |
| Reader.ReadFromTokens | tokenize.go:117-146 | The in-place reader returns what `Read` returns and leaves the token stream at exactly the tokens `Read` left unconsumed |
| Reader.ReadListItems | tokenize.go:127-139 | The in-place list loop returns what `ReadItems` returns from an empty list and leaves the stream at exactly what `ReadItems` left |
| Reader.ReadErrors | tokenize.go:118-142 | No tokens: "unexpected end of input". A lone `(`: the "missing `)`" error. A leading `)`: "unexpected `)`", consuming that token |
| Reader.ReadAtom | tokenize.go:143-144 | Any other first token is `atom` of that token, and it is the only token consumed |
| Reader.ReadAppend | tokenize.go:117-146 | Trailing tokens are never rejected: after a successful read, appended tokens give the same expression and are left unread after the same remainder |
| Reader.ReadItemsAppend | tokenize.go:127-140 | The list loop is unaffected by tokens appended after its `)`: same outcome, and the appended tokens are left after the same remainder |
| Reader.ReadTokens | tokenize.go:117-146 | Round trip: the tokens of any expression whose atoms read back, followed by any tokens, read as that expression and leave exactly those tokens |
| Reader.ReadItemsTokens | tokenize.go:127-140 | The list loop over the tokens of elements k onward and `)` reads back the whole list, elements in order |
| Reader.ReadUnclosed | tokenize.go:134-136 | A printable list with only its final `)` removed fails with the "missing `)`" error and leaves nothing |
| Reader.ReadWithoutClose | tokenize.go:123-136 | Any tokens that open a list and contain no `)`, however deeply the lists nest (`( a ( b`, `( ( x`), fail with the "missing `)`" error and leave nothing |
| Reader.ReadItemsWithoutClose | tokenize.go:128-136 | The list loop on tokens with no `)` fails with the "missing `)`" error, whether the tokens run out inside a nested list or after an element |
| Reader.ReadListPassesError | tokenize.go:129-132 | An element that fails to read makes the enclosing list fail with the same error and remainder |
| Reader.ReadItemsUnclosed | tokenize.go:127-136 | The list loop over the tokens of elements k onward, with no `)`, fails with the "missing `)`" error and leaves nothing |
| Reader.ReadEmptyList | tokenize.go:127-140 | `( )` reads as the empty List and consumes only its two tokens |
| Environments.Owner | environment.go:31-39 | The scope that answers a lookup is on the receiver's chain and binds the key locally, and every other scope on the chain that binds the key is further out. With no answer, no scope on the chain binds the key |
| Environments.Store.NewEnvironment | environment.go:23-29 | A new scope with the given outer link and empty values and tables is appended; nothing else changes |
| Environments.Store.Set | environment.go:41-43 | Only the receiver's local values change, binding the key to the value; the chain invariant is kept |
| Environments.Store.SetOuter | environment.go:45-53 | The store becomes `Rebind`: the nearest scope that binds the key rebinds it; if no scope binds it, nothing changes |
| Environments.Store.WriteRow | planner.go:140-142 | Assigning one key of a seeded row changes that row only, and no scope |
| Environments.Store.SeedTable | querycompiler_test.go:29-33 | The caller's seeding of a table changes that scope's tables only |
| Environments.GetIsOwnerBinding | environment.go:31-39 | `Get` returns the binding held by `Owner`, the nearest scope on the chain that binds the key, and `(nil, false)` when no scope on the chain does |
| Environments.SetThenGet | environment.go:41-43 | After `Set(k, v)`, `Get(k)` on the receiver returns `(v, true)` |
| Environments.SetLeavesOtherChains | environment.go:41-43 | `Set` changes no lookup from a scope whose chain does not pass through the receiver |
| Environments.SetLeavesAncestors | environment.go:41-43 | Every lookup made directly on an outer scope of the receiver is unchanged by `Set` |
| Environments.SetLeavesOtherKeys | environment.go:41-43 | `Set(k, …)` changes no lookup of any other key, from any scope |
| Environments.BindAllKeepsTables | environment.go:55-63 | Binding values never changes what `GetTable` returns from any scope: no method writes `tables` |
| Environments.BindIsBindAll | environment.go:41-43 | Setting one key is binding a one-entry row: `Set` and the source-row loop of a Scan agree |
| Environments.GetAfterOwnerBind | environment.go:31-53 | Rebinding the key in the scope that owns it makes a lookup from the receiver return the new value |
| Environments.OnChainBelow | environment.go:23-29 | An outer scope is always allocated before the scopes that point to it, so the outer chain always ends |
| Environments.SetOuterUpdatesOwner | environment.go:45-53 | On a key bound somewhere on the chain, `SetOuter` makes `Get` return the new value, and every scope except the owner is unchanged |
| Environments.SetOuterUnboundIsNoOp | environment.go:50-53 | `SetOuter` on a key unbound in the whole chain changes nothing |
| Environments.GetExtend | environment.go:31-39 | Allocating more scopes changes no `Get` or `GetTable` answer from an existing scope |
| Environments.GetTableRowsExist | environment.go:55-63 | Every row that a `GetTable` answer names exists in the row arena |
| Environments.NewChildSeesParent | environment.go:23-29 | A fresh child answers every `Get` and `GetTable` exactly as its parent does |
| Planner.Plan | planner.go:218-320 | The Go loops of `plan`, with the flags and the in-place scan, compute exactly `PlanOf` |
| Planner.PlanAtoms | planner.go:219-230 | A Symbol plans to a SymbolNode of that name. A String, Number or Bool plans to a ConstNode holding exactly that value. Nil and Error plan to nil. The empty list panics. A list headed by anything else plans to nil |
| Planner.PlanCount | planner.go:231-239 | `(count e1 … en)` plans to AggregateNode "count" with n arguments in order; an argument that plans to nil is kept as nil |
| Planner.PlanCountArgumentsKeeps | planner.go:235-238 | The count argument loop keeps every argument's plan in order, nil ones included |
| Planner.PlannedAggregateIsCount | planner.go:231-239 | Only a `(count …)` form plans to an AggregateNode |
| Planner.PlanColumnsAppends | planner.go:252-262 | The columns loop appends the plan of every entry in order, each one a node. It changes nothing but `columns` and the aggregate flag. The flag is set afterwards exactly when it was set before or some entry is a count form |
| Planner.CountPlansAggregate | planner.go:231-239 | A `(count …)` form that does not panic plans to an AggregateNode, so a count column always raises the aggregate flag |
| Planner.PlanFilterArgumentsKeeps | planner.go:278-283 | A where entry's arguments are the plans of its non-nil arguments, in order; nil ones are dropped |
| Planner.PlanWhereAppends | planner.go:272-285 | The where loop appends one Filter per entry, in order, with the entry's head symbol as Operator, and changes nothing else |
| Planner.PlanKeysAppends | planner.go:292-298 | The group loop plans every key, in order, each one a node |
| Planner.PlanClauseUngrouped | planner.go:249-315 | One non-group clause without a count column keeps the select ungrouped and adds its columns, filters and source |
| Planner.PlanClausesUngrouped | planner.go:249-315 | Over clauses with no group clause and no count column, the loop collects every columns entry, every where entry and the last table clause's Source |
| Planner.SelectWithoutGroupingIsScan | planner.go:240-316 | A select with no aggregate column and no group clause returns the Scan itself. Its Columns are all columns entries in clause order, with one Filter per where entry, and its Source comes from the last table clause, where a bare symbol becomes a TableNode |
| Planner.PlanClauseFlags | planner.go:302-314 | After every clause: an aggregate implies a group, and a group once set stays and freezes `Scan.Columns`. Once grouped, only a group clause changes the result. While no group is set, `Scan.Columns` equals the collected columns. A clause other than columns leaves the columns and the aggregate flag alone |
| Planner.FirstAggregateStartsGroup | planner.go:302-311 | The clause that first brings an aggregate is a columns clause holding a count form. It appends one plan per entry, makes the result a key-less GroupNode over the columns collected through it, and leaves `Scan.Columns` as before |
| Planner.GroupFreezesScanColumns | planner.go:302-314 | Once the group flag is set, no later clause reassigns `Scan.Columns` or clears the flag, and without a later group clause the result stays as it is |
| Planner.PlanClausesScanInputs | planner.go:249-285 | Grouped or not, the clause loop collects one Filter per where entry, in order, and the Source of the last table clause |
| Planner.PlanClausesSplit | planner.go:249-316 | The clause loop over all clauses is the loop over the first k clauses followed by the loop over the rest, started from the state the first part left |
| Planner.FirstCountFreezesGroup | planner.go:249-314 | With no group clause, the loop ends with a key-less GroupNode over the columns entries through the clause holding the first count column, and with `Scan.Columns` holding only the entries before that clause |
| Planner.SelectWithFirstCountIsGroup | planner.go:240-316 | A select with no group clause whose first count column is in clause k plans to a key-less GroupNode. Its Columns are the plans of all columns entries through clause k. Its Source is the Scan, whose Columns are only the entries before clause k, and whose Filters and Source come from all clauses, later ones included |
| Planner.ExplicitGroupClause | planner.go:287-300 | A group clause makes the result a GroupNode over the columns collected before it, with its keys planned in order. It leaves both flags alone, so without an aggregate `Scan.Columns` is still reassigned |
| Planner.UnplannableColumnPanics | planner.go:252-257 | In a columns clause, the first entry that plans to nil, at any position, makes the clause panic with that entry |
| Planner.UnplannableGroupKeyPanics | planner.go:287-296 | In a group clause, the first key that plans to nil, at any position, makes the clause panic with that key |
| Planner.UnplannableTableClearsSource | planner.go:263-270 | A table argument that plans to nil sets the Scan's Source to nil instead of panicking |
| Evaluator.MergeInto | planner.go:140-142 | Merging a column row adds its entries, later keys overwriting. A fresh row grows. A seeded row is updated in the arena and keeps its identity, and no other row changes |
| Evaluator.Eval | planner.go:122-146 | Evaluation keeps the arena well formed. Existing scopes other than the caller's are untouched, and no row loses a key. A returned row exists. Only a Scan changes the heap, and a Scan never returns nil |
| Evaluator.EvalColumns | planner.go:134-143 | The column loop never changes an existing scope and never returns nil, and a seeded row it merges into is the row it returns |
| Evaluator.BindRow | planner.go:129-131 | The loop of `env.Set` calls binds every key of the source row into the caller's Environment |
| Evaluator.MergeRow | planner.go:140-142 | The loop of `r.Values[key] = val` assignments computes `MergeInto`, writing a seeded row in place |
| Evaluator.Evaluate | planner.go:33-200 | `Evaluate` on every node kind, run against the store, computes `Eval` |
| Evaluator.EvaluateScan | planner.go:122-146 | `ScanNode.Evaluate` with its two loops, run against the store, computes `Eval` |
| Evaluator.EvaluateColumns | planner.go:134-143 | The column loop, run against the store, computes `EvalColumns` from the first column: the heap it leaves and the row, nil or panic it returns |
| Evaluator.EvaluateColumn | planner.go:135-142 | One column in a fresh child Environment: a panic is what the rest of the loop gives; otherwise the loop from the next column, on the new store and merged row, gives what the loop from this column gave |
| Evaluator.SymbolEvaluation | planner.go:52-60 | A SymbolNode is nil exactly when no scope on the chain binds the name, and otherwise `{"_": nearest binding}`; the heap is untouched |
| Evaluator.TableEvaluation | planner.go:75-81 | A TableNode is nil exactly when `GetTable` finds no table. It panics on an empty table, and otherwise returns the table's first row itself, not a copy |
| Evaluator.ConstantLeaves | planner.go:33-37 | Const gives `{"_": v}` and Aggregate `{"_": 1}` (planner.go:97-101). Group and Join give nil (planner.go:179-181, 198-200). None touches the heap |
| Evaluator.ScanIgnoresFilters | planner.go:122-146 | Evaluating a Scan never reads its Filters: any two filter lists give the same row and heap |
| Evaluator.EvalColumnsIgnoresFilters | planner.go:134-143 | The column loop never reads the Filters |
| Evaluator.ScanBindsSourceRow | planner.go:126-132 | A present source row's entries are all bound in the caller's own Environment, and `Get` there returns them after the Scan |
| Evaluator.AbsentSourceCrashes | planner.go:126-131 | A Source that evaluates to nil makes the Scan panic (nil dereference) |
| Evaluator.GroupSourceCrashes | planner.go:198-200 | A Scan whose Source is a GroupNode always panics |
| Evaluator.LeafColumnEvaluation | planner.go:135-139 | A constant, symbol, aggregate, group or join column evaluated in a fresh child Environment leaves the heap as allocated and gives `{"_": its value}`, or nil: a symbol sees the caller's bindings through the child |
| Evaluator.LeafColumnStep | planner.go:134-143 | One such column: the loop goes on from the next column with the row overwritten under `"_"` by the column's value, in place when the row is seeded |
| Evaluator.LeafColumnsMerge | planner.go:134-143 | Over constant, symbol, aggregate, group and join columns, a nil column is skipped and a present one overwrites `"_"`. The row ends with the last present column's value under `"_"` and its other keys untouched. A seeded row is returned itself and changed in the arena, and no other row changes |
| Evaluator.ConstColumnsLast | planner.go:134-143 | With constant columns the last present value is the last constant |
| Evaluator.TableScanWritesSeededRow | planner.go:75-143 | A Scan over a table returns the table's first row itself and writes into it, under `"_"`, the last present value among its columns, the columns seeing the row's own keys bound in the caller's Environment |
| Evaluator.ConstantScan | planner.go:123-143 | A Scan with no Source starts from an empty row: with constant columns it gives `{"_": last constant}` |
| Compiler.CompileAtoms | compiler.go:93-108 | A Symbol compiles to a symbol node and a String, Number or Bool to a constant node holding its printed form. Nil, Error, the empty list and any list not headed by select compile to nil |
| Compiler.CompileElementsKeeps | compiler.go:115-120 | The element loop succeeds exactly when no element panics, and then appends, in order, the nodes of the elements that compile, dropping nil ones |
| Compiler.CompileWhereAppends | compiler.go:134-147 | Each where entry appends one filterNode with the entry's head as operator and its non-nil compiled arguments in order; nothing else changes |
| Compiler.CompileGroupsLastWins | compiler.go:149-160 | Each group entry, head included, replaces the group in turn, so the last entry wins; nothing else changes |
| Compiler.CompileClauseCollects | compiler.go:113-161 | One clause adds its columns, filters, table or group as `CollectedFrom` describes. A table atom that is neither a symbol nor a list is ignored |
| Compiler.CompileClausesCollects | compiler.go:111-162 | The clause loop collects all columns, all filters, the last table set and the last group entry |
| Compiler.SelectCompiles | compiler.go:109-163 | A select compiles, when it does not panic, to a node whose columns are every non-nil columns entry in clause order. It has one filterNode per where entry, the table of the last clause that sets one, and the group of the last group entry |
| Compiler.RenderIsPrefixed | compiler.go:26-53 | `string(prefix)` renders whole lines, each starting with the prefix, and nested sections sit one tab deeper. For a node that is neither a symbol nor a constant, the header lines at the prefix are Table, one Column per column, one Filter per filter and Group, in that order |
| Compiler.TableIsPrefixed | compiler.go:36-39 | With a table, the output starts with the line `prefix + "Table"`, and that is the only header at the prefix; the table is rendered one tab deeper. Without one, nothing is rendered |
| Compiler.ColumnsArePrefixed | compiler.go:40-43 | The Column sections render as prefixed lines: one `Column` header per column from the i-th on, with the first header at the start |
| Compiler.FiltersArePrefixed | compiler.go:44-47 | The Filter sections render as prefixed lines: one `Filter` header per filter from the i-th on, with the first header at the start |
| Compiler.GroupSectionIsPrefixed | compiler.go:48-51 | With a group, the output starts with the line `prefix + "Group"`, and that is the only header at the prefix. Without one, nothing is rendered |
| Compiler.FilterIsPrefixed | compiler.go:55-63 | `filterNode.string` starts with the line `Operator` followed by the operator, and its headers at the prefix are that line and then one `Arg` per argument, all lines prefixed |
| Compiler.ArgsArePrefixed | compiler.go:58-61 | The Arg sections render as prefixed lines: one `Arg` header per argument from the k-th on, with the first header at the start |
| Compiler.GroupIsPrefixed | compiler.go:73-80 | `groupNode.string` renders prefixed lines: one `Group arg` header per argument from the k-th on, with the first header at the start |
| Scenarios.SelectOneTokens | querycompiler_test.go:39 | `(select (columns 1))` prints to the seven tokens of the test's query, and each of its atoms reads back |
| Scenarios.ReadSelectOne | querycompiler_test.go:39 | The tokens of `(select (columns 1))` read as that list, consuming all of them; derived from the round-trip lemma `ReadTokens` |
| Scenarios.PlanSelectOne | querycompiler_test.go:39 | `(select (columns 1))` plans to a source-less Scan with one constant column |
| Scenarios.PlanSelectOneFromUsers | querycompiler_test.go:40 | `(select (columns 1) (table users))` plans to a Scan of TableNode users |
| Scenarios.PlanSelectWhere | querycompiler_test.go:45 | The where query plans to a Scan of users with one Filter `=` over `name` and the constant `"bob"` |
| Scenarios.PlanCountThenTable | planner.go:302-311 | A count column followed by a table clause gives a key-less GroupNode whose Scan has the later table as Source and no Columns |
| Scenarios.NilColumnPlanPanicsCompileDrops | compiler.go:115-120 | `(select (columns nil))`: `plan` panics, while `compile` drops the column |
| Scenarios.PlanSelectIdFromUsers | querycompiler_test.go:41 | `(select (columns id) (table users))` plans to a Scan of users with the one symbol column `id` |
| Scenarios.EvalSelectIdFromUsers | querycompiler_test.go:41 | Against the test's users table, that query returns the seeded row itself, which gains `"_"` = the row's own id |
| Scenarios.EvalSelectIdNameFromUsers | querycompiler_test.go:42 | With columns `id name`, the later column wins: the seeded row gains `"_"` = `"bob"` |
| Scenarios.EvalSelectOneFromUsers | querycompiler_test.go:28-35 | Against the test's users table, the query returns the seeded row itself, which gains `"_"`, and binds `name` in the root Environment |
| Scenarios.RunSelectOneFromUsers | querycompiler_test.go:28-35 | The test harness on the store: seed, plan, evaluate; the result is the seeded row `{id, name, _}` |

## Left out

- `tokenize` (tokenize.go:82-96) is a wrapper over Go's `regexp` package. The reader takes the token list as its input, and `NonEmptyTokens` records the one fact about tokens it relies on.
- Float handling: `strconv.ParseFloat` and `strconv.FormatFloat` (tokenize.go:39, 110-113) are the parameters `parse` and `format`, and their behaviour is not modelled.
- The planner's `string` printers (planner.go:39-45, 62-68, 83-89, 103-113, 148-167, 183-189, 202-216) print debugging text and are not modelled.
- `readRow`, `filterNode.eval` and `groupNode.eval` (compiler.go:65-71, 82-87, 169-204) only print to standard output and are not modelled.
- Go map iteration order: the two loops of `ScanNode.Evaluate` take keys in an arbitrary order. The model picks any order, which gives the same result because keys are distinct.
- Nil slices and nil maps:
  - a table seeded with a nil slice is not representable. In Go, `GetTable` stops the lookup at the scope that binds it, and the TableNode evaluates to nil;
  - a table seeded with an empty non-nil slice panics (`EmptyTable`);
  - a seeded row with a nil `Values` map, which would panic on the first write, is not represented: every row is a map.
- Panics are failure values. The model does not capture that a panic unwinds past callers.
- Three behaviours of the code that the model keeps, although a reader might not expect them:
  - a Scan whose Source evaluates to nil panics;
  - a GroupNode or JoinNode as a Source therefore panics too;
  - a table argument that plans to nil clears the Source rather than panicking.
- Reader.Read: requires that no token is empty, which the regular-expression tokenizer guarantees. A hand-built empty token would make Go's `atom` index out of range.
- Compiler.RenderIsPrefixed: states the line structure and the header lines of the output, assuming no symbol, constant or operator contains a newline (`SingleLine`). Lines nested one tab deeper are described by the same lemma at the deeper prefix. The full text of each line is given only by `Render` itself.
- Evaluator.LeafColumnsMerge: covers every column kind except a Scan or a TableNode as a column. Those evaluate through the heap (a nested scan, or a seeded row), and the general lemmas `EvalColumns` and `EvaluateColumn` are all the model states for them.
- Expressions.AtomReadsBackString: a string ending in a double quote does not read back (`AtomLosesTrailingQuote`). This is the code's behaviour, and the model keeps it.
