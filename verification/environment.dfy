/**
 * The environment scope chain (environment.go). Every Environment the
 * program allocates lives in one arena, `Store.scopes`, addressed by index;
 * a scope's `outer` is the index of its parent, always a smaller index, so
 * the chain is finite and acyclic. A table is a list of rows, and a row's
 * value map is shared by reference in Go (the planner returns `&table[0]`),
 * so the seeded rows live in a second arena, `Store.rows`, and a table holds
 * row indices.
 */
module Environments {

  import opened Wrappers
  import opened Expressions

  type Env = nat
  type RowId = nat

  /** A Row's Values map. */
  type RowValues = map<string, Expression>

  /** One Environment struct: its parent, its symbol bindings, its tables. */
  datatype Scope = Scope(outer: Option<Env>, values: map<string, Expression>, tables: map<string, seq<RowId>>)

  /** Every Environment and every seeded row of one evaluation. */
  datatype Heap = Heap(scopes: seq<Scope>, rows: seq<RowValues>)

  /** Parents come before their children. */
  ghost predicate ChainsDescend(scopes: seq<Scope>) {
    forall i | 0 <= i < |scopes| :: scopes[i].outer.Some? ==> scopes[i].outer.value < i
  }

  /** Every row a table names exists. */
  ghost predicate RowsExist(scopes: seq<Scope>, rowCount: nat) {
    forall i, name, j | 0 <= i < |scopes| && name in scopes[i].tables && 0 <= j < |scopes[i].tables[name]| ::
      scopes[i].tables[name][j] < rowCount
  }

  ghost predicate WellFormed(h: Heap) {
    ChainsDescend(h.scopes) && RowsExist(h.scopes, |h.rows|)
  }

  /** Get: the local binding, else the outer scope's answer, else (nil, false). */
  function Get(scopes: seq<Scope>, env: Env, key: string): (Expression, bool)
    requires ChainsDescend(scopes) && env < |scopes|
    decreases env
  {
    if key in scopes[env].values then (scopes[env].values[key], true)
    else match scopes[env].outer
      case None => (Nil, false)
      case Some(o) => Get(scopes, o, key)
  }

  /** GetTable: the local table, else the outer scope's answer, else nil. */
  function GetTable(scopes: seq<Scope>, env: Env, key: string): Option<seq<RowId>>
    requires ChainsDescend(scopes) && env < |scopes|
    decreases env
  {
    if key in scopes[env].tables then Some(scopes[env].tables[key])
    else match scopes[env].outer
      case None => None
      case Some(o) => GetTable(scopes, o, key)
  }

  /** The nearest scope on the chain from `env` that binds `key` locally. */
  function Owner(scopes: seq<Scope>, env: Env, key: string): (r: Option<Env>)
    requires ChainsDescend(scopes) && env < |scopes|
    ensures r.Some? ==> r.value <= env && key in scopes[r.value].values && OnChain(scopes, env, r.value)
    ensures r.Some? ==> forall a: Env | OnChain(scopes, env, a) && a < |scopes| && key in scopes[a].values ::
      OnChain(scopes, r.value, a)
    ensures r.None? ==> forall a: Env | OnChain(scopes, env, a) && a < |scopes| :: key !in scopes[a].values
    decreases env
  {
    if key in scopes[env].values then Some(env)
    else match scopes[env].outer
      case None => None
      case Some(o) => Owner(scopes, o, key)
  }

  /** `anc` is `env` itself or one of its ancestors. */
  ghost predicate OnChain(scopes: seq<Scope>, env: Env, anc: Env)
    requires ChainsDescend(scopes) && env < |scopes|
    decreases env
  {
    env == anc || match scopes[env].outer
      case None => false
      case Some(o) => OnChain(scopes, o, anc)
  }

  /** The scopes after `key` is bound to `value` in scope `env` alone. */
  function Bind(scopes: seq<Scope>, env: Env, key: string, value: Expression): (r: seq<Scope>)
    requires env < |scopes|
    ensures |r| == |scopes|
  {
    scopes[env := scopes[env].(values := scopes[env].values[key := value])]
  }

  /** The scopes after every entry of `row` is bound in scope `env` alone. */
  function BindAll(scopes: seq<Scope>, env: Env, row: RowValues): (r: seq<Scope>)
    requires env < |scopes|
    ensures |r| == |scopes|
  {
    scopes[env := scopes[env].(values := scopes[env].values + row)]
  }

  /** The scopes after SetOuter: the owner of `key`, if any, rebinds it. */
  function Rebind(scopes: seq<Scope>, env: Env, key: string, value: Expression): (r: seq<Scope>)
    requires ChainsDescend(scopes) && env < |scopes|
    ensures |r| == |scopes|
  {
    match Owner(scopes, env, key)
    case None => scopes
    case Some(o) => Bind(scopes, o, key, value)
  }

  /** A fresh empty child of `outer` (or a root when `outer` is None). */
  function NewScope(outer: Option<Env>): Scope {
    Scope(outer, map[], map[])
  }

  /** The arena of Environments and seeded rows that one evaluation uses. */
  class Store {
    var scopes: seq<Scope>
    var rows: seq<RowValues>

    function State(): Heap
      reads this
    {
      Heap(scopes, rows)
    }

    ghost predicate Valid()
      reads this
    {
      WellFormed(State())
    }

    /** An empty arena: no Environment yet, and the given seeded rows. */
    constructor (rows: seq<RowValues>)
      ensures Valid() && scopes == [] && this.rows == rows
    {
      scopes := [];
      this.rows := rows;
    }

    /** NewEnvironment: a fresh scope with empty values and tables. */
    method NewEnvironment(outer: Option<Env>) returns (env: Env)
      requires Valid() && (outer.Some? ==> outer.value < |scopes|)
      modifies this
      ensures Valid() && env == |old(scopes)|
      ensures scopes == old(scopes) + [NewScope(outer)] && rows == old(rows)
    {
      env := |scopes|;
      scopes := scopes + [NewScope(outer)];
    }

    /** Set: binds `key` in scope `env` itself, shadowing any outer binding. */
    method Set(env: Env, key: string, value: Expression)
      requires Valid() && env < |scopes|
      modifies this
      ensures Valid() && scopes == Bind(old(scopes), env, key, value) && rows == old(rows)
    {
      scopes := scopes[env := scopes[env].(values := scopes[env].values[key := value])];
    }

    /** SetOuter: overwrites `key` in the nearest scope that binds it; when no
        scope on the chain binds it, nothing changes. */
    method SetOuter(env: Env, key: string, value: Expression)
      requires Valid() && env < |scopes|
      modifies this
      ensures Valid() && scopes == Rebind(old(scopes), env, key, value) && rows == old(rows)
      decreases env
    {
      if key in scopes[env].values {
        scopes := scopes[env := scopes[env].(values := scopes[env].values[key := value])];
        return;
      }
      if scopes[env].outer.Some? {
        SetOuter(scopes[env].outer.value, key, value);
      }
    }

    /** One assignment into a seeded row's Values map; a Scan whose source
        row is a table row writes its column results through this. */
    method WriteRow(id: RowId, key: string, value: Expression)
      requires Valid() && id < |rows|
      modifies this
      ensures Valid() && scopes == old(scopes) && rows == old(rows)[id := old(rows)[id][key := value]]
    {
      rows := rows[id := rows[id][key := value]];
    }

    /** Seeds a table in scope `env`, as the caller does before evaluating. */
    method SeedTable(env: Env, name: string, table: seq<RowId>)
      requires Valid() && env < |scopes| && forall j | 0 <= j < |table| :: table[j] < |rows|
      modifies this
      ensures Valid() && rows == old(rows)
      ensures scopes == old(scopes)[env := old(scopes)[env].(tables := old(scopes)[env].tables[name := table])]
    {
      scopes := scopes[env := scopes[env].(tables := scopes[env].tables[name := table])];
    }
  }

  /** Ancestors have smaller indices than their descendants. */
  lemma {:induction false} OnChainBelow(scopes: seq<Scope>, env: Env, anc: Env)
    requires ChainsDescend(scopes) && env < |scopes| && OnChain(scopes, env, anc)
    ensures anc <= env
    decreases env
  {
    if env != anc {
      OnChainBelow(scopes, scopes[env].outer.value, anc);
    }
  }

  /** Get finds exactly the binding of the nearest scope that has the key,
      and answers (nil, false) when no scope on the chain has it. */
  lemma {:induction false} GetIsOwnerBinding(scopes: seq<Scope>, env: Env, key: string)
    requires ChainsDescend(scopes) && env < |scopes|
    ensures Get(scopes, env, key) == match Owner(scopes, env, key)
      case None => (Nil, false)
      case Some(o) => (scopes[o].values[key], true)
    decreases env
  {
    if key !in scopes[env].values && scopes[env].outer.Some? {
      GetIsOwnerBinding(scopes, scopes[env].outer.value, key);
    }
  }

  /** After Set(key, value), Get(key) on the same scope answers (value, true). */
  lemma SetThenGet(scopes: seq<Scope>, env: Env, key: string, value: Expression)
    requires ChainsDescend(scopes) && env < |scopes|
    ensures ChainsDescend(Bind(scopes, env, key, value))
    ensures Get(Bind(scopes, env, key, value), env, key) == (value, true)
  {
  }

  /** Set writes one scope only: a lookup from any scope whose chain does not
      pass through that scope, in particular from any of its ancestors, gives
      the same answer as before, and no table lookup changes. */
  lemma {:induction false} SetLeavesOtherChains(scopes: seq<Scope>, env: Env, key: string, value: Expression, from: Env, k: string)
    requires ChainsDescend(scopes) && env < |scopes| && from < |scopes|
    requires !OnChain(scopes, from, env)
    ensures ChainsDescend(Bind(scopes, env, key, value))
    ensures Get(Bind(scopes, env, key, value), from, k) == Get(scopes, from, k)
    decreases from
  {
    var s' := Bind(scopes, env, key, value);
    assert s'[from] == scopes[from];
    if k !in scopes[from].values && scopes[from].outer.Some? {
      SetLeavesOtherChains(scopes, env, key, value, scopes[from].outer.value, k);
    }
  }

  /** Corollary for the ancestors of the written scope. */
  lemma SetLeavesAncestors(scopes: seq<Scope>, env: Env, key: string, value: Expression, anc: Env, k: string)
    requires ChainsDescend(scopes) && env < |scopes| && anc < |scopes| && OnChain(scopes, env, anc) && anc != env
    ensures ChainsDescend(Bind(scopes, env, key, value))
    ensures Get(Bind(scopes, env, key, value), anc, k) == Get(scopes, anc, k)
  {
    OnChainBelow(scopes, env, anc);
    if OnChain(scopes, anc, env) {
      OnChainBelow(scopes, anc, env);
    }
    SetLeavesOtherChains(scopes, env, key, value, anc, k);
  }

  /** Set(key, ...) changes no lookup of any other key, from any scope. */
  lemma {:induction false} SetLeavesOtherKeys(scopes: seq<Scope>, env: Env, key: string, value: Expression, from: Env, k: string)
    requires ChainsDescend(scopes) && env < |scopes| && from < |scopes| && k != key
    ensures ChainsDescend(Bind(scopes, env, key, value))
    ensures Get(Bind(scopes, env, key, value), from, k) == Get(scopes, from, k)
    decreases from
  {
    if k !in scopes[from].values && scopes[from].outer.Some? {
      SetLeavesOtherKeys(scopes, env, key, value, scopes[from].outer.value, k);
    }
  }

  /** Binding values never changes a table lookup: no operation of the
      environment writes `tables`. */
  lemma {:induction false} BindAllKeepsTables(scopes: seq<Scope>, env: Env, row: RowValues, from: Env, k: string)
    requires ChainsDescend(scopes) && env < |scopes| && from < |scopes|
    ensures ChainsDescend(BindAll(scopes, env, row))
    ensures GetTable(BindAll(scopes, env, row), from, k) == GetTable(scopes, from, k)
    decreases from
  {
    if k !in scopes[from].tables && scopes[from].outer.Some? {
      BindAllKeepsTables(scopes, env, row, scopes[from].outer.value, k);
    }
  }

  /** Binding one key is binding a one-entry row. */
  lemma BindIsBindAll(scopes: seq<Scope>, env: Env, key: string, value: Expression)
    requires env < |scopes|
    ensures Bind(scopes, env, key, value) == BindAll(scopes, env, map[key := value])
  {
    assert scopes[env].values[key := value] == scopes[env].values + map[key := value];
  }

  /** Bind on scope `o`, looked up through a chain that reaches `o` without
      meeting another binding of the key, finds the new value. */
  lemma {:induction false} GetAfterOwnerBind(scopes: seq<Scope>, env: Env, key: string, value: Expression)
    requires ChainsDescend(scopes) && env < |scopes| && Owner(scopes, env, key).Some?
    ensures ChainsDescend(Bind(scopes, Owner(scopes, env, key).value, key, value))
    ensures Get(Bind(scopes, Owner(scopes, env, key).value, key, value), env, key) == (value, true)
    decreases env
  {
    var o := Owner(scopes, env, key).value;
    if o != env {
      var p := scopes[env].outer.value;
      assert Owner(scopes, p, key) == Some(o);
      GetAfterOwnerBind(scopes, p, key, value);
    }
  }

  /** SetOuter on a key bound somewhere on the chain: afterwards Get answers
      the new value from the receiver, only the owner's map changed, and every
      other scope is exactly as before. */
  lemma SetOuterUpdatesOwner(scopes: seq<Scope>, env: Env, key: string, value: Expression)
    requires ChainsDescend(scopes) && env < |scopes| && Owner(scopes, env, key).Some?
    ensures ChainsDescend(Rebind(scopes, env, key, value))
    ensures Get(Rebind(scopes, env, key, value), env, key) == (value, true)
    ensures forall i | 0 <= i < |scopes| && i != Owner(scopes, env, key).value ::
      Rebind(scopes, env, key, value)[i] == scopes[i]
  {
    GetAfterOwnerBind(scopes, env, key, value);
  }

  /** SetOuter on a key that no scope on the chain binds changes nothing. */
  lemma SetOuterUnboundIsNoOp(scopes: seq<Scope>, env: Env, key: string, value: Expression)
    requires ChainsDescend(scopes) && env < |scopes| && !Get(scopes, env, key).1
    ensures Rebind(scopes, env, key, value) == scopes
  {
    GetIsOwnerBinding(scopes, env, key);
  }

  /** Allocating more scopes changes no lookup from an existing scope. */
  lemma {:induction false} GetExtend(scopes: seq<Scope>, more: seq<Scope>, env: Env, key: string)
    requires ChainsDescend(scopes + more) && env < |scopes|
    ensures ChainsDescend(scopes)
    ensures Get(scopes + more, env, key) == Get(scopes, env, key)
    ensures GetTable(scopes + more, env, key) == GetTable(scopes, env, key)
    decreases env
  {
    assert forall i | 0 <= i < |scopes| :: (scopes + more)[i] == scopes[i];
    if scopes[env].outer.Some? {
      GetExtend(scopes, more, scopes[env].outer.value, key);
    }
  }

  /** Every row a table lookup answers exists in the arena. */
  lemma {:induction false} GetTableRowsExist(scopes: seq<Scope>, env: Env, key: string, rowCount: nat)
    requires ChainsDescend(scopes) && RowsExist(scopes, rowCount) && env < |scopes|
    requires GetTable(scopes, env, key).Some?
    ensures forall j | 0 <= j < |GetTable(scopes, env, key).value| :: GetTable(scopes, env, key).value[j] < rowCount
    decreases env
  {
    if key !in scopes[env].tables {
      GetTableRowsExist(scopes, scopes[env].outer.value, key, rowCount);
    }
  }

  /** A fresh child answers every Get and GetTable exactly as its parent. */
  lemma NewChildSeesParent(scopes: seq<Scope>, parent: Env, key: string)
    requires ChainsDescend(scopes) && parent < |scopes|
    ensures ChainsDescend(scopes + [NewScope(Some(parent))])
    ensures Get(scopes + [NewScope(Some(parent))], |scopes|, key) == Get(scopes, parent, key)
    ensures GetTable(scopes + [NewScope(Some(parent))], |scopes|, key) == GetTable(scopes, parent, key)
  {
    GetExtend(scopes, [NewScope(Some(parent))], parent, key);
  }
}
